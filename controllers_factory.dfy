/**
 * CustomProblemDetailsFactory of the controllers sample: a base problem from the options'
 * exception mappers or their status-only problem, rebuilt from the call's arguments with the
 * exception details included or left out as the options decide.
 */
module ControllersFactory {
  import opened Wrappers
  import opened ExceptionModel
  import opened ProblemModel
  import opened FactoryDefaults
  import opened ControllerOptions

  /** The problem the factory starts from: with a captured exception, what the mappers give,
      or MapStatusCode's problem when they give null; without one, MapStatusCode's problem. */
  function BaseProblem(mappers: seq<Mapper>, mapStatusCode: (HttpContext, int) -> Problem,
                       context: HttpContext, responseStatus: int): (p: Problem)
    ensures context.exceptionFeature.Some? && Resolve(mappers, context, context.exceptionFeature).Some? ==>
              p == Resolve(mappers, context, context.exceptionFeature).value
    ensures context.exceptionFeature.None? || Resolve(mappers, context, context.exceptionFeature).None? ==>
              p == mapStatusCode(context, responseStatus)
  {
    if context.exceptionFeature.Some? then
      Resolve(mappers, context, context.exceptionFeature).GetOr(mapStatusCode(context, responseStatus))
    else mapStatusCode(context, responseStatus)
  }

  /** The problem rebuilt from `base` before the defaults. */
  function Rebuilt(base: Problem, context: HttpContext, responseStatus: int, includeDetails: bool,
                   statusCode: Option<int>, title: Option<string>, typeUri: Option<string>,
                   detail: Option<string>, instance: Option<string>): (p: Problem)
    ensures p.status == Some(ChosenStatus(statusCode, base.status, responseStatus))
    ensures title.Some? ==> p.title == title
    ensures title.None? && context.exceptionFeature.Some? ==> p.title == Some(Humanize(context.exceptionFeature.value.typeName))
    ensures title.None? && context.exceptionFeature.None? ==> p.title == base.title
    ensures p.typeUri == typeUri.OrElse(base.typeUri)
    ensures includeDetails ==> p.detail == detail.OrElse(if context.exceptionFeature.Some? then Some(context.exceptionFeature.value.message) else None)
    ensures includeDetails ==> p.instance == Some(instance.GetOr(InstanceOf(context.request)))
    ensures includeDetails ==> p.extensions == map["exception" := ExceptionInfo(context.exceptionFeature, context.request.path)]
    ensures !includeDetails ==> p.detail.None? && p.instance.None? && p.extensions == map[]
    ensures !p.validation
  {
    var exception := context.exceptionFeature;
    var t := title.OrElse(if exception.Some? then Some(Humanize(exception.value.typeName)) else base.title);
    var status := Some(ChosenStatus(statusCode, base.status, responseStatus));
    if includeDetails then
      Problem(status, t, typeUri.OrElse(base.typeUri),
              detail.OrElse(if exception.Some? then Some(exception.value.message) else None),
              Some(instance.GetOr(InstanceOf(context.request))),
              map["exception" := ExceptionInfo(exception, context.request.path)], false, map[])
    else
      Problem(status, t, typeUri.OrElse(base.typeUri), None, None, map[], false, map[])
  }

  class CustomProblemDetailsFactory {
    const options: ProblemDetailsOptions
    /** ApiBehaviorOptions.ClientErrorMapping. */
    const clientErrorMapping: ClientErrorMapping

    constructor (options: ProblemDetailsOptions, clientErrorMapping: ClientErrorMapping)
      ensures this.options == options && this.clientErrorMapping == clientErrorMapping
    {
      this.options := options;
      this.clientErrorMapping := clientErrorMapping;
    }

    /** `CreateProblemDetails`: the response's status code always becomes the problem's. */
    method CreateProblemDetails(context: HttpContext, response: HttpResponse, activity: Option<Activity>,
                                statusCode: Option<int>, title: Option<string>, typeUri: Option<string>,
                                detail: Option<string>, instance: Option<string>)
      returns (problem: ProblemDetails)
      modifies response
      ensures fresh(problem)
      ensures var base := BaseProblem(options.mappers, options.mapStatusCode, context, old(response.statusCode));
              var built := Rebuilt(base, context, old(response.statusCode),
                                   options.includeExceptionDetails(context, context.exceptionFeature),
                                   statusCode, title, typeUri, detail, instance);
              && problem.Snapshot() == DefaultsApplied(built, clientErrorMapping, built.status.value, context, activity)
              && response.statusCode == built.status.value
    {
      var base := BaseProblemOf(context, response.statusCode);
      var withDetails := options.includeExceptionDetails(context, context.exceptionFeature);
      var built := Rebuilt(base, context, response.statusCode, withDetails, statusCode, title, typeUri, detail, instance);
      problem := new ProblemDetails(built);
      response.statusCode := built.status.value;
      ApplyProblemDetailsDefaults(context, problem, built.status.value, clientErrorMapping, activity);
    }

    /** The base problem, read from the options; nothing changes. */
    method BaseProblemOf(context: HttpContext, responseStatus: int) returns (base: Problem)
      ensures base == BaseProblem(options.mappers, options.mapStatusCode, context, responseStatus)
    {
      if context.exceptionFeature.Some? {
        var mapped := options.GetProblemDetails(context, context.exceptionFeature);
        base := if mapped.Some? then mapped.value else options.mapStatusCode(context, responseStatus);
      } else {
        base := options.mapStatusCode(context, responseStatus);
      }
    }
  }

  /** With the default options (no mapper registered, status-only fallback), a problem without
      a status code argument takes the response's current status code. */
  lemma DefaultOptionsKeepResponseStatus(context: HttpContext, responseStatus: int, includeDetails: bool,
                                         title: Option<string>, typeUri: Option<string>,
                                         detail: Option<string>, instance: Option<string>)
    ensures var base := BaseProblem([], DefaultMapStatusCode, context, responseStatus);
            Rebuilt(base, context, responseStatus, includeDetails, None, title, typeUri, detail, instance).status
            == Some(responseStatus)
  {
    var base := BaseProblem([], DefaultMapStatusCode, context, responseStatus);
    if context.exceptionFeature.Some? {
      ResolveNoMatch([], context, context.exceptionFeature.value);
    }
    assert base.status == Some(responseStatus);
  }

  /** A status set by a mapper wins over the response's when it is positive and no status code
      is asked for. */
  lemma MappedStatusWins(mappers: seq<Mapper>, mapStatusCode: (HttpContext, int) -> Problem, context: HttpContext,
                         responseStatus: int, includeDetails: bool, title: Option<string>, typeUri: Option<string>,
                         detail: Option<string>, instance: Option<string>)
    requires context.exceptionFeature.Some?
    requires Resolve(mappers, context, context.exceptionFeature).Some?
    requires Resolve(mappers, context, context.exceptionFeature).value.status.Some?
    requires Resolve(mappers, context, context.exceptionFeature).value.status.value > 0
    ensures Rebuilt(BaseProblem(mappers, mapStatusCode, context, responseStatus), context, responseStatus,
                    includeDetails, None, title, typeUri, detail, instance).status
            == Resolve(mappers, context, context.exceptionFeature).value.status
  {
  }
}
