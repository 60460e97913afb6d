/**
 * CustomProblemDetailsFactory of the minimal-API sample: problem details built from the call's
 * arguments, or, when an exception was captured, from the exception through the sample's
 * IProblemDetailMapper, with more detail outside production.
 */
module MinimalApiFactory {
  import opened Wrappers
  import opened ExceptionModel
  import opened ProblemModel
  import opened FactoryDefaults
  import TitledStatusMapper

  class CustomProblemDetailsFactory {
    /** The injected IProblemDetailMapper: a status (0 for none) and a nullable title, or a throw. */
    const mapper: Exception -> Outcome<TitledStatusMapper.Mapped>
    /** The hosting environment's name. */
    const environment: string
    /** ApiBehaviorOptions.ClientErrorMapping. */
    const clientErrorMapping: ClientErrorMapping

    constructor (mapper: Exception -> Outcome<TitledStatusMapper.Mapped>, environment: string, clientErrorMapping: ClientErrorMapping)
      ensures this.mapper == mapper && this.environment == environment && this.clientErrorMapping == clientErrorMapping
    {
      this.mapper := mapper;
      this.environment := environment;
      this.clientErrorMapping := clientErrorMapping;
    }

    /** `InitializeProblemDetails`: the problem for a captured exception, `responseStatus` being
        the response's status code at the time. A throw from the mapper propagates. */
    function InitializeProblemDetails(context: HttpContext, responseStatus: int, statusCode: Option<int>,
                                      title: Option<string>, typeUri: Option<string>, detail: Option<string>,
                                      instance: Option<string>, exception: Exception): (r: Outcome<Problem>)
      ensures r.Throws? <==> mapper(exception).Throws?
      ensures r.Returns? ==>
                r.value.status == Some(ChosenStatus(statusCode, Some(mapper(exception).value.statusCode), responseStatus))
      ensures r.Returns? && IsProduction(environment) ==> r.value == StatusProblem(r.value.status)
      ensures r.Returns? && !IsProduction(environment) ==>
                && r.value.title == Some(title.GetOr(mapper(exception).value.title.GetOr(Humanize(exception.typeName))))
                && r.value.detail == Some(detail.GetOr(exception.message))
                && r.value.instance == Some(instance.GetOr(InstanceOf(context.request)))
                && r.value.typeUri == typeUri
                && r.value.extensions == map["exception" := ExceptionInfo(Some(exception), context.request.path)]
                && !r.value.validation
    {
      match mapper(exception)
      case Throws => Throws
      case Returns(mapped) =>
        var status := ChosenStatus(statusCode, Some(mapped.statusCode), responseStatus);
        if IsProduction(environment) then Returns(StatusProblem(Some(status)))
        else
          Returns(Problem(Some(status),
                          title.OrElse(mapped.title).OrElse(Some(Humanize(exception.typeName))),
                          typeUri,
                          detail.OrElse(Some(exception.message)),
                          instance.OrElse(Some(InstanceOf(context.request))),
                          map["exception" := ExceptionInfo(Some(exception), context.request.path)],
                          false, map[]))
    }

    /** The problem without a captured exception: the arguments as given, status 500 unless one
        is given. */
    static function PlainProblem(statusCode: Option<int>, title: Option<string>, typeUri: Option<string>,
                                 detail: Option<string>, instance: Option<string>): (p: Problem)
      ensures p.status == Some(statusCode.GetOr(500))
      ensures p.title == title && p.typeUri == typeUri && p.detail == detail && p.instance == instance
      ensures p.extensions == map[] && !p.validation
    {
      Problem(Some(statusCode.GetOr(500)), title, typeUri, detail, instance, map[], false, map[])
    }

    /** `CreateProblemDetails`. Without a captured exception the response is left alone; with one,
        its status code becomes the problem's. */
    method CreateProblemDetails(context: HttpContext, response: HttpResponse, activity: Option<Activity>,
                                statusCode: Option<int>, title: Option<string>, typeUri: Option<string>,
                                detail: Option<string>, instance: Option<string>)
      returns (r: Outcome<ProblemDetails>)
      modifies response
      ensures r.Returns? ==> fresh(r.value)
      ensures context.exceptionFeature.None? ==>
                && r.Returns?
                && r.value.Snapshot() == DefaultsApplied(PlainProblem(statusCode, title, typeUri, detail, instance),
                                                         clientErrorMapping, statusCode.GetOr(500), context, activity)
                && response.statusCode == old(response.statusCode)
      ensures context.exceptionFeature.Some? ==>
                var init := InitializeProblemDetails(context, old(response.statusCode), statusCode, title, typeUri,
                                                     detail, instance, context.exceptionFeature.value);
                && (r.Throws? <==> init.Throws?)
                && (r.Returns? ==>
                      && r.value.Snapshot() == DefaultsApplied(init.value, clientErrorMapping, init.value.status.value, context, activity)
                      && response.statusCode == init.value.status.value)
      ensures r.Throws? ==> response.statusCode == old(response.statusCode)
    {
      if context.exceptionFeature.None? {
        var problem := new ProblemDetails(PlainProblem(statusCode, title, typeUri, detail, instance));
        ApplyProblemDetailsDefaults(context, problem, problem.status.value, clientErrorMapping, activity);
        return Returns(problem);
      }
      var exception := context.exceptionFeature.value;
      var init := InitializeProblemDetails(context, response.statusCode, statusCode, title, typeUri, detail, instance, exception);
      if init.Throws? {
        return Throws;
      }
      var problemDetails := new ProblemDetails(init.value);
      response.statusCode := problemDetails.status.value;
      ApplyProblemDetailsDefaults(context, problemDetails, problemDetails.status.value, clientErrorMapping, activity);
      return Returns(problemDetails);
    }
  }

  /** With a captured exception, the status is the one asked for, else the mapped one when
      positive, else the response's; the response then carries that status, and the client
      error defaults never replace a title the initialization set. */
  lemma ExceptionStatusPrecedence(f: CustomProblemDetailsFactory, context: HttpContext, responseStatus: int,
                                  statusCode: Option<int>, title: Option<string>, typeUri: Option<string>,
                                  detail: Option<string>, instance: Option<string>, exception: Exception,
                                  activity: Option<Activity>)
    requires f.mapper(exception).Returns?
    ensures var init := f.InitializeProblemDetails(context, responseStatus, statusCode, title, typeUri, detail, instance, exception);
            var mapped := f.mapper(exception).value;
            var done := DefaultsApplied(init.value, f.clientErrorMapping, init.value.status.value, context, activity);
            && (statusCode.Some? ==> done.status == statusCode)
            && (statusCode.None? && mapped.statusCode > 0 ==> done.status == Some(mapped.statusCode))
            && (statusCode.None? && mapped.statusCode <= 0 ==> done.status == Some(responseStatus))
            && (!IsProduction(f.environment) ==> done.title == init.value.title)
  {
  }

  /** Outside production, a title argument wins over the mapper's, and the mapper's over the
      humanized type name. */
  lemma TitlePrecedence(f: CustomProblemDetailsFactory, context: HttpContext, responseStatus: int,
                        statusCode: Option<int>, title: Option<string>, typeUri: Option<string>,
                        detail: Option<string>, instance: Option<string>, exception: Exception)
    requires f.mapper(exception).Returns? && !IsProduction(f.environment)
    ensures var t := f.InitializeProblemDetails(context, responseStatus, statusCode, title, typeUri, detail, instance, exception).value.title;
            var mapped := f.mapper(exception).value.title;
            && (title.Some? ==> t == title)
            && (title.None? && mapped.Some? ==> t == mapped)
            && (title.None? && mapped.None? ==> t == Some(Humanize(exception.typeName)))
  {
  }
}
