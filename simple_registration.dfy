/**
 * The CustomizeProblemDetails callback that AddCustomProblemDetails of the simple .NET 8 sample
 * installs when no custom problem-details service is used: it takes the captured exception,
 * sets the response's status from the registered IProblemDetailMapper services and replaces
 * the context's problem with one built for that status.
 */
module SimpleNet8Registration {
  import opened Wrappers
  import opened ExceptionModel
  import opened ProblemModel
  import opened TypedProblems

  /** `exceptionFeature?.Error ?? context.Exception`. */
  function CapturedException(httpContext: HttpContext, contextException: Option<Exception>): (e: Option<Exception>)
    ensures httpContext.exceptionFeature.Some? ==> e == httpContext.exceptionFeature
    ensures httpContext.exceptionFeature.None? ==> e == contextException
  {
    httpContext.exceptionFeature.OrElse(contextException)
  }

  /** The ProblemDetailsContext the callback receives: the request's context, the exception the
      framework recorded, and the problem, which the callback replaces. */
  class ProblemDetailsContext {
    const httpContext: HttpContext
    const exception: Option<Exception>
    var problem: Problem

    constructor (httpContext: HttpContext, exception: Option<Exception>, problem: Problem)
      ensures this.httpContext == httpContext && this.exception == exception && this.problem == problem
    {
      this.httpContext := httpContext;
      this.exception := exception;
      this.problem := problem;
    }
  }

  /** The callback: `mappers` is what `GetServices<IProblemDetailMapper>()` resolves, never
      null, and `fallback` this sample's DefaultProblemDetailMapper. */
  method CustomizeProblemDetails(context: ProblemDetailsContext, response: HttpResponse, environment: string,
                                 mappers: seq<StatusMapper>, fallback: StatusMapper, activity: Option<Activity>)
    returns (r: Outcome<()>)
    modifies context, response
    ensures var exception := CapturedException(context.httpContext, context.exception);
            var status := FirstMapperStatus(Some(mappers), fallback, exception);
            && (r.Throws? <==> status.Throws?)
            && (r.Throws? ==> context.problem == old(context.problem) && response.statusCode == old(response.statusCode))
            && (r.Returns? ==>
                  && response.statusCode == status.value
                  && context.problem == TypedProblem(status.value, context.httpContext.request, IsDevelopment(environment),
                                                     exception, TraceIdOf(activity, context.httpContext)))
  {
    var exception := CapturedException(context.httpContext, context.exception);
    r := CreateProblemDetailFromException(context, response, environment, exception, Some(mappers), fallback, activity);
  }

  /** `CreateProblemDetailFromException`: the response takes the status before the context's
      problem is replaced. */
  method CreateProblemDetailFromException(context: ProblemDetailsContext, response: HttpResponse, environment: string,
                                          exception: Option<Exception>, mappers: Option<seq<StatusMapper>>,
                                          fallback: StatusMapper, activity: Option<Activity>)
    returns (r: Outcome<()>)
    modifies context, response
    ensures var status := FirstMapperStatus(mappers, fallback, exception);
            && (r.Throws? <==> status.Throws?)
            && (r.Throws? ==> context.problem == old(context.problem) && response.statusCode == old(response.statusCode))
            && (r.Returns? ==>
                  && response.statusCode == status.value
                  && context.problem == TypedProblem(status.value, context.httpContext.request, IsDevelopment(environment),
                                                     exception, TraceIdOf(activity, context.httpContext)))
  {
    var traceId := TraceIdOf(activity, context.httpContext);
    var statusCode := FirstMapperStatus(mappers, fallback, exception);
    if statusCode.Throws? {
      return Throws;
    }
    response.statusCode := statusCode.value;
    context.problem := TypedProblem(statusCode.value, context.httpContext.request, IsDevelopment(environment),
                                    exception, traceId);
    return Returns(());
  }

  /** The resolved mapper sequence is never null, so the fallback mapper is never asked: with
      no mapper registered every exception gives status 0, and otherwise the first mapper
      decides. */
  lemma FallbackNeverAsked(mappers: seq<StatusMapper>, fallback: StatusMapper, other: StatusMapper,
                           exception: Option<Exception>)
    ensures FirstMapperStatus(Some(mappers), fallback, exception) == FirstMapperStatus(Some(mappers), other, exception)
    ensures mappers == [] ==> FirstMapperStatus(Some(mappers), fallback, exception) == Returns(0)
  {
  }
}
