/**
 * DefaultExceptionHandler of the .NET 8 exception-handler sample: an IExceptionHandler that
 * sets the response's status from the first registered IProblemDetailMapper (or the sample's
 * own DefaultProblemDetailMapper when the sequence is null), builds a problem for the
 * exception and hands it to the IProblemDetailsService.
 */
module Net8ExceptionHandler {
  import opened Wrappers
  import opened ExceptionModel
  import opened ProblemModel
  import opened TypedProblems
  import StatusCodeMapper

  /** The status the handler chooses, with the sample's DefaultProblemDetailMapper as fallback. */
  function HandlerStatus(mappers: Option<seq<StatusMapper>>, exception: Option<Exception>): Outcome<int>
  {
    FirstMapperStatus(mappers, StatusCodeMapper.GetMappedStatusCodes, exception)
  }

  class DefaultExceptionHandler {
    /** The hosting environment's name. */
    const environment: string
    /** The registered IProblemDetailMapper services, when the sequence is not null. */
    const mappers: Option<seq<StatusMapper>>

    constructor (environment: string, mappers: Option<seq<StatusMapper>>)
      ensures this.environment == environment && this.mappers == mappers
    {
      this.environment := environment;
      this.mappers := mappers;
    }

    /** `TryHandleAsync`: it returns true whenever it returns, having set the response's status
        and handed the problem built for the exception to the problem-details service; `handed`
        is that problem. A throw from a mapper propagates and changes nothing. */
    method TryHandleAsync(context: HttpContext, response: HttpResponse, exception: Exception,
                          activity: Option<Activity>)
      returns (r: Outcome<bool>, handed: Option<Problem>)
      modifies response
      ensures r.Throws? <==> HandlerStatus(mappers, Some(exception)).Throws?
      ensures r.Throws? ==> handed.None? && response.statusCode == old(response.statusCode)
      ensures r.Returns? ==>
                var status := HandlerStatus(mappers, Some(exception)).value;
                && r.value
                && response.statusCode == status
                && handed == Some(TypedProblem(status, context.request, IsDevelopment(environment), Some(exception),
                                               TraceIdOf(activity, context)))
    {
      var problemDetail := CreateProblemDetailFromException(context, response, Some(exception), activity);
      if problemDetail.Throws? {
        return Throws, None;
      }
      handed := Some(problemDetail.value);
      r := Returns(true);
    }

    /** `CreateProblemDetailFromException`: the chosen status goes to the response, and the
        problem is built for it. */
    method CreateProblemDetailFromException(context: HttpContext, response: HttpResponse,
                                            exception: Option<Exception>, activity: Option<Activity>)
      returns (r: Outcome<Problem>)
      modifies response
      ensures r.Throws? <==> HandlerStatus(mappers, exception).Throws?
      ensures r.Throws? ==> response.statusCode == old(response.statusCode)
      ensures r.Returns? ==>
                var status := HandlerStatus(mappers, exception).value;
                && response.statusCode == status
                && r.value == TypedProblem(status, context.request, IsDevelopment(environment), exception,
                                           TraceIdOf(activity, context))
    {
      var traceId := TraceIdOf(activity, context);
      var statusCode := HandlerStatus(mappers, exception);
      if statusCode.Throws? {
        return Throws;
      }
      response.statusCode := statusCode.value;
      return Returns(TypedProblem(statusCode.value, context.request, IsDevelopment(environment), exception, traceId));
    }
  }

  /** A null mapper sequence falls back to the sample's mapper, so the sample's own exceptions
      get their status codes: BadRequest 400, NotFound 404, Validation 400, Conflict 409. */
  lemma NullMappersUseDefault(message: string)
    ensures HandlerStatus(None, Some(NewBadRequest(message))) == Returns(400)
    ensures HandlerStatus(None, Some(NewNotFound(message))) == Returns(404)
    ensures HandlerStatus(None, Some(NewValidation(message))) == Returns(400)
    ensures HandlerStatus(None, Some(NewConflict(message))) == Returns(409)
  {
    StatusCodeMapper.MapsCustomExceptions(message);
  }

  /** An empty mapper sequence is not null: FirstOrDefault gives 0 and the fallback is never
      asked, whatever the exception. */
  lemma EmptyMappersGiveZero(exception: Option<Exception>)
    ensures HandlerStatus(Some([]), exception) == Returns(0)
  {
  }

  /** Outside development the problem handed on carries the trace id and nothing else as
      extensions, and its title is the exception's type name, not humanized. */
  lemma HandedProblemShape(code: int, request: Request, environment: string, exception: Exception, traceId: string)
    requires !IsDevelopment(environment)
    ensures var p := TypedProblem(code, request, IsDevelopment(environment), Some(exception), traceId);
            && p.extensions == map["traceId" := Text(traceId)]
            && p.title == Some(exception.typeName)
            && p.detail == Some(exception.message)
  {
    NoStackTraceOutsideDevelopment(code, request, Some(exception), traceId);
  }
}
