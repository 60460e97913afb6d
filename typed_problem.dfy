/**
 * What the .NET 8 exception handler, the simple ProblemDetailsService and the simple .NET 8
 * registration extensions share: the status chosen from a sequence of IProblemDetailMapper
 * services, and the problem PopulateNewProblemDetail builds with TypedResults.Problem.
 */
module TypedProblems {
  import opened Wrappers
  import opened ExceptionModel
  import opened ProblemModel

  /** An IProblemDetailMapper of these samples: `GetMappedStatusCodes(Exception?)`, which gives
      a status code or throws. */
  type StatusMapper = Option<Exception> -> Outcome<int>

  /** `mappers?.Select(m => m.GetMappedStatusCodes(exception)).FirstOrDefault() ?? fallback(exception)`:
      a null sequence uses the fallback mapper, an empty one gives 0 (FirstOrDefault of an
      int sequence), and otherwise only the first mapper is asked. */
  function FirstMapperStatus(mappers: Option<seq<StatusMapper>>, fallback: StatusMapper,
                             exception: Option<Exception>): (r: Outcome<int>)
    ensures mappers.None? ==> r == fallback(exception)
    ensures mappers.Some? && mappers.value == [] ==> r == Returns(0)
    ensures mappers.Some? && mappers.value != [] ==> r == mappers.value[0](exception)
  {
    match mappers
    case None => fallback(exception)
    case Some(ms) => if ms == [] then Returns(0) else ms[0](exception)
  }

  /** Registering more mappers after the first never changes the status. */
  lemma LaterMappersIgnored(first: StatusMapper, rest: seq<StatusMapper>, fallback: StatusMapper,
                            exception: Option<Exception>)
    ensures FirstMapperStatus(Some([first] + rest), fallback, exception) == first(exception)
  {
  }

  /** `PopulateNewProblemDetail(code, httpContext, exception, traceId)`, before the framework's
      own defaults: the status, the exception's message and type name (null without one), the
      request as instance, a trace id, and the stack trace in development. */
  function TypedProblem(code: int, request: Request, development: bool, exception: Option<Exception>,
                        traceId: string): (p: Problem)
    ensures p.status == Some(code) && p.instance == Some(InstanceOf(request)) && p.typeUri.None?
    ensures exception.Some? ==> p.detail == Some(exception.value.message) && p.title == Some(exception.value.typeName)
    ensures exception.None? ==> p.detail.None? && p.title.None?
    ensures "traceId" in p.extensions && p.extensions["traceId"] == Text(traceId)
    ensures ("stackTrace" in p.extensions) <==> development && exception.Some?
    ensures "stackTrace" in p.extensions ==> p.extensions["stackTrace"] == StackTraceValue(exception.value)
    ensures p.extensions.Keys <= {"traceId", "stackTrace"}
    ensures !p.validation && p.errors == map[]
  {
    var extensions := map["traceId" := Text(traceId)];
    var extensions := if development && exception.Some? then extensions["stackTrace" := StackTraceValue(exception.value)]
                      else extensions;
    Problem(Some(code),
            if exception.Some? then Some(exception.value.typeName) else None,
            None,
            if exception.Some? then Some(exception.value.message) else None,
            Some(InstanceOf(request)),
            extensions, false, map[])
  }

  /** `exception.StackTrace`, which is null for an exception never thrown. */
  function StackTraceValue(e: Exception): ExtValue
  {
    if e.stackTrace.Some? then Text(e.stackTrace.value) else Null
  }

  /** The stack trace never leaves development: outside it the extensions are the trace id alone. */
  lemma NoStackTraceOutsideDevelopment(code: int, request: Request, exception: Option<Exception>, traceId: string)
    ensures TypedProblem(code, request, false, exception, traceId).extensions == map["traceId" := Text(traceId)]
  {
    var p := TypedProblem(code, request, false, exception, traceId);
    assert p.extensions.Keys == {"traceId"};
  }
}
