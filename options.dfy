/**
 * ProblemDetailsOptions of the controllers sample: an ordered list of (exception type, mapping)
 * pairs, consulted first-match by GetProblemDetails, and the settable defaults for exception
 * details, logging and the status-only problem.
 */
module ControllerOptions {
  import opened Wrappers
  import opened ExceptionModel
  import opened ProblemModel

  /** A registered mapping, run on the context and the exception: it returns problem details,
      possibly null, or throws. */
  type MapFunc = (HttpContext, Exception) -> Outcome<Option<Problem>>

  datatype Mapper = Mapper(exceptionType: string, mapFunc: MapFunc)

  function MapperType(m: Mapper): string
  {
    m.exceptionType
  }

  /** What GetProblemDetails returns: null for a null exception; otherwise what the first mapper
      whose type the exception is returns, null when it throws, and null when none matches. */
  function Resolve(mappers: seq<Mapper>, context: HttpContext, exception: Option<Exception>): Option<Problem>
  {
    if exception.None? then None
    else
      match FirstOfType(mappers, MapperType, exception.value, 0)
      case None => None
      case Some(i) =>
        match mappers[i].mapFunc(context, exception.value)
        case Returns(p) => p
        case Throws => None
  }

  /** `statusCode >= 500` on a nullable int: false for null. */
  function IsServerError(statusCode: Option<int>): (b: bool)
    ensures b <==> statusCode.Some? && statusCode.value >= 500
  {
    match statusCode
    case None => false
    case Some(s) => s >= 500
  }

  /** Exception details are included in the Development environment only, whatever the case of
      its name. */
  function IncludeExceptionDetailsDefault(context: HttpContext, exception: Option<Exception>): (b: bool)
    ensures b <==> |context.environment| == |Development|
                   && forall i :: 0 <= i < |Development| ==> LowerChar(context.environment[i]) == LowerChar(Development[i])
  {
    IsDevelopment(context.environment)
  }

  /** The default log predicate: log an unhandled exception exactly when its problem is a server
      error. */
  function ShouldLogDefault(context: HttpContext, exception: Exception, details: Problem): (b: bool)
    ensures b <==> details.status.Some? && details.status.value >= 500
  {
    IsServerError(details.status)
  }

  /** The status-only problem: the response's current status code, every other field null.
      `responseStatus` is the context's Response.StatusCode. */
  function DefaultMapStatusCode(context: HttpContext, responseStatus: int): (p: Problem)
    ensures p.status == Some(responseStatus) && p.title.None? && p.typeUri.None?
    ensures p.detail.None? && p.instance.None? && p.extensions == map[]
  {
    StatusProblem(Some(responseStatus))
  }

  /** The mapping MapToStatusCode registers: a problem holding only the status code. */
  function StatusMapping(statusCode: int): MapFunc
  {
    (context: HttpContext, e: Exception) => Returns(Some(StatusProblem(Some(statusCode))))
  }

  /** `Map<T>(Func<T, ProblemDetails?>)`: the registered mapping ignores the context. */
  function IgnoringContext(mapping: Exception -> Outcome<Option<Problem>>): MapFunc
  {
    (context: HttpContext, e: Exception) => mapping(e)
  }

  class ProblemDetailsOptions {
    var mappers: seq<Mapper>
    var includeExceptionDetails: (HttpContext, Option<Exception>) -> bool
    var shouldLogUnhandledException: (HttpContext, Exception, Problem) -> bool
    /** MapStatusCode, given the context and its Response.StatusCode. */
    var mapStatusCode: (HttpContext, int) -> Problem

    constructor ()
      ensures mappers == []
      ensures includeExceptionDetails == IncludeExceptionDetailsDefault
      ensures shouldLogUnhandledException == ShouldLogDefault
      ensures mapStatusCode == DefaultMapStatusCode
    {
      mappers := [];
      includeExceptionDetails := IncludeExceptionDetailsDefault;
      shouldLogUnhandledException := ShouldLogDefault;
      mapStatusCode := DefaultMapStatusCode;
    }

    /** `MapToStatusCode<T>(statusCode)`. */
    method MapToStatusCode(exceptionType: string, statusCode: int)
      modifies this
      ensures mappers == old(mappers) + [Mapper(exceptionType, StatusMapping(statusCode))]
      ensures includeExceptionDetails == old(includeExceptionDetails)
      ensures shouldLogUnhandledException == old(shouldLogUnhandledException)
      ensures mapStatusCode == old(mapStatusCode)
    {
      MapWithContext(exceptionType, StatusMapping(statusCode));
    }

    /** `Map<T>(Func<T, ProblemDetails?>)`. */
    method MapTyped(exceptionType: string, mapping: Exception -> Outcome<Option<Problem>>)
      modifies this
      ensures mappers == old(mappers) + [Mapper(exceptionType, IgnoringContext(mapping))]
      ensures includeExceptionDetails == old(includeExceptionDetails)
      ensures shouldLogUnhandledException == old(shouldLogUnhandledException)
      ensures mapStatusCode == old(mapStatusCode)
    {
      mappers := mappers + [Mapper(exceptionType, IgnoringContext(mapping))];
    }

    /** `Map<T>(Func<HttpContext, T, ProblemDetails?>)`. */
    method MapWithContext(exceptionType: string, mapping: MapFunc)
      modifies this
      ensures mappers == old(mappers) + [Mapper(exceptionType, mapping)]
      ensures includeExceptionDetails == old(includeExceptionDetails)
      ensures shouldLogUnhandledException == old(shouldLogUnhandledException)
      ensures mapStatusCode == old(mapStatusCode)
    {
      mappers := mappers + [Mapper(exceptionType, mapping)];
    }

    /** `Map(Func<HttpContext, Exception, ProblemDetails?>)`: registered under Exception. */
    method Map(mapping: MapFunc)
      modifies this
      ensures mappers == old(mappers) + [Mapper(ExceptionType, mapping)]
      ensures includeExceptionDetails == old(includeExceptionDetails)
      ensures shouldLogUnhandledException == old(shouldLogUnhandledException)
      ensures mapStatusCode == old(mapStatusCode)
    {
      mappers := mappers + [Mapper(ExceptionType, mapping)];
    }

    /** The first-match loop over the mappers. */
    method GetProblemDetails(context: HttpContext, exception: Option<Exception>) returns (r: Option<Problem>)
      ensures r == Resolve(mappers, context, exception)
    {
      if exception.None? {
        return None;
      }
      var e := exception.value;
      var i := 0;
      while i < |mappers|
        invariant 0 <= i <= |mappers|
        invariant FirstOfType(mappers, MapperType, e, 0) == FirstOfType(mappers, MapperType, e, i)
      {
        if IsA(e, mappers[i].exceptionType) {
          var outcome := mappers[i].mapFunc(context, e);
          if outcome.Throws? {
            return None;
          }
          return outcome.value;
        }
        i := i + 1;
      }
      return None;
    }
  }

  /** GetProblemDetails of a null exception is null. */
  lemma ResolveNull(mappers: seq<Mapper>, context: HttpContext)
    ensures Resolve(mappers, context, None).None?
  {
  }

  /** Mapper `i` decides when it is the first whose type the exception is: its result is
      returned as it is, null included, and a throw gives null. */
  lemma ResolveFirstMatch(mappers: seq<Mapper>, context: HttpContext, e: Exception, i: nat)
    requires i < |mappers| && IsA(e, mappers[i].exceptionType)
    requires forall j :: 0 <= j < i ==> !IsA(e, mappers[j].exceptionType)
    ensures mappers[i].mapFunc(context, e).Returns? ==>
              Resolve(mappers, context, Some(e)) == mappers[i].mapFunc(context, e).value
    ensures mappers[i].mapFunc(context, e).Throws? ==> Resolve(mappers, context, Some(e)).None?
  {
    FirstOfTypeIs(mappers, MapperType, e, i);
  }

  /** With no mapper of a matching type, the answer is null. */
  lemma ResolveNoMatch(mappers: seq<Mapper>, context: HttpContext, e: Exception)
    requires forall j :: 0 <= j < |mappers| ==> !IsA(e, mappers[j].exceptionType)
    ensures Resolve(mappers, context, Some(e)).None?
  {
    if FirstOfType(mappers, MapperType, e, 0).Some? {
      assert false;
    }
  }

  /** Once some mapper matches, mappers registered later are never consulted. */
  lemma ResolveIgnoresLater(mappers: seq<Mapper>, more: seq<Mapper>, context: HttpContext, e: Exception)
    requires exists j :: 0 <= j < |mappers| && IsA(e, mappers[j].exceptionType)
    ensures Resolve(mappers + more, context, Some(e)) == Resolve(mappers, context, Some(e))
  {
    var j :| 0 <= j < |mappers| && IsA(e, mappers[j].exceptionType);
    assert IsA(e, MapperType(mappers[j]));
    FirstOfTypeAppend(mappers, more, MapperType, e, 0);
    var i := FirstOfType(mappers, MapperType, e, 0).value;
    assert (mappers + more)[i] == mappers[i];
  }

  /** A mapping registered with Map(...) is registered under Exception, so it matches every
      exception: nothing registered after it is ever reached. */
  lemma CatchAllShadowsLater(mappers: seq<Mapper>, mapping: MapFunc, more: seq<Mapper>, context: HttpContext, e: Exception)
    ensures Resolve(mappers + [Mapper(ExceptionType, mapping)] + more, context, Some(e))
            == Resolve(mappers + [Mapper(ExceptionType, mapping)], context, Some(e))
  {
    var ms := mappers + [Mapper(ExceptionType, mapping)];
    assert IsA(e, ms[|mappers|].exceptionType);
    ResolveIgnoresLater(ms, more, context, e);
  }

  /** A MapToStatusCode registration that is the first match yields a problem whose status is
      exactly that status code. */
  lemma StatusMappingResolves(mappers: seq<Mapper>, exceptionType: string, statusCode: int, context: HttpContext, e: Exception)
    requires IsA(e, exceptionType)
    requires forall j :: 0 <= j < |mappers| ==> !IsA(e, mappers[j].exceptionType)
    ensures Resolve(mappers + [Mapper(exceptionType, StatusMapping(statusCode))], context, Some(e))
            == Some(StatusProblem(Some(statusCode)))
  {
    var ms := mappers + [Mapper(exceptionType, StatusMapping(statusCode))];
    ResolveFirstMatch(ms, context, e, |mappers|);
  }
}
