/**
 * ProblemDetailsService of the .NET 7 problem-details-service sample: it rebuilds the problem
 * from a captured exception through the sample's IProblemDetailMapper, then hands it to the
 * first writer that can write it, unless the response has started or is not an error.
 */
module Net7ProblemDetailsService {
  import opened Wrappers
  import opened ExceptionModel
  import opened ProblemModel
  import opened FactoryDefaults
  import TitledStatusMapper

  /** Whether CreateProblemDetailFromException returns early for a mapped pair, as written:
      the status is not positive AND the title is neither null nor empty. It skips only pairs
      the intended guard skips, and lets through exactly the non-positive pairs without a title. */
  function SkipsMapping(mapped: TitledStatusMapper.Mapped): (b: bool)
    ensures b ==> SkipsMappingIntended(mapped)
    ensures SkipsMappingIntended(mapped) && !b <==>
              mapped.statusCode <= 0 && (mapped.title.None? || mapped.title.value == "")
  {
    mapped.statusCode <= 0 && mapped.title.Some? && mapped.title.value != ""
  }

  /** The early return as evidently intended: a pair without a positive status leaves the
      problem and the response alone. */
  predicate SkipsMappingIntended(mapped: TitledStatusMapper.Mapped)
  {
    mapped.statusCode <= 0
  }

  /** What PopulateNewProblemDetail leaves in a problem: the humanized type name, the message,
      the status and the request as title, detail, status and instance, with the Activity's
      span id, trace id and id added where absent. */
  function Populated(p: Problem, context: HttpContext, statusCode: int, exception: Exception,
                     activity: Option<Activity>): (r: Problem)
    ensures r.title == Some(Humanize(exception.typeName)) && r.detail == Some(exception.message)
    ensures r.status == Some(statusCode) && r.instance == Some(InstanceOf(context.request))
    ensures r.extensions.Keys == p.extensions.Keys + {"spanId", "traceId", "id"}
    ensures forall k :: k in p.extensions ==> r.extensions[k] == p.extensions[k]
    ensures "traceId" !in p.extensions ==> r.extensions["traceId"] == ActivityValue(activity, TraceOf)
    ensures r.typeUri == p.typeUri && r.validation == p.validation && r.errors == p.errors
  {
    var added := TryAdded(TryAdded(TryAdded(p.extensions, "spanId", ActivityValue(activity, SpanIdOf)),
                                   "traceId", ActivityValue(activity, TraceOf)),
                          "id", ActivityValue(activity, IdOf));
    p.(title := Some(Humanize(exception.typeName)), detail := Some(exception.message),
       status := Some(statusCode), instance := Some(InstanceOf(context.request)), extensions := added)
  }

  /** The writer WriteAsync hands the problem to, given the response's state at the guard:
      none when the response has started, is below 400 or there is no writer; the only writer
      when it can write; otherwise the first that can. */
  function ChosenWriter(writers: seq<Writer>, hasStarted: bool, statusCode: int): (r: Option<nat>)
    ensures r.Some? ==> !hasStarted && statusCode >= 400 && r.value < |writers| && writers[r.value].canWrite
  {
    if hasStarted || statusCode < 400 || |writers| == 0 then None
    else if |writers| == 1 then (if writers[0].canWrite then Some(0) else None)
    else FirstWriter(writers, 0)
  }

  /** The one-writer shortcut picks what the general search would: past the guard, the writer
      chosen is always the first that can write. */
  lemma ChosenWriterIsFirst(writers: seq<Writer>, hasStarted: bool, statusCode: int)
    ensures ChosenWriter(writers, hasStarted, statusCode) ==
            (if hasStarted || statusCode < 400 then None else FirstWriter(writers, 0))
  {
    if !hasStarted && statusCode >= 400 && |writers| == 1 && !writers[0].canWrite {
      assert FirstWriter(writers, 1) == None;
    }
  }

  class ProblemDetailsService {
    const writers: seq<Writer>
    /** The injected IProblemDetailMapper. */
    const mapper: Exception -> Outcome<TitledStatusMapper.Mapped>

    constructor (writers: seq<Writer>, mapper: Exception -> Outcome<TitledStatusMapper.Mapped>)
      ensures this.writers == writers && this.mapper == mapper
    {
      this.writers := writers;
      this.mapper := mapper;
    }

    /** `CreateProblemDetailFromException`: unless the mapped pair is skipped, the problem is
        repopulated and the response takes the mapped status. A throw from the mapper
        propagates and changes nothing. */
    method CreateProblemDetailFromException(context: HttpContext, problemDetails: ProblemDetails,
                                            response: HttpResponse, exception: Exception,
                                            activity: Option<Activity>)
      returns (r: Outcome<()>)
      modifies problemDetails, response
      ensures r.Throws? <==> mapper(exception).Throws?
      ensures r.Throws? || SkipsMapping(mapper(exception).value) ==>
                problemDetails.Snapshot() == old(problemDetails.Snapshot()) && response.statusCode == old(response.statusCode)
      ensures r.Returns? && !SkipsMapping(mapper(exception).value) ==>
                && problemDetails.Snapshot() == Populated(old(problemDetails.Snapshot()), context,
                                                          mapper(exception).value.statusCode, exception, activity)
                && response.statusCode == mapper(exception).value.statusCode
      ensures response.hasStarted == old(response.hasStarted)
    {
      var mapped := mapper(exception);
      if mapped.Throws? {
        return Throws;
      }
      if SkipsMapping(mapped.value) {
        return Returns(());
      }
      PopulateNewProblemDetail(problemDetails, context, mapped.value.statusCode, exception, activity);
      response.statusCode := mapped.value.statusCode;
      return Returns(());
    }

    /** `PopulateNewProblemDetail`. */
    static method PopulateNewProblemDetail(existing: ProblemDetails, context: HttpContext, statusCode: int,
                                           exception: Exception, activity: Option<Activity>)
      modifies existing
      ensures existing.Snapshot() == Populated(old(existing.Snapshot()), context, statusCode, exception, activity)
    {
      existing.title := Some(Humanize(exception.typeName));
      existing.detail := Some(exception.message);
      existing.status := Some(statusCode);
      existing.instance := Some(InstanceOf(context.request));
      existing.TryAddExtension("spanId", ActivityValue(activity, SpanIdOf));
      existing.TryAddExtension("traceId", ActivityValue(activity, TraceOf));
      existing.TryAddExtension("id", ActivityValue(activity, IdOf));
    }

    /** `WriteAsync`: a null problem throws; with a captured exception the problem is rebuilt
        first, so the guard sees the status the mapping left; then the index of the writer the
        problem is handed to, if any. */
    method WriteAsync(context: HttpContext, problemDetails: ProblemDetails?, response: HttpResponse,
                      activity: Option<Activity>)
      returns (r: Outcome<Option<nat>>)
      modifies problemDetails, response
      ensures problemDetails == null ==> r.Throws?
      ensures problemDetails != null && context.exceptionFeature.None? ==>
                && problemDetails.Snapshot() == old(problemDetails.Snapshot())
                && response.statusCode == old(response.statusCode)
      ensures problemDetails != null && context.exceptionFeature.Some? ==>
                (r.Throws? <==> mapper(context.exceptionFeature.value).Throws?)
      ensures problemDetails != null && context.exceptionFeature.Some? && r.Returns? ==>
                var mapped := mapper(context.exceptionFeature.value).value;
                && (SkipsMapping(mapped) ==>
                      problemDetails.Snapshot() == old(problemDetails.Snapshot()) && response.statusCode == old(response.statusCode))
                && (!SkipsMapping(mapped) ==>
                      && problemDetails.Snapshot() == Populated(old(problemDetails.Snapshot()), context, mapped.statusCode,
                                                                context.exceptionFeature.value, activity)
                      && response.statusCode == mapped.statusCode)
      ensures r.Returns? ==> r.value == ChosenWriter(writers, response.hasStarted, response.statusCode)
      ensures response.hasStarted == old(response.hasStarted)
    {
      if problemDetails == null {
        return Throws;
      }
      if context.exceptionFeature.Some? {
        var created := CreateProblemDetailFromException(context, problemDetails, response,
                                                        context.exceptionFeature.value, activity);
        if created.Throws? {
          return Throws;
        }
      }
      if response.hasStarted || response.statusCode < 400 || |writers| == 0 {
        return Returns(None);
      }
      if |writers| == 1 {
        return Returns(if writers[0].canWrite then Some(0) else None);
      }
      var chosen: Option<nat> := None;
      var i := 0;
      while i < |writers| && chosen.None?
        invariant 0 <= i <= |writers|
        invariant chosen.Some? ==> chosen == FirstWriter(writers, 0)
        invariant chosen.None? ==> FirstWriter(writers, 0) == FirstWriter(writers, i)
        decreases |writers| - i, if chosen.None? then 1 else 0
      {
        if writers[i].canWrite {
          chosen := Some(i);
        } else {
          i := i + 1;
        }
      }
      return Returns(chosen);
    }
  }

  /** The response's status code once CreateProblemDetailFromException has run, as written. */
  function StatusAfterMapping(mapped: TitledStatusMapper.Mapped, responseStatus: int): int
  {
    if SkipsMapping(mapped) then responseStatus else mapped.statusCode
  }

  /** The response's status code once the mapping has run, with the intended early return. */
  function IntendedStatusAfterMapping(mapped: TitledStatusMapper.Mapped, responseStatus: int): int
  {
    if SkipsMappingIntended(mapped) then responseStatus else mapped.statusCode
  }

  /** As written: a mapper's pair whose status is not positive and whose title is null or
      empty passes the early return, so the response's status becomes that value, whatever it
      was, and no writer is used. */
  lemma UntitledNonPositiveWritesNothing(writers: seq<Writer>, hasStarted: bool,
                                         mapped: TitledStatusMapper.Mapped, responseStatus: int)
    requires mapped.statusCode <= 0
    requires mapped.title.None? || mapped.title.value == ""
    ensures StatusAfterMapping(mapped, responseStatus) == mapped.statusCode
    ensures ChosenWriter(writers, hasStarted, StatusAfterMapping(mapped, responseStatus)).None?
  {
  }

  /** With the intended early return the status never drops to a non-positive one: it is the
      mapped status when that is positive and the response's otherwise, so a pair without a
      positive status leaves the writer choice as it was. */
  lemma IntendedMappingKeepsStatus(writers: seq<Writer>, hasStarted: bool, mapped: TitledStatusMapper.Mapped,
                                   responseStatus: int)
    ensures responseStatus > 0 ==> IntendedStatusAfterMapping(mapped, responseStatus) > 0
    ensures mapped.statusCode > 0 ==> IntendedStatusAfterMapping(mapped, responseStatus) == mapped.statusCode
    ensures mapped.statusCode <= 0 ==>
              ChosenWriter(writers, hasStarted, IntendedStatusAfterMapping(mapped, responseStatus))
              == ChosenWriter(writers, hasStarted, responseStatus)
  {
  }
}
