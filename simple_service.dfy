/**
 * ProblemDetailsService of the simple sample: for an error response not yet started, it picks a
 * status from every registered IProblemDetailMapper in turn, stores it in the response, merges
 * a problem built from the exception into the context's problem, and hands that to the first
 * writer that can write it.
 */
module SimpleProblemDetailsService {
  import opened Wrappers
  import opened ExceptionModel
  import opened ProblemModel
  import opened TypedProblems

  /** The status left by the foreach loop that asks every mapper in turn, each answer replacing
      the one before; the first throw propagates. */
  function LastMapperStatus(mappers: seq<StatusMapper>, exception: Exception, current: int): Outcome<int>
    decreases |mappers|
  {
    if mappers == [] then Returns(current)
    else
      match mappers[0](Some(exception))
      case Throws => Throws
      case Returns(s) => LastMapperStatus(mappers[1..], exception, s)
  }

  /** When no mapper throws, the last mapper decides the status. */
  lemma {:induction false} LastMapperWins(mappers: seq<StatusMapper>, exception: Exception, current: int)
    requires mappers != []
    requires forall i :: 0 <= i < |mappers| ==> mappers[i](Some(exception)).Returns?
    ensures LastMapperStatus(mappers, exception, current) == mappers[|mappers| - 1](Some(exception))
    decreases |mappers|
  {
    var s := mappers[0](Some(exception)).value;
    if |mappers| > 1 {
      assert forall i :: 0 <= i < |mappers[1..]| ==> mappers[1..][i] == mappers[i + 1];
      LastMapperWins(mappers[1..], exception, s);
    }
  }

  /** The loop throws exactly when some mapper throws. */
  lemma {:induction false} MapperThrowPropagates(mappers: seq<StatusMapper>, exception: Exception, current: int)
    ensures LastMapperStatus(mappers, exception, current).Throws? <==>
            exists i :: 0 <= i < |mappers| && mappers[i](Some(exception)).Throws?
    decreases |mappers|
  {
    if mappers != [] && mappers[0](Some(exception)).Returns? {
      var s := mappers[0](Some(exception)).value;
      MapperThrowPropagates(mappers[1..], exception, s);
      ShiftedThrow(mappers, exception);
    }
  }

  /** A throwing mapper after the first is a throwing mapper of the tail. */
  lemma ShiftedThrow(mappers: seq<StatusMapper>, exception: Exception)
    requires mappers != [] && mappers[0](Some(exception)).Returns?
    ensures (exists i :: 0 <= i < |mappers| && mappers[i](Some(exception)).Throws?) <==>
            (exists i :: 0 <= i < |mappers[1..]| && mappers[1..][i](Some(exception)).Throws?)
  {
    if exists i :: 0 <= i < |mappers| && mappers[i](Some(exception)).Throws? {
      var i :| 0 <= i < |mappers| && mappers[i](Some(exception)).Throws?;
      assert mappers[1..][i - 1] == mappers[i];
    }
    if exists i :: 0 <= i < |mappers[1..]| && mappers[1..][i](Some(exception)).Throws? {
      var i :| 0 <= i < |mappers[1..]| && mappers[1..][i](Some(exception)).Throws?;
      assert mappers[i + 1] == mappers[1..][i];
    }
  }

  /** The status CreateProblemDetailFromException chooses: the mappers' last answer when there
      are mappers and an exception, the fallback mapper's with an exception but no mapper,
      and 0 without an exception. */
  function ServiceStatus(mappers: Option<seq<StatusMapper>>, fallback: StatusMapper,
                         exception: Option<Exception>): (r: Outcome<int>)
    ensures exception.None? ==> r == Returns(0)
    ensures exception.Some? && (mappers.None? || mappers.value == []) ==> r == fallback(exception)
  {
    if mappers.Some? && mappers.value != [] && exception.Some? then LastMapperStatus(mappers.value, exception.value, 0)
    else if exception.Some? then fallback(exception)
    else Returns(0)
  }

  /** The extensions after the TryAdd loop has run over the keys `done` of `added`. */
  function MergedOver(existing: Extensions, added: Extensions, done: set<string>): Extensions
  {
    map k | k in existing.Keys + (done * added.Keys) :: if k in existing then existing[k] else added[k]
  }

  /** The TryAdd merge of `added` into `existing`: every existing entry is kept, and the new
      keys bring their values. */
  function Merged(existing: Extensions, added: Extensions): (r: Extensions)
    ensures r.Keys == existing.Keys + added.Keys
    ensures forall k :: k in existing ==> r[k] == existing[k]
    ensures forall k :: k in added && k !in existing ==> r[k] == added[k]
  {
    MergedOver(existing, added, added.Keys)
  }

  /** The context's problem after the copy: detail, instance, status, title and type replaced
      by the built problem's, extensions merged. */
  function Overwritten(p: Problem, built: Problem): (r: Problem)
    ensures r.detail == built.detail && r.instance == built.instance && r.status == built.status
    ensures r.title == built.title && r.typeUri == built.typeUri
    ensures r.extensions == Merged(p.extensions, built.extensions)
    ensures r.validation == p.validation && r.errors == p.errors
  {
    p.(detail := built.detail, extensions := Merged(p.extensions, built.extensions), instance := built.instance,
       status := built.status, title := built.title, typeUri := built.typeUri)
  }

  /** One more key of the TryAdd loop. */
  lemma MergedOverStep(existing: Extensions, added: Extensions, done: set<string>, key: string)
    requires key in added && key !in done
    ensures TryAdded(MergedOver(existing, added, done), key, added[key]) == MergedOver(existing, added, done + {key})
  {
  }

  class ProblemDetailsService {
    const writers: seq<Writer>
    /** The hosting environment's name. */
    const environment: string
    /** The registered IProblemDetailMapper services, when the sequence is not null. */
    const mappers: Option<seq<StatusMapper>>
    /** `new DefaultProblemDetailMapper()` of this sample. */
    const fallback: StatusMapper

    constructor (writers: seq<Writer>, environment: string, mappers: Option<seq<StatusMapper>>, fallback: StatusMapper)
      ensures this.writers == writers && this.environment == environment
      ensures this.mappers == mappers && this.fallback == fallback
    {
      this.writers := writers;
      this.environment := environment;
      this.mappers := mappers;
      this.fallback := fallback;
    }

    /** `CreateProblemDetailFromException`: a throw from a mapper propagates before anything
        changes; otherwise the response takes the chosen status and the context's problem the
        fields of the problem built for it. */
    method CreateProblemDetailFromException(context: HttpContext, problemDetails: ProblemDetails,
                                            response: HttpResponse, exception: Option<Exception>,
                                            activity: Option<Activity>)
      returns (r: Outcome<()>)
      modifies problemDetails, response
      ensures r.Throws? <==> ServiceStatus(mappers, fallback, exception).Throws?
      ensures r.Throws? ==>
                problemDetails.Snapshot() == old(problemDetails.Snapshot()) && response.statusCode == old(response.statusCode)
      ensures r.Returns? ==>
                var s := ServiceStatus(mappers, fallback, exception).value;
                && response.statusCode == s
                && problemDetails.Snapshot() ==
                   Overwritten(old(problemDetails.Snapshot()),
                               TypedProblem(s, context.request, IsDevelopment(environment), exception,
                                            TraceIdOf(activity, context)))
      ensures response.hasStarted == old(response.hasStarted)
    {
      var status := MappedStatus(exception);
      if status.Throws? {
        return Throws;
      }
      response.statusCode := status.value;
      var pd := TypedProblem(status.value, context.request, IsDevelopment(environment), exception,
                             TraceIdOf(activity, context));
      CopyInto(problemDetails, pd);
      return Returns(());
    }

    /** The status selection of CreateProblemDetailFromException, whose foreach loop asks every
        mapper in turn; it changes nothing. */
    method MappedStatus(exception: Option<Exception>) returns (r: Outcome<int>)
      ensures r == ServiceStatus(mappers, fallback, exception)
    {
      var statusCode := 0;
      if mappers.Some? && |mappers.value| > 0 && exception.Some? {
        var i := 0;
        while i < |mappers.value|
          invariant 0 <= i <= |mappers.value|
          invariant LastMapperStatus(mappers.value, exception.value, 0) ==
                    LastMapperStatus(mappers.value[i..], exception.value, statusCode)
        {
          var mapped := mappers.value[i](exception);
          assert mappers.value[i..][1..] == mappers.value[i + 1..];
          if mapped.Throws? {
            return Throws;
          }
          statusCode := mapped.value;
          i := i + 1;
        }
      } else if exception.Some? {
        return fallback(exception);
      }
      return Returns(statusCode);
    }

    /** The copy of the built problem into the context's: Detail, then every extension by
        TryAdd, then Instance, Status, Title and Type. */
    static method CopyInto(problemDetails: ProblemDetails, pd: Problem)
      modifies problemDetails
      ensures problemDetails.Snapshot() == Overwritten(old(problemDetails.Snapshot()), pd)
    {
      problemDetails.detail := pd.detail;
      MergeExtensions(problemDetails, pd.extensions);
      problemDetails.instance := pd.instance;
      problemDetails.status := pd.status;
      problemDetails.title := pd.title;
      problemDetails.typeUri := pd.typeUri;
    }

    /** The TryAdd loop over the built problem's extensions. */
    static method MergeExtensions(problemDetails: ProblemDetails, added: Extensions)
      modifies problemDetails
      ensures problemDetails.Snapshot() == old(problemDetails.Snapshot()).(extensions := Merged(old(problemDetails.extensions), added))
    {
      var start := problemDetails.extensions;
      var remaining := added.Keys;
      while remaining != {}
        invariant remaining <= added.Keys
        invariant problemDetails.Snapshot() ==
                  old(problemDetails.Snapshot()).(extensions := MergedOver(start, added, added.Keys - remaining))
        decreases remaining
      {
        var key :| key in remaining;
        var done := added.Keys - remaining;
        MergedOverStep(start, added, done, key);
        problemDetails.TryAddExtension(key, added[key]);
        remaining := remaining - {key};
        assert added.Keys - remaining == done + {key};
      }
    }

    /** `WriteAsync`: a null problem throws; a started or non-error response is left alone;
        otherwise the problem is rebuilt from the captured exception and handed to the first
        writer that can write it, whose index is the result. */
    method WriteAsync(context: HttpContext, problemDetails: ProblemDetails?, response: HttpResponse,
                      activity: Option<Activity>)
      returns (r: Outcome<Option<nat>>)
      modifies problemDetails, response
      ensures problemDetails == null ==> r.Throws?
      ensures problemDetails != null && (old(response.hasStarted) || old(response.statusCode) < 400) ==>
                && r == Returns(None)
                && problemDetails.Snapshot() == old(problemDetails.Snapshot())
                && response.statusCode == old(response.statusCode)
      ensures problemDetails != null && !old(response.hasStarted) && old(response.statusCode) >= 400 ==>
                var status := ServiceStatus(mappers, fallback, context.exceptionFeature);
                && (r.Throws? <==> status.Throws?)
                && (r.Returns? ==>
                      && r.value == FirstWriter(writers, 0)
                      && response.statusCode == status.value
                      && problemDetails.Snapshot() ==
                         Overwritten(old(problemDetails.Snapshot()),
                                     TypedProblem(status.value, context.request, IsDevelopment(environment),
                                                  context.exceptionFeature, TraceIdOf(activity, context))))
    {
      if problemDetails == null {
        return Throws;
      }
      if response.hasStarted || response.statusCode < 400 {
        return Returns(None);
      }
      var created := CreateProblemDetailFromException(context, problemDetails, response, context.exceptionFeature, activity);
      if created.Throws? {
        return Throws;
      }
      var i := 0;
      while i < |writers|
        invariant 0 <= i <= |writers|
        invariant FirstWriter(writers, 0) == FirstWriter(writers, i)
      {
        if writers[i].canWrite {
          return Returns(Some(i));
        }
        i := i + 1;
      }
      return Returns(None);
    }
  }

  /** Without a captured exception the problem is still rebuilt, with status 0, so the response
      ends with status 0 and the problem with no title or detail. */
  lemma NoExceptionGivesStatusZero(mappers: Option<seq<StatusMapper>>, fallback: StatusMapper, p: Problem,
                                   request: Request, development: bool, traceId: string)
    ensures ServiceStatus(mappers, fallback, None) == Returns(0)
    ensures var q := Overwritten(p, TypedProblem(0, request, development, None, traceId));
            q.status == Some(0) && q.title.None? && q.detail.None?
  {
  }
}
