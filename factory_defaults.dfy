/**
 * What the two CustomProblemDetailsFactory classes (minimal-API and controllers samples) share,
 * line for line: ApplyProblemDetailsDefaults, CreateValidationProblemDetails, and the rule that
 * picks a problem's status code.
 */
module FactoryDefaults {
  import opened Wrappers
  import opened ProblemModel

  /** An entry of ApiBehaviorOptions.ClientErrorMapping. */
  datatype ClientErrorData = ClientErrorData(title: string, link: string)

  type ClientErrorMapping = map<int, ClientErrorData>

  /** The title ValidationProblemDetails starts with. */
  const ValidationTitle := "One or more validation errors occurred."

  /** `statusCode ?? (mapped > 0 ? mapped : Response.StatusCode)`, where a null `mapped` is not
      greater than 0. */
  function ChosenStatus(statusCode: Option<int>, mapped: Option<int>, responseStatus: int): (s: int)
    ensures statusCode.Some? ==> s == statusCode.value
    ensures statusCode.None? && mapped.Some? && mapped.value > 0 ==> s == mapped.value
    ensures statusCode.None? && !(mapped.Some? && mapped.value > 0) ==> s == responseStatus
  {
    if statusCode.Some? then statusCode.value
    else if mapped.Some? && mapped.value > 0 then mapped.value
    else responseStatus
  }

  /** A nullable Activity member rendered as an extension value. */
  function ActivityValue(activity: Option<Activity>, field: Activity -> string): ExtValue
  {
    if activity.Some? then Text(field(activity.value)) else Null
  }

  function SpanIdOf(a: Activity): string { a.spanId }
  function TraceOf(a: Activity): string { a.traceId }
  function IdOf(a: Activity): string { a.id }

  /** What ApplyProblemDetailsDefaults leaves in a problem. */
  function DefaultsApplied(p: Problem, mapping: ClientErrorMapping, statusCode: int,
                           context: HttpContext, activity: Option<Activity>): (r: Problem)
    ensures statusCode in mapping ==> r.title == Some(p.title.GetOr(mapping[statusCode].title))
    ensures statusCode in mapping ==> r.typeUri == Some(p.typeUri.GetOr(mapping[statusCode].link))
    ensures statusCode !in mapping ==> r.title == p.title && r.typeUri == p.typeUri
    ensures r.extensions.Keys == p.extensions.Keys + {"traceId", "spanId", "id"}
    ensures r.extensions["traceId"] == Text(TraceIdOf(activity, context))
    ensures forall k :: k in p.extensions && k !in {"traceId", "spanId", "id"} ==> r.extensions[k] == p.extensions[k]
    ensures "spanId" in p.extensions ==> r.extensions["spanId"] == p.extensions["spanId"]
    ensures "id" in p.extensions ==> r.extensions["id"] == p.extensions["id"]
    ensures r.status == p.status && r.detail == p.detail && r.instance == p.instance
    ensures r.validation == p.validation && r.errors == p.errors
  {
    var titled := Titled(p, mapping, statusCode);
    titled.(extensions := Traced(titled.extensions, context, activity))
  }

  /** The client error mapping's title and link, where the problem has none. */
  function Titled(p: Problem, mapping: ClientErrorMapping, statusCode: int): Problem
  {
    if statusCode in mapping then
      p.(title := Some(p.title.GetOr(mapping[statusCode].title)),
         typeUri := Some(p.typeUri.GetOr(mapping[statusCode].link)))
    else p
  }

  /** The trace id set, then the Activity's span id, trace id and id added where absent. */
  function Traced(extensions: Extensions, context: HttpContext, activity: Option<Activity>): Extensions
  {
    var traced := extensions["traceId" := Text(TraceIdOf(activity, context))];
    TryAdded(TryAdded(TryAdded(traced, "spanId", ActivityValue(activity, SpanIdOf)),
                      "traceId", ActivityValue(activity, TraceOf)),
             "id", ActivityValue(activity, IdOf))
  }

  /** `ApplyProblemDetailsDefaults(httpContext, problemDetails, statusCode)`. The trace id is
      never null: the request's TraceIdentifier stands in when there is no current Activity. */
  method ApplyProblemDetailsDefaults(context: HttpContext, problemDetails: ProblemDetails, statusCode: int,
                                     mapping: ClientErrorMapping, activity: Option<Activity>)
    modifies problemDetails
    ensures problemDetails.Snapshot() == DefaultsApplied(old(problemDetails.Snapshot()), mapping, statusCode, context, activity)
  {
    if statusCode in mapping {
      var clientErrorData := mapping[statusCode];
      if problemDetails.title.None? {
        problemDetails.title := Some(clientErrorData.title);
      }
      if problemDetails.typeUri.None? {
        problemDetails.typeUri := Some(clientErrorData.link);
      }
    }
    assert problemDetails.Snapshot() == Titled(old(problemDetails.Snapshot()), mapping, statusCode);
    AddTraceExtensions(context, problemDetails, activity);
  }

  /** The extension half of ApplyProblemDetailsDefaults. */
  method AddTraceExtensions(context: HttpContext, problemDetails: ProblemDetails, activity: Option<Activity>)
    modifies problemDetails
    ensures problemDetails.Snapshot() ==
            old(problemDetails.Snapshot()).(extensions := Traced(old(problemDetails.extensions), context, activity))
  {
    var traceId := TraceIdOf(activity, context);
    problemDetails.extensions := problemDetails.extensions["traceId" := Text(traceId)];
    problemDetails.TryAddExtension("spanId", ActivityValue(activity, SpanIdOf));
    problemDetails.TryAddExtension("traceId", ActivityValue(activity, TraceOf));
    problemDetails.TryAddExtension("id", ActivityValue(activity, IdOf));
  }

  /** Applying the defaults twice is applying them once. */
  lemma DefaultsAppliedIdempotent(p: Problem, mapping: ClientErrorMapping, statusCode: int,
                                  context: HttpContext, activity: Option<Activity>)
    ensures var once := DefaultsApplied(p, mapping, statusCode, context, activity);
            DefaultsApplied(once, mapping, statusCode, context, activity) == once
  {
    var once := DefaultsApplied(p, mapping, statusCode, context, activity);
    var twice := DefaultsApplied(once, mapping, statusCode, context, activity);
    assert twice.extensions == once.extensions;
  }

  /** The validation problem before the defaults: status code 400 unless given, the default
      title unless a non-null one is given, and the model state's errors. */
  function ValidationProblem(errors: map<string, seq<string>>, statusCode: Option<int>, title: Option<string>,
                             typeUri: Option<string>, detail: Option<string>, instance: Option<string>): (p: Problem)
    ensures p.status == Some(statusCode.GetOr(400)) && p.validation && p.errors == errors
    ensures p.title.Some? && (title.Some? ==> p.title == title) && (title.None? ==> p.title == Some(ValidationTitle))
    ensures p.typeUri == typeUri && p.detail == detail && p.instance == instance && p.extensions == map[]
  {
    Problem(Some(statusCode.GetOr(400)), Some(title.GetOr(ValidationTitle)), typeUri, detail, instance, map[], true, errors)
  }

  /** `CreateValidationProblemDetails`: a null model state throws; otherwise a fresh validation
      problem with the defaults applied for its status code. */
  method CreateValidationProblemDetails(context: HttpContext, modelState: Option<map<string, seq<string>>>,
                                        statusCode: Option<int>, title: Option<string>, typeUri: Option<string>,
                                        detail: Option<string>, instance: Option<string>,
                                        mapping: ClientErrorMapping, activity: Option<Activity>)
    returns (r: Outcome<ProblemDetails>)
    ensures modelState.None? <==> r.Throws?
    ensures r.Returns? ==> fresh(r.value)
    ensures r.Returns? ==>
              r.value.Snapshot() ==
              DefaultsApplied(ValidationProblem(modelState.value, statusCode, title, typeUri, detail, instance),
                              mapping, statusCode.GetOr(400), context, activity)
  {
    if modelState.None? {
      return Throws;
    }
    var status := if statusCode.Some? then statusCode.value else 400;
    var problemDetails := new ProblemDetails(Problem(Some(status), Some(ValidationTitle), typeUri, detail, instance,
                                                     map[], true, modelState.value));
    if title.Some? {
      problemDetails.title := title;
    }
    ApplyProblemDetailsDefaults(context, problemDetails, status, mapping, activity);
    return Returns(problemDetails);
  }

  /** A validation problem never ends with a null title or status, and its status is 400 unless
      another was asked for. */
  lemma ValidationTitleNeverNull(context: HttpContext, errors: map<string, seq<string>>, statusCode: Option<int>,
                                 title: Option<string>, typeUri: Option<string>, detail: Option<string>,
                                 instance: Option<string>, mapping: ClientErrorMapping, activity: Option<Activity>)
    ensures var r := DefaultsApplied(ValidationProblem(errors, statusCode, title, typeUri, detail, instance),
                                     mapping, statusCode.GetOr(400), context, activity);
            && r.title == Some(title.GetOr(ValidationTitle))
            && r.status == Some(statusCode.GetOr(400))
  {
  }
}
