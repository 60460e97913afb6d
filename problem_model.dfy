/**
 * What the problem-details samples read and write: RFC 7807 problem details (ASP.NET Core's
 * ProblemDetails object, updated in place), the request, the response whose status code they
 * set, the current Activity, and the problem-details writers.
 */
module ProblemModel {
  import opened Wrappers
  import opened ExceptionModel

  /** A value in the extensions dictionary: null, a string, or the anonymous "exception" object
      the factories attach in development (the exception it renders, and the request path). */
  datatype ExtValue = Null | Text(text: string) | ExceptionInfo(exception: Option<Exception>, path: string)

  type Extensions = map<string, ExtValue>

  /** The fields of a problem details object. `validation` marks the ValidationProblemDetails
      subclass, whose `errors` come from the model state. */
  datatype Problem = Problem(
    status: Option<int>,
    title: Option<string>,
    typeUri: Option<string>,
    detail: Option<string>,
    instance: Option<string>,
    extensions: Extensions,
    validation: bool,
    errors: map<string, seq<string>>)

  /** `new ProblemDetails { Status = status }`. */
  function StatusProblem(status: Option<int>): (p: Problem)
    ensures p.status == status && p.title.None? && p.typeUri.None? && p.detail.None?
    ensures p.instance.None? && p.extensions == map[] && !p.validation
  {
    Problem(status, None, None, None, None, map[], false, map[])
  }

  /** `dictionary.TryAdd(key, value)`: adds only a key that is not there yet. */
  function TryAdded(m: Extensions, key: string, value: ExtValue): Extensions
  {
    if key in m then m else m[key := value]
  }

  /** TryAdd keeps every existing entry, and afterwards the key is present. */
  lemma TryAddedKeeps(m: Extensions, key: string, value: ExtValue)
    ensures forall k :: k in m ==> k in TryAdded(m, key, value) && TryAdded(m, key, value)[k] == m[k]
    ensures TryAdded(m, key, value).Keys == m.Keys + {key}
    ensures key !in m ==> TryAdded(m, key, value)[key] == value
  {
  }

  class ProblemDetails {
    var status: Option<int>
    var title: Option<string>
    var typeUri: Option<string>
    var detail: Option<string>
    var instance: Option<string>
    var extensions: Extensions
    const validation: bool
    const errors: map<string, seq<string>>

    constructor (p: Problem)
      ensures Snapshot() == p
    {
      status, title, typeUri, detail, instance := p.status, p.title, p.typeUri, p.detail, p.instance;
      extensions, validation, errors := p.extensions, p.validation, p.errors;
    }

    /** The current field values. */
    function Snapshot(): Problem
      reads this
    {
      Problem(status, title, typeUri, detail, instance, extensions, validation, errors)
    }

    /** `Extensions.TryAdd(key, value)`: nothing else changes. */
    method TryAddExtension(key: string, value: ExtValue)
      modifies this
      ensures Snapshot() == old(Snapshot()).(extensions := TryAdded(old(extensions), key, value))
    {
      if key !in extensions {
        extensions := extensions[key := value];
      }
    }
  }

  datatype Request = Request(httpMethod: string, path: string)

  /** The `$"{Request.Method} {Request.Path}"` instance the samples give a problem. */
  function InstanceOf(request: Request): string
  {
    request.httpMethod + " " + request.path
  }

  /** The parts of an HttpContext the samples read: the request, its TraceIdentifier, the error
      of the IExceptionHandlerFeature (`None` when there is no such feature) and the name of the
      hosting environment. */
  datatype HttpContext = HttpContext(
    request: Request,
    traceIdentifier: string,
    exceptionFeature: Option<Exception>,
    environment: string)

  /** The response, whose status code the samples set. */
  class HttpResponse {
    var statusCode: int
    var hasStarted: bool

    constructor (statusCode: int, hasStarted: bool)
      ensures this.statusCode == statusCode && this.hasStarted == hasStarted
    {
      this.statusCode := statusCode;
      this.hasStarted := hasStarted;
    }
  }

  /** `Activity.Current` when there is one. */
  datatype Activity = Activity(id: string, spanId: string, traceId: string)

  /** `Activity.Current?.Id ?? httpContext.TraceIdentifier`. */
  function TraceIdOf(activity: Option<Activity>, context: HttpContext): string
  {
    if activity.Some? then activity.value.id else context.traceIdentifier
  }

  const Development := "Development"
  const Production := "Production"

  /** An ASCII letter's lower-case form; every other character is kept. */
  function LowerChar(c: char): (r: char)
    ensures 'A' <= c <= 'Z' ==> r as int == c as int + 32
    ensures !('A' <= c <= 'Z') ==> r == c
  {
    if 'A' <= c <= 'Z' then (c as int + 32) as char else c
  }

  /** `s` with its ASCII letters lower-cased. */
  function Lowered(s: string): (r: string)
    ensures |r| == |s| && forall i :: 0 <= i < |s| ==> r[i] == LowerChar(s[i])
  {
    seq(|s|, i requires 0 <= i < |s| => LowerChar(s[i]))
  }

  /** `string.Equals(a, b, StringComparison.OrdinalIgnoreCase)` for names whose letters are
      ASCII: the same length, and equal characters once letters are lower-cased. */
  predicate EqualsIgnoreCase(a: string, b: string)
  {
    Lowered(a) == Lowered(b)
  }

  /** IHostEnvironment.IsDevelopment(): the environment name is "Development", ignoring case. */
  predicate IsDevelopment(environment: string)
  {
    EqualsIgnoreCase(environment, Development)
  }

  /** IHostEnvironment.IsProduction(): the environment name is "Production", ignoring case. */
  predicate IsProduction(environment: string)
  {
    EqualsIgnoreCase(environment, Production)
  }

  /** Lower-casing twice is lower-casing once. */
  lemma LoweredIdempotent(s: string)
    ensures Lowered(Lowered(s)) == Lowered(s)
  {
    assert forall i :: 0 <= i < |s| ==> LowerChar(LowerChar(s[i])) == LowerChar(s[i]);
  }

  /** The environment tests ignore case: a name and its lower-cased form test alike, and so do
      "development", "DEVELOPMENT" and "production", "PRODUCTION". */
  lemma EnvironmentTestsIgnoreCase(environment: string)
    ensures IsDevelopment(environment) <==> IsDevelopment(Lowered(environment))
    ensures IsProduction(environment) <==> IsProduction(Lowered(environment))
    ensures IsDevelopment("development") && IsDevelopment("DEVELOPMENT")
    ensures IsProduction("production") && IsProduction("PRODUCTION")
  {
    LoweredIdempotent(environment);
    assert Lowered("development") == Lowered(Development) == Lowered("DEVELOPMENT") == "development";
    assert Lowered("production") == Lowered(Production) == Lowered("PRODUCTION") == "production";
  }

  /** No environment is both Development and Production. */
  lemma DevelopmentIsNotProduction(environment: string)
    ensures !(IsDevelopment(environment) && IsProduction(environment))
  {
    if IsDevelopment(environment) {
      assert |Lowered(environment)| == |Development| != |Production|;
    }
  }

  /** An IProblemDetailsWriter, with the answer its CanWrite gives for the request at hand. */
  datatype Writer = Writer(name: string, canWrite: bool)

  /** The writer the services pick: the first whose CanWrite is true. */
  function FirstWriter(writers: seq<Writer>, from: nat): (r: Option<nat>)
    requires from <= |writers|
    ensures r.Some? ==> from <= r.value < |writers| && writers[r.value].canWrite
    ensures r.Some? ==> forall j :: from <= j < r.value ==> !writers[j].canWrite
    ensures r.None? <==> forall j :: from <= j < |writers| ==> !writers[j].canWrite
    decreases |writers| - from
  {
    if from == |writers| then None
    else if writers[from].canWrite then Some(from)
    else FirstWriter(writers, from + 1)
  }

  /** A service registration: a singleton, or a deferred setup of an options type. */
  datatype Registration =
    | Singleton(service: string, implementation: string)
    | Configure(options: string)

  /** The service collection, which registration appends to. */
  class ServiceCollection {
    var registrations: seq<Registration>

    constructor ()
      ensures registrations == []
    {
      registrations := [];
    }

    method Add(r: Registration)
      modifies this
      ensures registrations == old(registrations) + [r]
    {
      registrations := registrations + [r];
    }
  }
}
