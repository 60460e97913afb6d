/**
 * DependencyInjectionExtensions of the controllers sample: the service registrations, the options
 * setup that registers the built-in exception mapping before the caller's configuration, and
 * that built-in mapping, a switch from exception type to a titled problem.
 */
module ControllerRegistration {
  import opened Wrappers
  import opened ExceptionModel
  import opened ProblemModel
  import opened ControllerOptions

  /** The arms of MapDefaultExceptions's switch, in order. */
  const DefaultArms: seq<Arm> := [
    Arm(ConflictType, OwnStatus),
    Arm(ValidationType, OwnStatus),
    Arm(BadRequestType, OwnStatus),
    Arm(NotFoundType, OwnStatus),
    Arm(ArgumentType, Fixed(400)),
    Arm(HttpResponseType, OwnStatus),
    Arm(HttpRequestType, CastHttpStatus)
  ]

  /** `GetTitle`: the runtime type name in Title case, which still spells the type name once its
      spaces are taken out. */
  function GetTitle(e: Exception): (t: string)
    ensures (forall i :: 0 <= i < |e.typeName| ==> e.typeName[i] != ' ') ==> Unspaced(t) == e.typeName
  {
    if forall i :: 0 <= i < |e.typeName| ==> e.typeName[i] != ' ' then
      HumanizeUnspaces(e.typeName);
      Humanize(e.typeName)
    else
      Humanize(e.typeName)
  }

  /** The problem every arm builds: only Title and Status set. */
  function TitledProblem(e: Exception, status: int): (p: Problem)
    ensures p.title == Some(GetTitle(e)) && p.status == Some(status)
    ensures p.typeUri.None? && p.detail.None? && p.instance.None? && p.extensions == map[]
  {
    StatusProblem(Some(status)).(title := Some(GetTitle(e)))
  }

  /** The built-in mapping: the arm's status with the humanized type name as title; null for an
      exception of no listed type; a throw from the cast of a null HttpRequestException status. */
  function MapDefaultExceptions(e: Exception): (r: Outcome<Option<Problem>>)
    ensures SwitchStatus(DefaultArms, e).None? ==> r == Returns(None)
    ensures r.Throws? <==> SwitchStatus(DefaultArms, e) == Some(Throws)
    ensures r.Returns? && r.value.Some? ==> r.value.value.status.Some?
    ensures r.Returns? && r.value.Some? ==> r.value.value == TitledProblem(e, r.value.value.status.value)
  {
    match SwitchStatus(DefaultArms, e)
    case None => Returns(None)
    case Some(Throws) => Throws
    case Some(Returns(s)) => Returns(Some(TitledProblem(e, s)))
  }

  /** The mapping the options setup registers: `(ctx, exception) => MapDefaultExceptions(exception)`. */
  function DefaultMapping(context: HttpContext, e: Exception): Outcome<Option<Problem>>
  {
    MapDefaultExceptions(e)
  }

  /** Whether none of the types the switch lists is among `e`'s base types. */
  predicate NoListedBase(e: Exception)
  {
    forall j :: 0 <= j < |DefaultArms| ==> DefaultArms[j].typeName !in e.bases
  }

  /** The first listed arm whose type `e` is decides the status and title. */
  lemma MapsFirstArm(e: Exception, i: nat)
    requires i < |DefaultArms| && IsA(e, DefaultArms[i].typeName)
    requires forall j :: 0 <= j < i ==> !IsA(e, DefaultArms[j].typeName)
    ensures MapDefaultExceptions(e) == match ArmStatus(DefaultArms[i].source, e)
                                       case Returns(s) => Returns(Some(TitledProblem(e, s)))
                                       case Throws => Throws
  {
    SwitchTakesFirst(DefaultArms, e, i);
  }

  /** Conflict, Validation, BadRequest, NotFound and HttpResponse exceptions map to their own
      StatusCode. */
  lemma MapsOwnStatus(e: Exception)
    requires NoListedBase(e)
    requires e.typeName in {ConflictType, ValidationType, BadRequestType, NotFoundType, HttpResponseType}
    ensures MapDefaultExceptions(e) == Returns(Some(TitledProblem(e, e.statusCode)))
  {
    var i := if e.typeName == ConflictType then 0 else if e.typeName == ValidationType then 1
             else if e.typeName == BadRequestType then 2 else if e.typeName == NotFoundType then 3 else 5;
    MapsFirstArm(e, i);
  }

  /** An ArgumentException that is none of the four custom types listed before it maps to 400. */
  lemma MapsArgumentTo400(e: Exception)
    requires IsA(e, ArgumentType)
    requires !IsA(e, ConflictType) && !IsA(e, ValidationType) && !IsA(e, BadRequestType) && !IsA(e, NotFoundType)
    ensures MapDefaultExceptions(e) == Returns(Some(TitledProblem(e, 400)))
  {
    MapsFirstArm(e, 4);
  }

  /** An exception of no listed type maps to null. */
  lemma MapsUnlistedToNull(e: Exception)
    requires NoListedBase(e)
    requires e.typeName !in {ConflictType, ValidationType, BadRequestType, NotFoundType, ArgumentType, HttpResponseType, HttpRequestType}
    ensures MapDefaultExceptions(e) == Returns(None)
  {
    SwitchDefault(DefaultArms, e);
  }

  /** `AddCustomProblemDetailsSupport`: three singletons, then the options setup. */
  method AddCustomProblemDetailsSupport(services: ServiceCollection)
    modifies services
    ensures services.registrations == old(services.registrations) + [
              Singleton("ProblemDetailsFactory", "CustomProblemDetailsFactory"),
              Singleton("IProblemDetailsWriter", "ProblemDetailWriter"),
              Singleton("ExceptionResponseService", "ExceptionResponseService"),
              Configure("ProblemDetailsOptions")]
  {
    services.Add(Singleton("ProblemDetailsFactory", "CustomProblemDetailsFactory"));
    services.Add(Singleton("IProblemDetailsWriter", "ProblemDetailWriter"));
    services.Add(Singleton("ExceptionResponseService", "ExceptionResponseService"));
    services.Add(Configure("ProblemDetailsOptions"));
  }

  /** The options setup AddCustomProblemDetailsSupport registers: Map the built-in mapping, then
      run the caller's `configure`, given as the mappers it registers (`None` for null). */
  method ConfigureOptions(options: ProblemDetailsOptions, configure: Option<seq<Mapper>>)
    modifies options
    ensures options.mappers == old(options.mappers) + [Mapper(ExceptionType, DefaultMapping)] + configure.GetOr([])
  {
    options.Map(DefaultMapping);
    if configure.Some? {
      options.mappers := options.mappers + configure.value;
    }
  }

  /** On fresh options, the built-in mapping decides every exception: a mapper the caller's
      configure registers is never consulted. */
  lemma ConfiguredMappersUnreached(user: seq<Mapper>, context: HttpContext, e: Exception)
    ensures Resolve([Mapper(ExceptionType, DefaultMapping)] + user, context, Some(e))
            == match MapDefaultExceptions(e) case Returns(p) => p case Throws => None
  {
    CatchAllShadowsLater([], DefaultMapping, user, context, e);
    assert [] + [Mapper(ExceptionType, DefaultMapping)] == [Mapper(ExceptionType, DefaultMapping)];
    ResolveFirstMatch([Mapper(ExceptionType, DefaultMapping)], context, e, 0);
  }

  /** The options setup with the evidently intended order: the caller's mappers first, then the
      built-in mapping as the catch-all behind them. */
  method ConfigureOptionsUserFirst(options: ProblemDetailsOptions, configure: Option<seq<Mapper>>)
    modifies options
    ensures options.mappers == old(options.mappers) + configure.GetOr([]) + [Mapper(ExceptionType, DefaultMapping)]
  {
    if configure.Some? {
      options.mappers := options.mappers + configure.value;
    }
    options.Map(DefaultMapping);
  }

  /** With the caller's mappers first, a caller's mapper whose type the exception is decides,
      and only an exception none of them takes reaches the built-in mapping. */
  lemma UserMappersDecideFirst(user: seq<Mapper>, context: HttpContext, e: Exception)
    ensures (exists j :: 0 <= j < |user| && IsA(e, user[j].exceptionType)) ==>
              Resolve(user + [Mapper(ExceptionType, DefaultMapping)], context, Some(e)) == Resolve(user, context, Some(e))
    ensures (forall j :: 0 <= j < |user| ==> !IsA(e, user[j].exceptionType)) ==>
              Resolve(user + [Mapper(ExceptionType, DefaultMapping)], context, Some(e))
              == match MapDefaultExceptions(e) case Returns(p) => p case Throws => None
  {
    var ms := user + [Mapper(ExceptionType, DefaultMapping)];
    if exists j :: 0 <= j < |user| && IsA(e, user[j].exceptionType) {
      ResolveIgnoresLater(user, [Mapper(ExceptionType, DefaultMapping)], context, e);
    } else {
      assert IsA(e, ms[|user|].exceptionType);
      ResolveFirstMatch(ms, context, e, |user|);
    }
  }
}
