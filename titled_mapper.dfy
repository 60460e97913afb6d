/**
 * DefaultProblemDetailMapper of the .NET 7 customization sample: a switch from exception type to
 * a status code and a title, falling back to (0, null).
 */
module TitledStatusMapper {
  import opened Wrappers
  import opened ExceptionModel

  /** The `(int StatusCode, string? Title)` pair the mapper returns. */
  datatype Mapped = Mapped(statusCode: int, title: Option<string>)

  /** The arms of the switch, in order: note ArgumentException comes before BadRequest. */
  const MapperArms: seq<Arm> := [
    Arm(ConflictType, OwnStatus),
    Arm(ValidationType, OwnStatus),
    Arm(ArgumentType, Fixed(400)),
    Arm(BadRequestType, OwnStatus),
    Arm(NotFoundType, OwnStatus),
    Arm(HttpResponseType, OwnStatus),
    Arm(HttpRequestType, CastHttpStatus),
    Arm(AppType, OwnStatus)
  ]

  /** `GetMappedStatusCodes`: a listed exception gives its arm's status and its humanized type
      name; any other gives (0, null). */
  function GetMappedStatusCodes(e: Exception): (r: Outcome<Mapped>)
    ensures SwitchStatus(MapperArms, e).None? ==> r == Returns(Mapped(0, None))
    ensures SwitchStatus(MapperArms, e).Some? && r.Returns? ==> r.value.title == Some(Humanize(e.typeName))
    ensures r.Throws? <==> SwitchStatus(MapperArms, e) == Some(Throws)
  {
    match SwitchStatus(MapperArms, e)
    case None => Returns(Mapped(0, None))
    case Some(Throws) => Throws
    case Some(Returns(s)) => Returns(Mapped(s, Some(Humanize(e.typeName))))
  }

  /** The first listed arm whose type `e` is decides the pair. */
  lemma MapsByFirstArm(e: Exception, i: nat)
    requires i < |MapperArms| && IsA(e, MapperArms[i].typeName)
    requires forall j :: 0 <= j < i ==> !IsA(e, MapperArms[j].typeName)
    ensures GetMappedStatusCodes(e) == match ArmStatus(MapperArms[i].source, e)
                                       case Returns(s) => Returns(Mapped(s, Some(Humanize(e.typeName))))
                                       case Throws => Throws
  {
    SwitchTakesFirst(MapperArms, e, i);
  }

  /** An ArgumentException that is neither a Conflict nor a Validation exception maps to 400. */
  lemma MapsArgumentTo400(e: Exception)
    requires IsA(e, ArgumentType) && !IsA(e, ConflictType) && !IsA(e, ValidationType)
    ensures GetMappedStatusCodes(e) == Returns(Mapped(400, Some(Humanize(e.typeName))))
  {
    MapsByFirstArm(e, 2);
  }

  /** Whether none of the listed types is among `e`'s base types. */
  predicate NoListedBase(e: Exception)
  {
    forall j :: 0 <= j < |MapperArms| ==> MapperArms[j].typeName !in e.bases
  }

  /** Conflict, Validation, BadRequest, NotFound, HttpResponse and App exceptions map to their
      own StatusCode. */
  lemma MapsOwnStatus(e: Exception)
    requires NoListedBase(e)
    requires e.typeName in {ConflictType, ValidationType, BadRequestType, NotFoundType, HttpResponseType, AppType}
    ensures GetMappedStatusCodes(e) == Returns(Mapped(e.statusCode, Some(Humanize(e.typeName))))
  {
    var i := if e.typeName == ConflictType then 0 else if e.typeName == ValidationType then 1
             else if e.typeName == BadRequestType then 3 else if e.typeName == NotFoundType then 4
             else if e.typeName == HttpResponseType then 5 else 7;
    MapsByFirstArm(e, i);
  }

  /** An exception of no listed type maps to (0, null). */
  lemma MapsUnlistedToZero(e: Exception)
    requires NoListedBase(e)
    requires e.typeName !in {ConflictType, ValidationType, ArgumentType, BadRequestType, NotFoundType, HttpResponseType, HttpRequestType, AppType}
    ensures GetMappedStatusCodes(e) == Returns(Mapped(0, None))
  {
    SwitchDefault(MapperArms, e);
  }

  /** The title of a recognized exception depends on its type name only. */
  lemma TitleByTypeName(e1: Exception, e2: Exception)
    requires e1.typeName == e2.typeName && e1.bases == e2.bases
    requires GetMappedStatusCodes(e1).Returns? && GetMappedStatusCodes(e2).Returns?
    ensures GetMappedStatusCodes(e1).value.title == GetMappedStatusCodes(e2).value.title
  {
    assert forall t :: IsA(e1, t) <==> IsA(e2, t);
    assert FirstOfType(MapperArms, ArmType, e1, 0) == FirstOfType(MapperArms, ArmType, e2, 0) by {
      SameTypesSameArm(e1, e2, 0);
    }
  }

  lemma {:induction false} SameTypesSameArm(e1: Exception, e2: Exception, from: nat)
    requires from <= |MapperArms|
    requires forall t :: IsA(e1, t) <==> IsA(e2, t)
    ensures FirstOfType(MapperArms, ArmType, e1, from) == FirstOfType(MapperArms, ArmType, e2, from)
    decreases |MapperArms| - from
  {
    if from < |MapperArms| {
      SameTypesSameArm(e1, e2, from + 1);
    }
  }
}
