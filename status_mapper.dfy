/**
 * DefaultProblemDetailMapper of the .NET 8 exception-handler sample: a switch from a nullable
 * exception to a status code, falling back to 0.
 */
module StatusCodeMapper {
  import opened Wrappers
  import opened ExceptionModel

  /** The arms of the switch, in order. */
  const MapperArms: seq<Arm> := [
    Arm(ConflictType, OwnStatus),
    Arm(ValidationType, OwnStatus),
    Arm(ArgumentType, Fixed(400)),
    Arm(BadRequestType, OwnStatus),
    Arm(NotFoundType, OwnStatus),
    Arm(HttpResponseType, OwnStatus),
    Arm(HttpRequestType, CastHttpStatus),
    Arm(AppType, OwnStatus)
  ]

  /** `GetMappedStatusCodes(exception)`: null matches no type pattern and gives 0, as does an
      exception of no listed type. */
  function GetMappedStatusCodes(exception: Option<Exception>): (r: Outcome<int>)
    ensures exception.None? ==> r == Returns(0)
    ensures exception.Some? && SwitchStatus(MapperArms, exception.value).None? ==> r == Returns(0)
    ensures r.Throws? ==> exception.Some? && exception.value.httpStatus.None? && IsA(exception.value, HttpRequestType)
  {
    if exception.None? then Returns(0)
    else
      match SwitchStatus(MapperArms, exception.value)
      case None => Returns(0)
      case Some(s) => s
  }

  /** The first listed arm whose type the exception is decides the status. */
  lemma MapsByFirstArm(e: Exception, i: nat)
    requires i < |MapperArms| && IsA(e, MapperArms[i].typeName)
    requires forall j :: 0 <= j < i ==> !IsA(e, MapperArms[j].typeName)
    ensures GetMappedStatusCodes(Some(e)) == ArmStatus(MapperArms[i].source, e)
  {
    SwitchTakesFirst(MapperArms, e, i);
  }

  /** An ArgumentException that is neither a Conflict nor a Validation exception maps to 400. */
  lemma MapsArgumentTo400(e: Exception)
    requires IsA(e, ArgumentType) && !IsA(e, ConflictType) && !IsA(e, ValidationType)
    ensures GetMappedStatusCodes(Some(e)) == Returns(400)
  {
    MapsByFirstArm(e, 2);
  }

  /** The sample's custom exceptions: BadRequest gives 400, NotFound 404, Validation 400 and
      Conflict 409, whatever their message. */
  lemma MapsCustomExceptions(message: string)
    ensures GetMappedStatusCodes(Some(NewBadRequest(message))) == Returns(400)
    ensures GetMappedStatusCodes(Some(NewNotFound(message))) == Returns(404)
    ensures GetMappedStatusCodes(Some(NewValidation(message))) == Returns(400)
    ensures GetMappedStatusCodes(Some(NewConflict(message))) == Returns(409)
  {
    MapsByFirstArm(NewBadRequest(message), 3);
    MapsByFirstArm(NewNotFound(message), 4);
    MapsByFirstArm(NewValidation(message), 1);
    MapsByFirstArm(NewConflict(message), 0);
  }

  /** An HttpRequestException whose StatusCode is null makes the `(int)` cast throw, unless it is
      also of a type listed before it. */
  lemma NullHttpStatusThrows(e: Exception)
    requires e.typeName == HttpRequestType && e.httpStatus.None?
    requires forall j :: 0 <= j < |MapperArms| ==> MapperArms[j].typeName !in e.bases
    ensures GetMappedStatusCodes(Some(e)).Throws?
  {
    MapsByFirstArm(e, 6);
  }

  /** An exception of no listed type maps to 0. */
  lemma MapsUnlistedToZero(e: Exception)
    requires forall j :: 0 <= j < |MapperArms| ==> MapperArms[j].typeName !in e.bases
    requires e.typeName !in {ConflictType, ValidationType, ArgumentType, BadRequestType, NotFoundType, HttpResponseType, HttpRequestType, AppType}
    ensures GetMappedStatusCodes(Some(e)) == Returns(0)
  {
    SwitchDefault(MapperArms, e);
  }
}
