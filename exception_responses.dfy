/**
 * ExceptionResponseService of the controllers sample: a switch from exception type to a plain
 * response of a status code and a message, with a 500 fallback.
 */
module ExceptionResponses {
  import opened Wrappers
  import opened ExceptionModel
  import ControllerRegistration

  datatype ExceptionResponse = ExceptionResponse(message: string, statusCode: int)

  /** The arms of GenerateErrorResponse's switch, in order. */
  const ResponseArms: seq<Arm> := [
    Arm(ConflictType, OwnStatus),
    Arm(ValidationType, OwnStatus),
    Arm(BadRequestType, OwnStatus),
    Arm(NotFoundType, OwnStatus),
    Arm(ArgumentType, Fixed(400)),
    Arm(HttpResponseType, OwnStatus),
    Arm(HttpRequestType, CastHttpStatus)
  ]

  const UnexpectedMessage := "An unexpected error occurred."

  /** `GenerateErrorResponse`: a listed exception gives its arm's status and its humanized type
      name; any other gives 500 and a fixed message. */
  function GenerateErrorResponse(e: Exception): (r: Outcome<ExceptionResponse>)
    ensures SwitchStatus(ResponseArms, e).None? ==> r == Returns(ExceptionResponse(UnexpectedMessage, 500))
    ensures SwitchStatus(ResponseArms, e).Some? && r.Returns? ==> r.value.message == Humanize(e.typeName)
    ensures r.Throws? <==> SwitchStatus(ResponseArms, e) == Some(Throws)
  {
    match SwitchStatus(ResponseArms, e)
    case None => Returns(ExceptionResponse(UnexpectedMessage, 500))
    case Some(Throws) => Throws
    case Some(Returns(s)) => Returns(ExceptionResponse(Humanize(e.typeName), s))
  }

  /** The first listed arm whose type `e` is decides the response. */
  lemma RespondsByFirstArm(e: Exception, i: nat)
    requires i < |ResponseArms| && IsA(e, ResponseArms[i].typeName)
    requires forall j :: 0 <= j < i ==> !IsA(e, ResponseArms[j].typeName)
    ensures GenerateErrorResponse(e) == match ArmStatus(ResponseArms[i].source, e)
                                        case Returns(s) => Returns(ExceptionResponse(Humanize(e.typeName), s))
                                        case Throws => Throws
  {
    SwitchTakesFirst(ResponseArms, e, i);
  }

  /** An ArgumentException that is none of the custom types listed before it gives 400. */
  lemma ArgumentGives400(e: Exception)
    requires IsA(e, ArgumentType)
    requires !IsA(e, ConflictType) && !IsA(e, ValidationType) && !IsA(e, BadRequestType) && !IsA(e, NotFoundType)
    ensures GenerateErrorResponse(e) == Returns(ExceptionResponse(Humanize(e.typeName), 400))
  {
    RespondsByFirstArm(e, 4);
  }

  /** The response agrees with the built-in problem mapping registered in the same sample:
      where that gives a problem, the response has its status and its title as message; where
      it gives null, the response is the 500 fallback; and both throw on the same exceptions. */
  lemma AgreesWithDefaultMapping(e: Exception)
    ensures var p := ControllerRegistration.MapDefaultExceptions(e);
            && (p.Throws? <==> GenerateErrorResponse(e).Throws?)
            && (p.Returns? && p.value.Some? ==>
                  GenerateErrorResponse(e) == Returns(ExceptionResponse(p.value.value.title.value, p.value.value.status.value)))
            && (p.Returns? && p.value.None? ==>
                  GenerateErrorResponse(e) == Returns(ExceptionResponse(UnexpectedMessage, 500)))
  {
    assert ResponseArms == ControllerRegistration.DefaultArms;
  }
}
