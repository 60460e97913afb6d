/**
 * The exceptions the problem-details samples map to HTTP problems: a runtime type, the types it
 * derives from, and the data the mappers read. Also the `switch` over exception types that every
 * mapper uses, and the Title-cased type name the mappers give as a title.
 */
module ExceptionModel {
  import opened Wrappers

  /** A thrown exception. `statusCode` is the StatusCode property of the samples' CustomException
      and of HttpResponseException; `httpStatus` is HttpRequestException's nullable StatusCode. */
  datatype Exception = Exception(
    typeName: string,
    bases: seq<string>,
    message: string,
    statusCode: int,
    httpStatus: Option<int>,
    stackTrace: Option<string>)

  const ExceptionType := "Exception"
  const CustomExceptionType := "CustomException"
  const ConflictType := "ConflictException"
  const ValidationType := "ValidationException"
  const BadRequestType := "BadRequestException"
  const NotFoundType := "NotFoundException"
  const ArgumentType := "ArgumentException"
  const HttpResponseType := "HttpResponseException"
  const HttpRequestType := "HttpRequestException"
  const AppType := "AppException"

  /** C#'s `e is T` for the type named `t`: its own type, one it derives from, or `Exception`. */
  predicate IsA(e: Exception, t: string)
  {
    t == ExceptionType || t == e.typeName || t in e.bases
  }

  /** The samples' custom exceptions, each passing its fixed status code to CustomException. */
  function NewBadRequest(message: string): Exception
  {
    Exception(BadRequestType, [CustomExceptionType], message, 400, None, None)
  }

  function NewNotFound(message: string): Exception
  {
    Exception(NotFoundType, [CustomExceptionType], message, 404, None, None)
  }

  function NewConflict(message: string): Exception
  {
    Exception(ConflictType, [CustomExceptionType], message, 409, None, None)
  }

  function NewValidation(message: string): Exception
  {
    Exception(ValidationType, [CustomExceptionType], message, 400, None, None)
  }

  /** AppException's status code parameter defaults to 400. */
  function NewApp(message: string, statusCode: Option<int>): Exception
  {
    Exception(AppType, [CustomExceptionType], message, statusCode.GetOr(400), None, None)
  }

  predicate IsUpper(c: char)
  {
    'A' <= c <= 'Z'
  }

  /** Humanizer's `Humanize(LetterCasing.Title)` on a PascalCase type name: a space before every
      capital after the first character ("NotFoundException" gives "Not Found Exception"). */
  function Humanize(name: string): string
  {
    if name == [] then [] else [name[0]] + SpaceWords(name[1..])
  }

  function SpaceWords(s: string): string
    decreases |s|
  {
    if s == [] then []
    else (if IsUpper(s[0]) then [' ', s[0]] else [s[0]]) + SpaceWords(s[1..])
  }

  /** `s` with every space removed. */
  function Unspaced(s: string): (r: string)
    ensures |r| <= |s|
    decreases |s|
  {
    if s == [] then [] else (if s[0] == ' ' then [] else [s[0]]) + Unspaced(s[1..])
  }

  lemma {:induction false} UnspacedAppend(a: string, b: string)
    ensures Unspaced(a + b) == Unspaced(a) + Unspaced(b)
    decreases |a|
  {
    if a == [] {
      assert a + b == b;
    } else {
      assert (a + b)[0] == a[0] && (a + b)[1..] == a[1..] + b;
      UnspacedAppend(a[1..], b);
    }
  }

  lemma {:induction false} SpaceWordsUnspaced(s: string)
    requires forall i :: 0 <= i < |s| ==> s[i] != ' '
    ensures Unspaced(SpaceWords(s)) == s
    decreases |s|
  {
    if s != [] {
      var head := if IsUpper(s[0]) then [' ', s[0]] else [s[0]];
      UnspacedAppend(head, SpaceWords(s[1..]));
      SpaceWordsUnspaced(s[1..]);
      assert Unspaced(head) == [s[0]];
    }
  }

  /** The simplified title is the type name with spaces put in and nothing else changed:
      removing its spaces gives the type name back, so under this simplification different type
      names never share a title. */
  lemma HumanizeUnspaces(name: string)
    requires forall i :: 0 <= i < |name| ==> name[i] != ' '
    ensures Unspaced(Humanize(name)) == name
  {
    if name != [] {
      UnspacedAppend([name[0]], SpaceWords(name[1..]));
      SpaceWordsUnspaced(name[1..]);
    }
  }

  /** Where a switch arm takes its status code from: the exception's own StatusCode, a constant,
      or the `(int)` cast of HttpRequestException's nullable StatusCode, which throws on null. */
  datatype StatusSource = OwnStatus | Fixed(code: int) | CastHttpStatus

  /** One `case T x =>` arm of a switch over an exception. */
  datatype Arm = Arm(typeName: string, source: StatusSource)

  /** The first of `items`, from `from` on, whose type (as `typeOf` gives it) `e` is: the
      arm a C# switch takes, or the mapper a first-match loop picks. */
  function FirstOfType<T>(items: seq<T>, typeOf: T -> string, e: Exception, from: nat): (r: Option<nat>)
    requires from <= |items|
    ensures r.Some? ==> from <= r.value < |items| && IsA(e, typeOf(items[r.value]))
    ensures r.Some? ==> forall j :: from <= j < r.value ==> !IsA(e, typeOf(items[j]))
    ensures r.None? <==> forall j :: from <= j < |items| ==> !IsA(e, typeOf(items[j]))
    decreases |items| - from
  {
    if from == |items| then None
    else if IsA(e, typeOf(items[from])) then Some(from)
    else FirstOfType(items, typeOf, e, from + 1)
  }

  /** The first match is `i` exactly when `e` is of item `i`'s type and of no earlier one. */
  lemma FirstOfTypeIs<T>(items: seq<T>, typeOf: T -> string, e: Exception, i: nat)
    requires i < |items| && IsA(e, typeOf(items[i]))
    requires forall j :: 0 <= j < i ==> !IsA(e, typeOf(items[j]))
    ensures FirstOfType(items, typeOf, e, 0) == Some(i)
  {
    var r := FirstOfType(items, typeOf, e, 0);
    if r.None? || r.value != i {
      assert false;
    }
  }

  /** A match among the first items is not changed by appending more. */
  lemma {:induction false} FirstOfTypeAppend<T>(items: seq<T>, more: seq<T>, typeOf: T -> string, e: Exception, from: nat)
    requires from <= |items| && FirstOfType(items, typeOf, e, from).Some?
    ensures FirstOfType(items + more, typeOf, e, from) == FirstOfType(items, typeOf, e, from)
    decreases |items| - from
  {
    assert (items + more)[from] == items[from];
    if !IsA(e, typeOf(items[from])) {
      FirstOfTypeAppend(items, more, typeOf, e, from + 1);
    }
  }

  /** The status code an arm produces for `e`. */
  function ArmStatus(source: StatusSource, e: Exception): Outcome<int>
  {
    match source
    case OwnStatus => Returns(e.statusCode)
    case Fixed(code) => Returns(code)
    case CastHttpStatus => if e.httpStatus.Some? then Returns(e.httpStatus.value) else Throws
  }

  function ArmType(a: Arm): string
  {
    a.typeName
  }

  /** The status code of the arm the switch takes; `None` when it falls to its default. */
  function SwitchStatus(arms: seq<Arm>, e: Exception): Option<Outcome<int>>
  {
    match FirstOfType(arms, ArmType, e, 0)
    case None => None
    case Some(i) => Some(ArmStatus(arms[i].source, e))
  }

  /** The switch takes arm `i` exactly when `e` is that arm's type and none of the earlier ones;
      it falls to its default exactly when `e` is none of them. */
  lemma SwitchTakesFirst(arms: seq<Arm>, e: Exception, i: nat)
    requires i < |arms| && IsA(e, arms[i].typeName)
    requires forall j :: 0 <= j < i ==> !IsA(e, arms[j].typeName)
    ensures SwitchStatus(arms, e) == Some(ArmStatus(arms[i].source, e))
  {
    FirstOfTypeIs(arms, ArmType, e, i);
  }

  lemma SwitchDefault(arms: seq<Arm>, e: Exception)
    ensures SwitchStatus(arms, e).None? <==> forall j :: 0 <= j < |arms| ==> !IsA(e, arms[j].typeName)
  {
  }
}
