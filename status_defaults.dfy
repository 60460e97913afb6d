/**
 * ProblemDetailsDefaults of the minimal-API sample: a fixed table of RFC links and titles per
 * status code, and Apply, which fills in a missing status and then a missing title and type.
 */
module ProblemDetailsDefaults {
  import opened Wrappers
  import opened ProblemModel

  /** The (Type, Title) pair the table holds for a status code. */
  datatype Default = Default(typeUri: string, title: string)

  const Rfc7231 := "https://tools.ietf.org/html/rfc7231#section-"

  const Defaults: map<int, Default> := map[
    400 := Default(Rfc7231 + "6.5.1", "Bad Request"),
    401 := Default("https://tools.ietf.org/html/rfc7235#section-3.1", "Unauthorized"),
    403 := Default(Rfc7231 + "6.5.3", "Forbidden"),
    404 := Default(Rfc7231 + "6.5.4", "Not Found"),
    405 := Default(Rfc7231 + "6.5.5", "Method Not Allowed"),
    406 := Default(Rfc7231 + "6.5.6", "Not Acceptable"),
    409 := Default(Rfc7231 + "6.5.8", "Conflict"),
    415 := Default(Rfc7231 + "6.5.13", "Unsupported Media Type"),
    422 := Default("https://tools.ietf.org/html/rfc4918#section-11.2", "Unprocessable Entity"),
    500 := Default(Rfc7231 + "6.6.1", "An error occurred while processing your request.")
  ]

  /** The table covers exactly these ten status codes. */
  lemma DefaultsTable()
    ensures Defaults.Keys == {400, 401, 403, 404, 405, 406, 409, 415, 422, 500}
    ensures Defaults[404] == Default("https://tools.ietf.org/html/rfc7231#section-6.5.4", "Not Found")
    ensures Defaults[422] == Default("https://tools.ietf.org/html/rfc4918#section-11.2", "Unprocessable Entity")
  {
  }

  /** The status Apply settles on: the problem's own, else the one passed in, else 400 for
      validation problem details and 500 for any other. */
  function AppliedStatus(p: Problem, statusCode: Option<int>): int
  {
    if p.status.Some? then p.status.value
    else if statusCode.Some? then statusCode.value
    else if p.validation then 400 else 500
  }

  /** What Apply leaves in a problem. */
  function Applied(p: Problem, statusCode: Option<int>): (r: Problem)
    ensures r.status.Some?
    ensures p.status.Some? ==> r.status == p.status
    ensures p.title.Some? ==> r.title == p.title
    ensures p.typeUri.Some? ==> r.typeUri == p.typeUri
    ensures r.status.value in Defaults ==> r.title.Some? && r.typeUri.Some?
    ensures r.status.value !in Defaults ==> r.title == p.title && r.typeUri == p.typeUri
    ensures r.detail == p.detail && r.instance == p.instance && r.extensions == p.extensions
    ensures r.validation == p.validation && r.errors == p.errors
  {
    var s := AppliedStatus(p, statusCode);
    if s in Defaults then
      p.(status := Some(s), title := Some(p.title.GetOr(Defaults[s].title)),
         typeUri := Some(p.typeUri.GetOr(Defaults[s].typeUri)))
    else p.(status := Some(s))
  }

  /** `Apply(problemDetails, statusCode)`. */
  method Apply(problemDetails: ProblemDetails, statusCode: Option<int>)
    modifies problemDetails
    ensures problemDetails.Snapshot() == Applied(old(problemDetails.Snapshot()), statusCode)
  {
    if problemDetails.status.None? {
      if statusCode.Some? {
        problemDetails.status := statusCode;
      } else {
        problemDetails.status := if problemDetails.validation then Some(400) else Some(500);
      }
    }
    var s := problemDetails.status.value;
    if s in Defaults {
      if problemDetails.title.None? {
        problemDetails.title := Some(Defaults[s].title);
      }
      if problemDetails.typeUri.None? {
        problemDetails.typeUri := Some(Defaults[s].typeUri);
      }
    }
  }

  /** A null status with a status code passed in takes it; with none, it becomes 400 for
      validation problem details and 500 for others. */
  lemma AppliedFillsStatus(p: Problem, statusCode: Option<int>)
    requires p.status.None?
    ensures statusCode.Some? ==> Applied(p, statusCode).status == statusCode
    ensures statusCode.None? ==> Applied(p, statusCode).status == Some(if p.validation then 400 else 500)
  {
  }

  /** A status in the table fills a null title and type from the table, and nothing else. */
  lemma AppliedFillsFromTable(p: Problem, statusCode: Option<int>)
    requires AppliedStatus(p, statusCode) in Defaults
    ensures var d := Defaults[AppliedStatus(p, statusCode)];
            && Applied(p, statusCode).title == Some(p.title.GetOr(d.title))
            && Applied(p, statusCode).typeUri == Some(p.typeUri.GetOr(d.typeUri))
  {
  }

  /** Apply is idempotent: once applied, applying again, with any status code, changes nothing. */
  lemma AppliedIdempotent(p: Problem, statusCode: Option<int>, again: Option<int>)
    ensures Applied(Applied(p, statusCode), again) == Applied(p, statusCode)
  {
  }
}
