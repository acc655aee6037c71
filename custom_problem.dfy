/** The structured error body the agent answers with (`CustomProblem`, an RFC 7807
    problem details object): the status code, a fixed documentation link as its type, the
    name of the status code as its title, a detail line and, when built from a list of
    reasons, a "reasons" extension holding the whole list. A null detail is `None`.
    `HttpStatusCode` is given as the map from the codes it names to their names. */
module CustomProblem {
  import opened Common
  import opened Text

  const ProblemType := "https://github.com/Advance-Technologies-Foundation/clio/blob/master/README.md"
  const ReasonsKey := "reasons"
  const UnknownError := "Unknown Error"

  datatype Problem = Problem(status: int, problemType: string, title: string, detail: Option<string>, extensions: map<string, seq<string>>)

  /** `((HttpStatusCode)status).ToString()`: the member's name, or the number itself for
      a code the enumeration does not name. */
  function Title(codes: map<int, string>, status: int): (t: string)
    ensures status in codes ==> t == codes[status]
    ensures status !in codes ==> t == IntString(status)
  {
    if status in codes then codes[status] else IntString(status)
  }

  /** `new CustomProblem(status, detail)`. */
  function WithDetail(codes: map<int, string>, status: int, detail: string): (p: Problem)
    ensures p.status == status && p.problemType == ProblemType && p.title == Title(codes, status)
    ensures p.detail == Some(detail) && ReasonsKey !in p.extensions
  {
    Problem(status, ProblemType, Title(codes, status), Some(detail), map[])
  }

  /** `new CustomProblem(status, extensions)`: the first reason is the detail, null when
      there is none, and every reason in order is under "reasons". */
  function WithReasons(codes: map<int, string>, status: int, reasons: seq<string>): (p: Problem)
    ensures p.status == status && p.problemType == ProblemType && p.title == Title(codes, status)
    ensures p.detail == (if reasons == [] then None else Some(reasons[0]))
    ensures p.extensions.Keys == {ReasonsKey} && p.extensions[ReasonsKey] == reasons
  {
    Problem(status, ProblemType, Title(codes, status),
            if reasons == [] then None else Some(reasons[0]), map[ReasonsKey := reasons])
  }

  /** `errors.Select(e => e.Description)`. */
  function Descriptions(errors: seq<Error>): (r: seq<string>)
    ensures |r| == |errors| && forall i :: 0 <= i < |errors| ==> r[i] == errors[i].description
  {
    if errors == [] then [] else [errors[0].description] + Descriptions(errors[1..])
  }

  /** A DataAnnotations `ValidationResult`; its message may be null. */
  datatype ValidationResult = ValidationResult(errorMessage: Option<string>)

  /** `errors.Select(e => e.ErrorMessage ?? "Unknown Error")`. */
  function Messages(results: seq<ValidationResult>): (r: seq<string>)
    ensures |r| == |results|
    ensures forall i :: 0 <= i < |results| ==>
      r[i] == (if results[i].errorMessage.Some? then results[i].errorMessage.value else UnknownError)
  {
    if results == [] then []
    else [if results[0].errorMessage.Some? then results[0].errorMessage.value else UnknownError] + Messages(results[1..])
  }

  /** `CreateCustomProblem(status, detail)`. */
  function CreateFromDetail(codes: map<int, string>, status: int, detail: string): Problem {
    WithDetail(codes, status, detail)
  }

  /** `CreateCustomProblem(status, IEnumerable<string>)`. */
  function CreateFromReasons(codes: map<int, string>, status: int, reasons: seq<string>): Problem {
    WithReasons(codes, status, reasons)
  }

  /** `CreateCustomProblem(status, IEnumerable<Error>)`. */
  function CreateFromErrors(codes: map<int, string>, status: int, errors: seq<Error>): Problem {
    WithReasons(codes, status, Descriptions(errors))
  }

  /** `CreateCustomProblem(status, IEnumerable<ValidationResult>)`. */
  function CreateFromValidation(codes: map<int, string>, status: int, results: seq<ValidationResult>): Problem {
    WithReasons(codes, status, Messages(results))
  }

  /** A problem built from ErrorOr errors lists every error's description, in the errors'
      order, and its detail is the first error's description. */
  lemma ErrorsProblem(codes: map<int, string>, status: int, errors: seq<Error>)
    ensures var p := CreateFromErrors(codes, status, errors);
      && p.status == status && p.problemType == ProblemType
      && |p.extensions[ReasonsKey]| == |errors|
      && (forall i :: 0 <= i < |errors| ==> p.extensions[ReasonsKey][i] == errors[i].description)
      && (errors == [] <==> p.detail == None)
      && (errors != [] ==> p.detail == Some(errors[0].description))
  {
  }

  /** A problem built from validation results has one reason per result, the result's
      message or "Unknown Error" where it has none. */
  lemma ValidationProblem(codes: map<int, string>, status: int, results: seq<ValidationResult>)
    ensures var p := CreateFromValidation(codes, status, results);
      && p.status == status && p.problemType == ProblemType
      && |p.extensions[ReasonsKey]| == |results|
      && (forall i :: 0 <= i < |results| ==>
            && (results[i].errorMessage == None ==> p.extensions[ReasonsKey][i] == UnknownError)
            && (results[i].errorMessage.Some? ==> p.extensions[ReasonsKey][i] == results[i].errorMessage.value))
      && (results != [] ==> p.detail.Some?)
  {
  }

  /** The two ways of building a problem differ only in the "reasons" extension: one
      reason gives the body a detail gives, plus that reason under "reasons". */
  lemma OneReasonIsDetail(codes: map<int, string>, status: int, reason: string)
    ensures var p := CreateFromReasons(codes, status, [reason]);
      var q := CreateFromDetail(codes, status, reason);
      && p.(extensions := map[]) == q
      && p.extensions == map[ReasonsKey := [reason]]
  {
  }
}
