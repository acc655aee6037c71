/** The DataAnnotations rules the handlers' argument records carry, and the failure
    texts of the source-generated Options validators that check them. A failure reads
    "<member>: <message>", where `{0}` in the message is "<record type>.<member>", and
    each failure becomes one `Error.Validation("Validation", failure)`. */
module Annotations {
  import opened Common
  import opened Text

  /** `[Required]` on a string: not null, not empty and not only white space. */
  predicate RequiredHolds(s: string) {
    !IsNullOrWhiteSpace(s)
  }

  /** `[Range(lo, hi)]` on an int: inclusive on both ends. */
  predicate RangeHolds(v: int, lo: int, hi: int) {
    lo <= v <= hi
  }

  function DisplayName(typeName: string, member: string): string {
    typeName + "." + member
  }

  function Failure(member: string, message: string): (r: string)
    ensures StartsWith(r, member)
  {
    member + ": " + message
  }

  /** `[Required]` with no message of its own. */
  function RequiredDefaultMessage(display: string): string {
    "The " + display + " field is required."
  }

  /** The failures of one member: none when its rule holds, its one message otherwise. */
  function Check(holds: bool, member: string, message: string): (r: seq<string>)
    ensures holds <==> r == []
    ensures !holds ==> r == [Failure(member, message)]
  {
    if holds then [] else [Failure(member, message)]
  }

  /** `failures.Select(failure => Error.Validation("Validation", failure))`. */
  function ToErrors(failures: seq<string>): (r: seq<Error>)
    ensures |r| == |failures|
    ensures forall i :: 0 <= i < |r| ==> r[i] == Invalid("Validation", failures[i])
  {
    if failures == [] then [] else [Invalid("Validation", failures[0])] + ToErrors(failures[1..])
  }
}
