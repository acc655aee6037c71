/** Shared vocabulary of the agent: optional values, the ErrorOr result returned by
    the handlers, the job status enum and Guids. */
module Common {

  datatype Option<T> = None | Some(value: T)

  /** The two ErrorOr error kinds the core produces (Error.Failure, Error.Validation). */
  datatype ErrorKind = Failure | Validation

  /** An ErrorOr error: its kind, its machine code and its human description. */
  datatype Error = Error(kind: ErrorKind, code: string, description: string)

  function Fail(code: string, description: string): (e: Error)
    ensures e.kind == Failure && e.code == code && e.description == description
  {
    Error(Failure, code, description)
  }

  function Invalid(code: string, description: string): (e: Error)
    ensures e.kind == Validation && e.code == code && e.description == description
  {
    Error(Validation, code, description)
  }

  /** ErrorOr<T>: either a value or the list of errors. */
  datatype Result<T> = Ok(value: T) | Err(errors: seq<Error>)

  /** The outcome of a library call: its value, or the message of the exception it threw. */
  datatype Attempt<T> = Value(value: T) | Threw(message: string)

  /** ErrorOr's `Success` marker value. */
  datatype Unit = Unit

  /** The `Status` enum of clioAgent/AgentJsonSerializerContext.cs. */
  datatype Status = Pending | Completed | Started | Failed

  /** `Status.ToString()`: the enum member's name. */
  function StatusName(s: Status): string {
    match s
    case Pending => "Pending"
    case Completed => "Completed"
    case Started => "Started"
    case Failed => "Failed"
  }

  lemma StatusNameInjective(s: Status, t: Status)
    requires StatusName(s) == StatusName(t)
    ensures s == t
  {
  }

  /** A handler's `Dictionary<string, object>` command object, each value given by its
      `ToString()`; a key whose value is null is absent. */
  type CommandObj = map<string, string>

  /** `commandObj.TryGetValue(key, out v)` followed by `v?.ToString() ?? string.Empty`. */
  function Arg(cmd: CommandObj, key: string): (r: string)
    ensures key in cmd ==> r == cmd[key]
    ensures key !in cmd ==> r == ""
  {
    if key in cmd then cmd[key] else ""
  }

  /** A Guid; `Guid.Empty` is 0. */
  type Guid = nat

  const EmptyGuid: Guid := 0

  function HexDigit(d: nat): (c: char)
    requires d < 16
    ensures c in "0123456789abcdef"
  {
    "0123456789abcdef"[d]
  }

  /** The last `k` hexadecimal digits of `n`, most significant first. */
  function Hex(n: nat, k: nat): (r: string)
    ensures |r| == k && forall i :: 0 <= i < k ==> r[i] in "0123456789abcdef"
  {
    if k == 0 then "" else Hex(n / 16, k - 1) + [HexDigit(n % 16)]
  }

  /** `Guid.ToString()`, the "D" format: 32 lower-case hexadecimal digits of the value in
      groups of 8, 4, 4, 4 and 12, joined by '-'. */
  function GuidText(g: Guid): (r: string)
    ensures |r| == 36 && r[8] == '-' && r[13] == '-' && r[18] == '-' && r[23] == '-'
  {
    var h := Hex(g, 32);
    h[..8] + "-" + h[8..12] + "-" + h[12..16] + "-" + h[16..20] + "-" + h[20..]
  }

  /** `Console.Out`: the lines written so far. */
  class Console {
    var lines: seq<string>

    constructor ()
      ensures lines == []
    {
      lines := [];
    }

    method WriteLine(s: string)
      modifies this
      ensures lines == old(lines) + [s]
    {
      lines := lines + [s];
    }
  }

  /** `Guid.NewGuid()`: every Guid it hands out is new and never `Guid.Empty`.
      Uniqueness, which the runtime gets from randomness, comes here from a counter. */
  class GuidSource {
    var next: nat
    ghost var issued: set<Guid>

    ghost predicate Valid()
      reads this
    {
      0 < next && forall g :: g in issued ==> 0 < g < next
    }

    constructor ()
      ensures Valid() && issued == {}
    {
      next := 1;
      issued := {};
    }

    method NewGuid() returns (g: Guid)
      requires Valid()
      modifies this
      ensures Valid()
      ensures g != EmptyGuid && g !in old(issued)
      ensures issued == old(issued) + {g}
    {
      g := next;
      next := next + 1;
      issued := issued + {g};
    }
  }
}
