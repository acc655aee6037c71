/** The .NET string operations the core relies on: emptiness and white-space tests,
    ordinal and case-insensitive comparison, `Replace(x, "")`, and the `bool.TryParse`
    and `int.TryParse` conversions. Characters are compared by code point; case folding
    is modelled for ASCII letters only. */
module Text {
  import opened Common

  predicate StartsWith(s: string, p: string) {
    |p| <= |s| && s[..|p|] == p
  }

  predicate EndsWith(s: string, p: string) {
    |p| <= |s| && s[|s| - |p|..] == p
  }

  predicate StartsWithChar(s: string, c: char) {
    |s| > 0 && s[0] == c
  }

  predicate EndsWithChar(s: string, c: char) {
    |s| > 0 && s[|s| - 1] == c
  }

  /** `char.IsWhiteSpace`: the Unicode white-space characters, that is the controls
      U+0009 to U+000D and U+0085 and the separators of the categories Zs, Zl and Zp. */
  predicate IsWhiteSpace(c: char) {
    ('\U{0009}' <= c <= '\U{000D}') || c == ' ' || c == '\U{0085}' || c == '\U{00A0}'
    || c == '\U{1680}' || ('\U{2000}' <= c <= '\U{200A}') || c == '\U{2028}' || c == '\U{2029}'
    || c == '\U{202F}' || c == '\U{205F}' || c == '\U{3000}'
  }

  /** `string.IsNullOrWhiteSpace` for a non-null string. */
  predicate IsNullOrWhiteSpace(s: string) {
    forall i :: 0 <= i < |s| ==> IsWhiteSpace(s[i])
  }

  function ToLowerChar(c: char): char {
    if 'A' <= c <= 'Z' then (c as int + 32) as char else c
  }

  function ToLower(s: string): (r: string)
    ensures |r| == |s|
    ensures forall i :: 0 <= i < |s| ==> r[i] == ToLowerChar(s[i])
  {
    if s == [] then [] else [ToLowerChar(s[0])] + ToLower(s[1..])
  }

  /** `string.Equals(a, b, StringComparison.OrdinalIgnoreCase)`. */
  predicate EqualsIgnoreCase(a: string, b: string) {
    |a| == |b| && forall i :: 0 <= i < |a| ==> ToLowerChar(a[i]) == ToLowerChar(b[i])
  }

  /** Equal ignoring case means equal once both are lowered. */
  lemma EqualsIgnoreCaseLowers(a: string, b: string)
    ensures EqualsIgnoreCase(a, b) <==> ToLower(a) == ToLower(b)
  {
    if ToLower(a) == ToLower(b) {
      assert |a| == |b|;
      forall i | 0 <= i < |a| ensures ToLowerChar(a[i]) == ToLowerChar(b[i]) {
        assert ToLower(a)[i] == ToLower(b)[i];
      }
    }
  }

  /** `Trim()` of white space and NUL characters on both ends, as `bool.TryParse` does. */
  function TrimParseBlanks(s: string): (r: string)
    ensures |r| <= |s|
    decreases |s|
  {
    if s == [] then []
    else if IsWhiteSpace(s[0]) || s[0] == '\0' then TrimParseBlanks(s[1..])
    else if IsWhiteSpace(s[|s| - 1]) || s[|s| - 1] == '\0' then TrimParseBlanks(s[..|s| - 1])
    else s
  }

  /** `bool.TryParse`: "True" or "False" in any letter case, surrounded by blanks. */
  function ParseBool(s: string): Option<bool> {
    var t := ToLower(TrimParseBlanks(s));
    if t == "true" then Some(true) else if t == "false" then Some(false) else None
  }

  /** `bool.TryParse` accepts exactly the two words, in any letter case, once the blanks
      around them are trimmed. */
  lemma ParseBoolIgnoresCase(s: string)
    ensures ParseBool(s) == Some(true) <==> EqualsIgnoreCase(TrimParseBlanks(s), "true")
    ensures ParseBool(s) == Some(false) <==> EqualsIgnoreCase(TrimParseBlanks(s), "false")
  {
    assert ToLower("true") == "true" && ToLower("false") == "false";
  }

  /** `bool.ToString()`. */
  function BoolString(b: bool): string {
    if b then "True" else "False"
  }

  lemma BoolStringParses(b: bool)
    ensures ParseBool(BoolString(b)) == Some(b)
  {
    assert TrimParseBlanks(BoolString(b)) == BoolString(b);
  }

  predicate IsDigit(c: char) {
    '0' <= c <= '9'
  }

  /** The value of a string of decimal digits, most significant first. */
  function DigitsValue(s: string): (n: nat)
    requires forall i :: 0 <= i < |s| ==> IsDigit(s[i])
  {
    if s == [] then 0
    else
      assert IsDigit(s[|s| - 1]);
      DigitsValue(s[..|s| - 1]) * 10 + (s[|s| - 1] as int - '0' as int)
  }

  const MinInt32: int := -0x8000_0000
  const MaxInt32: int := 0x7FFF_FFFF

  predicate AllDigits(s: string) {
    forall i :: 0 <= i < |s| ==> IsDigit(s[i])
  }

  /** The white space that number parsing skips: U+0009 to U+000D and the space, a
      narrower set than `char.IsWhiteSpace`. */
  predicate IsNumberWhite(c: char) {
    ('\U{0009}' <= c <= '\U{000D}') || c == ' '
  }

  /** `int.TryParse` with the default integer style and the invariant signs: optional
      leading number white space, an optional sign, at least one decimal digit, optional
      trailing number white space and then any number of NUL characters, within the
      32-bit range. */
  function ParseInt32(s: string): (r: Option<int>)
    ensures r.Some? ==> MinInt32 <= r.value <= MaxInt32
  {
    var t := TrimNumberWhite(TrimTrailingNuls(s));
    var negative := StartsWithChar(t, '-');
    var digits := if StartsWithChar(t, '-') || StartsWithChar(t, '+') then t[1..] else t;
    if digits == [] || !AllDigits(digits) then None
    else
      var v: int := if negative then -(DigitsValue(digits) as int) else DigitsValue(digits);
      if MinInt32 <= v <= MaxInt32 then Some(v) else None
  }

  /** Number white space trimmed from both ends. */
  function TrimNumberWhite(s: string): (r: string)
    ensures |r| <= |s|
    decreases |s|
  {
    if s == [] then []
    else if IsNumberWhite(s[0]) then TrimNumberWhite(s[1..])
    else if IsNumberWhite(s[|s| - 1]) then TrimNumberWhite(s[..|s| - 1])
    else s
  }

  /** NUL characters trimmed from the end. */
  function TrimTrailingNuls(s: string): (r: string)
    ensures |r| <= |s|
  {
    if s != [] && s[|s| - 1] == '\0' then TrimTrailingNuls(s[..|s| - 1]) else s
  }

  /** Decimal digits of a natural number, as `int.ToString()` writes them. */
  function DecimalDigits(n: nat): (r: string)
    ensures |r| > 0
    ensures forall i :: 0 <= i < |r| ==> IsDigit(r[i])
  {
    if n < 10 then [('0' as int + n) as char]
    else DecimalDigits(n / 10) + [('0' as int + n % 10) as char]
  }

  /** `int.ToString()`. */
  function IntString(n: int): string {
    if n < 0 then "-" + DecimalDigits(-n) else DecimalDigits(n)
  }

  lemma {:induction false} DecimalDigitsValue(n: nat)
    ensures DigitsValue(DecimalDigits(n)) == n
  {
    if n >= 10 {
      DecimalDigitsValue(n / 10);
      var d := DecimalDigits(n);
      assert d[..|d| - 1] == DecimalDigits(n / 10);
    }
  }

  /** `int.TryParse` reads back every 32-bit value that `int.ToString()` writes. */
  lemma IntStringParses(n: int)
    requires MinInt32 <= n <= MaxInt32
    ensures ParseInt32(IntString(n)) == Some(n)
  {
    var s := IntString(n);
    var m: nat := if n < 0 then -n else n;
    DecimalDigitsValue(m);
    var d := DecimalDigits(m);
    assert !IsNumberWhite(s[0]) && !IsNumberWhite(s[|s| - 1]) && s[|s| - 1] != '\0';
    assert TrimTrailingNuls(s) == s && TrimNumberWhite(s) == s;
    if n < 0 {
      assert s[1..] == d;
    } else {
      assert !StartsWithChar(s, '+') && !StartsWithChar(s, '-');
    }
  }

  /** `int.TryParse` skips a space before the number and a space and a NUL after it. */
  lemma IntStringPadding(n: int)
    requires MinInt32 <= n <= MaxInt32
    ensures ParseInt32(" " + IntString(n) + " \0") == Some(n)
  {
    IntStringParses(n);
    var x := IntString(n);
    IntStringEnds(n);
    var p := " " + x + " \0";
    assert p[..|p| - 1] == " " + x + " ";
    assert TrimTrailingNuls(" " + x + " ") == " " + x + " ";
    assert (" " + x + " ")[1..] == x + " ";
    assert (x + " ")[0] == x[0] && (x + " ")[..|x|] == x;
    assert TrimNumberWhite(x) == x && TrimTrailingNuls(x) == x;
    assert TrimTrailingNuls(p) == " " + x + " ";
    assert TrimNumberWhite(" " + x + " ") == TrimNumberWhite(x + " ") == x;
    assert TrimNumberWhite(TrimTrailingNuls(p)) == TrimNumberWhite(TrimTrailingNuls(x));
  }

  /** A trailing no-break space stops `int.TryParse`, although `char.IsWhiteSpace` counts
      it as white space. */
  lemma IntStringNoBreakSpace(n: int)
    ensures ParseInt32(IntString(n) + "\U{00A0}") == None
  {
    var x := IntString(n);
    IntStringEnds(n);
    var q := x + "\U{00A0}";
    assert q[0] == x[0] && q[|q| - 1] == '\U{00A0}';
    assert TrimTrailingNuls(q) == q;
    assert TrimNumberWhite(q) == q;
    if StartsWithChar(q, '-') || StartsWithChar(q, '+') {
      assert !IsDigit(q[1..][|q| - 2]);
    } else {
      assert !IsDigit(q[|q| - 1]);
    }
  }

  /** `int.ToString()` neither begins nor ends with number white space or a NUL. */
  lemma IntStringEnds(n: int)
    ensures var x := IntString(n);
      |x| > 0 && !IsNumberWhite(x[0]) && !IsNumberWhite(x[|x| - 1]) && x[|x| - 1] != '\0'
  {
  }

  /** `s` contains `pat` at position `i`. */
  predicate OccursAt(s: string, pat: string, i: nat) {
    i + |pat| <= |s| && s[i..i + |pat|] == pat
  }

  /** `s.Replace(pat, "")`: every non-overlapping occurrence of `pat`, scanning from the
      left, is removed. .NET throws for an empty `pat`; callers check that first. */
  function RemoveAll(s: string, pat: string): (r: string)
    requires pat != []
    ensures |r| <= |s|
    ensures (forall i: nat :: !OccursAt(s, pat, i)) ==> r == s
    decreases |s|
  {
    if |s| < |pat| then s
    else if s[..|pat|] == pat then
      assert OccursAt(s, pat, 0);
      RemoveAll(s[|pat|..], pat)
    else
      var rest := RemoveAll(s[1..], pat);
      assert (forall i: nat :: !OccursAt(s, pat, i)) ==> forall i: nat :: !OccursAt(s[1..], pat, i) by {
        if forall i: nat :: !OccursAt(s, pat, i) {
          forall i: nat ensures !OccursAt(s[1..], pat, i) {
            assert !OccursAt(s, pat, i + 1);
            if i + |pat| <= |s[1..]| {
              assert s[1..][i..i + |pat|] == s[i + 1..i + 1 + |pat|];
            }
          }
        }
      }
      [s[0]] + rest
  }
}
