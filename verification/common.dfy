/** Shared vocabulary of the model: optional values, results, the error kinds
    the service raises, 32-bit integers with C#'s unchecked wrap-around,
    .NET whitespace and decimal text. */
module Common {

  /** A Guid, abstracted to a number: only equality matters to the core. */
  type Guid = nat

  /** A DateTime, abstracted to its tick count. */
  type Instant = int

  /** A value that may be absent (a C# null reference or Nullable<T>). */
  datatype Option<+T> = None | Some(value: T)

  /** Either a value or the exception that was thrown instead. */
  datatype Result<+T, +E> = Success(value: T) | Failure(error: E)

  /** A computation that either returned normally or threw. */
  datatype Outcome<+E> = Pass | Fail(error: E)

  /** Why a database write was refused. */
  datatype DbFailure =
    | UniqueViolation(index: string)   // SQLite "UNIQUE constraint failed"
    | Concurrency                      // an update matched no row
    | External(message: string)        // any other storage failure

  /** The exceptions of the core, by .NET exception type. */
  datatype Error =
    | ArgumentNull(paramName: string)
    | Argument(message: string, argName: Option<string>)
    | ArgumentOutOfRange(rangeParam: string)
    | InvalidOperation(message: string)
    | NotSupported(message: string)
    | Json(message: string)
    | DbUpdate(failure: DbFailure)
  {
    /** The text of Exception.Message. An exception built from a message text
        reports that text unchanged. Only the NotSupported and Json texts are
        ever stored (as ErrorMessage, after a failed send); the other texts are
        .NET's own wording and nothing in the model depends on them. */
    function Message(): (m: string)
      ensures InvalidOperation? || NotSupported? || Json? ==> m == message
    {
      match this
      case ArgumentNull(p) => "Value cannot be null. (Parameter '" + p + "')"
      case Argument(m, p) => if p.Some? then m + " (Parameter '" + p.value + "')" else m
      case ArgumentOutOfRange(p) => "Specified argument was out of the range of valid values. (Parameter '" + p + "')"
      case InvalidOperation(m) => m
      case NotSupported(m) => m
      case Json(m) => m
      case DbUpdate(f) =>
        match f
        case Concurrency =>
          "The database operation was expected to affect 1 row(s), but actually affected 0 row(s); "
          + "data may have been modified or deleted since entities were loaded. "
          + "See https://go.microsoft.com/fwlink/?LinkId=527962 for information on understanding "
          + "and handling optimistic concurrency exceptions."
        case _ => "An error occurred while saving the entity changes. See the inner exception for details."
    }
  }

  // ---------------------------------------------------------------------------
  // 32-bit signed integers (C# int)

  const MinInt32: int := -0x8000_0000
  const MaxInt32: int := 0x7fff_ffff
  const TwoTo32: int := 0x1_0000_0000

  type Int32 = x: int | MinInt32 <= x <= MaxInt32

  /** Reduces a mathematical integer to the C# int that unchecked arithmetic yields. */
  function Wrap32(x: int): (r: Int32)
    ensures MinInt32 <= x <= MaxInt32 ==> r == x
    ensures (x - r) % TwoTo32 == 0
  {
    (x - MinInt32) % TwoTo32 + MinInt32
  }

  /** Wrap32 gives the one Int32 congruent to x modulo 2^32. */
  lemma Wrap32Unique(x: int, r: Int32)
    requires (x - r) % TwoTo32 == 0
    ensures Wrap32(x) == r
  {
    var w := Wrap32(x);
    var a := (x - r) / TwoTo32;
    var b := (x - w) / TwoTo32;
    assert x - r == a * TwoTo32;
    assert x - w == b * TwoTo32;
    assert w - r == (a - b) * TwoTo32;
  }

  /** An unchecked increment of a wrapped value is the wrap of the increment:
      counting in C# ints agrees with counting exactly and wrapping once. */
  lemma Wrap32Successor(x: int)
    ensures Wrap32(Wrap32(x) + 1) == Wrap32(x + 1)
  {
    var w := Wrap32(x);
    var r := Wrap32(x + 1);
    var a := (x - w) / TwoTo32;
    var b := (x + 1 - r) / TwoTo32;
    assert x - w == a * TwoTo32;
    assert x + 1 - r == b * TwoTo32;
    assert w + 1 - r == (b - a) * TwoTo32;
    assert (w + 1 - r) % TwoTo32 == 0;
    Wrap32Unique(w + 1, r);
  }

  // ---------------------------------------------------------------------------
  // Characters and strings

  /** char.IsWhiteSpace: the Unicode space separators, line and paragraph separators
      and the control characters U+0009..U+000D and U+0085. */
  predicate IsWhiteSpace(c: char) {
    var n := c as int;
    || (0x09 <= n <= 0x0D) || n == 0x20 || n == 0x85 || n == 0xA0
    || n == 0x1680 || (0x2000 <= n <= 0x200A) || n == 0x2028 || n == 0x2029
    || n == 0x202F || n == 0x205F || n == 0x3000
  }

  /** The white space that integer parsing skips after the digits
      (NumberStyles.AllowTrailingWhite): U+0009..U+000D and U+0020 only. */
  predicate IsAsciiWhiteSpace(c: char) {
    (0x09 <= c as int <= 0x0D) || c == ' '
  }

  /** string.IsNullOrWhiteSpace: null, or nothing is left once leading white
      space is skipped. */
  function IsNullOrWhiteSpace(s: Option<string>): (b: bool)
    ensures b <==> s.None? || TrimStart(s.value) == []
  {
    s.None? || forall i :: 0 <= i < |s.value| ==> IsWhiteSpace(s.value[i])
  }

  /** string.IsNullOrEmpty: a null-or-empty string is also null-or-white-space,
      but not the other way round. */
  function IsNullOrEmpty(s: Option<string>): (b: bool)
    ensures b ==> IsNullOrWhiteSpace(s)
    ensures b <==> s.None? || |s.value| == 0
  {
    s.None? || s.value == ""
  }

  predicate IsDigit(c: char) {
    '0' <= c <= '9'
  }

  predicate AllDigits(s: string) {
    forall i :: 0 <= i < |s| ==> IsDigit(s[i])
  }

  predicate IsAsciiLower(c: char) {
    'a' <= c <= 'z'
  }

  /** Ordinal upper-casing restricted to ASCII letters. */
  function UpperChar(c: char): (u: char)
    ensures IsAsciiLower(c) ==> 'A' <= u <= 'Z'
    ensures !IsAsciiLower(c) ==> u == c
  {
    if IsAsciiLower(c) then (c as int - 32) as char else c
  }

  function Upper(s: string): (u: string)
    ensures |u| == |s|
    ensures forall i :: 0 <= i < |s| ==> u[i] == UpperChar(s[i])
  {
    seq(|s|, i requires 0 <= i < |s| => UpperChar(s[i]))
  }

  /** String.Trim(): drops leading and trailing white space. */
  function TrimStart(s: string): (r: string)
    ensures |r| <= |s| && r == s[|s| - |r|..]
    ensures r == [] || !IsWhiteSpace(r[0])
    ensures forall i :: 0 <= i < |s| - |r| ==> IsWhiteSpace(s[i])
  {
    if |s| > 0 && IsWhiteSpace(s[0]) then TrimStart(s[1..]) else s
  }

  function TrimEnd(s: string): (r: string)
    ensures |r| <= |s| && r == s[..|r|]
    ensures r == [] || !IsWhiteSpace(r[|r| - 1])
    ensures forall i :: |r| <= i < |s| ==> IsWhiteSpace(s[i])
  {
    if |s| > 0 && IsWhiteSpace(s[|s| - 1]) then TrimEnd(s[..|s| - 1]) else s
  }

  /** The trim is the slice of s left once the white space at both ends is
      dropped, starting where leading white space ends: it neither starts nor
      ends with white space, and everything cut off is white space. */
  function Trim(s: string): (r: string)
    ensures r == [] || (!IsWhiteSpace(r[0]) && !IsWhiteSpace(r[|r| - 1]))
    ensures var k := |s| - |TrimStart(s)|;
              && k + |r| <= |s|
              && r == s[k..k + |r|]
              && (forall i | 0 <= i < k :: IsWhiteSpace(s[i]))
              && (forall i | k + |r| <= i < |s| :: IsWhiteSpace(s[i]))
  {
    var t := TrimStart(s);
    var r := TrimEnd(t);
    PrefixOfSuffix(s, t, r);
    assert r != [] ==> r[0] == t[0];
    r
  }

  /** A prefix of a suffix is a slice, and what follows the prefix in the
      suffix follows the slice in the whole. */
  lemma PrefixOfSuffix(s: string, t: string, r: string)
    requires |t| <= |s| && t == s[|s| - |t|..]
    requires |r| <= |t| && r == t[..|r|]
    requires forall j :: |r| <= j < |t| ==> IsWhiteSpace(t[j])
    ensures var k := |s| - |t|;
              && r == s[k..k + |r|]
              && (forall i | k + |r| <= i < |s| :: IsWhiteSpace(s[i]))
  {
    var k := |s| - |t|;
    forall i | k + |r| <= i < |s|
      ensures IsWhiteSpace(s[i])
    {
      assert s[i] == t[i - k];
    }
  }

  /** Drops trailing ASCII white space only, as integer parsing does. */
  function TrimEndAscii(s: string): (r: string)
    ensures |r| <= |s| && r == s[..|r|]
    ensures r == [] || !IsAsciiWhiteSpace(r[|r| - 1])
    ensures forall i :: |r| <= i < |s| ==> IsAsciiWhiteSpace(s[i])
  {
    if |s| > 0 && IsAsciiWhiteSpace(s[|s| - 1]) then TrimEndAscii(s[..|s| - 1]) else s
  }

  /** A string trims to nothing exactly when it is all white space. */
  lemma TrimEmptyIffBlank(s: string)
    ensures Trim(s) == [] <==> IsNullOrWhiteSpace(Some(s))
  {
  }

  /** Upper-casing neither creates nor removes white space. */
  lemma UpperCharWhiteSpace(c: char)
    ensures IsWhiteSpace(UpperChar(c)) == IsWhiteSpace(c)
  {
  }

  /** Upper-casing commutes with trimming, since it maps white space to itself. */
  lemma {:induction false} TrimStartUpper(s: string)
    ensures TrimStart(Upper(s)) == Upper(TrimStart(s))
    decreases |s|
  {
    if |s| > 0 {
      var u := Upper(s);
      UpperCharWhiteSpace(s[0]);
      if IsWhiteSpace(s[0]) {
        assert u[1..] == Upper(s[1..]);
        TrimStartUpper(s[1..]);
      }
    }
  }

  lemma {:induction false} TrimEndUpper(s: string)
    ensures TrimEnd(Upper(s)) == Upper(TrimEnd(s))
    decreases |s|
  {
    if |s| > 0 {
      var u := Upper(s);
      UpperCharWhiteSpace(s[|s| - 1]);
      if IsWhiteSpace(s[|s| - 1]) {
        assert u[..|s| - 1] == Upper(s[..|s| - 1]);
        TrimEndUpper(s[..|s| - 1]);
      }
    }
  }

  lemma {:induction false} TrimEndAsciiUpper(s: string)
    ensures TrimEndAscii(Upper(s)) == Upper(TrimEndAscii(s))
    decreases |s|
  {
    if |s| > 0 {
      var u := Upper(s);
      if IsAsciiWhiteSpace(s[|s| - 1]) {
        assert u[..|s| - 1] == Upper(s[..|s| - 1]);
        TrimEndAsciiUpper(s[..|s| - 1]);
      }
    }
  }

  lemma TrimUpper(s: string)
    ensures Trim(Upper(s)) == Upper(Trim(s))
  {
    TrimStartUpper(s);
    TrimEndUpper(TrimStart(s));
  }

  // ---------------------------------------------------------------------------
  // Decimal text, as int.ToString() writes it and Int32 parsing reads it

  function DigitChar(d: nat): (c: char)
    requires d < 10
    ensures IsDigit(c)
  {
    ('0' as int + d) as char
  }

  function DigitValue(c: char): (d: nat)
    requires IsDigit(c)
    ensures d < 10 && DigitChar(d) == c
  {
    c as int - '0' as int
  }

  /** The shortest decimal text of n. */
  function NatToDigits(n: nat): (s: string)
    ensures |s| > 0 && AllDigits(s)
    ensures |s| > 1 ==> s[0] != '0'
  {
    if n < 10 then [DigitChar(n)] else NatToDigits(n / 10) + [DigitChar(n % 10)]
  }

  /** The value of a string of decimal digits (leading zeros allowed). */
  function DigitsValue(s: string): nat
    requires AllDigits(s)
  {
    if |s| == 0 then 0 else DigitsValue(s[..|s| - 1]) * 10 + DigitValue(s[|s| - 1])
  }

  lemma {:induction false} DigitsRoundTrip(n: nat)
    ensures DigitsValue(NatToDigits(n)) == n
  {
    if n >= 10 {
      var s := NatToDigits(n);
      assert s[..|s| - 1] == NatToDigits(n / 10);
      DigitsRoundTrip(n / 10);
    }
  }

  /** int.ToString() in the invariant culture. */
  function IntToString(i: int): (s: string)
    ensures |s| > 0
  {
    if i < 0 then "-" + NatToDigits(-i) else NatToDigits(i)
  }

  /** Integer text with an optional leading sign followed by at least one digit. */
  function ParseInteger(s: string): (r: Option<int>)
    ensures r.Some? <==>
              || (|s| > 0 && AllDigits(s))
              || (|s| > 1 && (s[0] == '+' || s[0] == '-') && AllDigits(s[1..]))
  {
    if |s| > 0 && (s[0] == '+' || s[0] == '-') then
      var digits := s[1..];
      if |digits| > 0 && AllDigits(digits) then
        var v: int := if s[0] == '-' then 0 - DigitsValue(digits) as int else DigitsValue(digits);
        Some(v)
      else None
    else if |s| > 0 && AllDigits(s) then Some(DigitsValue(s))
    else None
  }

  /** Digits with or without a leading sign read as their value, negated
      after '-'. */
  lemma SignedDigits(d: string)
    requires |d| > 0 && AllDigits(d)
    ensures ParseInteger(d) == Some(DigitsValue(d) as int)
    ensures ParseInteger("+" + d) == Some(DigitsValue(d) as int)
    ensures ParseInteger("-" + d) == Some(0 - DigitsValue(d) as int)
  {
    assert IsDigit(d[0]);
    assert ("+" + d)[1..] == d;
    assert ("-" + d)[1..] == d;
  }

  lemma IntegerRoundTrip(i: int)
    ensures ParseInteger(IntToString(i)) == Some(i)
  {
    var s := IntToString(i);
    if i < 0 {
      var digits := NatToDigits(-i);
      assert s[0] == '-' && s[1..] == digits;
      DigitsRoundTrip(-i);
      assert ParseInteger(s) == Some(0 - DigitsValue(digits) as int);
    } else {
      assert s == NatToDigits(i);
      assert IsDigit(s[0]);
      DigitsRoundTrip(i);
      assert ParseInteger(s) == Some(DigitsValue(s));
    }
  }
}
