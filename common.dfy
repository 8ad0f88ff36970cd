/**
 * Shared vocabulary of the model: row identifiers, optional values, the
 * three-state fields of a PATCH body, and the handful of string predicates
 * (JavaScript whitespace, `trim`, digit runs, `startsWith`, the
 * `YYYY-MM-DD` pattern) that several controllers use.
 */
module Common {

  /** Row identifiers are opaque strings generated by the database. */
  type Id = string

  datatype Option<T> = None | Some(value: T)

  /**
   * A field of a validated PATCH body: left out of the JSON (`undefined`),
   * sent as `null`, or sent with a value.
   */
  datatype Patch<T> = Absent | Null | Value(value: T)


  /**
   * The common PATCH rule `if (body.f !== undefined) data.f = body.f`:
   * an absent field keeps the stored value, `null` clears it, a value replaces it.
   */
  function Patched<T>(p: Patch<T>, current: Option<T>): (r: Option<T>)
    ensures p.Absent? ==> r == current
    ensures p.Null? ==> r == None
    ensures p.Value? ==> r == Some(p.value)
  {
    match p
    case Absent => current
    case Null => None
    case Value(v) => Some(v)
  }

  /**
   * The largest value an ORM `Int` column holds, a 32-bit signed integer;
   * writing a larger one fails with an error of the ORM (500).
   */
  const MaxInt: int := 0x7fff_ffff

  /** Stands for the text of that error, which is not modelled. */
  const IntOutOfRange: string := "Value out of range for the type Int"

  /** The same rule for a non-nullable column: only a provided value replaces it. */
  function Kept<T>(p: Option<T>, current: T): T {
    if p.Some? then p.value else current
  }

  // ---------------------------------------------------------------------
  // Characters and strings
  // ---------------------------------------------------------------------

  /** ECMAScript WhiteSpace and LineTerminator: what `trim` strips and `\s` matches. */
  predicate IsSpace(c: char) {
    c == '\t' || c == '\n' || c == '\U{000B}' || c == '\U{000C}' || c == '\r' || c == ' '
    || c == '\U{00A0}' || c == '\U{1680}' || ('\U{2000}' <= c <= '\U{200A}')
    || c == '\U{2028}' || c == '\U{2029}' || c == '\U{202F}' || c == '\U{205F}'
    || c == '\U{3000}' || c == '\U{FEFF}'
  }

  /** `\d` in a regular expression without the `u` flag: ASCII digits only. */
  predicate IsDigit(c: char) { '0' <= c <= '9' }

  predicate AllSpace(s: string) { forall i :: 0 <= i < |s| ==> IsSpace(s[i]) }

  predicate AllDigits(s: string) { forall i :: 0 <= i < |s| ==> IsDigit(s[i]) }

  predicate StartsWith(s: string, prefix: string) {
    |prefix| <= |s| && s[..|prefix|] == prefix
  }

  /** The first index at or after `from` that is not whitespace (or `|s|`). */
  function SpaceEnd(s: string, from: nat): (r: nat)
    requires from <= |s|
    ensures from <= r <= |s|
    ensures forall x :: from <= x < r ==> IsSpace(s[x])
    ensures r < |s| ==> !IsSpace(s[r])
    decreases |s| - from
  {
    if from == |s| || !IsSpace(s[from]) then from else SpaceEnd(s, from + 1)
  }

  /** The first index at or after `from` that is not an ASCII digit (or `|s|`). */
  function DigitEnd(s: string, from: nat): (r: nat)
    requires from <= |s|
    ensures from <= r <= |s|
    ensures forall x :: from <= x < r ==> IsDigit(s[x])
    ensures r < |s| ==> !IsDigit(s[r])
    decreases |s| - from
  {
    if from == |s| || !IsDigit(s[from]) then from else DigitEnd(s, from + 1)
  }

  /** The end of `s` once trailing whitespace (down to index `lo`) is dropped. */
  function TrimmedEnd(s: string, lo: nat): (r: nat)
    requires lo <= |s|
    ensures lo <= r <= |s|
    ensures forall x :: r <= x < |s| ==> IsSpace(s[x])
    ensures r > lo ==> !IsSpace(s[r - 1])
    decreases |s| - lo
  {
    if |s| == lo || !IsSpace(s[|s| - 1]) then |s|
    else TrimmedEnd(s[..|s| - 1], lo)
  }

  /** Whitespace up to index `a` and a non-space (or the end) at `a`: SpaceEnd stops exactly there. */
  lemma SpaceEndExact(s: string, from: nat, a: nat)
    requires from <= a <= |s|
    requires forall x :: from <= x < a ==> IsSpace(s[x])
    requires a < |s| ==> !IsSpace(s[a])
    ensures SpaceEnd(s, from) == a
  {
  }

  /** Digits up to index `a` and a non-digit (or the end) at `a`: DigitEnd stops exactly there. */
  lemma DigitEndExact(s: string, from: nat, a: nat)
    requires from <= a <= |s|
    requires forall x :: from <= x < a ==> IsDigit(s[x])
    requires a < |s| ==> !IsDigit(s[a])
    ensures DigitEnd(s, from) == a
  {
  }

  /**
   * `String.prototype.trim`: drop the leading and the trailing whitespace.
   * The result neither starts nor ends with whitespace.
   */
  function Trim(s: string): (r: string)
    ensures |r| <= |s|
    ensures r != [] ==> !IsSpace(r[0]) && !IsSpace(r[|r| - 1])
  {
    var a := SpaceEnd(s, 0);
    s[a..TrimmedEnd(s, a)]
  }

  /** What `trim` removes is whitespace and nothing else. */
  lemma TrimDropsOnlySpace(s: string)
    ensures exists a, b :: 0 <= a <= b <= |s| && Trim(s) == s[a..b] && AllSpace(s[..a]) && AllSpace(s[b..])
  {
    var a := SpaceEnd(s, 0);
    var b := TrimmedEnd(s, a);
    assert AllSpace(s[..a]);
    assert AllSpace(s[b..]);
  }

  /** Trimming a string with no whitespace at either end changes nothing. */
  lemma TrimOfTrimmed(s: string)
    requires s == [] || (!IsSpace(s[0]) && !IsSpace(s[|s| - 1]))
    ensures Trim(s) == s
  {
    if s != [] {
      SpaceEndExact(s, 0, 0);
      assert s[0..|s|] == s;
    }
  }

  /** Trimming is idempotent. */
  lemma TrimIdempotent(s: string)
    ensures Trim(Trim(s)) == Trim(s)
  {
    TrimOfTrimmed(Trim(s));
  }

  /** `trim` yields the empty string exactly when every character is whitespace. */
  lemma TrimEmptyIffAllSpace(s: string)
    ensures Trim(s) == [] <==> AllSpace(s)
  {
    var a := SpaceEnd(s, 0);
    if AllSpace(s) {
      SpaceEndExact(s, 0, |s|);
    }
    if Trim(s) == [] {
      assert TrimmedEnd(s, a) == a;
    }
  }

  /** The value of a run of decimal digits. */
  function DigitsValue(s: string): (n: nat)
    requires AllDigits(s)
  {
    if s == [] then 0
    else DigitsValue(s[..|s| - 1]) * 10 + (s[|s| - 1] as int - '0' as int)
  }

  /** One digit's value. */
  lemma DigitValue(s: string, c: char)
    requires s == [c] && IsDigit(c)
    ensures AllDigits(s) && DigitsValue(s) == c as int - '0' as int
  {
    assert s[..0] == [];
  }

  /** `/^\d{4}-\d{2}-\d{2}$/`: four digits, dash, two digits, dash, two digits. */
  predicate IsIsoDateString(s: string) {
    |s| == 10 && s[4] == '-' && s[7] == '-'
    && AllDigits(s[..4]) && AllDigits(s[5..7]) && AllDigits(s[8..])
  }

  /** ASCII lower-casing, the only case folding a regular expression's `i` flag applies to Latin letters. */
  function LowerAscii(c: char): char {
    if 'A' <= c <= 'Z' then (c as int + 32) as char else c
  }

  function LowerAsciiString(s: string): (r: string)
    ensures |r| == |s|
  {
    if s == [] then [] else [LowerAscii(s[0])] + LowerAsciiString(s[1..])
  }

  /** Each character is lower-cased on its own. */
  lemma {:induction false} LowerAsciiAt(s: string, i: nat)
    requires i < |s|
    ensures LowerAsciiString(s)[i] == LowerAscii(s[i])
  {
    if i > 0 {
      LowerAsciiAt(s[1..], i - 1);
    }
  }

  /**
   * A string's `length` in JavaScript: the number of UTF-16 code units, one
   * for a character of the Basic Multilingual Plane and two (a surrogate
   * pair) for a character at or above U+10000.
   */
  function Utf16Length(s: string): (n: nat)
    ensures |s| <= n <= 2 * |s|
    ensures n == 0 <==> s == []
  {
    if s == [] then 0 else (if s[0] as int >= 0x1_0000 then 2 else 1) + Utf16Length(s[1..])
  }

  /** Text of the Basic Multilingual Plane only is as long in code units as in characters. */
  lemma {:induction false} Utf16LengthOfBmp(s: string)
    requires forall i :: 0 <= i < |s| ==> s[i] as int < 0x1_0000
    ensures Utf16Length(s) == |s|
  {
    if s != [] {
      assert forall i :: 0 <= i < |s[1..]| ==> s[1..][i] == s[i + 1];
      Utf16LengthOfBmp(s[1..]);
    }
  }

  /** Text made only of characters outside the Basic Multilingual Plane (emoji, say) counts two units each. */
  lemma {:induction false} Utf16LengthOfAstral(s: string)
    requires forall i :: 0 <= i < |s| ==> s[i] as int >= 0x1_0000
    ensures Utf16Length(s) == 2 * |s|
  {
    if s != [] {
      assert forall i :: 0 <= i < |s[1..]| ==> s[1..][i] == s[i + 1];
      Utf16LengthOfAstral(s[1..]);
    }
  }

  /**
   * Strings whose `length` lies in the closed range [lo, hi]: a zod
   * `.min(lo).max(hi)`, counted in UTF-16 code units. In characters, more
   * than `hi` is always refused, and at most `hi / 2` (at least `lo`) always
   * accepted.
   */
  predicate LengthIn(s: string, lo: nat, hi: nat)
    ensures LengthIn(s, lo, hi) ==> |s| <= hi && lo <= 2 * |s|
    ensures lo <= |s| && 2 * |s| <= hi ==> LengthIn(s, lo, hi)
  {
    lo <= Utf16Length(s) <= hi
  }

  /** A zod `.max(hi)` on its own. */
  predicate LengthAtMost(s: string, hi: nat) { Utf16Length(s) <= hi }
}
