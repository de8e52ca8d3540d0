/**
 * The JavaScript string primitives the pages rely on: `trim`, the regular
 * expression class `\s`, `toLowerCase`/`toUpperCase` and the decimal printing of
 * integers by template literals. Case mapping is modelled on ASCII letters only.
 */
module Text {

  /** The code points that `String.prototype.trim` strips and `\s` matches:
      the WhiteSpace and LineTerminator code points of ECMAScript. */
  predicate IsSpace(c: char) {
    var n := c as int;
    n == 0x09 || n == 0x0A || n == 0x0B || n == 0x0C || n == 0x0D || n == 0x20 ||
    n == 0xA0 || n == 0x1680 || (0x2000 <= n <= 0x200A) || n == 0x2028 || n == 0x2029 ||
    n == 0x202F || n == 0x205F || n == 0x3000 || n == 0xFEFF
  }

  /** Every character of `s` is whitespace (vacuously true of the empty string). */
  predicate AllSpace(s: string) {
    forall k :: 0 <= k < |s| ==> IsSpace(s[k])
  }

  /** `s` has no whitespace at either end. */
  predicate IsTrimmed(s: string) {
    s == [] || (!IsSpace(s[0]) && !IsSpace(s[|s| - 1]))
  }

  /** `s` without its leading whitespace. */
  function TrimStart(s: string): (r: string)
    ensures |r| <= |s| && r == s[|s| - |r|..]
    ensures AllSpace(s[..|s| - |r|])
    ensures r == [] || !IsSpace(r[0])
  {
    if s != [] && IsSpace(s[0]) then TrimStart(s[1..]) else s
  }

  /** `s` without its trailing whitespace. */
  function TrimEnd(s: string): (r: string)
    ensures |r| <= |s| && r == s[..|r|]
    ensures AllSpace(s[|r|..])
    ensures r == [] || !IsSpace(r[|r| - 1])
  {
    if s != [] && IsSpace(s[|s| - 1]) then TrimEnd(s[..|s| - 1]) else s
  }

  /** `r` is the slice of `s` starting at `i`, with nothing but whitespace before and after it. */
  predicate SpaceAround(s: string, i: int, r: string) {
    0 <= i <= |s| - |r| && r == s[i..i + |r|] && AllSpace(s[..i]) && AllSpace(s[i + |r|..])
  }

  /** `String.prototype.trim`: the middle of `s` once the whitespace at both ends is cut off. */
  function Trim(s: string): (r: string)
    ensures IsTrimmed(r)
    ensures exists i :: SpaceAround(s, i, r)
  {
    var t := TrimStart(s);
    var i := |s| - |t|;
    var r := TrimEnd(t);
    assert r != [] ==> r[0] == t[0];
    assert s[i + |r|..] == t[|r|..];
    assert SpaceAround(s, i, r);
    r
  }

  /** Trimming leaves an already trimmed string alone. */
  lemma TrimOfTrimmed(s: string)
    requires IsTrimmed(s)
    ensures Trim(s) == s
  {
  }

  /** `trim` is idempotent. */
  lemma TrimIdempotent(s: string)
    ensures Trim(Trim(s)) == Trim(s)
  {
    TrimOfTrimmed(Trim(s));
  }

  predicate IsUpperAscii(c: char) { 'A' <= c <= 'Z' }
  predicate IsLowerAscii(c: char) { 'a' <= c <= 'z' }

  /** One character of `toLowerCase`, on the ASCII range. */
  function LowerChar(c: char): (r: char)
    ensures !IsUpperAscii(r)
    ensures IsSpace(r) == IsSpace(c)
    ensures IsUpperAscii(c) || r == c
    ensures IsUpperAscii(c) ==> IsLowerAscii(r) && r as int == c as int + 32
  {
    if IsUpperAscii(c) then (c as int + 32) as char else c
  }

  /** One character of `toUpperCase`, on the ASCII range. */
  function UpperChar(c: char): (r: char)
    ensures !IsLowerAscii(r)
    ensures IsSpace(r) == IsSpace(c)
    ensures IsLowerAscii(c) || r == c
    ensures IsLowerAscii(c) ==> IsUpperAscii(r) && r as int == c as int - 32
  {
    if IsLowerAscii(c) then (c as int - 32) as char else c
  }

  /** `String.prototype.toLowerCase`: each letter lowered, length and whitespace kept. */
  function ToLower(s: string): (r: string)
    ensures |r| == |s|
    ensures forall k :: 0 <= k < |r| ==> !IsUpperAscii(r[k])
    ensures forall k :: 0 <= k < |r| ==> IsSpace(r[k]) == IsSpace(s[k])
    ensures forall k :: 0 <= k < |r| ==> IsUpperAscii(s[k]) || r[k] == s[k]
    ensures forall k :: 0 <= k < |r| ==> r[k] == LowerChar(s[k])
  {
    seq(|s|, k requires 0 <= k < |s| => LowerChar(s[k]))
  }

  /** `a` and `b` differ at most in the case of their letters. */
  predicate SameIgnoringCase(a: string, b: string) {
    |a| == |b| && forall k :: 0 <= k < |a| ==> LowerChar(a[k]) == LowerChar(b[k])
  }

  /** Strings that differ only in the case of their letters have the same lower-case form, and only they do. */
  lemma ToLowerIffSameIgnoringCase(a: string, b: string)
    ensures ToLower(a) == ToLower(b) <==> SameIgnoringCase(a, b)
  {
    if SameIgnoringCase(a, b) {
      assert forall k :: 0 <= k < |a| ==> ToLower(a)[k] == ToLower(b)[k];
    }
    if ToLower(a) == ToLower(b) {
      assert forall k :: 0 <= k < |a| ==> LowerChar(a[k]) == ToLower(a)[k];
    }
  }

  /** A string without upper-case letters is its own lower-case form. */
  lemma ToLowerOfLower(s: string)
    requires forall k :: 0 <= k < |s| ==> !IsUpperAscii(s[k])
    ensures ToLower(s) == s
  {
  }

  predicate IsDigit(c: char) { '0' <= c <= '9' }

  predicate AllDigits(s: string) {
    forall k :: 0 <= k < |s| ==> IsDigit(s[k])
  }

  function DigitChar(d: nat): (c: char)
    requires d < 10
    ensures IsDigit(c)
  {
    ('0' as int + d) as char
  }

  function DigitValue(c: char): (d: nat)
    requires IsDigit(c)
    ensures d < 10
    ensures DigitChar(d) == c
  {
    c as int - '0' as int
  }

  /** The decimal digits of `n`, as a template literal prints a non-negative integer. */
  function NatToString(n: nat): (r: string)
    ensures |r| >= 1 && AllDigits(r)
    ensures r[0] == '0' ==> n == 0
    ensures n < 10 <==> |r| == 1
    decreases n
  {
    if n < 10 then [DigitChar(n)] else NatToString(n / 10) + [DigitChar(n % 10)]
  }

  /** The number a string of decimal digits denotes. */
  function ParseDigits(s: string): nat
    requires AllDigits(s)
    decreases |s|
  {
    if s == [] then 0 else ParseDigits(s[..|s| - 1]) * 10 + DigitValue(s[|s| - 1])
  }

  /** Reading back the decimal digits of `n` gives `n`. */
  lemma {:induction false} ParseNatToString(n: nat)
    ensures ParseDigits(NatToString(n)) == n
  {
    if n >= 10 {
      ParseNatToString(n / 10);
      var s := NatToString(n);
      assert s[..|s| - 1] == NatToString(n / 10);
    }
  }

  /** A template literal's rendering of an integer: a minus sign for negatives, then the digits. */
  function IntToString(i: int): (r: string)
    ensures |r| >= 1 && (r[0] == '-' <==> i < 0)
  {
    if i < 0 then "-" + NatToString(-i) else NatToString(i)
  }

  /** An optional minus sign followed by at least one digit. */
  predicate IsIntString(s: string) {
    (|s| >= 2 && s[0] == '-' && AllDigits(s[1..])) || (|s| >= 1 && AllDigits(s))
  }

  function ParseInt(s: string): int
    requires IsIntString(s)
  {
    if s[0] == '-' then 0 - ParseDigits(s[1..]) else ParseDigits(s)
  }

  /** Integers round-trip through their decimal rendering. */
  lemma ParseIntToString(i: int)
    ensures IsIntString(IntToString(i))
    ensures ParseInt(IntToString(i)) == i
  {
    var s := IntToString(i);
    if i < 0 {
      assert s[1..] == NatToString(-i);
      ParseNatToString(-i);
    } else {
      ParseNatToString(i);
    }
  }
}
