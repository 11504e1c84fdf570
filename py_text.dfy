/**
 * The parts of Python's `bytes`/`str` behaviour that the host code relies on:
 * `strip()`, `isdigit()`, `lstrip(b"+-")`, `split(sep, 1)`, `int()`, `str(int)`,
 * ASCII `upper()`/`lower()`/`title()`.
 *
 * A byte string is represented by the sequence of characters whose code points
 * are its bytes, so that `b"12,34\r\n"` is the Dafny string "12,34\r\n".
 */
module PyText {
  import opened Wrappers

  /** One byte of a Python `bytes` object. */
  type Byte = c: char | c as int < 256

  predicate IsSpace(c: char) { c == ' ' || '\t' <= c <= '\r' }
  predicate IsDigit(c: char) { '0' <= c <= '9' }
  predicate IsSign(c: char) { c == '+' || c == '-' }
  predicate IsUpperLetter(c: char) { 'A' <= c <= 'Z' }
  predicate IsLowerLetter(c: char) { 'a' <= c <= 'z' }
  predicate IsLetter(c: char) { IsUpperLetter(c) || IsLowerLetter(c) }

  predicate AllSpace(s: string) { forall i :: 0 <= i < |s| ==> IsSpace(s[i]) }

  /** Neither end of `s` is whitespace. */
  predicate IsTrimmed(s: string) { |s| == 0 || (!IsSpace(s[0]) && !IsSpace(s[|s| - 1])) }

  /** The first position at or after `i` that does not hold whitespace, or `|s|`. */
  function SkipSpace(s: string, i: nat): (k: nat)
    requires i <= |s|
    ensures i <= k <= |s| && (k == |s| || !IsSpace(s[k]))
    ensures forall j :: i <= j < k ==> IsSpace(s[j])
    decreases |s| - i
  {
    if i < |s| && IsSpace(s[i]) then SkipSpace(s, i + 1) else i
  }

  /** The end of `s[lo..hi]` once its trailing whitespace is cut off. */
  function TrimEnd(s: string, lo: nat, hi: nat): (k: nat)
    requires lo <= hi <= |s|
    ensures lo <= k <= hi && (k == lo || !IsSpace(s[k - 1]))
    ensures forall j :: k <= j < hi ==> IsSpace(s[j])
    decreases hi - lo
  {
    if lo < hi && IsSpace(s[hi - 1]) then TrimEnd(s, lo, hi - 1) else hi
  }

  /** `s.strip()` with no argument: the text between the leading and the trailing whitespace. */
  function Strip(s: string): (r: string)
    ensures IsTrimmed(r) && |r| <= |s|
  {
    var a := SkipSpace(s, 0);
    s[a..TrimEnd(s, a, |s|)]
  }

  /** `SkipSpace` is the first non-whitespace position. */
  lemma SkipSpaceAt(s: string, i: nat, k: nat)
    requires i <= k <= |s| && (k == |s| || !IsSpace(s[k]))
    requires forall j :: i <= j < k ==> IsSpace(s[j])
    ensures SkipSpace(s, i) == k
  {
  }

  /** `TrimEnd` is the end of the last non-whitespace character. */
  lemma TrimEndAt(s: string, lo: nat, hi: nat, k: nat)
    requires lo <= k <= hi <= |s| && (k == lo || !IsSpace(s[k - 1]))
    requires forall j :: k <= j < hi ==> IsSpace(s[j])
    ensures TrimEnd(s, lo, hi) == k
  {
  }

  lemma StripTrimmed(s: string)
    requires IsTrimmed(s)
    ensures Strip(s) == s
  {
    SkipSpaceAt(s, 0, 0);
    TrimEndAt(s, 0, |s|, |s|);
  }

  /** `strip()` removes exactly the whitespace padding around a trimmed text. */
  lemma StripPadded(a: string, t: string, b: string)
    requires AllSpace(a) && AllSpace(b) && IsTrimmed(t)
    ensures Strip(a + t + b) == t
  {
    var s := a + t + b;
    if |t| == 0 {
      SkipSpaceAt(s, 0, |s|);
      TrimEndAt(s, |s|, |s|, |s|);
      assert s[|s|..|s|] == t;
    } else {
      assert s[|a|] == t[0] && s[|a| + |t| - 1] == t[|t| - 1];
      SkipSpaceAt(s, 0, |a|);
      TrimEndAt(s, |a|, |s|, |a| + |t|);
      assert s[|a|..|a| + |t|] == t;
    }
  }

  predicate AllDigits(s: string) { forall i :: 0 <= i < |s| ==> IsDigit(s[i]) }

  /** `s.isdigit()` on bytes: non-empty and only ASCII digits. */
  predicate IsDigitString(s: string) { |s| > 0 && AllDigits(s) }

  function DigitValue(c: char): nat
    requires IsDigit(c)
  {
    c as int - '0' as int
  }

  function DigitChar(d: nat): (c: char)
    requires d < 10
    ensures IsDigit(c) && DigitValue(c) == d
  {
    ('0' as int + d) as char
  }

  /** The value of a string of decimal digits, most significant first. */
  function DigitsValue(s: string): nat
    requires AllDigits(s)
  {
    if |s| == 0 then 0 else 10 * DigitsValue(s[..|s| - 1]) + DigitValue(s[|s| - 1])
  }

  /** The first position at or after `i` that does not hold a sign, or `|s|`. */
  function SkipSigns(s: string, i: nat): (k: nat)
    requires i <= |s|
    ensures i <= k <= |s| && (k == |s| || !IsSign(s[k]))
    ensures forall j :: i <= j < k ==> IsSign(s[j])
    decreases |s| - i
  {
    if i < |s| && IsSign(s[i]) then SkipSigns(s, i + 1) else i
  }

  /** `s.lstrip(b"+-")`: the suffix after every leading sign character. */
  function LStripSigns(s: string): (r: string)
    ensures |r| <= |s| && r == s[|s| - |r|..]
    ensures forall i :: 0 <= i < |s| - |r| ==> IsSign(s[i])
    ensures |r| == 0 || !IsSign(r[0])
  {
    s[SkipSigns(s, 0)..]
  }

  /** The index of the first occurrence of `c` in `s`. */
  function IndexOf(s: string, c: char): (r: Option<nat>)
    ensures r.None? <==> c !in s
    ensures r.Some? ==> r.value < |s| && s[r.value] == c && c !in s[..r.value]
  {
    if |s| == 0 then None
    else if s[0] == c then Some(0)
    else match IndexOf(s[1..], c)
      case None => None
      case Some(i) =>
        assert s[..i + 1] == [s[0]] + s[1..][..i];
        Some(i + 1)
  }

  /** `s.split(sep, 1)`: cut at the first separator, if there is one. */
  function SplitOnce(s: string, sep: char): (parts: seq<string>)
    ensures 1 <= |parts| <= 2
    ensures |parts| == 1 <==> sep !in s
    ensures |parts| == 1 ==> parts[0] == s
    ensures |parts| == 2 ==> s == parts[0] + [sep] + parts[1] && sep !in parts[0]
  {
    match IndexOf(s, sep)
    case None => [s]
    case Some(i) => [s[..i], s[i + 1..]]
  }

  /** Digits in groups separated by single underscores, as Python's `int()` accepts them. */
  predicate IsDigitGroups(s: string)
  {
    && |s| > 0 && IsDigit(s[0]) && IsDigit(s[|s| - 1])
    && (forall i :: 0 <= i < |s| ==> IsDigit(s[i]) || s[i] == '_')
    && (forall i, j :: 0 <= i < |s| && 0 <= j < |s| && j == i + 1 ==> !(s[i] == '_' && s[j] == '_'))
  }

  function DropUnderscores(s: string): (r: string)
    ensures (forall i :: 0 <= i < |s| ==> IsDigit(s[i]) || s[i] == '_') ==> AllDigits(r)
    ensures '_' !in s ==> r == s
  {
    if |s| == 0 then [] else (if s[0] == '_' then [] else [s[0]]) + DropUnderscores(s[1..])
  }

  /**
   * Python's `int(s)` for a decimal text: surrounding whitespace, one optional
   * sign, then digit groups. None stands for the ValueError.
   */
  function PyInt(s: string): Option<int>
  {
    SignedDigitGroups(Strip(s))
  }

  /** One optional sign, then digit groups. */
  function SignedDigitGroups(t: string): Option<int>
  {
    if |t| > 0 && IsSign(t[0]) then DigitGroupsValue(t[1..], t[0] == '-')
    else DigitGroupsValue(t, false)
  }

  function DigitGroupsValue(body: string, negative: bool): Option<int>
  {
    if IsDigitGroups(body) then Some(Signed(negative, DigitsValue(DropUnderscores(body)))) else None
  }

  function Signed(negative: bool, n: nat): int
  {
    if negative then -(n as int) else n
  }

  /** `int()` of a digit string is its decimal value. */
  lemma {:induction false} PyIntOfDigits(s: string)
    requires IsDigitString(s)
    ensures PyInt(s) == Some(DigitsValue(s))
  {
    assert IsDigit(s[0]) && IsDigit(s[|s| - 1]);
    StripTrimmed(s);
    DigitsAreGroups(s);
    assert !IsSign(s[0]);
    assert SignedDigitGroups(s) == DigitGroupsValue(s, false);
  }

  lemma DigitsAreGroups(s: string)
    requires IsDigitString(s)
    ensures IsDigitGroups(s) && DropUnderscores(s) == s
  {
    assert '_' !in s by {
      forall i | 0 <= i < |s| ensures s[i] != '_' { assert IsDigit(s[i]); }
    }
  }

  /** `int()` of one sign followed by digits. */
  lemma {:induction false} PyIntOfSignedDigits(c: char, s: string)
    requires IsSign(c) && IsDigitString(s)
    ensures PyInt([c] + s) == Some(Signed(c == '-', DigitsValue(s)))
  {
    var t := [c] + s;
    PyIntOfSignedText(t);
    assert t[1..] == s;
    DigitsAreGroups(s);
  }

  lemma PyIntOfSignedText(t: string)
    requires |t| > 0 && IsSign(t[0]) && IsDigit(t[|t| - 1])
    ensures PyInt(t) == DigitGroupsValue(t[1..], t[0] == '-')
  {
    StripTrimmed(t);
  }

  /** `int()` rejects two leading signs. */
  lemma {:induction false} PyIntRejectsTwoSigns(c: char, d: char, s: string)
    requires IsSign(c) && IsSign(d) && (|s| > 0 ==> IsDigit(s[|s| - 1]))
    ensures PyInt([c, d] + s).None?
  {
    var t := [c, d] + s;
    if |s| == 0 {
      assert PyInt(t) == DigitGroupsValue([d], c == '-');
    } else {
      PyIntOfSignedText(t);
      assert t[1..][0] == d;
    }
  }

  /** `str(n)` for a natural number. */
  function NatToDecimal(n: nat): (r: string)
    ensures IsDigitString(r) && DigitsValue(r) == n
  {
    if n < 10 then [DigitChar(n)]
    else
      var r := NatToDecimal(n / 10) + [DigitChar(n % 10)];
      assert r[..|r| - 1] == NatToDecimal(n / 10);
      r
  }

  /** `str(n)` for an integer. */
  function IntToDecimal(n: int): string
  {
    if n < 0 then "-" + NatToDecimal(-n) else NatToDecimal(n)
  }

  /** `int(str(n)) == n`. */
  lemma IntDecimalRoundTrip(n: int)
    ensures PyInt(IntToDecimal(n)) == Some(n)
  {
    if n < 0 {
      PyIntOfSignedDigits('-', NatToDecimal(-n));
    } else {
      PyIntOfDigits(NatToDecimal(n));
    }
  }

  function UpperChar(c: char): char
  {
    if IsLowerLetter(c) then (c as int - 32) as char else c
  }

  function LowerChar(c: char): char
  {
    if IsUpperLetter(c) then (c as int + 32) as char else c
  }

  /** `s.upper()` on the ASCII letters. */
  function Upper(s: string): (r: string)
    ensures |r| == |s|
  {
    seq(|s|, i requires 0 <= i < |s| => UpperChar(s[i]))
  }

  /** `s.lower()` on the ASCII letters. */
  function Lower(s: string): (r: string)
    ensures |r| == |s|
  {
    seq(|s|, i requires 0 <= i < |s| => LowerChar(s[i]))
  }

  lemma UpperIdempotent(s: string)
    ensures Upper(Upper(s)) == Upper(s)
  {
  }

  /** `s.title()` on the ASCII letters: a letter is upper-cased after a non-letter and lower-cased after a letter. */
  function Title(s: string): (r: string)
    ensures |r| == |s|
  {
    seq(|s|, i requires 0 <= i < |s| =>
      if !IsLetter(s[i]) then s[i]
      else if i > 0 && IsLetter(s[i - 1]) then LowerChar(s[i])
      else UpperChar(s[i]))
  }

  /** `s.replace(a, b)` for single characters. */
  function ReplaceChar(s: string, a: char, b: char): (r: string)
    ensures |r| == |s|
  {
    seq(|s|, i requires 0 <= i < |s| => if s[i] == a then b else s[i])
  }
}
