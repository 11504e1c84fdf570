/**
 * UTF-8 as Python's `str.encode("utf-8")` and strict `bytes.decode("utf-8")`
 * use it: every Unicode scalar value has exactly one encoding, and decoding
 * rejects overlong forms, surrogates, values above U+10FFFF, stray
 * continuation bytes and truncated sequences.
 */
module Utf8 {
  import opened Wrappers

  type uint8 = x: int | 0 <= x < 256

  predicate IsContinuation(b: uint8) { 0x80 <= b < 0xC0 }

  /** A code point that is a Unicode scalar value (what a Dafny `char` holds). */
  predicate IsScalar(n: int)
  {
    (0 <= n < 0xD800) || (0xE000 <= n < 0x11_0000)
  }

  function EncodeChar(c: char): (r: seq<uint8>)
    ensures 1 <= |r| <= 4
  {
    var n := c as int;
    if n < 0x80 then [n]
    else if n < 0x800 then [0xC0 + n / 64, 0x80 + n % 64]
    else if n < 0x1_0000 then [0xE0 + n / 4096, 0x80 + (n / 64) % 64, 0x80 + n % 64]
    else [0xF0 + n / 262144, 0x80 + (n / 4096) % 64, 0x80 + (n / 64) % 64, 0x80 + n % 64]
  }

  /** `s.encode("utf-8")`. */
  function Encode(s: string): seq<uint8>
  {
    if |s| == 0 then [] else EncodeChar(s[0]) + Encode(s[1..])
  }

  /** The scalar value of a well-formed multi-byte sequence, from its lead-byte payload and its continuation bytes. */
  function Payload(b: seq<uint8>, lead: int, k: nat): int
    requires 1 <= k <= |b|
    decreases k
  {
    if k == 1 then lead else Payload(b, lead, k - 1) * 64 + (b[k - 1] as int - 0x80)
  }

  /** The first character of `b` and the number of bytes it takes, or `None` when `b` does not start with a well-formed sequence. */
  function DecodeOne(b: seq<uint8>): (r: Option<(char, nat)>)
    ensures r.Some? ==> 1 <= r.value.1 <= |b|
  {
    if |b| == 0 then None
    else if b[0] < 0x80 then Some((b[0] as char, 1))
    else if 0xC2 <= b[0] < 0xE0 then
      if |b| >= 2 && IsContinuation(b[1]) then Some((Payload(b, b[0] - 0xC0, 2) as char, 2)) else None
    else if 0xE0 <= b[0] < 0xF0 then
      if |b| >= 3 && IsContinuation(b[1]) && IsContinuation(b[2]) then
        var n := Payload(b, b[0] - 0xE0, 3);
        if 0x800 <= n && IsScalar(n) then Some((n as char, 3)) else None
      else None
    else if 0xF0 <= b[0] < 0xF5 then
      if |b| >= 4 && IsContinuation(b[1]) && IsContinuation(b[2]) && IsContinuation(b[3]) then
        var n := Payload(b, b[0] - 0xF0, 4);
        if 0x1_0000 <= n < 0x11_0000 then Some((n as char, 4)) else None
      else None
    else None
  }

  /** `b.decode("utf-8")` with the default strict error handling: `None` stands for `UnicodeDecodeError`. */
  function Decode(b: seq<uint8>): Option<string>
    decreases |b|
  {
    if |b| == 0 then Some([])
    else match DecodeOne(b)
      case None => None
      case Some((c, k)) =>
        match Decode(b[k..])
        case None => None
        case Some(s) => Some([c] + s)
  }

  /** Decoding the encoding of one character gives the character back and consumes exactly its bytes. */
  lemma DecodeEncodeChar(c: char, rest: seq<uint8>)
    ensures DecodeOne(EncodeChar(c) + rest) == Some((c, |EncodeChar(c)|))
  {
    var n := c as int;
    var b := EncodeChar(c) + rest;
    if n < 0x80 {
    } else if n < 0x800 {
      assert Payload(b, b[0] - 0xC0, 2) == (n / 64) * 64 + n % 64;
    } else if n < 0x1_0000 {
      assert Payload(b, b[0] - 0xE0, 3) == ((n / 4096) * 64 + (n / 64) % 64) * 64 + n % 64;
      ThreeBytes(n);
    } else {
      assert Payload(b, b[0] - 0xF0, 4) == (((n / 262144) * 64 + (n / 4096) % 64) * 64 + (n / 64) % 64) * 64 + n % 64;
      FourBytes(n);
    }
  }

  lemma ThreeBytes(n: int)
    requires 0 <= n
    ensures ((n / 4096) * 64 + (n / 64) % 64) * 64 + n % 64 == n
  {
    Div4096(n);
    assert (n / 64) == (n / 4096) * 64 + (n / 64) % 64;
  }

  lemma FourBytes(n: int)
    requires 0 <= n
    ensures (((n / 262144) * 64 + (n / 4096) % 64) * 64 + (n / 64) % 64) * 64 + n % 64 == n
  {
    Div262144(n);
    assert (n / 4096) == (n / 262144) * 64 + (n / 4096) % 64;
    ThreeBytes(n);
  }

  /** Round trip: `s.encode("utf-8").decode("utf-8") == s`. */
  lemma {:induction false} DecodeEncode(s: string)
    ensures Decode(Encode(s)) == Some(s)
  {
    if |s| > 0 {
      var e := EncodeChar(s[0]);
      DecodeEncodeChar(s[0], Encode(s[1..]));
      assert (e + Encode(s[1..]))[|e|..] == Encode(s[1..]);
      DecodeEncode(s[1..]);
      assert [s[0]] + s[1..] == s;
    }
  }

  /** A well-formed sequence is the one encoding of the character it decodes to. */
  lemma EncodeDecodeOne(b: seq<uint8>)
    requires DecodeOne(b).Some?
    ensures EncodeChar(DecodeOne(b).value.0) == b[..DecodeOne(b).value.1]
  {
    if b[0] < 0x80 {
    } else if b[0] < 0xE0 {
      EncodeDecodeTwo(b);
    } else if b[0] < 0xF0 {
      EncodeDecodeThree(b);
    } else {
      EncodeDecodeFour(b);
    }
  }

  lemma EncodeDecodeTwo(b: seq<uint8>)
    requires DecodeOne(b).Some? && 0x80 <= b[0] < 0xE0
    ensures EncodeChar(DecodeOne(b).value.0) == b[..DecodeOne(b).value.1]
  {
    var n := DecodeOne(b).value.0 as int;
    assert n == (b[0] as int - 0xC0) * 64 + (b[1] as int - 0x80);
    Digits64(b[0] as int - 0xC0, b[1] as int - 0x80);
  }

  lemma EncodeDecodeThree(b: seq<uint8>)
    requires DecodeOne(b).Some? && 0xE0 <= b[0] < 0xF0
    ensures EncodeChar(DecodeOne(b).value.0) == b[..DecodeOne(b).value.1]
  {
    var n := DecodeOne(b).value.0 as int;
    var hi := (b[0] as int - 0xE0) * 64 + (b[1] as int - 0x80);
    assert n == hi * 64 + (b[2] as int - 0x80);
    Digits64(hi, b[2] as int - 0x80);
    Digits64(b[0] as int - 0xE0, b[1] as int - 0x80);
    Div4096(n);
  }

  lemma EncodeDecodeFour(b: seq<uint8>)
    requires DecodeOne(b).Some? && 0xF0 <= b[0]
    ensures EncodeChar(DecodeOne(b).value.0) == b[..DecodeOne(b).value.1]
  {
    var n := DecodeOne(b).value.0 as int;
    var h1 := (b[0] as int - 0xF0) * 64 + (b[1] as int - 0x80);
    var h2 := h1 * 64 + (b[2] as int - 0x80);
    assert n == h2 * 64 + (b[3] as int - 0x80);
    Digits64(h2, b[3] as int - 0x80);
    Digits64(h1, b[2] as int - 0x80);
    Digits64(b[0] as int - 0xF0, b[1] as int - 0x80);
    Div4096(n);
    Div262144(n);
  }

  lemma Digits64(hi: int, lo: int)
    requires 0 <= hi && 0 <= lo < 64
    ensures (hi * 64 + lo) / 64 == hi && (hi * 64 + lo) % 64 == lo
  {
  }

  lemma Div4096(n: int)
    requires 0 <= n
    ensures n / 64 / 64 == n / 4096
  {
  }

  lemma Div262144(n: int)
    requires 0 <= n
    ensures n / 4096 / 64 == n / 262144
  {
  }

  /** Strict decoding is the inverse of encoding: whatever decodes is the encoding of its result. */
  lemma {:induction false} EncodeDecode(b: seq<uint8>)
    requires Decode(b).Some?
    ensures Encode(Decode(b).value) == b
    decreases |b|
  {
    if |b| > 0 {
      DecodeSplit(b);
      var c: char, k: nat :| 1 <= k <= |b| && EncodeChar(c) == b[..k] && Decode(b[k..]).Some?
        && Decode(b).value == [c] + Decode(b[k..]).value;
      EncodeDecode(b[k..]);
      var s := Decode(b).value;
      assert s[0] == c && s[1..] == Decode(b[k..]).value;
      assert Encode(s) == EncodeChar(c) + Encode(s[1..]);
      assert b == b[..k] + b[k..];
    }
  }

  /** A decodable sequence is one character's encoding followed by a decodable rest. */
  lemma DecodeSplit(b: seq<uint8>)
    requires |b| > 0 && Decode(b).Some?
    ensures exists c: char, k: nat :: (1 <= k <= |b| && EncodeChar(c) == b[..k] && Decode(b[k..]).Some?
                                       && Decode(b).value == [c] + Decode(b[k..]).value)
  {
    var c, k := DecodeOne(b).value.0, DecodeOne(b).value.1;
    EncodeDecodeOne(b);
    assert 1 <= k <= |b| && EncodeChar(c) == b[..k] && Decode(b[k..]).Some?
      && Decode(b).value == [c] + Decode(b[k..]).value;
  }

  /** ASCII text encodes byte for byte. */
  lemma {:induction false} EncodeAscii(s: string)
    requires forall i :: 0 <= i < |s| ==> s[i] as int < 0x80
    ensures |Encode(s)| == |s|
    ensures forall i :: 0 <= i < |s| ==> Encode(s)[i] == s[i] as int
  {
    if |s| > 0 {
      EncodeAscii(s[1..]);
      assert forall i :: 1 <= i < |s| ==> s[1..][i - 1] == s[i];
    }
  }
}
