/**
 * UTF-8 encoding of Unicode scalar values, as described in section 3 of
 * RFC 3629. Rust's `char::encode_utf8` and `str::as_bytes` produce exactly
 * these byte sequences; every Dafny `char` is a Unicode scalar value.
 */
module Utf8 {
  import opened Wrappers
  import opened ByteStrings

  /** A Unicode scalar value: a code point that is not a surrogate. */
  predicate IsScalar(cp: int) {
    0 <= cp <= 0x10FFFF && !(0xD800 <= cp <= 0xDFFF)
  }

  predicate IsContinuation(b: byte) {
    0x80 <= b < 0xC0
  }

  /** The one- to four-byte UTF-8 sequence of a scalar value. */
  function EncodeScalar(cp: int): (bs: seq<byte>)
    requires IsScalar(cp)
    ensures 1 <= |bs| <= 4
    ensures |bs| == 1 <==> cp < 0x80
    ensures |bs| == 1 ==> bs[0] == cp
    ensures forall k :: 1 <= k < |bs| ==> IsContinuation(bs[k])
  {
    if cp < 0x80 then
      [cp]
    else if cp < 0x800 then
      [0xC0 + cp / 64, 0x80 + cp % 64]
    else if cp < 0x10000 then
      [0xE0 + cp / 4096, 0x80 + (cp / 64) % 64, 0x80 + cp % 64]
    else
      [0xF0 + cp / 262144, 0x80 + (cp / 4096) % 64, 0x80 + (cp / 64) % 64, 0x80 + cp % 64]
  }

  /** A UTF-8 form never starts with a byte from 0xF8 up, so never with 0xFF. */
  lemma EncodeScalarLead(cp: int)
    requires IsScalar(cp)
    ensures EncodeScalar(cp)[0] < 0xF8
  {
  }

  /**
   * Reads one well-formed UTF-8 sequence (exactly the whole of bs): the lead
   * byte fixes the length, the rest are continuation bytes, and overlong forms,
   * surrogates and values above U+10FFFF are rejected.
   */
  function DecodeScalar(bs: seq<byte>): (r: Option<int>)
    ensures r.Some? ==> IsScalar(r.value)
  {
    if |bs| == 1 && bs[0] < 0x80 then
      Some(bs[0])
    else if |bs| == 2 && 0xC0 <= bs[0] < 0xE0 && IsContinuation(bs[1]) then
      var cp := Push6(bs[0] as int - 0xC0, bs[1] as int - 0x80);
      if 0x80 <= cp then Some(cp) else None
    else if |bs| == 3 && 0xE0 <= bs[0] < 0xF0 && IsContinuation(bs[1]) && IsContinuation(bs[2]) then
      var cp := Push6(Push6(bs[0] as int - 0xE0, bs[1] as int - 0x80), bs[2] as int - 0x80);
      if 0x800 <= cp && IsScalar(cp) then Some(cp) else None
    else if |bs| == 4 && 0xF0 <= bs[0] < 0xF8 && IsContinuation(bs[1]) && IsContinuation(bs[2])
                       && IsContinuation(bs[3]) then
      var cp := Push6(Push6(Push6(bs[0] as int - 0xF0, bs[1] as int - 0x80), bs[2] as int - 0x80),
                      bs[3] as int - 0x80);
      if 0x10000 <= cp && IsScalar(cp) then Some(cp) else None
    else
      None
  }

  /** Appends six payload bits to a partial code point. */
  function Push6(high: int, low: int): int {
    high * 64 + low
  }

  lemma Push6OfSplit(n: int)
    requires 0 <= n
    ensures Push6(n / 64, n % 64) == n
  {
  }

  lemma SplitOfPush6(high: int, low: int)
    requires 0 <= high && 0 <= low < 64
    ensures Push6(high, low) / 64 == high && Push6(high, low) % 64 == low
  {
  }

  lemma NestedDiv(n: int)
    requires 0 <= n
    ensures n / 64 / 64 == n / 4096 && n / 4096 / 64 == n / 262144
  {
  }

  /** Decoding the encoding of a scalar value gives that value back. */
  lemma DecodeEncodeScalar(cp: int)
    requires IsScalar(cp)
    ensures DecodeScalar(EncodeScalar(cp)) == Some(cp)
  {
    var bs := EncodeScalar(cp);
    Push6OfSplit(cp);
    Push6OfSplit(cp / 64);
    Push6OfSplit(cp / 4096);
    NestedDiv(cp);
    if cp < 0x80 {
    } else if cp < 0x800 {
      assert bs[0] as int - 0xC0 == cp / 64;
    } else if cp < 0x10000 {
      assert bs[0] as int - 0xE0 == cp / 64 / 64;
    } else {
      assert bs[0] as int - 0xF0 == cp / 64 / 64 / 64;
    }
  }

  /** Every well-formed sequence is the encoding of the value it decodes to. */
  lemma EncodeDecodeScalar(bs: seq<byte>)
    requires DecodeScalar(bs).Some?
    ensures EncodeScalar(DecodeScalar(bs).value) == bs
  {
    var cp := DecodeScalar(bs).value;
    if |bs| == 2 {
      SplitOfPush6(bs[0] as int - 0xC0, bs[1] as int - 0x80);
    } else if |bs| == 3 {
      var h := Push6(bs[0] as int - 0xE0, bs[1] as int - 0x80);
      SplitOfPush6(bs[0] as int - 0xE0, bs[1] as int - 0x80);
      SplitOfPush6(h, bs[2] as int - 0x80);
      NestedDiv(cp);
    } else if |bs| == 4 {
      var h1 := Push6(bs[0] as int - 0xF0, bs[1] as int - 0x80);
      var h2 := Push6(h1, bs[2] as int - 0x80);
      SplitOfPush6(bs[0] as int - 0xF0, bs[1] as int - 0x80);
      SplitOfPush6(h1, bs[2] as int - 0x80);
      SplitOfPush6(h2, bs[3] as int - 0x80);
      NestedDiv(cp);
    }
  }

  /** The UTF-8 bytes of one character. */
  function EncodeChar(c: char): seq<byte> {
    EncodeScalar(c as int)
  }

  /** The UTF-8 bytes of a whole string (Rust's `str::as_bytes`). */
  function Encode(s: string): seq<byte> {
    ConcatMap(EncodeChar, s)
  }

  /** Each character takes one to four bytes. */
  lemma {:induction false} EncodeLength(s: string)
    ensures |s| <= |Encode(s)| <= 4 * |s|
  {
    if s != [] {
      EncodeLength(s[..|s| - 1]);
    }
  }

  /** Encoding distributes over concatenation. */
  lemma EncodeAppend(s: string, t: string)
    ensures Encode(s + t) == Encode(s) + Encode(t)
  {
    ConcatMapAppend(EncodeChar, s, t);
  }
}
