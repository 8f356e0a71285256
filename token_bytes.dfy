/**
 * `decode_token_bytes`: the byte string a vocabulary entry stands for.
 * Each character is mapped on its own and the results are concatenated:
 * three marker characters have fixed bytes, every other character in
 * U+0100..U+01FF stands for the single byte `cp - 0x100`, and every other
 * character stands for its UTF-8 encoding.
 */
module TokenBytes {
  import opened ByteStrings
  import opened Utf8

  /** 'Ġ', the space marker of byte-level tokenizers. */
  const SPACE_MARKER: char := '\U{0120}'
  /** 'Ċ', the newline marker. */
  const NEWLINE_MARKER: char := '\U{010A}'
  /** 'ċ', which this decoder reads as a tab. */
  const TAB_MARKER: char := '\U{010B}'

  predicate InByteRange(c: char) {
    0x100 <= c as int <= 0x1FF
  }

  /** The bytes that one character of a token string stands for. */
  function DecodeChar(c: char): (bs: seq<byte>)
    ensures 1 <= |bs| <= 4
    ensures InByteRange(c) ==> |bs| == 1
    ensures !InByteRange(c) ==> bs == EncodeScalar(c as int)
    ensures bs[0] == 0xFF <==> c == '\U{01FF}'
  {
    if c == SPACE_MARKER then [0x20]
    else if c == NEWLINE_MARKER then [0x0A]
    else if c == TAB_MARKER then [0x09]
    else if InByteRange(c) then [c as int - 0x100]
    else EncodeScalarLead(c as int); EncodeScalar(c as int)
  }

  /** The bytes of a whole token string: the characters' bytes, in order. */
  function Decoded(s: string): seq<byte> {
    ConcatMap(DecodeChar, s)
  }

  /** The loop of `decode_token_bytes`, pushing into a result buffer. */
  method DecodeTokenBytes(token: string) returns (result: seq<byte>)
    ensures result == Decoded(token)
  {
    result := [];
    for i := 0 to |token|
      invariant result == Decoded(token[..i])
    {
      var c := token[i];
      if c == SPACE_MARKER {
        result := result + [0x20];
      } else if c == NEWLINE_MARKER {
        result := result + [0x0A];
      } else if c == TAB_MARKER {
        result := result + [0x09];
      } else if 0x100 <= c as int <= 0x1FF {
        result := result + [c as int - 0x100];
      } else {
        result := result + EncodeScalar(c as int);
      }
      assert token[..i + 1][..i] == token[..i];
    }
    assert token[..|token|] == token;
  }

  /** Each character yields one to four bytes. */
  lemma {:induction false} DecodedLength(s: string)
    ensures |s| <= |Decoded(s)| <= 4 * |s|
  {
    if s != [] {
      DecodedLength(s[..|s| - 1]);
    }
  }

  /** The first byte of a token's bytes is the first byte of its first character. */
  lemma DecodedLeadByte(s: string)
    ensures s != [] ==> Decoded(s) != [] && Decoded(s)[0] == DecodeChar(s[0])[0]
  {
    if s != [] {
      DecodedAppend([s[0]], s[1..]);
      assert [s[0]] + s[1..] == s;
      assert [s[0]][..0] == [];
      assert ConcatMap(DecodeChar, [s[0]]) == ConcatMap(DecodeChar, []) + DecodeChar(s[0]);
    }
  }

  /** Decoding works character by character: it distributes over concatenation. */
  lemma DecodedAppend(s: string, t: string)
    ensures Decoded(s + t) == Decoded(s) + Decoded(t)
  {
    ConcatMapAppend(DecodeChar, s, t);
  }

  /**
   * The space and newline arms give the same byte as the general
   * `cp - 0x100` rule; only the tab marker departs from it (0x09, not 0x0B).
   */
  lemma MarkerArms()
    ensures DecodeChar(SPACE_MARKER) == [SPACE_MARKER as int - 0x100] == [0x20]
    ensures DecodeChar(NEWLINE_MARKER) == [NEWLINE_MARKER as int - 0x100] == [0x0A]
    ensures DecodeChar(TAB_MARKER) == [0x09] && TAB_MARKER as int - 0x100 == 0x0B
  {
  }

  /** A string with no character in U+0100..U+01FF decodes to its UTF-8 bytes. */
  lemma {:induction false} DecodedIsUtf8OutsideByteRange(s: string)
    requires forall i :: 0 <= i < |s| ==> !InByteRange(s[i])
    ensures Decoded(s) == Encode(s)
  {
    if s != [] {
      DecodedIsUtf8OutsideByteRange(s[..|s| - 1]);
    }
  }

  /** ASCII characters pass through as themselves, one byte each. */
  lemma {:induction false} DecodedAscii(s: string)
    requires forall i :: 0 <= i < |s| ==> s[i] as int < 0x80
    ensures Decoded(s) == seq(|s|, i requires 0 <= i < |s| => s[i] as int)
  {
    if s != [] {
      DecodedAscii(s[..|s| - 1]);
    }
  }

  /** The characters U+0100 + b, one per byte: byte-level token spelling. */
  function ByteChars(bs: seq<byte>): (s: string)
    ensures |s| == |bs|
    ensures forall i :: 0 <= i < |s| ==> InByteRange(s[i])
  {
    seq(|bs|, i requires 0 <= i < |bs| => (0x100 + bs[i] as int) as char)
  }

  /** Byte-level spellings round-trip through the decoder for every byte except 0x0B. */
  lemma {:induction false} ByteCharsRoundTrip(bs: seq<byte>)
    requires forall i :: 0 <= i < |bs| ==> bs[i] != 0x0B
    ensures Decoded(ByteChars(bs)) == bs
  {
    if bs != [] {
      var init := bs[..|bs| - 1];
      assert ByteChars(bs)[..|bs| - 1] == ByteChars(init);
      ByteCharsRoundTrip(init);
    }
  }

  /** Byte 0x0B, spelled U+010B, comes back as a tab. */
  lemma VerticalTabComesBackAsTab()
    ensures Decoded(ByteChars([0x0B])) == [0x09]
  {
  }

  /** Different token strings can decode to the same bytes. */
  lemma DecodedNotInjective()
    ensures Decoded("\t") == Decoded("\U{0109}") == Decoded([TAB_MARKER]) == [0x09]
    ensures Decoded("A") == Decoded("\U{0141}") == [0x41]
  {
  }
}
