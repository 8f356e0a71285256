/** Bytes, and byte strings built character by character. */
module ByteStrings {

  type byte = x: int | 0 <= x < 256

  /** The concatenation, in order, of the byte strings f gives each character of s. */
  function ConcatMap(f: char -> seq<byte>, s: string): seq<byte> {
    if s == [] then [] else ConcatMap(f, s[..|s| - 1]) + f(s[|s| - 1])
  }

  lemma LastOfConcat<T>(s: seq<T>, t: seq<T>)
    requires t != []
    ensures (s + t)[..|s + t| - 1] == s + t[..|t| - 1]
    ensures (s + t)[|s + t| - 1] == t[|t| - 1]
  {
  }

  /** Mapping character by character distributes over concatenation. */
  lemma {:induction false} ConcatMapAppend(f: char -> seq<byte>, s: string, t: string)
    ensures ConcatMap(f, s + t) == ConcatMap(f, s) + ConcatMap(f, t)
    decreases |t|
  {
    if t == [] {
      assert s + t == s;
    } else {
      LastOfConcat(s, t);
      ConcatMapAppend(f, s, t[..|t| - 1]);
    }
  }
}
