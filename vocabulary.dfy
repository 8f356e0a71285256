/**
 * The crate-side part of `create_tok_env`: checking the vocabulary, sizing
 * the token table, filling the byte string of every token id and resolving
 * the special token ids handed to the engine's `TokRxInfo`.
 *
 * Token ids are `u32`. The table size `max_id + 1` is computed in `u32` and
 * the fallback end-of-sequence id `vocab_size - 1` in 32-bit `usize`; both are
 * modelled with the wrap-around of a build without overflow checks.
 */
module Vocabulary {
  import opened Wrappers
  import opened ByteStrings
  import opened Utf8
  import TokenBytes

  const U32_LIMIT := 0x1_0000_0000
  const U32_MAX := 0xFFFF_FFFF

  type u32 = x: int | 0 <= x < U32_LIMIT

  /** An entry of `added_tokens`; `special` defaults to false. */
  datatype AddedToken = AddedToken(id: u32, content: string, special: bool)

  /** The tokenizer JSON, already deserialised (merges already normalised). */
  datatype TokenizerInput = TokenizerInput(
    vocab: map<string, u32>,
    merges: seq<string>,
    addedTokens: seq<AddedToken>,
    modelType: Option<string>,
    eosTokenId: Option<u32>,
    bosTokenId: Option<u32>,
    padTokenId: Option<u32>,
    unkTokenId: Option<u32>)

  /** The fields of the engine's `TokRxInfo` that this crate sets. */
  datatype TokRxInfo = TokRxInfo(
    vocabSize: u32,
    tokEos: u32,
    tokBos: Option<u32>,
    tokPad: Option<u32>,
    tokUnk: Option<u32>)

  /** What `TokTrie::from` is given: the info and the byte string of every id. */
  datatype TokEnv = TokEnv(info: TokRxInfo, words: seq<seq<byte>>)

  const TOKENIZER_PARSE_PREFIX := "Failed to parse tokenizer JSON: "
  const EMPTY_VOCAB := "Tokenizer vocabulary is empty"

  /** No two token strings share an id. */
  ghost predicate Injective(vocab: map<string, u32>) {
    forall s, t :: s in vocab && t in vocab && s != t ==> vocab[s] != vocab[t]
  }

  /** `x + 1` in `u32` without overflow checks. */
  function WrappingIncrement(x: u32): (r: u32)
    ensures x < U32_MAX ==> r == x + 1
    ensures x == U32_MAX ==> r == 0
  {
    (x + 1) % U32_LIMIT
  }

  /** `(x - 1) as u32` for a 32-bit `usize` without overflow checks. */
  function WrappingDecrement(x: u32): (r: u32)
    ensures x > 0 ==> r == x - 1
    ensures x == 0 ==> r == U32_MAX
  {
    (x + U32_MAX) % U32_LIMIT
  }

  /** `vocab.values().max().unwrap_or(0)`, visiting the entries in any order. */
  method MaxId(vocab: map<string, u32>) returns (m: u32)
    ensures |vocab| == 0 ==> m == 0
    ensures |vocab| > 0 ==> m in vocab.Values
    ensures forall s :: s in vocab ==> vocab[s] <= m
  {
    m := 0;
    var seen := false;
    var todo := vocab.Keys;
    while todo != {}
      invariant todo <= vocab.Keys
      invariant seen <==> todo != vocab.Keys
      invariant seen ==> m in vocab.Values
      invariant !seen ==> m == 0
      invariant forall s :: s in vocab.Keys - todo ==> vocab[s] <= m
      decreases todo
    {
      var s :| s in todo;
      if !seen || m < vocab[s] {
        m := vocab[s];
      }
      seen := true;
      todo := todo - {s};
    }
    if |vocab| > 0 {
      assert vocab.Keys != {} by {
        var s :| s in vocab;
      }
    }
  }

  /** Some added token with this id is flagged special. */
  predicate IsSpecialId(added: seq<AddedToken>, id: u32) {
    exists i :: 0 <= i < |added| && added[i].id == id && added[i].special
  }

  /**
   * The byte string stored for a token: special added tokens get a 0xFF
   * marker byte before their raw UTF-8 bytes; every other token string is
   * decoded character by character, and starts with 0xFF only when its first
   * character is U+01FF.
   */
  function EntryBytes(s: string, id: u32, added: seq<AddedToken>): (r: seq<byte>)
    ensures IsSpecialId(added, id) ==> |r| >= 1 && r[0] == 0xFF && r[1..] == Encode(s)
    ensures !IsSpecialId(added, id) ==> r == TokenBytes.Decoded(s)
    ensures !IsSpecialId(added, id) && s != [] ==> r != [] && (r[0] == 0xFF <==> s[0] == '\U{01FF}')
  {
    if IsSpecialId(added, id) then [0xFF] + Encode(s)
    else
      TokenBytes.DecodedLeadByte(s);
      TokenBytes.Decoded(s)
  }

  /** The ids that the given token strings have. */
  ghost function IdsOf(vocab: map<string, u32>, keys: set<string>): set<u32>
    requires keys <= vocab.Keys
  {
    set s | s in keys :: vocab[s]
  }

  /**
   * The table is filled in place: every id starts with an empty byte string
   * and each vocabulary entry whose id passes the bounds guard overwrites its
   * slot. The entries are visited in any order.
   */
  method FillWords(vocab: map<string, u32>, added: seq<AddedToken>, vocabSize: nat)
    returns (words: seq<seq<byte>>)
    requires Injective(vocab)
    ensures |words| == vocabSize
    ensures forall s :: s in vocab && vocab[s] < vocabSize ==> words[vocab[s]] == EntryBytes(s, vocab[s], added)
    ensures forall i :: 0 <= i < vocabSize && i !in vocab.Values ==> words[i] == []
  {
    var table := new seq<byte>[vocabSize](_ => []);
    var todo := vocab.Keys;
    while todo != {}
      invariant todo <= vocab.Keys
      invariant forall s :: s in vocab.Keys - todo && vocab[s] < vocabSize ==>
                  table[vocab[s]] == EntryBytes(s, vocab[s], added)
      invariant forall i :: 0 <= i < vocabSize && i !in IdsOf(vocab, vocab.Keys - todo) ==> table[i] == []
      decreases todo
    {
      var tokenStr :| tokenStr in todo;
      var id := vocab[tokenStr];
      if id < vocabSize {
        var bytes: seq<byte>;
        if exists i :: 0 <= i < |added| && added[i].id == id && added[i].special {
          bytes := [0xFF] + Encode(tokenStr);
        } else {
          bytes := TokenBytes.DecodeTokenBytes(tokenStr);
        }
        table[id] := bytes;
      }
      todo := todo - {tokenStr};
    }
    words := table[..];
    assert IdsOf(vocab, vocab.Keys) == vocab.Values;
  }

  /** The contents that name a conventional end-of-sequence token. */
  predicate IsEosName(content: string) {
    content == "</s>" || content == "<|endoftext|>" || content == "<eos>" || content == "<|eos|>"
  }

  /** The id of the first added token, in list order, whose content is an end-of-sequence name. */
  function FirstEosName(added: seq<AddedToken>): (r: Option<u32>)
    ensures r.None? <==> forall i :: 0 <= i < |added| ==> !IsEosName(added[i].content)
    ensures r.Some? ==> exists k :: 0 <= k < |added| && IsEosName(added[k].content) && r.value == added[k].id
                                    && forall j :: 0 <= j < k ==> !IsEosName(added[j].content)
  {
    if added == [] then None
    else if IsEosName(added[0].content) then Some(added[0].id)
    else
      var r := FirstEosName(added[1..]);
      assert forall i :: 1 <= i < |added| ==> added[i] == added[1..][i - 1];
      if r.Some? then
        var k :| 0 <= k < |added[1..]| && IsEosName(added[1..][k].content) && r.value == added[1..][k].id
                  && forall j :: 0 <= j < k ==> !IsEosName(added[1..][j].content);
        assert IsEosName(added[k + 1].content) && r.value == added[k + 1].id;
        r
      else
        r
  }

  /** The end-of-sequence id: explicit id, else a conventionally named added token, else the last id. */
  function EosToken(input: TokenizerInput, vocabSize: u32): (r: u32)
    ensures input.eosTokenId.Some? ==> r == input.eosTokenId.value
    ensures input.eosTokenId.None? && (exists i :: 0 <= i < |input.addedTokens| && IsEosName(input.addedTokens[i].content)) ==>
              exists k :: 0 <= k < |input.addedTokens| && IsEosName(input.addedTokens[k].content)
                          && r == input.addedTokens[k].id
                          && forall j :: 0 <= j < k ==> !IsEosName(input.addedTokens[j].content)
    ensures input.eosTokenId.None? && (forall i :: 0 <= i < |input.addedTokens| ==> !IsEosName(input.addedTokens[i].content)) ==>
              r == WrappingDecrement(vocabSize)
  {
    match input.eosTokenId
    case Some(id) => id
    case None =>
      match FirstEosName(input.addedTokens)
      case Some(id) => id
      case None => WrappingDecrement(vocabSize)
  }

  /** The search for the end-of-sequence id, stopping at the first hit. */
  method ResolveEos(input: TokenizerInput, vocabSize: u32) returns (eos: u32)
    ensures eos == EosToken(input, vocabSize)
  {
    if input.eosTokenId.Some? {
      return input.eosTokenId.value;
    }
    var added := input.addedTokens;
    for k := 0 to |added|
      invariant forall j :: 0 <= j < k ==> !IsEosName(added[j].content)
    {
      if IsEosName(added[k].content) {
        assert FirstEosName(added) != None;
        return added[k].id;
      }
    }
    return WrappingDecrement(vocabSize);
  }

  /** The token environment that `create_tok_env` builds from a vocabulary. */
  ghost predicate BuiltFrom(input: TokenizerInput, env: TokEnv) {
    var vocab, n := input.vocab, env.info.vocabSize;
    && (n == 0 <==> U32_MAX in vocab.Values)
    && (n > 0 ==> n - 1 in vocab.Values && forall s :: s in vocab ==> vocab[s] < n)
    && |env.words| == n
    && (forall s :: s in vocab && vocab[s] < n ==> env.words[vocab[s]] == EntryBytes(s, vocab[s], input.addedTokens))
    && (forall i :: 0 <= i < n && i !in vocab.Values ==> env.words[i] == [])
    && env.info.tokEos == EosToken(input, n)
    && env.info.tokBos == input.bosTokenId
    && env.info.tokPad == input.padTokenId
    && env.info.tokUnk == input.unkTokenId
  }

  /** `create_tok_env` up to the engine's trie construction. */
  method CreateTokEnv(parsed: Result<TokenizerInput, string>) returns (r: Result<TokEnv, string>)
    requires parsed.Ok? ==> Injective(parsed.value.vocab)
    ensures parsed.Err? ==> r == Err(TOKENIZER_PARSE_PREFIX + parsed.error)
    ensures parsed.Ok? && |parsed.value.vocab| == 0 ==> r == Err(EMPTY_VOCAB)
    ensures parsed.Ok? && |parsed.value.vocab| > 0 ==> r.Ok? && BuiltFrom(parsed.value, r.value)
  {
    if parsed.Err? {
      return Err(TOKENIZER_PARSE_PREFIX + parsed.error);
    }
    var input := parsed.value;
    if |input.vocab| == 0 {
      return Err(EMPTY_VOCAB);
    }
    var maxId := MaxId(input.vocab);
    var vocabSize := WrappingIncrement(maxId);
    var words := FillWords(input.vocab, input.addedTokens, vocabSize);
    var eos := ResolveEos(input, vocabSize);
    var info := TokRxInfo(vocabSize, eos, input.bosTokenId, input.padTokenId, input.unkTokenId);
    return Ok(TokEnv(info, words));
  }

  /**
   * The environment is determined by the input: the order in which the
   * vocabulary is visited cannot change it.
   */
  lemma BuiltFromUnique(input: TokenizerInput, e1: TokEnv, e2: TokEnv)
    requires BuiltFrom(input, e1) && BuiltFrom(input, e2)
    ensures e1 == e2
  {
  }

  /** When the vocabulary has no id 0xFFFFFFFF, every entry passes the bounds guard. */
  lemma GuardHolds(input: TokenizerInput, env: TokEnv, s: string)
    requires BuiltFrom(input, env) && s in input.vocab
    requires U32_MAX !in input.vocab.Values
    ensures input.vocab[s] < env.info.vocabSize == |env.words|
  {
  }

  /**
   * An id 0xFFFFFFFF makes `max_id + 1` wrap to 0: the table is empty, and
   * the fallback end-of-sequence id is 0xFFFFFFFF.
   */
  lemma MaxIdWraps(input: TokenizerInput, env: TokEnv)
    requires BuiltFrom(input, env) && U32_MAX in input.vocab.Values
    ensures env.words == []
    ensures input.eosTokenId.None? && FirstEosName(input.addedTokens).None? ==> env.info.tokEos == U32_MAX
  {
  }

  /** Only the last-id fallback is certain to lie inside the table. */
  lemma FallbackEosInRange(input: TokenizerInput, env: TokEnv)
    requires BuiltFrom(input, env) && U32_MAX !in input.vocab.Values
    requires input.eosTokenId.None? && FirstEosName(input.addedTokens).None?
    ensures env.info.tokEos == env.info.vocabSize - 1
  {
  }

  /** An explicit end-of-sequence id is taken as it is, even outside the table. */
  lemma ExplicitEosUnchecked()
    ensures EosToken(TokenizerInput(map["a" := 0], [], [], None, Some(7), None, None, None), 1) == 7
  {
  }

  /** The first conventionally named added token wins, whether or not it is special. */
  lemma FirstNamedTokenWins()
    ensures FirstEosName([AddedToken(3, "<eos>", false), AddedToken(2, "</s>", true)]) == Some(3)
  {
  }
}
