/**
 * `LLGuidanceParser`: one generation stream's grammar session. It holds the
 * engine's matcher (the cursor through the compiled grammar) and the
 * vocabulary size fixed at construction; its methods ask the engine for the
 * token mask, advance the matcher, reset it to a new grammar and read the
 * stop reason.
 */
module Session {
  import opened Wrappers
  import opened ByteStrings
  import opened Vocabulary
  import opened Grammar

  /**
   * What the engine offers over matchers of type C: building a matcher for a
   * grammar (`create_parser` followed by `Matcher::new`), computing the mask
   * of allowed token ids, consuming a token (the matcher after the call, and
   * the error if there was one) and the `Debug` text of the stop reason.
   */
  datatype Engine<!C> = Engine(
    createMatcher: TopLevelGrammar -> C,
    computeMask: C -> Result<u32 -> bool, string>,
    consumeToken: (C, u32) -> (C, Option<string>),
    stopReason: C -> string)

  const MASK_PREFIX := "Failed to compute mask: "
  const CONSUME_PREFIX := "Failed to consume token: "
  const FACTORY_PREFIX := "Failed to create parser factory: "

  /** sub occurs in s starting at index i. */
  predicate OccursAt(s: string, sub: string, i: nat) {
    i + |sub| <= |s| && s[i..i + |sub|] == sub
  }

  /** s contains sub as a contiguous substring (Rust's `str::contains`). */
  predicate Contains(s: string, sub: string) {
    exists i: nat :: i <= |s| && OccursAt(s, sub, i)
  }

  /** A stop reason that `is_complete` accepts. */
  predicate IsCompleteReason(reason: string) {
    || Contains(reason, "EndOfSentence")
    || Contains(reason, "NoExtension")
    || Contains(reason, "MaxTokensTotal")
    || Contains(reason, "NoExtensionBias")
  }

  lemma ContainsPrefix(s: string, sub: string, pre: string)
    requires Contains(s, sub) && |pre| <= |sub| && sub[..|pre|] == pre
    ensures Contains(s, pre)
  {
    var i: nat :| i <= |s| && OccursAt(s, sub, i);
    assert s[i..i + |pre|] == sub[..|pre|];
    assert OccursAt(s, pre, i);
  }

  /**
   * The fourth test of `is_complete` adds nothing: any text containing
   * "NoExtensionBias" also contains "NoExtension".
   */
  lemma NoExtensionBiasIsRedundant(reason: string)
    ensures IsCompleteReason(reason) <==>
              Contains(reason, "EndOfSentence") || Contains(reason, "NoExtension") || Contains(reason, "MaxTokensTotal")
  {
    if Contains(reason, "NoExtensionBias") {
      ContainsPrefix(reason, "NoExtensionBias", "NoExtension");
    }
  }

  class Parser<C> {
    /** What the parser factory and the matchers it builds do. */
    const engine: Engine<C>
    var matcher: C
    /** The vocabulary size, fixed at construction. */
    const vocabSize: u32

    constructor (engine: Engine<C>, grammar: TopLevelGrammar, vocabSize: u32)
      ensures this.engine == engine && this.vocabSize == vocabSize
      ensures matcher == engine.createMatcher(grammar)
    {
      this.engine := engine;
      this.matcher := engine.createMatcher(grammar);
      this.vocabSize := vocabSize;
    }

    /**
     * `new_inner`: parse the grammar, build the token environment, create the
     * parser factory from it, and start a matcher for the grammar. The first
     * step that fails decides the error.
     */
    static method New(doc: GrammarDocument, tokenizer: Result<TokenizerInput, string>,
                      newEngine: TokEnv -> Result<Engine<C>, string>)
      returns (r: Result<Parser<C>, string>)
      requires tokenizer.Ok? ==> Injective(tokenizer.value.vocab)
      ensures ParseGrammar(doc).Err? ==> r == Err(ParseGrammar(doc).error)
      ensures ParseGrammar(doc).Ok? && tokenizer.Err? ==> r == Err(TOKENIZER_PARSE_PREFIX + tokenizer.error)
      ensures ParseGrammar(doc).Ok? && tokenizer.Ok? && |tokenizer.value.vocab| == 0 ==> r == Err(EMPTY_VOCAB)
      ensures r.Ok? ==>
                && ParseGrammar(doc).Ok? && tokenizer.Ok? && |tokenizer.value.vocab| > 0
                && fresh(r.value)
                && r.value.matcher == r.value.engine.createMatcher(ParseGrammar(doc).value)
                && exists env :: BuiltFrom(tokenizer.value, env) && env.info.vocabSize == r.value.vocabSize
                                 && newEngine(env) == Ok(r.value.engine)
      ensures r.Err? && ParseGrammar(doc).Ok? && tokenizer.Ok? && |tokenizer.value.vocab| > 0 ==>
                exists env :: BuiltFrom(tokenizer.value, env) && newEngine(env).Err?
                              && r.error == FACTORY_PREFIX + newEngine(env).error
    {
      var grammar := ParseGrammar(doc);
      if grammar.Err? {
        return Err(grammar.error);
      }
      var tokEnv := CreateTokEnv(tokenizer);
      if tokEnv.Err? {
        return Err(tokEnv.error);
      }
      var env := tokEnv.value;
      var vocabSize := env.info.vocabSize;
      var factory := newEngine(env);
      if factory.Err? {
        return Err(FACTORY_PREFIX + factory.error);
      }
      var p := new Parser(factory.value, grammar.value, vocabSize);
      return Ok(p);
    }

    /** Whether one token id is allowed at the current position. */
    method IsTokenAllowed(tokenId: u32) returns (r: Result<bool, string>)
      ensures engine.computeMask(matcher).Err? ==> r == Err(MASK_PREFIX + engine.computeMask(matcher).error)
      ensures engine.computeMask(matcher).Ok? ==> r == Ok(engine.computeMask(matcher).value(tokenId))
    {
      var mask := engine.computeMask(matcher);
      if mask.Err? {
        return Err(MASK_PREFIX + mask.error);
      }
      return Ok(mask.value(tokenId));
    }

    /** The full mask: one byte per token id, 1 where the id is allowed and 0 elsewhere. */
    method GetTokenMask() returns (r: Result<seq<byte>, string>)
      ensures engine.computeMask(matcher).Err? ==> r == Err(MASK_PREFIX + engine.computeMask(matcher).error)
      ensures engine.computeMask(matcher).Ok? ==>
                r.Ok? && |r.value| == vocabSize
                && forall i :: 0 <= i < vocabSize ==>
                     r.value[i] == if engine.computeMask(matcher).value(i) then 1 else 0
    {
      var mask := engine.computeMask(matcher);
      if mask.Err? {
        return Err(MASK_PREFIX + mask.error);
      }
      var maskVec := new byte[vocabSize](_ => 0);
      for i := 0 to vocabSize
        invariant forall j :: 0 <= j < i ==> maskVec[j] == if mask.value(j) then 1 else 0
        invariant forall j :: i <= j < vocabSize ==> maskVec[j] == 0
      {
        if mask.value(i) {
          maskVec[i] := 1;
        }
      }
      return Ok(maskVec[..]);
    }

    /**
     * For one and the same matcher, the full mask and the single-id probe
     * agree bit for bit: they succeed together, and then bit i is 1 exactly
     * when id i is allowed.
     */
    method MaskAgreesWithProbe(tokenId: u32) returns (agree: bool)
      requires tokenId < vocabSize
      ensures agree
    {
      var m := GetTokenMask();
      var a := IsTokenAllowed(tokenId);
      agree := m.Ok? == a.Ok? && (m.Ok? ==> (m.value[tokenId] == 1) == a.value);
    }

    /** Consumes the chosen token; the matcher is whatever the engine leaves, even on failure. */
    method Advance(tokenId: u32) returns (r: Result<(), string>)
      modifies this
      ensures matcher == engine.consumeToken(old(matcher), tokenId).0
      ensures var err := engine.consumeToken(old(matcher), tokenId).1;
              r == if err.Some? then Err(CONSUME_PREFIX + err.value) else Ok(())
    {
      var (next, err) := engine.consumeToken(matcher, tokenId);
      matcher := next;
      if err.Some? {
        return Err(CONSUME_PREFIX + err.value);
      }
      return Ok(());
    }

    /** The `Debug` text of the matcher's stop reason. */
    function StopReason(): string
      reads this
    {
      engine.stopReason(matcher)
    }

    /** Whether the stop reason names one of the four completion reasons. */
    function IsComplete(): (r: bool)
      reads this
      ensures r <==> Contains(StopReason(), "EndOfSentence") || Contains(StopReason(), "NoExtension")
                     || Contains(StopReason(), "MaxTokensTotal")
    {
      NoExtensionBiasIsRedundant(StopReason());
      IsCompleteReason(StopReason())
    }

    /**
     * Starts over with a new grammar. On a grammar error nothing changes;
     * otherwise the matcher is a fresh one for the new grammar, built by the
     * same factory for the same vocabulary.
     */
    method Reset(doc: GrammarDocument) returns (r: Result<(), string>)
      modifies this
      ensures ParseGrammar(doc).Err? ==> r == Err(ParseGrammar(doc).error) && matcher == old(matcher)
      ensures ParseGrammar(doc).Ok? ==> r == Ok(()) && matcher == engine.createMatcher(ParseGrammar(doc).value)
    {
      var grammar := ParseGrammar(doc);
      if grammar.Err? {
        return Err(grammar.error);
      }
      matcher := engine.createMatcher(grammar.value);
      return Ok(());
    }

    function VocabSize(): (n: u32)
      ensures n == vocabSize
    {
      vocabSize
    }
  }
}
