# llguidance-wasm: a verified model of the binding's own logic

`crates/llguidance-wasm/src/lib.rs` exposes the llguidance constrained-decoding
engine to JavaScript as a `LLGuidanceParser` object. The engine decides which
tokens keep the output inside a grammar. Around it, the binding has its own
logic, and that logic is what this project models and proves properties of:

- **Token bytes** (`decode_token_bytes`). A vocabulary entry's string is turned
  into the bytes the token stands for, one character at a time. `Ġ` becomes a
  space, `Ċ` a newline and `ċ` a tab. Any other character in U+0100..U+01FF
  becomes the single byte `cp - 0x100`. Every other character becomes its UTF-8
  encoding (section 3 of RFC 3629).
- **Token table** (`create_tok_env`, up to the engine's trie).
  - An empty vocabulary is rejected.
  - The table is sized `max id + 1`.
  - Each entry's byte string is stored at its id. Special added tokens get a
    `0xFF` marker byte before their raw UTF-8 bytes.
  - The end-of-sequence id is resolved: first the explicit id, else the first
    added token with a conventional end-of-sequence name, else the last id.
  - The bos/pad/unk ids are copied.
- **Merges** (`deserialize_merges`). Each element of the merges array is a
  string (kept) or an array (its string members joined by single spaces).
  Anything else is an error.
- **Grammar input** (`parse_grammar`, `convert_grammar`). The simplified form
  lists grammar specs: a JSON schema, a regex or a Lark text. Only the first
  spec is used, and a regex becomes the Lark rule `start: /rx/`. If the text is
  not in that form, or lists no grammar, it is read as a native grammar.
- **The session object** (`LLGuidanceParser`). It holds a matcher and a fixed
  vocabulary size. It offers a single-token check, the full 0/1 mask, advancing
  by a token, resetting to a new grammar, and a completeness test on the
  matcher's stop reason.

Modules, one per concern of the file:

| module | file | contents |
|---|---|---|
| `Wrappers` | wrappers.dfy | `Option`, `Result` |
| `ByteStrings` | byte_strings.dfy | bytes; building a byte string character by character |
| `Utf8` | utf8.dfy | UTF-8 encoding and decoding of scalar values |
| `TokenBytes` | token_bytes.dfy | `decode_token_bytes` |
| `Merges` | merges.dfy | JSON values, `deserialize_merges` and `visit_seq` |
| `Grammar` | grammar.dfy | `GrammarSpec`, `convert_grammar`, `parse_grammar` |
| `Vocabulary` | vocabulary.dfy | `TokenizerInput`, `AddedToken`, `create_tok_env` |
| `Session` | session.dfy | `LLGuidanceParser` as the class `Parser` |

The engine is modelled as an `Engine<C>` record of functions over matchers of
an opaque type `C`. It supplies `create_parser` + `Matcher::new`,
`compute_mask`, `consume_token` and the `Debug` text of `stop_reason`. Nothing
is assumed about what these functions compute. The grammar constructors
`from_json_schema` and `from_lark`, and deserialisation of a native grammar,
are recorded as the constructors of `TopLevelGrammar`.

JSON text parsing is done by serde and is not modelled. Each operation takes its
input already parsed:

- A tokenizer as `Result<TokenizerInput, string>`.
- A grammar document as its two readings: as the simplified form, and as a
  native grammar.
- The merges field as a `Json` value.

Token ids are `u32`. Two computations can wrap around:

- `max_id + 1` on line 182 wraps when the vocabulary contains id 0xFFFFFFFF.
- `vocab_size - 1` on line 221 wraps when the table size is 0.

Both are modelled with the wrap-around of a build without overflow checks. In
that case the table is empty and the fallback end-of-sequence id is 0xFFFFFFFF
(`Vocabulary.MaxIdWraps`). A build with overflow checks panics instead.

Four points about what the binding does and does not do:

- An id outside the vocabulary is passed to the engine's mask as it is. The
  binding does not answer `false` for it itself.
- Completion is a substring test on the stop reason's `Debug` text. It is not a
  flag of the session.
- Special-token ids come only from the explicit id fields. The only fallback is
  the end-of-sequence name list, searched among the added tokens, then the last
  id. Nothing is looked up in the vocabulary by name.
- `reset` takes a new grammar text each time.

## Model

| member | source | states |
|---|---|---|
| `TokenBytes.DecodeChar` | crates/llguidance-wasm/src/lib.rs:352-374 | one character gives one to four bytes: exactly one for U+0100..U+01FF, and its UTF-8 encoding outside that range; its first byte is 0xFF exactly for U+01FF |
| `TokenBytes.DecodedLeadByte` | crates/llguidance-wasm/src/lib.rs:351-377 | a non-empty token's first byte is its first character's first byte |
| `TokenBytes.DecodeTokenBytes` | crates/llguidance-wasm/src/lib.rs:348-378 | the loop that pushes into `result` computes the in-order concatenation of the characters' bytes |
| `TokenBytes.DecodedAppend` | crates/llguidance-wasm/src/lib.rs:351-377 | decoding distributes over concatenation: `decode(s + t) == decode(s) + decode(t)` |
| `TokenBytes.DecodedLength` | crates/llguidance-wasm/src/lib.rs:351-377 | a token of n characters decodes to between n and 4n bytes |
| `TokenBytes.MarkerArms` | crates/llguidance-wasm/src/lib.rs:354-366 | `Ġ` gives 0x20 and `Ċ` gives 0x0A, the same as the `cp - 0x100` rule; `ċ` gives 0x09, where that rule would give 0x0B |
| `TokenBytes.DecodedIsUtf8OutsideByteRange` | crates/llguidance-wasm/src/lib.rs:367-373 | a string with no character in U+0100..U+01FF decodes to its UTF-8 bytes |
| `TokenBytes.DecodedAscii` | crates/llguidance-wasm/src/lib.rs:367-373 | ASCII characters pass through as themselves, one byte each |
| `TokenBytes.ByteCharsRoundTrip` | crates/llguidance-wasm/src/lib.rs:359-366 | spelling each byte b as U+0100+b and decoding gives the bytes back for every byte except 0x0B |
| `TokenBytes.VerticalTabComesBackAsTab` | crates/llguidance-wasm/src/lib.rs:357-358 | byte 0x0B spelled as U+010B decodes to 0x09 |
| `TokenBytes.DecodedNotInjective` | crates/llguidance-wasm/src/lib.rs:356-373 | tab, `ĉ` and `ċ` all decode to 0x09; `A` and `Ł` both decode to 0x41 |
| `ByteStrings.ConcatMapAppend` | crates/llguidance-wasm/src/lib.rs:351-377 | any character-by-character byte mapping distributes over concatenation |
| `Utf8.EncodeScalar` | crates/llguidance-wasm/src/lib.rs:370-372 | a scalar value's UTF-8 form has one to four bytes; it is one byte, the value itself, exactly below 0x80; the other bytes are continuation bytes |
| `Utf8.DecodeEncodeScalar` | crates/llguidance-wasm/src/lib.rs:370-372 | decoding a scalar value's UTF-8 form gives the value back |
| `Utf8.EncodeDecodeScalar` | crates/llguidance-wasm/src/lib.rs:370-372 | every well-formed UTF-8 sequence is the encoding of the value it decodes to |
| `Utf8.EncodeAppend` | crates/llguidance-wasm/src/lib.rs:195 | the UTF-8 bytes of a special token's string distribute over concatenation |
| `Utf8.EncodeLength` | crates/llguidance-wasm/src/lib.rs:195 | a string of n characters has between n and 4n UTF-8 bytes |
| `Merges.StringMembers` | crates/llguidance-wasm/src/lib.rs:89-92 | a text is a kept part exactly when it is a string member of the array; there are at most as many parts as members (order and repeats: the next two rows) |
| `Merges.StringMembersAppend` | crates/llguidance-wasm/src/lib.rs:89-92 | the kept parts of `a + b` are those of `a` followed by those of `b`, so filtering keeps order and repeats |
| `Merges.StringMembersSnoc` | crates/llguidance-wasm/src/lib.rs:89-92 | one more member adds its text at the end when it is a string, and nothing otherwise |
| `Merges.JoinWithSpace` | crates/llguidance-wasm/src/lib.rs:93 | the joined merge is empty for no parts; otherwise it starts with the first part, a space follows it when more parts come, and its length is the parts' lengths plus one per gap (where every later part goes: `Merges.JoinWithSpaceSnoc`) |
| `Merges.JoinWithSpaceSnoc` | crates/llguidance-wasm/src/lib.rs:93 | joining one more part appends a single space and that part to the join so far; with the empty and one-part cases this fixes `parts.join(" ")` for every list |
| `Merges.SpaceInMemberIsLost` | crates/llguidance-wasm/src/lib.rs:89-93 | `["a b", "c"]` and `["a", "b c"]` both become `"a b c"`: a member containing a space cannot be told apart after the join |
| `Merges.OneStringMerge` | crates/llguidance-wasm/src/lib.rs:89-93 | an array of two strings becomes the first, a space, and the second |
| `Merges.NormalizeMerge` | crates/llguidance-wasm/src/lib.rs:85-100 | an element is accepted exactly when it is a string or an array; a string is kept unchanged; any other element gives the merge error |
| `Merges.ArrayMergeSplits` | crates/llguidance-wasm/src/lib.rs:87-94 | an array element is always accepted; with no string members its merge is empty; with space-free string members, splitting its merge at spaces gives those members back in order, with repeats |
| `Merges.VisitSeq` | crates/llguidance-wasm/src/lib.rs:78-105 | an error exactly when some element is neither string nor array; otherwise one merge per element, same count and order |
| `Merges.DeserializeMerges` | crates/llguidance-wasm/src/lib.rs:62-109 | an absent field is no merges; an array is read element by element; any other value is an error |
| `Merges.SplitJoinWithSpace` | crates/llguidance-wasm/src/lib.rs:87-93 | joining space-free parts with single spaces loses nothing: splitting at spaces gives them back |
| `Merges.PairWithStrayMember` | crates/llguidance-wasm/src/lib.rs:89-93 | `["Ġ", 1, "t"]` becomes `"Ġ t"`: the non-string member is dropped |
| `Grammar.Build` | crates/llguidance-wasm/src/lib.rs:260-271 | a schema spec becomes the schema grammar, a Lark spec its own text, and a regex spec a Lark grammar from whose start rule the regex reads back |
| `Grammar.ConvertGrammar` | crates/llguidance-wasm/src/lib.rs:252-272 | the error is returned exactly for an empty list; a schema, regex or Lark spec becomes a schema grammar, the start rule around the regex, or the Lark text |
| `Grammar.ConvertUsesFirstOnly` | crates/llguidance-wasm/src/lib.rs:257-258 | the grammars after the first never change the outcome |
| `Grammar.RegexRuleRoundTrip` | crates/llguidance-wasm/src/lib.rs:265-268 | the regex is embedded verbatim in `start: /rx/` and can be read back from it |
| `Grammar.RegexIsLarkRule` | crates/llguidance-wasm/src/lib.rs:265-270 | a regex spec gives the same grammar as the Lark spec of its start rule |
| `Grammar.ParseGrammar` | crates/llguidance-wasm/src/lib.rs:239-250 | a simplified form that lists a grammar is converted from its first spec; otherwise the native reading is used, with its error prefixed |
| `Grammar.ParseGrammarErrors` | crates/llguidance-wasm/src/lib.rs:239-254 | parsing fails exactly when neither reading succeeds; the error always has the native-parse prefix, never the empty-list message |
| `Vocabulary.WrappingIncrement` | crates/llguidance-wasm/src/lib.rs:181-182 | `max_id + 1` in `u32`: one more, or 0 for 0xFFFFFFFF |
| `Vocabulary.WrappingDecrement` | crates/llguidance-wasm/src/lib.rs:220-221 | `(vocab_size - 1) as u32`: one less, or 0xFFFFFFFF for 0 |
| `Vocabulary.MaxId` | crates/llguidance-wasm/src/lib.rs:181 | the largest id of the vocabulary, visited in any order, or 0 for an empty one |
| `Vocabulary.EntryBytes` | crates/llguidance-wasm/src/lib.rs:192-202 | a special added token's entry is 0xFF followed by its UTF-8 bytes; any other token's entry is its decoded bytes, and starts with 0xFF exactly when its first character is U+01FF |
| `Vocabulary.FillWords` | crates/llguidance-wasm/src/lib.rs:184-205 | the table has the given size; each entry whose id passes the guard holds the entry's bytes (`0xFF` + UTF-8 for special added tokens, decoded bytes otherwise); every other id is empty |
| `Vocabulary.FirstEosName` | crates/llguidance-wasm/src/lib.rs:210-219 | the id of the first added token, in list order, named `</s>`, `<\|endoftext\|>`, `<eos>` or `<\|eos\|>`; none exactly when no token has such a name |
| `Vocabulary.EosToken` | crates/llguidance-wasm/src/lib.rs:209-222 | the explicit id when there is one; else, if some added token has an end-of-sequence name, the id of the first such token in list order; else the wrapped last id |
| `Vocabulary.ResolveEos` | crates/llguidance-wasm/src/lib.rs:207-222 | the search loop returns the explicit id, else the first named added token's id, else the last id |
| `Vocabulary.CreateTokEnv` | crates/llguidance-wasm/src/lib.rs:168-228 | a parse error is prefixed; an empty vocabulary is rejected; otherwise the table is sized max id + 1 (0 on wrap), filled as above, with the resolved end-of-sequence id and the copied bos/pad/unk ids |
| `Vocabulary.BuiltFromUnique` | crates/llguidance-wasm/src/lib.rs:188-205 | the token environment is determined by the input: the order in which the map is visited cannot change it |
| `Vocabulary.GuardHolds` | crates/llguidance-wasm/src/lib.rs:181-189 | without id 0xFFFFFFFF, every vocabulary id passes the bounds guard |
| `Vocabulary.MaxIdWraps` | crates/llguidance-wasm/src/lib.rs:181-186 | with id 0xFFFFFFFF the table is empty and the fallback end-of-sequence id is 0xFFFFFFFF |
| `Vocabulary.FallbackEosInRange` | crates/llguidance-wasm/src/lib.rs:220-221 | the last-id fallback is the table's last index |
| `Vocabulary.ExplicitEosUnchecked` | crates/llguidance-wasm/src/lib.rs:209 | an explicit end-of-sequence id is used even when it lies outside the table |
| `Vocabulary.FirstNamedTokenWins` | crates/llguidance-wasm/src/lib.rs:211-218 | the first named added token wins, whatever its special flag |
| `Session.Parser.constructor` | crates/llguidance-wasm/src/lib.rs:156-164 | a new parser holds the matcher the engine builds for the grammar, and the given vocabulary size |
| `Session.Parser.New` | crates/llguidance-wasm/src/lib.rs:139-165 | the grammar error, tokenizer error, empty vocabulary or factory error comes first, in that order; on success the matcher is built for the parsed grammar and the size is the table's |
| `Session.Parser.IsTokenAllowed` | crates/llguidance-wasm/src/lib.rs:276-283 | a mask error is prefixed; otherwise the answer is the mask's verdict on the id |
| `Session.Parser.GetTokenMask` | crates/llguidance-wasm/src/lib.rs:287-303 | a mask error is prefixed; otherwise the vector has `vocab_size` entries, 1 where the id is allowed and 0 elsewhere |
| `Session.Parser.MaskAgreesWithProbe` | crates/llguidance-wasm/src/lib.rs:276-303 | for the same matcher, the full mask and the single-id check succeed together and agree bit for bit |
| `Session.Parser.Advance` | crates/llguidance-wasm/src/lib.rs:307-312 | the matcher becomes the engine's post-consume matcher; the engine's error, if any, is prefixed |
| `Session.Parser.IsComplete` | crates/llguidance-wasm/src/lib.rs:316-322 | complete exactly when the stop reason contains `EndOfSentence`, `NoExtension` or `MaxTokensTotal` |
| `Session.NoExtensionBiasIsRedundant` | crates/llguidance-wasm/src/lib.rs:318-321 | the `NoExtensionBias` test adds nothing to the `NoExtension` test |
| `Session.Parser.Reset` | crates/llguidance-wasm/src/lib.rs:326-331 | on a grammar error the error is returned and the matcher is unchanged; otherwise the matcher the engine builds for the new grammar |
| `Session.Parser.VocabSize` | crates/llguidance-wasm/src/lib.rs:335-337 | returns the size fixed at construction; the field is a `const`, so no method can change it |

## Left out

- WebAssembly and JavaScript glue is not modelled (`#[wasm_bindgen]`, `JsValue` errors, copying into `Uint8Array`, `init`, `console_error_panic_hook`). It has no logic. Errors are modelled as their message strings.
- serde and serde_json text parsing is not modelled, including untagged-enum matching and field defaults. Inputs arrive already parsed.
- Merges.DeserializeMerges: the error for a field that is not an array is modelled as one fixed message. serde's exact wording, which names the value found, is not modelled.
- Merges: the normalised merges are not wired into `TokenizerInput`, which takes them already normalised. The crate stores them and never uses them.
- The token map must be injective. When two token strings share an id, the HashMap visiting order decides which one is stored, and the source leaves that unspecified.
- The engine (`ParserFactory`, `Matcher`, `TokTrie::from`, `ApproximateTokEnv`, the `TopLevelGrammar` constructors) is foreign code. It is modelled as uninterpreted functions, and no grammar semantics are modelled.
- The trie's `vocab_size()` is taken to be the `TokRxInfo` size it was built from.
- `compute_mask` takes the matcher mutably. The model treats it as leaving the matcher unchanged.
- Session.Parser.IsTokenAllowed: says nothing of ids at or beyond the vocabulary size. The answer for those comes from the engine's mask.
- `Arc`, `Sync` and `set_stderr_log_level(0)` are not modelled. They concern sharing and logging.
- The unused `model_type` field is not modelled.
- Overflow panics of builds with overflow checks are not modelled. The model follows wrap-around arithmetic.
- The `stop_reason` getter is modelled only as the text that `IsComplete` reads.
- The TypeScript speculative-masking adapter that uses these bindings is not part of this model.
