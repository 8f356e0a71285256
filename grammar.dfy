/**
 * `parse_grammar` and `convert_grammar`: turning the grammar JSON the caller
 * passes into the engine's top-level grammar. The simplified form lists
 * grammar specs, of which only the first is used; when the text does not
 * read as that form, or lists none, it is read as the engine's native form.
 */
module Grammar {
  import opened Wrappers
  import opened Merges

  /** One grammar of the simplified form: a closed three-way variant. */
  datatype GrammarSpec =
    | JsonSchema(jsonSchema: Json)
    | Regex(rx: string)
    | Lark(lark: string)

  datatype GrammarInput = GrammarInput(grammars: seq<GrammarSpec>)

  /**
   * The engine's grammar, recorded by the engine constructor that built it:
   * `TopLevelGrammar::from_json_schema`, `TopLevelGrammar::from_lark`, or
   * deserialisation of the native document. What these grammars mean is the
   * engine's business.
   */
  datatype TopLevelGrammar =
    | FromJsonSchema(schema: Json)
    | FromLark(source: string)
    | Native(document: Json)

  /**
   * The grammar JSON text, as the two deserialisations read it: as the
   * simplified form (None when it is not one) and as a native grammar.
   */
  datatype GrammarDocument = GrammarDocument(
    asInput: Option<GrammarInput>,
    asNative: Result<TopLevelGrammar, string>)

  const NO_GRAMMARS := "No grammars provided"
  const GRAMMAR_PARSE_PREFIX := "Failed to parse grammar JSON: "
  const RULE_HEAD := "start: /"

  /** The Lark text a regex becomes: a start rule matching the regex. */
  function RegexRule(rx: string): string {
    RULE_HEAD + rx + "/"
  }

  /** The regex inside a Lark text of the form `start: /.../`, if it has that form. */
  function RuleRegex(lark: string): Option<string> {
    if |lark| > |RULE_HEAD| && lark[..|RULE_HEAD|] == RULE_HEAD && lark[|lark| - 1] == '/' then
      Some(lark[|RULE_HEAD|..|lark| - 1])
    else
      None
  }

  /** The regex is embedded verbatim: it can be read back from the rule. */
  lemma RegexRuleRoundTrip(rx: string)
    ensures RuleRegex(RegexRule(rx)) == Some(rx)
  {
  }

  /** The engine grammar one spec becomes. */
  function Build(spec: GrammarSpec): (g: TopLevelGrammar)
    ensures spec.JsonSchema? ==> g == FromJsonSchema(spec.jsonSchema)
    ensures spec.Regex? ==> g.FromLark? && RuleRegex(g.source) == Some(spec.rx)
    ensures spec.Lark? ==> g == FromLark(spec.lark)
  {
    match spec
    case JsonSchema(v) => FromJsonSchema(v)
    case Regex(rx) => RegexRuleRoundTrip(rx); FromLark(RegexRule(rx))
    case Lark(l) => FromLark(l)
  }

  function ConvertGrammar(input: GrammarInput): (r: Result<TopLevelGrammar, string>)
    ensures r.Err? <==> input.grammars == []
    ensures r.Err? ==> r.error == NO_GRAMMARS
    ensures r.Ok? && input.grammars[0].JsonSchema? ==> r.value == FromJsonSchema(input.grammars[0].jsonSchema)
    ensures r.Ok? && input.grammars[0].Regex? ==>
              r.value.FromLark? && RuleRegex(r.value.source) == Some(input.grammars[0].rx)
    ensures r.Ok? && input.grammars[0].Lark? ==> r.value == FromLark(input.grammars[0].lark)
  {
    if input.grammars == [] then
      Err(NO_GRAMMARS)
    else
      var spec := input.grammars[0];
      RegexRuleRoundTrip(if spec.Regex? then spec.rx else "");
      Ok(Build(spec))
  }

  /** Only the first grammar counts: the others never change the outcome. */
  lemma ConvertUsesFirstOnly(first: GrammarSpec, rest: seq<GrammarSpec>, other: seq<GrammarSpec>)
    ensures ConvertGrammar(GrammarInput([first] + rest)) == ConvertGrammar(GrammarInput([first] + other))
  {
  }

  /** The text is taken in the simplified form when it reads as one and lists a grammar. */
  predicate UsesSimplified(doc: GrammarDocument) {
    doc.asInput.Some? && doc.asInput.value.grammars != []
  }

  function ParseGrammar(doc: GrammarDocument): (r: Result<TopLevelGrammar, string>)
    ensures UsesSimplified(doc) ==> r == Ok(Build(doc.asInput.value.grammars[0]))
    ensures !UsesSimplified(doc) && doc.asNative.Ok? ==> r == doc.asNative
    ensures !UsesSimplified(doc) && doc.asNative.Err? ==> r == Err(GRAMMAR_PARSE_PREFIX + doc.asNative.error)
  {
    if doc.asInput.Some? && doc.asInput.value.grammars != [] then
      ConvertGrammar(doc.asInput.value)
    else
      match doc.asNative
      case Ok(g) => Ok(g)
      case Err(e) => Err(GRAMMAR_PARSE_PREFIX + e)
  }

  /**
   * Parsing fails only when neither reading succeeds, and the error is then
   * always the native reading's: the empty-list error of `convert_grammar`
   * cannot surface through `parse_grammar`.
   */
  lemma ParseGrammarErrors(doc: GrammarDocument)
    ensures ParseGrammar(doc).Err? <==> !UsesSimplified(doc) && doc.asNative.Err?
    ensures ParseGrammar(doc).Err? ==> ParseGrammar(doc).error[..|GRAMMAR_PARSE_PREFIX|] == GRAMMAR_PARSE_PREFIX
    ensures ParseGrammar(doc) != Err(NO_GRAMMARS)
  {
  }

  /** A regex spec gives the same engine grammar as the Lark spec of its start rule. */
  lemma RegexIsLarkRule(rx: string, rest: seq<GrammarSpec>)
    ensures ConvertGrammar(GrammarInput([Regex(rx)] + rest)) == ConvertGrammar(GrammarInput([Lark(RULE_HEAD + rx + "/")]))
  {
  }
}
