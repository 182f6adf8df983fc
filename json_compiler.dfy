/** `JsonCompiler`: the JSON lexer, the JSON parser, the duplicate-key
    analyzer and the model generator, wired into one compiler. */
module JsonCompiling {
  import opened Wrappers
  import opened Failures
  import opened Components
  import opened Lexing
  import opened Parsing
  import opened Compiling
  import JsonLexing
  import JsonParsing
  import JsonTrees
  import JsonAnalysis
  import JsonGeneration
  import M = JsonModel

  /** `new JsonSemanticAnalyzer()` as the compiler's analyzer. */
  function JsonAnalyzer(): Analyzer
  {
    (tokens: seq<Token>, tree: Comp) => JsonAnalysis.AnalyzeSpec(tokens, tree)
  }

  /** `new JsonModelGenerator()` as the compiler's generator. */
  function JsonGenerator(): Generator<M.Json>
  {
    (tokens: seq<Token>, tree: Comp) => JsonGeneration.Generate(tokens, tree)
  }

  /** The compiler the builder chain of `JsonCompiler` makes. The lexer's
      string and boolean patterns are parameters, as in `JsonLexing.Get`. */
  method NewJsonCompiler(stringLiteral: string -> bool, booleanLiteral: string -> bool, depth: nat)
    returns (c: Compiler<M.Json>)
    ensures c == Compiler(Lexer(JsonLexing.JsonRules(stringLiteral, booleanLiteral), NoAfter()),
                          Parser(JsonParsing.JSON_GRAMMAR), JsonAnalyzer(), JsonGenerator(), depth)
  {
    var b := new CompilerBuilder<M.Json>(depth);
    var lexer := JsonLexing.Get(stringLiteral, booleanLiteral);
    b.SetLexer(lexer);
    var parser := JsonParsing.Get();
    b.SetParser(parser);
    b.SetSemanticAnalyzer(JsonAnalyzer());
    b.SetGenerator(JsonGenerator());
    c := b.Build();
  }

  /** The analyzer rejects a parsed document exactly when the generator
      would fail on it: both stop at an object that repeats a key. */
  lemma AnalyzerAgreesWithGenerator(tokens: seq<Token>, tree: Comp)
    requires JsonTrees.IsDerived(tree, JsonParsing.JSON_OBJECT)
    ensures JsonAnalysis.AnalyzeSpec(tokens, tree).None? <==> JsonGeneration.GenerateSpec(tree).Ok?
  {
    JsonAnalysis.AnalyzerRejectsRepeatedKeys(tokens, tree);
    JsonGeneration.GenerateMaps(tree);
  }

  /** `compile(input)` with the JSON compiler returns a `Json` exactly when
      the input lexes, parses, and no object in it repeats a key; the
      document's entries then carry its top-level keys in order. The
      generator never fails on what the analyzer accepted. */
  lemma JsonCompileOutcome(c: Compiler<M.Json>, input: string)
    requires c.parser == Parser(JsonParsing.JSON_GRAMMAR)
    requires c.analyzer == JsonAnalyzer() && c.generator == JsonGenerator()
    ensures var r := CompileSpec(c, input).result;
      r.Ok? <==>
        LexSpec(c.lexer, input).Ok?
        && ParseSpec(JsonParsing.JSON_GRAMMAR, LexSpec(c.lexer, input).value, c.depth).Ok?
        && JsonTrees.KeysDistinctThroughout(ParseSpec(JsonParsing.JSON_GRAMMAR, LexSpec(c.lexer, input).value, c.depth).value)
    ensures var r := CompileSpec(c, input).result;
      r.Ok? ==>
        var tree := ParseSpec(JsonParsing.JSON_GRAMMAR, LexSpec(c.lexer, input).value, c.depth).value;
        tree.Node? && r.value.Some? && JsonGeneration.Keys(r.value.value.entries) == JsonGeneration.ObjectKeys(tree)
    ensures CompileSpec(c, input).result.Err? ==> |CompileSpec(c, input).phases| < 4
  {
    CompileFeedsForward(c, input);
    var lexed := LexSpec(c.lexer, input);
    if lexed.Ok? {
      var tokens := lexed.value;
      JsonTrees.ParsedJsonIsObject(tokens, c.depth);
      var parsed := ParseSpec(JsonParsing.JSON_GRAMMAR, tokens, c.depth);
      if parsed.Ok? {
        JsonAnalysis.AnalyzerRejectsRepeatedKeys(tokens, parsed.value);
        JsonGeneration.GenerateMaps(parsed.value);
      }
    }
  }
}
