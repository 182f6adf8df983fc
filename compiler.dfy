/** `Compiler`: lex, parse, analyze and generate, in that order, with every
    failure wrapped into a `CompilationException`; and its builder, which
    fills in a default for each component left unset. The analyzer and the
    generator are caller code and appear as functions; the generator's
    `Object` result is a value of type `O`, `null` being `None`. */
module Compiling {
  import opened Wrappers
  import opened Failures
  import opened Components
  import opened Lexing
  import opened Parsing
  import opened Grammars
  import opened SymbolTreeNodes
  import ParserProperties

  /** `SemanticAnalyzer.analyze`: nothing, or the exception it throws. */
  type Analyzer = (seq<Token>, Comp) -> Option<Failure>

  /** `Generator.generate`: the object produced, or the exception thrown. */
  type Generator<O> = (seq<Token>, Comp) -> Result<Option<O>, Failure>

  /** `DefaultSemanticAnalyzer`: does nothing. */
  function DefaultAnalyzer(): Analyzer
  {
    (tokens: seq<Token>, tree: Comp) => None
  }

  /** `DefaultGenerator`: returns `null`. */
  function DefaultGenerator<O>(): Generator<O>
  {
    (tokens: seq<Token>, tree: Comp) => Ok(None)
  }

  /** The parser's recursion bound stands for the JVM stack; it is part of
      the parser component. */
  datatype Compiler<O> = Compiler(lexer: Lexer, parser: Parser, analyzer: Analyzer, generator: Generator<O>, depth: nat)

  datatype Phase = LexPhase | ParsePhase | AnalyzePhase | GeneratePhase

  const PHASES: seq<Phase> := [LexPhase, ParsePhase, AnalyzePhase, GeneratePhase]

  /** A run of `compile`: the phases entered, in order, and the outcome. */
  datatype Run<O> = Run(phases: seq<Phase>, result: Result<Option<O>, Failure>)

  /** `compile(input)`. Each phase is entered only when the one before it
      succeeded; the first failure ends the run. */
  function CompileSpec<O>(c: Compiler<O>, input: string): (r: Run<O>)
    ensures 1 <= |r.phases| <= 4 && r.phases == PHASES[..|r.phases|]
    ensures r.result.Ok? ==> |r.phases| == 4
    ensures |r.phases| < 4 ==> r.result.Err?
    ensures r.result.Err? ==> r.result.error.CompilationFailed?
  {
    match LexSpec(c.lexer, input)
    case Err(f) => Run(PHASES[..1], Err(CompilationFailed(f)))
    case Ok(tokens) =>
      match ParseSpec(c.parser.grammar, tokens, c.depth)
      case Err(f) => Run(PHASES[..2], Err(CompilationFailed(f)))
      case Ok(tree) =>
        match c.analyzer(tokens, tree)
        case Some(f) => Run(PHASES[..3], Err(CompilationFailed(f)))
        case None =>
          match c.generator(tokens, tree)
          case Err(f) => Run(PHASES, Err(CompilationFailed(f)))
          case Ok(v) => Run(PHASES, Ok(v))
  }

  /** `compile(input)`: the calls in sequence inside the `try`. */
  method Compile<O>(c: Compiler<O>, input: string) returns (r: Result<Option<O>, Failure>)
    ensures r == CompileSpec(c, input).result
  {
    var lexed := Lex(c.lexer, input);
    if lexed.Err? {
      return Err(CompilationFailed(lexed.error));
    }
    var tokens := lexed.value;
    var parsed := Parse(c.parser, tokens, c.depth);
    if parsed.Err? {
      return Err(CompilationFailed(parsed.error));
    }
    var tree := parsed.value;
    var analyzed := c.analyzer(tokens, tree);
    if analyzed.Some? {
      return Err(CompilationFailed(analyzed.value));
    }
    var generated := c.generator(tokens, tree);
    if generated.Err? {
      return Err(CompilationFailed(generated.error));
    }
    return Ok(generated.value);
  }

  /** A successful compilation returns what the generator made of the
      lexer's tokens and the parser's tree, after the analyzer accepted
      them; a failed one carries the first phase's failure as its cause. */
  lemma CompileFeedsForward<O>(c: Compiler<O>, input: string)
    ensures var r := CompileSpec(c, input);
      r.result.Ok? <==>
        LexSpec(c.lexer, input).Ok?
        && ParseSpec(c.parser.grammar, LexSpec(c.lexer, input).value, c.depth).Ok?
        && c.analyzer(LexSpec(c.lexer, input).value, ParseSpec(c.parser.grammar, LexSpec(c.lexer, input).value, c.depth).value).None?
        && c.generator(LexSpec(c.lexer, input).value, ParseSpec(c.parser.grammar, LexSpec(c.lexer, input).value, c.depth).value).Ok?
    ensures var r := CompileSpec(c, input);
      r.result.Ok? ==>
        var tokens := LexSpec(c.lexer, input).value;
        var tree := ParseSpec(c.parser.grammar, tokens, c.depth).value;
        r.result.value == c.generator(tokens, tree).value
        && tree.Node? && Leaves(tree) == tokens
    ensures LexSpec(c.lexer, input).Err? ==> CompileSpec(c, input) == Run([LexPhase], Err(CompilationFailed(LexSpec(c.lexer, input).error)))
  {
  }

  /** `Compiler.Builder`. */
  class CompilerBuilder<O> {
    var lexer: Option<Lexer>
    var parser: Option<Parser>
    var analyzer: Option<Analyzer>
    var generator: Option<Generator<O>>
    var depth: nat

    constructor (depth: nat)
      ensures lexer == None && parser == None && analyzer == None && generator == None
      ensures this.depth == depth
    {
      lexer := None;
      parser := None;
      analyzer := None;
      generator := None;
      this.depth := depth;
    }

    method SetLexer(l: Lexer)
      modifies this
      ensures lexer == Some(l)
      ensures parser == old(parser) && analyzer == old(analyzer) && generator == old(generator) && depth == old(depth)
    {
      lexer := Some(l);
    }

    /** `setLexer(Lexer.Builder)`: the same as setting what it builds. */
    method SetLexerBuilder(b: LexerBuilder)
      modifies this, b
      ensures lexer == Some(Lexer(old(b.factory), if old(b.afterFunction).Some? then old(b.afterFunction).value else NoAfter()))
      ensures parser == old(parser) && analyzer == old(analyzer) && generator == old(generator) && depth == old(depth)
    {
      var l := b.Build();
      SetLexer(l);
    }

    method SetParser(p: Parser)
      modifies this
      ensures parser == Some(p)
      ensures lexer == old(lexer) && analyzer == old(analyzer) && generator == old(generator) && depth == old(depth)
    {
      parser := Some(p);
    }

    /** `setParser(Parser.Builder)`: the same as setting what it builds. */
    method SetParserBuilder(b: ParserBuilder)
      requires b.Valid()
      modifies this, b
      ensures parser == Some(Parser(Applied(old(b.grammar), old(b.currentPhrase))))
      ensures lexer == old(lexer) && analyzer == old(analyzer) && generator == old(generator) && depth == old(depth)
    {
      var p := b.Build();
      SetParser(p);
    }

    method SetSemanticAnalyzer(a: Analyzer)
      modifies this
      ensures analyzer == Some(a)
      ensures lexer == old(lexer) && parser == old(parser) && generator == old(generator) && depth == old(depth)
    {
      analyzer := Some(a);
    }

    method SetGenerator(g: Generator<O>)
      modifies this
      ensures generator == Some(g)
      ensures lexer == old(lexer) && parser == old(parser) && analyzer == old(analyzer) && depth == old(depth)
    {
      generator := Some(g);
    }

    /** `build()`: each unset component is replaced by its default, which
        the builder then keeps. */
    method Build() returns (c: Compiler<O>)
      modifies this
      ensures lexer == Some(if old(lexer).Some? then old(lexer).value else DEFAULT_LEXER)
      ensures parser == Some(if old(parser).Some? then old(parser).value else DEFAULT_PARSER)
      ensures analyzer == Some(if old(analyzer).Some? then old(analyzer).value else DefaultAnalyzer())
      ensures generator == Some(if old(generator).Some? then old(generator).value else DefaultGenerator())
      ensures depth == old(depth)
      ensures c == Compiler(lexer.value, parser.value, analyzer.value, generator.value, depth)
    {
      if lexer.None? {
        lexer := Some(DEFAULT_LEXER);
      }
      if parser.None? {
        parser := Some(DEFAULT_PARSER);
      }
      if analyzer.None? {
        analyzer := Some(DefaultAnalyzer());
      }
      if generator.None? {
        generator := Some(DefaultGenerator());
      }
      c := Compiler(lexer.value, parser.value, analyzer.value, generator.value, depth);
    }
  }

  /** `toBuilder()`: a builder holding the compiler's four components. */
  method ToBuilder<O>(c: Compiler<O>) returns (b: CompilerBuilder<O>)
    ensures fresh(b)
    ensures b.lexer == Some(c.lexer) && b.parser == Some(c.parser)
    ensures b.analyzer == Some(c.analyzer) && b.generator == Some(c.generator) && b.depth == c.depth
  {
    b := new CompilerBuilder(c.depth);
    b.SetLexer(c.lexer);
    b.SetParser(c.parser);
    b.SetSemanticAnalyzer(c.analyzer);
    b.SetGenerator(c.generator);
  }

  /** `toBuilder().build()` gives back the same compiler. */
  method Rebuild<O>(c: Compiler<O>) returns (d: Compiler<O>)
    ensures d == c
  {
    var b := ToBuilder(c);
    d := b.Build();
  }

  /** A compiler built with nothing set. */
  method DefaultCompiler<O>(depth: nat) returns (c: Compiler<O>)
    ensures c == Compiler(DEFAULT_LEXER, DEFAULT_PARSER, DefaultAnalyzer(), DefaultGenerator(), depth)
  {
    var b := new CompilerBuilder<O>(depth);
    c := b.Build();
  }

  /** Without a parser set, compilation fails on every input: `DEFAULT_PARSER`'s
      root phrase has no sentences, so even the tokens of an empty input are
      rejected. */
  lemma NoParserNeverCompiles<O>(c: Compiler<O>, input: string)
    requires c.parser == DEFAULT_PARSER && c.depth > 0
    ensures CompileSpec(c, input).result.Err?
    ensures LexSpec(c.lexer, input).Ok? ==>
      var tokens := LexSpec(c.lexer, input).value;
      CompileSpec(c, input) == Run(PHASES[..2], Err(CompilationFailed(SyntaxError(if |tokens| > 0 then tokens[0] else NOTHING))))
  {
    if LexSpec(c.lexer, input).Ok? {
      ParserProperties.DefaultParserRejects(LexSpec(c.lexer, input).value, c.depth);
    }
  }
}
