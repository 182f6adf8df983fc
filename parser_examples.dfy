/** The grammar of the parser's unit tests, `1 + (2 + 3)` parsed with it,
    and the queries the tests run on the resulting tree. */
module ParserExamples {
  import opened Wrappers
  import opened Failures
  import opened Components
  import opened Grammars
  import opened SymbolTreeNodes
  import opened SymbolTrees
  import opened Parsing
  import opened ParserProperties
  import Tokens

  const LIT1: Token := Tokens.SimpleToken("LITERAL", "1", 0)
  const LIT2: Token := Tokens.SimpleToken("LITERAL", "2", 0)
  const LIT3: Token := Tokens.SimpleToken("LITERAL", "3", 0)
  const PLUS: Token := Tokens.SimpleToken("PLUS", "+", 0)
  const LP: Token := Tokens.SimpleToken("LP", "(", 0)
  const RP: Token := Tokens.SimpleToken("RP", ")", 0)

  /** `1 + (2 + 3)`. */
  const ADDER_TOKENS: seq<Token> := [LIT1, PLUS, LP, LIT2, PLUS, LIT3, RP]

  const ROOT: Phrase := Phrase("ADDER", [["ADD"]])
  const ADD: Phrase := Phrase("ADD", [["EXPRESSION", "PLUS", "EXPRESSION"]])
  const EXPRESSION: Phrase := Phrase("EXPRESSION", [["LITERAL"], ["LP", "ADD", "RP"]])
  const ADDER_GRAMMAR: Grammar := Grammar(ROOT, map["ADDER" := ROOT, "ADD" := ADD, "EXPRESSION" := EXPRESSION])

  /** The builder calls of the tests give exactly this grammar. */
  method BuildAdderParser() returns (p: Parser)
    ensures p == Parser(ADDER_GRAMMAR)
  {
    var b := new ParserBuilder("ADDER");
    b.Sentence(["ADD"]);
    assert b.currentPhrase == ROOT;
    b.Branch("ADD");
    b.Sentence(["EXPRESSION", "PLUS", "EXPRESSION"]);
    assert b.currentPhrase == ADD;
    b.Branch("EXPRESSION");
    b.Sentence(["LITERAL"]);
    b.Sentence(["LP", "ADD", "RP"]);
    assert b.currentPhrase == EXPRESSION;
    p := b.Build();
    assert p.grammar.phrases == map["ADDER" := ROOT][ "ADD" := ADD]["EXPRESSION" := EXPRESSION];
  }

  function Expr(t: Token): Comp
  {
    Node("EXPRESSION", [Tok(t)])
  }

  lemma LeavesOfOne(a: Comp)
    ensures LeavesOf([a]) == Leaves(a)
  {
    assert [a][..0] == [];
  }

  lemma LeavesOfThree(a: Comp, b: Comp, c: Comp)
    ensures LeavesOf([a, b, c]) == Leaves(a) + Leaves(b) + Leaves(c)
  {
    assert [a, b, c][..2] == [a, b];
    assert [a, b][..1] == [a];
    LeavesOfOne(a);
  }

  lemma FlattenAllOne(a: Comp)
    ensures FlattenAll([a]) == Flatten(a)
  {
    assert [a][1..] == [];
  }

  lemma FlattenAllThree(a: Comp, b: Comp, c: Comp)
    ensures FlattenAll([a, b, c]) == Flatten(a) + Flatten(b) + Flatten(c)
  {
    assert [a, b, c][1..] == [b, c];
    assert [b, c][1..] == [c];
    FlattenAllOne(c);
  }

  lemma ExprLeaves(t: Token)
    ensures Leaves(Expr(t)) == [t]
    ensures Flatten(Expr(t)) == [Expr(t), Tok(t)]
  {
    LeavesOfOne(Tok(t));
    FlattenAllOne(Tok(t));
  }

  /** The token leaves of the nodes in the tree. */
  lemma TreeLeaves()
    ensures Leaves(INNER_ADD) == [LIT2, PLUS, LIT3]
    ensures Leaves(PAREN) == [LP, LIT2, PLUS, LIT3, RP]
    ensures Leaves(OUTER_ADD) == ADDER_TOKENS
  {
    ExprLeaves(LIT1);
    ExprLeaves(LIT2);
    ExprLeaves(LIT3);
    LeavesOfThree(Expr(LIT2), Tok(PLUS), Expr(LIT3));
    LeavesOfThree(Tok(LP), INNER_ADD, Tok(RP));
    LeavesOfThree(Expr(LIT1), Tok(PLUS), PAREN);
  }

  lemma ExpressionOfLiteral(w: seq<Token>, fuel: nat)
    requires |w| > 0 && w[0].id == "LITERAL" && fuel > 0
    ensures PhraseOutcome(ADDER_GRAMMAR, w, EXPRESSION, fuel) == Resolved(Expr(w[0]))
  {
    TerminalSentence(ADDER_GRAMMAR, "EXPRESSION", ["LITERAL"], w, NewSite(w), fuel - 1);
    assert Toks(w[..1]) == [Tok(w[0])];
    FirstDecisiveSentenceWins(ADDER_GRAMMAR, w, EXPRESSION, NewSite(w), fuel - 1, 0);
  }

  lemma AddOfLiterals(w: seq<Token>, fuel: nat)
    requires |w| >= 3 && w[0].id == "LITERAL" && w[1].id == "PLUS" && w[2].id == "LITERAL" && fuel > 1
    ensures PhraseOutcome(ADDER_GRAMMAR, w, ADD, fuel) == Resolved(Node("ADD", [Expr(w[0]), Tok(w[1]), Expr(w[2])]))
  {
    var g, s, f := ADDER_GRAMMAR, ADD.sentences[0], fuel - 1;
    var e0, t1, e2 := Expr(w[0]), Tok(w[1]), Expr(w[2]);
    assert w[0..] == w;
    ExpressionOfLiteral(w, f);
    ExprLeaves(w[0]);
    SymbolIsPhrase(g, "ADD", s, w, 0, 0, [], f);
    assert [] + [e0] == [e0];
    assert SentenceFrom(g, "ADD", s, w, 0, 0, [], f) == SentenceFrom(g, "ADD", s, w, 1, 1, [e0], f);
    SymbolIsTerminal(g, "ADD", s, w, 1, 1, [e0], f);
    assert [e0] + [t1] == [e0, t1];
    assert SentenceFrom(g, "ADD", s, w, 1, 1, [e0], f) == SentenceFrom(g, "ADD", s, w, 2, 2, [e0, t1], f);
    ExpressionOfLiteral(w[2..], f);
    ExprLeaves(w[2]);
    SymbolIsPhrase(g, "ADD", s, w, 2, 2, [e0, t1], f);
    assert [e0, t1] + [e2] == [e0, t1, e2];
    assert SentenceFrom(g, "ADD", s, w, 2, 2, [e0, t1], f) == SentenceFrom(g, "ADD", s, w, 3, 3, [e0, t1, e2], f);
    SentenceComplete(g, "ADD", s, w, 3, [e0, t1, e2], f);
    FirstDecisiveSentenceWins(g, w, ADD, NewSite(w), f, 0);
  }

  const INNER_ADD: Comp := Node("ADD", [Expr(LIT2), Tok(PLUS), Expr(LIT3)])
  const PAREN: Comp := Node("EXPRESSION", [Tok(LP), INNER_ADD, Tok(RP)])

  lemma Parenthesised(fuel: nat)
    requires fuel > 2
    ensures PhraseOutcome(ADDER_GRAMMAR, [LP, LIT2, PLUS, LIT3, RP], EXPRESSION, fuel) == Resolved(PAREN)
  {
    var g, w, s, f := ADDER_GRAMMAR, [LP, LIT2, PLUS, LIT3, RP], EXPRESSION.sentences[1], fuel - 1;
    var lp, rp := Tok(LP), Tok(RP);
    TerminalSentence(g, "EXPRESSION", ["LITERAL"], w, NewSite(w), f);
    SymbolIsTerminal(g, "EXPRESSION", s, w, 0, 0, [], f);
    assert [] + [lp] == [lp];
    assert SentenceFrom(g, "EXPRESSION", s, w, 0, 0, [], f) == SentenceFrom(g, "EXPRESSION", s, w, 1, 1, [lp], f);
    assert w[1..] == [LIT2, PLUS, LIT3, RP];
    AddOfLiterals(w[1..], f);
    TreeLeaves();
    SymbolIsPhrase(g, "EXPRESSION", s, w, 1, 1, [lp], f);
    assert [lp] + [INNER_ADD] == [lp, INNER_ADD];
    assert SentenceFrom(g, "EXPRESSION", s, w, 1, 1, [lp], f) == SentenceFrom(g, "EXPRESSION", s, w, 2, 4, [lp, INNER_ADD], f);
    SymbolIsTerminal(g, "EXPRESSION", s, w, 2, 4, [lp, INNER_ADD], f);
    assert [lp, INNER_ADD] + [rp] == [lp, INNER_ADD, rp];
    assert SentenceFrom(g, "EXPRESSION", s, w, 2, 4, [lp, INNER_ADD], f) == SentenceFrom(g, "EXPRESSION", s, w, 3, 5, [lp, INNER_ADD, rp], f);
    SentenceComplete(g, "EXPRESSION", s, w, 5, [lp, INNER_ADD, rp], f);
    FirstDecisiveSentenceWins(g, w, EXPRESSION, NewSite(w), f, 1);
  }

  const OUTER_ADD: Comp := Node("ADD", [Expr(LIT1), Tok(PLUS), PAREN])

  /** The tree of `1 + (2 + 3)`. */
  const ADDER_TREE: Comp := Node("ADDER", [OUTER_ADD])

  lemma OuterAdd(fuel: nat)
    requires fuel > 3
    ensures PhraseOutcome(ADDER_GRAMMAR, ADDER_TOKENS, ADD, fuel) == Resolved(OUTER_ADD)
  {
    var g, w, s, f := ADDER_GRAMMAR, ADDER_TOKENS, ADD.sentences[0], fuel - 1;
    var e1, plus := Expr(LIT1), Tok(PLUS);
    assert w[0..] == w;
    ExpressionOfLiteral(w, f);
    ExprLeaves(LIT1);
    SymbolIsPhrase(g, "ADD", s, w, 0, 0, [], f);
    assert [] + [e1] == [e1];
    assert SentenceFrom(g, "ADD", s, w, 0, 0, [], f) == SentenceFrom(g, "ADD", s, w, 1, 1, [e1], f);
    SymbolIsTerminal(g, "ADD", s, w, 1, 1, [e1], f);
    assert [e1] + [plus] == [e1, plus];
    assert SentenceFrom(g, "ADD", s, w, 1, 1, [e1], f) == SentenceFrom(g, "ADD", s, w, 2, 2, [e1, plus], f);
    assert w[2..] == [LP, LIT2, PLUS, LIT3, RP];
    Parenthesised(f);
    TreeLeaves();
    SymbolIsPhrase(g, "ADD", s, w, 2, 2, [e1, plus], f);
    assert [e1, plus] + [PAREN] == [e1, plus, PAREN];
    assert SentenceFrom(g, "ADD", s, w, 2, 2, [e1, plus], f) == SentenceFrom(g, "ADD", s, w, 3, 7, [e1, plus, PAREN], f);
    SentenceComplete(g, "ADD", s, w, 7, [e1, plus, PAREN], f);
    FirstDecisiveSentenceWins(g, w, ADD, NewSite(w), f, 0);
  }

  /** `parser.parse(ADDER)` gives the tree of `1 + (2 + 3)` once the stack
      allows five nested phrases. */
  lemma AdderParses(fuel: nat)
    requires fuel > 4
    ensures ParseSpec(ADDER_GRAMMAR, ADDER_TOKENS, fuel) == Ok(ADDER_TREE)
  {
    var g, w, s, f := ADDER_GRAMMAR, ADDER_TOKENS, ROOT.sentences[0], fuel - 1;
    assert w[0..] == w;
    OuterAdd(f);
    TreeLeaves();
    SymbolIsPhrase(g, "ADDER", s, w, 0, 0, [], f);
    assert [] + [OUTER_ADD] == [OUTER_ADD];
    assert SentenceFrom(g, "ADDER", s, w, 0, 0, [], f) == SentenceFrom(g, "ADDER", s, w, 1, 7, [OUTER_ADD], f);
    SentenceComplete(g, "ADDER", s, w, 7, [OUTER_ADD], f);
    FirstDecisiveSentenceWins(g, w, ROOT, NewSite(w), f, 0);
  }

  /** The pre-order the test lists, 14 entries. */
  lemma AdderFlatten()
    ensures Flatten(ADDER_TREE) == [ADDER_TREE, OUTER_ADD, Expr(LIT1), Tok(LIT1), Tok(PLUS), PAREN, Tok(LP),
                                    INNER_ADD, Expr(LIT2), Tok(LIT2), Tok(PLUS), Expr(LIT3), Tok(LIT3), Tok(RP)]
  {
    ExprLeaves(LIT1);
    ExprLeaves(LIT2);
    ExprLeaves(LIT3);
    FlattenAllThree(Expr(LIT2), Tok(PLUS), Expr(LIT3));
    FlattenAllThree(Tok(LP), INNER_ADD, Tok(RP));
    FlattenAllThree(Expr(LIT1), Tok(PLUS), PAREN);
    FlattenAllOne(OUTER_ADD);
  }
}
