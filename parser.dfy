/** `Parser`: recursive-descent parsing of a token list against a grammar,
    trying each phrase's sentences in order and keeping the first that
    resolves. A Java stack overflow is modelled by `fuel`, the number of
    nested phrase attempts allowed; running out of it is the "too deep"
    failure. */
module Parsing {
  import opened Wrappers
  import opened Failures
  import opened Components
  import opened Grammars
  import opened SymbolTreeNodes
  import Tokens
  import Text

  datatype Parser = Parser(grammar: Grammar)

  // ---------------------------------------------------------------------
  // Failure site

  /** `ParseFailureSite.NOTHING`. */
  const NOTHING: Token := Tokens.FixedToken("", 1)

  /** The state of a `ParseFailureSite`. */
  datatype Site = Site(token: Token, remaining: int, total: int)

  function NewSite(tokens: seq<Token>): Site
  {
    Site(if |tokens| > 0 then tokens[0] else NOTHING, |tokens|, |tokens|)
  }

  /** `report(tokens)`: a non-empty window shorter than the distance on
      record names its first token. The distance itself is left alone. */
  function ReportedSite(site: Site, window: seq<Token>): Site
  {
    if 0 < |window| < site.remaining then site.(token := window[0]) else site
  }

  function ClearedSite(site: Site): Site
  {
    site.(token := NOTHING, remaining := site.total)
  }

  class ParseFailureSite {
    var remainingDistance: int
    const totalDistance: int
    var token: Token

    function State(): Site
      reads this
    {
      Site(token, remainingDistance, totalDistance)
    }

    constructor (initialTokenList: seq<Token>)
      ensures State() == NewSite(initialTokenList)
    {
      totalDistance := |initialTokenList|;
      remainingDistance := |initialTokenList|;
      token := NOTHING;
      new;
      if |initialTokenList| > 0 {
        token := initialTokenList[0];
      }
    }

    function FailureToken(): (t: Token)
      reads this
      ensures t == State().token
    {
      token
    }

    method ReportToken(t: Token, distance: int)
      modifies this
      ensures State() == if distance < old(remainingDistance) then old(State()).(token := t) else old(State())
    {
      if distance < remainingDistance {
        token := t;
      }
    }

    method Report(window: seq<Token>)
      modifies this
      ensures State() == ReportedSite(old(State()), window)
    {
      if |window| > 0 {
        ReportToken(window[0], |window|);
      }
    }

    method Clear()
      modifies this
      ensures State() == ClearedSite(old(State()))
    {
      token := NOTHING;
      remainingDistance := totalDistance;
    }
  }

  // ---------------------------------------------------------------------
  // Specification

  datatype Outcome = Resolved(node: Comp) | Unresolved | TooDeep

  /** An outcome with the failure site it leaves behind. */
  datatype Step = Step(outcome: Outcome, site: Site)

  /** The node's tokens are the first tokens of the window, in order. */
  predicate Consumed(node: Comp, window: seq<Token>)
  {
    |Leaves(node)| <= |window| && Leaves(node) == window[..|Leaves(node)|]
  }

  /** What a parse step promises: a resolved node is named after its phrase
      and spells out a prefix of its window; the site's total distance is
      fixed and its remaining distance only ever returns to that total. */
  predicate Promised(r: Step, id: string, window: seq<Token>, site: Site)
  {
    (r.outcome.Resolved? ==> r.outcome.node.Node? && r.outcome.node.id == id && Consumed(r.outcome.node, window))
    && r.site.total == site.total
    && (r.site.remaining == site.remaining || r.site.remaining == site.total)
  }

  /** `parseUsingPhrase`. */
  function ParsePhrase(g: Grammar, window: seq<Token>, phrase: Phrase, site: Site, fuel: nat): (r: Step)
    ensures Promised(r, phrase.id, window, site)
    decreases fuel, 0
  {
    if fuel == 0 then Step(TooDeep, site)
    else TrySentences(g, window, phrase, 0, site, fuel - 1)
  }

  /** The sentence loop of `parseUsingPhrase`, from sentence `k` on. */
  function TrySentences(g: Grammar, window: seq<Token>, phrase: Phrase, k: nat, site: Site, fuel: nat): (r: Step)
    requires k <= |phrase.sentences|
    ensures Promised(r, phrase.id, window, site)
    decreases fuel, 2, |phrase.sentences| - k
  {
    if k == |phrase.sentences| then Step(Unresolved, ReportedSite(site, window))
    else
      var r := ParseSentence(g, phrase.id, phrase.sentences[k], window, 0, 0, [], site, fuel);
      match r.outcome
      case Resolved(_) => Step(r.outcome, ClearedSite(r.site))
      case TooDeep => r
      case Unresolved => TrySentences(g, window, phrase, k + 1, r.site, fuel)
  }

  /** `parseUsingSentence`, from symbol `j` on, with `depth` tokens of the
      window already taken by `children`. */
  function ParseSentence(g: Grammar, id: string, sentence: seq<string>, window: seq<Token>,
                         j: nat, depth: nat, children: seq<Comp>, site: Site, fuel: nat): (r: Step)
    requires j <= |sentence| && depth <= |window|
    requires LeavesOf(children) == window[..depth]
    ensures Promised(r, id, window, site)
    decreases fuel, 1, |sentence| - j
  {
    if j == |sentence| then Step(Resolved(Node(id, children)), ClearedSite(site))
    else if depth == |window| then Step(Unresolved, site)
    else if sentence[j] in g.phrases then
      var r := ParsePhrase(g, window[depth..], g.phrases[sentence[j]], site, fuel);
      match r.outcome
      case TooDeep => r
      case Unresolved => Step(Unresolved, ReportedSite(r.site, window))
      case Resolved(child) =>
        LeavesOfAppend(children, child);
        ParseSentence(g, id, sentence, window, j + 1, depth + |Leaves(child)|, children + [child], r.site, fuel)
    else if sentence[j] == window[depth].id then
      LeavesOfAppend(children, Tok(window[depth]));
      assert window[..depth + 1] == window[..depth] + [window[depth]];
      ParseSentence(g, id, sentence, window, j + 1, depth + 1, children + [Tok(window[depth])], site, fuel)
    else Step(Unresolved, ReportedSite(site, window))
  }

  const TOO_DEEP: string := "FATAL: Parser's grammar is too deep or left-ambiguous."

  function SyntaxError(t: Token): Failure
  {
    IllegalArgument("Syntax error near token '" + t.value + "' on line " + Text.IntToString(t.line) + ".")
  }

  function UnexpectedToken(t: Token): Failure
  {
    IllegalArgument("Unexpected token '" + t.value + "' on line " + Text.IntToString(t.line) + ".")
  }

  /** `parse(tokens)`: the root phrase must resolve and take every token. */
  function ParseSpec(g: Grammar, tokens: seq<Token>, fuel: nat): (r: Result<Comp, Failure>)
    ensures r.Ok? ==> r.value.Node? && r.value.id == g.root.id && Leaves(r.value) == tokens
  {
    var r := ParsePhrase(g, tokens, g.root, NewSite(tokens), fuel);
    match r.outcome
    case TooDeep => Err(UnsupportedOperation(TOO_DEEP))
    case Unresolved => Err(SyntaxError(r.site.token))
    case Resolved(node) =>
      var count := |Leaves(node)|;
      if count < |tokens| then Err(UnexpectedToken(tokens[count])) else Ok(node)
  }

  // ---------------------------------------------------------------------
  // Implementation

  /** `parse(tokens)`. */
  method Parse(parser: Parser, tokens: seq<Token>, fuel: nat) returns (r: Result<Comp, Failure>)
    ensures r == ParseSpec(parser.grammar, tokens, fuel)
  {
    var site := new ParseFailureSite(tokens);
    var root := ParseUsingPhrase(parser.grammar, tokens, parser.grammar.root, site, fuel);
    if root.TooDeep? {
      return Err(UnsupportedOperation(TOO_DEEP));
    }
    if root.Unresolved? {
      var token := site.FailureToken();
      return Err(SyntaxError(token));
    }
    var tokenCount := TokenCount(root.node);
    if tokenCount < |tokens| {
      return Err(UnexpectedToken(tokens[tokenCount]));
    }
    return Ok(root.node);
  }

  method ParseUsingPhrase(g: Grammar, tokens: seq<Token>, current: Phrase, site: ParseFailureSite, fuel: nat)
    returns (o: Outcome)
    modifies site
    ensures Step(o, site.State()) == ParsePhrase(g, tokens, current, old(site.State()), fuel)
    decreases fuel, 0
  {
    if fuel == 0 {
      return TooDeep;
    }
    var k := 0;
    while k < |current.sentences|
      invariant k <= |current.sentences|
      invariant TrySentences(g, tokens, current, k, site.State(), fuel - 1)
             == ParsePhrase(g, tokens, current, old(site.State()), fuel)
    {
      var node := ParseUsingSentence(g, current.id, current.sentences[k], tokens, site, fuel - 1);
      if node.Resolved? {
        site.Clear();
        return node;
      }
      if node.TooDeep? {
        return node;
      }
      k := k + 1;
    }
    site.Report(tokens);
    return Unresolved;
  }

  method ParseUsingSentence(g: Grammar, phraseId: string, sentence: seq<string>, tokens: seq<Token>,
                            site: ParseFailureSite, fuel: nat) returns (o: Outcome)
    modifies site
    ensures Step(o, site.State()) == ParseSentence(g, phraseId, sentence, tokens, 0, 0, [], old(site.State()), fuel)
    decreases fuel, 1
  {
    var depth: nat := 0;
    var children: seq<Comp> := [];
    var j := 0;
    while j < |sentence|
      invariant j <= |sentence| && depth <= |tokens|
      invariant LeavesOf(children) == tokens[..depth]
      invariant ParseSentence(g, phraseId, sentence, tokens, j, depth, children, site.State(), fuel)
             == ParseSentence(g, phraseId, sentence, tokens, 0, 0, [], old(site.State()), fuel)
    {
      var id := sentence[j];
      if depth == |tokens| {
        return Unresolved;
      }
      if id in g.phrases {
        var child := ParseUsingPhrase(g, tokens[depth..], g.phrases[id], site, fuel);
        if child.TooDeep? {
          return child;
        }
        if child.Unresolved? {
          site.Report(tokens);
          return Unresolved;
        }
        LeavesOfAppend(children, child.node);
        children := children + [child.node];
        var tokenCount := TokenCount(child.node);
        depth := depth + tokenCount;
      } else if id == tokens[depth].id {
        LeavesOfAppend(children, Tok(tokens[depth]));
        assert tokens[..depth + 1] == tokens[..depth] + [tokens[depth]];
        children := children + [Tok(tokens[depth])];
        depth := depth + 1;
      } else {
        site.Report(tokens);
        return Unresolved;
      }
      j := j + 1;
    }
    site.Clear();
    return Resolved(Node(phraseId, children));
  }

  // ---------------------------------------------------------------------
  // Builder

  /** `applyCurrentPhrase`: the first phrase becomes the root, later ones are
      added (or overwrite) by identifier. */
  function Applied(grammar: Option<Grammar>, phrase: Phrase): (g: Grammar)
    ensures grammar.None? ==> g.root == phrase && g.phrases == map[phrase.id := phrase]
    ensures grammar.Some? ==> g.root == grammar.value.root && g.phrases == grammar.value.phrases[phrase.id := phrase]
  {
    match grammar
    case None => Grammar(phrase, map[phrase.id := phrase])
    case Some(g) => g.(phrases := g.phrases[phrase.id := phrase])
  }

  /** A grammar the builder can produce: every phrase filed under its id,
      the root among them. */
  predicate WellFormed(g: Grammar)
  {
    Keyed(g.phrases) && g.root.id in g.phrases
  }

  lemma AppliedWellFormed(grammar: Option<Grammar>, phrase: Phrase)
    requires grammar.Some? ==> WellFormed(grammar.value)
    ensures WellFormed(Applied(grammar, phrase))
  {
  }

  /** `Parser.Builder`. */
  class ParserBuilder {
    var currentPhrase: Phrase
    var grammar: Option<Grammar>

    predicate Valid()
      reads this
    {
      grammar.Some? ==> WellFormed(grammar.value)
    }

    constructor (rootId: string)
      ensures Valid()
      ensures currentPhrase == Phrase(rootId, []) && grammar == None
    {
      currentPhrase := Phrase(rootId, []);
      grammar := None;
    }

    method Sentence(sentence: seq<string>)
      requires Valid()
      modifies this
      ensures Valid()
      ensures currentPhrase == old(currentPhrase).(sentences := old(currentPhrase.sentences) + [sentence])
      ensures grammar == old(grammar)
    {
      currentPhrase := currentPhrase.(sentences := currentPhrase.sentences + [sentence]);
    }

    method ApplyCurrentPhrase()
      requires Valid()
      modifies this
      ensures Valid()
      ensures grammar == Some(Applied(old(grammar), old(currentPhrase)))
      ensures currentPhrase == old(currentPhrase)
    {
      AppliedWellFormed(grammar, currentPhrase);
      grammar := Some(Applied(grammar, currentPhrase));
    }

    method Branch(id: string)
      requires Valid()
      modifies this
      ensures Valid()
      ensures grammar == Some(Applied(old(grammar), old(currentPhrase)))
      ensures currentPhrase == Phrase(id, [])
    {
      ApplyCurrentPhrase();
      currentPhrase := Phrase(id, []);
    }

    method Build() returns (p: Parser)
      requires Valid()
      modifies this
      ensures Valid()
      ensures grammar == Some(Applied(old(grammar), old(currentPhrase)))
      ensures p == Parser(grammar.value) && WellFormed(p.grammar)
    {
      ApplyCurrentPhrase();
      p := Parser(grammar.value);
    }
  }

  /** `DEFAULT_PARSER`: `newBuilder("<EMPTY>").build()`, a root phrase
      without sentences. */
  const DEFAULT_PARSER: Parser := Parser(Applied(None, Phrase("<EMPTY>", [])))
}
