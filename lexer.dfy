/** `Lexer`: an ordered list of rules, each a regular expression with a
    matching strategy and an action that turns the matched text into a token
    or an error, scanned over the raw input from left to right. */
module Lexing {
  import opened Wrappers
  import opened Failures
  import opened Components
  import opened Scanning
  import Text

  /** `MatchingStrategy`: when a rule consumes the candidates it matches. */
  datatype Strategy =
    | Greedy  // the first (shortest) matching candidate
    | Span    // the last candidate of the first run of matching candidates
    | Max     // the last matching candidate up to the end of the input

  /** `InputMatcher`: whole-string matching against the rule's regular
      expression (`Pattern.matcher(in).matches()`), and the strategy. */
  datatype Matcher = Matcher(matches: string -> bool, strategy: Strategy)

  /** A provider: the matcher and the action applied to the context. */
  datatype Rule = Rule(matcher: Matcher, action: ScanState -> Effect)

  /** The function run once over the raw input and the finished token list;
      it may rewrite the list. It always returns a list: an after-function
      that throws is not part of this model. */
  type AfterFunction = (string, seq<Token>) -> seq<Token>

  datatype Lexer = Lexer(rules: seq<Rule>, after: AfterFunction)

  /** What applying one rule to one candidate gives (`getToken`). */
  datatype Probe = NoMatch | Match(token: Token, state: ScanState) | Abort(failure: Failure)

  /** The outcome of trying one rule (or all of them) at a scan position:
      nothing consumed, a token with the position after it, or an exception.
      `scanned` is the lexer's running `scanned` variable. */
  datatype Scan =
    | Skipped(state: ScanState, scanned: string)
    | Taken(token: Token, next: nat, state: ScanState, scanned: string)
    | Aborted(failure: Failure)

  const UNSUPPORTED_PREFIX: string := "Expected to create token or throw exception; instead got: "

  /** `getToken`: no match leaves the context alone; a match captures the
      candidate, runs the action and keeps its writes; a returned exception
      is thrown, any non-token is an `UnsupportedOperationException`. */
  function GetToken(rule: Rule, st: ScanState, candidate: string): (p: Probe)
    ensures p.NoMatch? <==> !rule.matcher.matches(candidate)
    ensures p.Match? ==> p.state.captured == candidate
    ensures p.Match? ==> rule.action(st.(captured := candidate)).result == Produce(p.token)
  {
    if !rule.matcher.matches(candidate) then NoMatch
    else
      var captured := st.(captured := candidate);
      var e := rule.action(captured);
      match e.result
      case Raise(f) => Abort(f)
      case Unsupported(shown) => Abort(UnsupportedOperation(UNSUPPORTED_PREFIX + shown))
      case Produce(t) => Match(t, captured.(line := e.line, variables := e.variables))
  }

  /** One provider's scan from `pos` (the loop over `endPosition`). `last` and
      `lastEnd` are `lastMatch` and `lastMatchEndPosition`. */
  function ScanRule(rule: Rule, input: string, pos: nat, end: nat, st: ScanState,
                    last: Option<Token>, lastEnd: nat, scanned: string): (r: Scan)
    requires pos <= end <= |input|
    requires last.Some? ==> pos <= lastEnd < end
    ensures r.Taken? ==> pos < r.next <= |input|
    decreases |input| - end
  {
    if end >= |input| then Skipped(st, scanned)
    else
      var candidate := input[pos..end + 1];
      match GetToken(rule, st, candidate)
      case Abort(f) => Aborted(f)
      case Match(t, st') =>
        if rule.matcher.strategy == Greedy || end >= |input| - 1 then Taken(t, end + 1, st', candidate)
        else ScanRule(rule, input, pos, end + 1, st', Some(t), end, candidate)
      case NoMatch =>
        if rule.matcher.strategy == Span && last.Some? then Taken(last.value, end, st, candidate)
        else if end >= |input| - 1 && last.Some? then Taken(last.value, lastEnd + 1, st, candidate)
        else ScanRule(rule, input, pos, end + 1, st, last, lastEnd, candidate)
  }

  /** The loop over providers at one scan position: the first one that takes
      a token or throws decides. */
  function TryRules(rules: seq<Rule>, i: nat, input: string, pos: nat, st: ScanState, scanned: string): (r: Scan)
    requires i <= |rules| && pos < |input|
    ensures r.Taken? ==> pos < r.next <= |input|
    decreases |rules| - i
  {
    if i == |rules| then Skipped(st, scanned)
    else
      match ScanRule(rules[i], input, pos, pos, st, None, pos, scanned)
      case Skipped(st', scanned') => TryRules(rules, i + 1, input, pos, st', scanned')
      case other => other
  }

  function InvalidToken(scanned: string, line: int): Failure
  {
    IllegalArgument("Invalid token [" + scanned + "] on line " + Text.IntToString(line) + ".")
  }

  /** The main loop of `lex` from scan position `pos`, with `tokens` kept so far. */
  function LexFrom(rules: seq<Rule>, input: string, pos: nat, st: ScanState, scanned: string,
                   tokens: seq<Token>): (r: Result<seq<Token>, Failure>)
    requires pos <= |input|
    ensures r.Ok? ==> tokens <= r.value
    decreases |input| - pos
  {
    if pos == |input| then Ok(tokens)
    else
      match TryRules(rules, 0, input, pos, st, scanned)
      case Skipped(st', scanned') => Err(InvalidToken(scanned', st'.line))
      case Aborted(f) => Err(f)
      case Taken(t, next, st', scanned') =>
        LexFrom(rules, input, next, st', scanned', if t.ignored then tokens else tokens + [t])
  }

  /** `lex(rawInput)`: the tokens, passed through the after-function, or the
      exception that stopped the scan. */
  function LexSpec(lexer: Lexer, input: string): (r: Result<seq<Token>, Failure>)
    ensures |input| == 0 ==> r == Ok(lexer.after(input, []))
    ensures r.Err? <==> LexFrom(lexer.rules, input, 0, INITIAL, "", []).Err?
  {
    match LexFrom(lexer.rules, input, 0, INITIAL, "", [])
    case Ok(tokens) => Ok(lexer.after(input, tokens))
    case Err(f) => Err(f)
  }

  /** `getToken`, against the context object. */
  method ApplyRule(rule: Rule, ctx: ScanContext, candidate: string) returns (p: Probe)
    modifies ctx
    ensures p == GetToken(rule, old(ctx.State()), candidate)
    ensures p.NoMatch? ==> ctx.State() == old(ctx.State())
    ensures p.Match? ==> ctx.State() == p.state
  {
    if !rule.matcher.matches(candidate) {
      return NoMatch;
    }
    ctx.Capture(candidate);
    var e := rule.action(ctx.State());
    ctx.Commit(e);
    match e.result {
      case Raise(f) => return Abort(f);
      case Unsupported(shown) => return Abort(UnsupportedOperation(UNSUPPORTED_PREFIX + shown));
      case Produce(t) => return Match(t, ctx.State());
    }
  }

  /** The loop over `endPosition` for one provider. */
  method ScanWithRule(rule: Rule, input: string, pos: nat, ctx: ScanContext, scanned0: string) returns (r: Scan)
    requires pos < |input|
    modifies ctx
    ensures r == ScanRule(rule, input, pos, pos, old(ctx.State()), None, pos, scanned0)
    ensures !r.Aborted? ==> ctx.State() == r.state
  {
    var strategy := rule.matcher.strategy;
    var lastMatch: Option<Token> := None;
    var lastMatchEnd: nat := pos;
    var scanned := scanned0;
    var end := pos;
    while end < |input|
      invariant pos <= end <= |input|
      invariant lastMatch.Some? ==> pos <= lastMatchEnd < end
      invariant ScanRule(rule, input, pos, end, ctx.State(), lastMatch, lastMatchEnd, scanned)
             == ScanRule(rule, input, pos, pos, old(ctx.State()), None, pos, scanned0)
      decreases |input| - end
    {
      scanned := input[pos..end + 1];
      var probe := ApplyRule(rule, ctx, scanned);
      match probe {
        case Abort(f) =>
          return Aborted(f);
        case Match(t, _) =>
          lastMatchEnd := end;
          if strategy == Span || strategy == Max {
            lastMatch := Some(t);
          } else {
            return Taken(t, end + 1, ctx.State(), scanned);
          }
        case NoMatch =>
          if strategy == Span && lastMatch.Some? {
            return Taken(lastMatch.value, end, ctx.State(), scanned);
          }
      }
      if end >= |input| - 1 && lastMatch.Some? {
        return Taken(lastMatch.value, lastMatchEnd + 1, ctx.State(), scanned);
      }
      end := end + 1;
    }
    return Skipped(ctx.State(), scanned);
  }

  /** `Lexer.lex`. */
  method Lex(lexer: Lexer, input: string) returns (r: Result<seq<Token>, Failure>)
    ensures r == LexSpec(lexer, input)
  {
    var rules := lexer.rules;
    var tokens: seq<Token> := [];
    var ctx := new ScanContext();
    var scanned := "";
    var scanPosition: nat := 0;
    while scanPosition < |input|
      invariant scanPosition <= |input|
      invariant LexFrom(rules, input, scanPosition, ctx.State(), scanned, tokens)
             == LexFrom(rules, input, 0, INITIAL, "", [])
      decreases |input| - scanPosition
    {
      ghost var pos0, st0, scanned0, tokens0 := scanPosition, ctx.State(), scanned, tokens;
      var generated := false;
      var i := 0;
      while i < |rules| && !generated
        invariant i <= |rules|
        invariant !generated ==> scanPosition == pos0 && tokens == tokens0
        invariant !generated ==>
          TryRules(rules, i, input, pos0, ctx.State(), scanned) == TryRules(rules, 0, input, pos0, st0, scanned0)
        invariant generated ==> pos0 < scanPosition <= |input|
        invariant generated ==>
          LexFrom(rules, input, scanPosition, ctx.State(), scanned, tokens) == LexFrom(rules, input, pos0, st0, scanned0, tokens0)
        decreases |rules| - i, !generated
      {
        var outcome := ScanWithRule(rules[i], input, scanPosition, ctx, scanned);
        match outcome {
          case Aborted(f) =>
            return Err(f);
          case Skipped(_, sc) =>
            scanned := sc;
            i := i + 1;
          case Taken(t, next, _, sc) =>
            scanned := sc;
            generated := true;
            scanPosition := next;
            if !t.ignored {
              tokens := tokens + [t];
            }
        }
      }
      if !generated {
        return Err(InvalidToken(scanned, ctx.lineNumber));
      }
    }
    return Ok(lexer.after(input, tokens));
  }

  /** The after-function `build()` installs when none was given. */
  function NoAfter(): AfterFunction
  {
    (input: string, tokens: seq<Token>) => tokens
  }

  /** The action `error(def)` pushes: the exception `def` builds is returned
      to the lexer, the context is left as it was. */
  function ErrorAction(def: ScanState -> Failure): ScanState -> Effect
  {
    (s: ScanState) => Effect(Raise(def(s)), s.line, s.variables)
  }

  /** Whole-string matching of `.*`. */
  predicate MatchesAnything(s: string)
  {
    forall i :: 0 <= i < |s| ==> !Text.IsLineTerminator(s[i])
  }

  const NO_LEXER_DEFINITION: string := "No lexer definition for this compiler."

  /** `DEFAULT_LEXER`: one rule on `.*` that fails the compilation. */
  const DEFAULT_LEXER: Lexer :=
    Lexer([Rule(Matcher(MatchesAnything, Greedy), ErrorAction((s: ScanState) => UnsupportedOperation(NO_LEXER_DEFINITION)))],
          NoAfter())

  /** `Lexer.Builder` (with `TokenFunctionBuilder`, whose `create` and `error`
      push onto this builder). */
  class LexerBuilder {
    var factory: seq<Rule>
    var afterFunction: Option<AfterFunction>

    constructor ()
      ensures factory == [] && afterFunction == None
    {
      factory := [];
      afterFunction := None;
    }

    /** `on(regex)`: a matcher with the default strategy. */
    static function On(matches: string -> bool): (m: Matcher)
      ensures m.strategy == Greedy && m.matches == matches
    {
      Matcher(matches, Greedy)
    }

    /** `on(regex, strategy).create(def)`. */
    method Create(m: Matcher, def: ScanState -> Effect)
      modifies this
      ensures factory == old(factory) + [Rule(m, def)]
      ensures afterFunction == old(afterFunction)
    {
      factory := factory + [Rule(m, def)];
    }

    /** `on(regex, strategy).error(def)`. */
    method Error(m: Matcher, def: ScanState -> Failure)
      modifies this
      ensures factory == old(factory) + [Rule(m, ErrorAction(def))]
      ensures afterFunction == old(afterFunction)
    {
      factory := factory + [Rule(m, ErrorAction(def))];
    }

    /** `after(BiConsumer)`: replaces any earlier after-function. */
    method After(f: AfterFunction)
      modifies this
      ensures afterFunction == Some(f) && factory == old(factory)
    {
      afterFunction := Some(f);
    }

    /** `after(Consumer)`: an after-function that ignores the raw input. */
    method AfterTokens(f: seq<Token> -> seq<Token>)
      modifies this
      ensures afterFunction.Some? && factory == old(factory)
      ensures forall input, tokens :: afterFunction.value(input, tokens) == f(tokens)
    {
      afterFunction := Some((input: string, tokens: seq<Token>) => f(tokens));
    }

    /** `build()`: the rules in the order pushed; a missing after-function
        becomes the no-op, which the builder then keeps. */
    method Build() returns (l: Lexer)
      modifies this
      ensures old(afterFunction).Some? ==> afterFunction == old(afterFunction)
      ensures old(afterFunction).None? ==> afterFunction == Some(NoAfter())
      ensures factory == old(factory)
      ensures l == Lexer(factory, afterFunction.value)
    {
      if afterFunction.None? {
        afterFunction := Some(NoAfter());
      }
      l := Lexer(factory, afterFunction.value);
    }
  }
}
