/** What `Lexer.lex` guarantees: how far each matching strategy consumes,
    that ignored tokens never reach the output, and how failures are reported. */
module LexerProperties {
  import opened Wrappers
  import opened Failures
  import opened Components
  import opened Scanning
  import opened Lexing
  import Text

  /** A rule whose action always hands back a token. */
  ghost predicate Producing(rule: Rule)
  {
    forall s :: rule.action(s).result.Produce?
  }

  /** `t` is what the rule's action gives for some context that captured `candidate`. */
  ghost predicate ProducedFrom(rule: Rule, t: Token, candidate: string)
  {
    exists s: ScanState :: s.captured == candidate && rule.action(s).result == Produce(t)
  }

  lemma ProducedByGetToken(rule: Rule, st: ScanState, candidate: string)
    requires GetToken(rule, st, candidate).Match?
    ensures ProducedFrom(rule, GetToken(rule, st, candidate).token, candidate)
  {
    var s := st.(captured := candidate);
    assert s.captured == candidate;
  }

  /** Empty input gives no tokens, whatever the rules; the after-function still runs. */
  lemma EmptyInputGivesNoTokens(lexer: Lexer)
    ensures LexSpec(lexer, "") == Ok(lexer.after("", []))
  {
  }

  /** When no candidate from `end` on matches, the provider consumes nothing,
      leaves the context alone and its scan reaches the end of the input. */
  lemma {:induction false} NoMatchFrom(rule: Rule, input: string, pos: nat, end: nat, st: ScanState, scanned: string)
    requires pos <= end < |input|
    requires forall j :: end < j <= |input| ==> !rule.matcher.matches(input[pos..j])
    ensures ScanRule(rule, input, pos, end, st, None, pos, scanned) == Skipped(st, input[pos..])
    decreases |input| - end
  {
    assert !rule.matcher.matches(input[pos..end + 1]);
    if end + 1 < |input| {
      NoMatchFrom(rule, input, pos, end + 1, st, input[pos..end + 1]);
    }
  }

  /** No rule consumes anything when none of the prefixes at `pos` matches. */
  lemma NoMatchingPrefixSkips(rule: Rule, input: string, pos: nat, st: ScanState, scanned: string)
    requires pos < |input|
    requires forall j :: pos < j <= |input| ==> !rule.matcher.matches(input[pos..j])
    ensures ScanRule(rule, input, pos, pos, st, None, pos, scanned) == Skipped(st, input[pos..])
  {
    NoMatchFrom(rule, input, pos, pos, st, scanned);
  }

  lemma {:induction false} GreedyFrom(rule: Rule, input: string, pos: nat, end: nat, k: nat, st: ScanState, scanned: string)
    requires rule.matcher.strategy == Greedy
    requires pos <= end < k <= |input|
    requires rule.matcher.matches(input[pos..k])
    requires forall j :: end < j < k ==> !rule.matcher.matches(input[pos..j])
    requires GetToken(rule, st, input[pos..k]).Match?
    ensures ScanRule(rule, input, pos, end, st, None, pos, scanned)
         == Taken(GetToken(rule, st, input[pos..k]).token, k, GetToken(rule, st, input[pos..k]).state, input[pos..k])
    decreases k - end
  {
    if end + 1 < k {
      assert !rule.matcher.matches(input[pos..end + 1]);
      GreedyFrom(rule, input, pos, end + 1, k, st, input[pos..end + 1]);
    }
  }

  /** GREEDY consumes the shortest matching prefix: the first candidate that
      matches becomes the token and scanning resumes right after it. */
  lemma GreedyTakesShortestMatch(rule: Rule, input: string, pos: nat, k: nat, st: ScanState, scanned: string)
    requires rule.matcher.strategy == Greedy
    requires pos < k <= |input|
    requires rule.matcher.matches(input[pos..k])
    requires forall j :: pos < j < k ==> !rule.matcher.matches(input[pos..j])
    requires GetToken(rule, st, input[pos..k]).Match?
    ensures ScanRule(rule, input, pos, pos, st, None, pos, scanned)
         == Taken(GetToken(rule, st, input[pos..k]).token, k, GetToken(rule, st, input[pos..k]).state, input[pos..k])
  {
    GreedyFrom(rule, input, pos, pos, k, st, scanned);
  }

  lemma {:induction false} SpanFrom(rule: Rule, input: string, pos: nat, end: nat, k0: nat, k1: nat,
                                    st: ScanState, last: Option<Token>, lastEnd: nat, scanned: string)
    requires rule.matcher.strategy == Span && Producing(rule)
    requires pos < k0 <= k1 <= |input| && pos <= end <= k1 && end < |input|
    requires forall j :: pos < j < k0 ==> !rule.matcher.matches(input[pos..j])
    requires forall j :: k0 <= j <= k1 ==> rule.matcher.matches(input[pos..j])
    requires k1 < |input| ==> !rule.matcher.matches(input[pos..k1 + 1])
    requires end + 1 <= k0 ==> last.None?
    requires end + 1 > k0 ==> last.Some? && lastEnd + 1 == end && ProducedFrom(rule, last.value, input[pos..end])
    ensures var r := ScanRule(rule, input, pos, end, st, last, lastEnd, scanned);
            r.Taken? && r.next == k1 && ProducedFrom(rule, r.token, input[pos..k1])
    decreases |input| - end
  {
    var candidate := input[pos..end + 1];
    if end + 1 < k0 {
      assert !rule.matcher.matches(candidate);
      SpanFrom(rule, input, pos, end + 1, k0, k1, st, last, lastEnd, candidate);
    } else if end + 1 <= k1 {
      assert rule.matcher.matches(candidate);
      assert rule.action(st.(captured := candidate)).result.Produce?;
      var p := GetToken(rule, st, candidate);
      ProducedByGetToken(rule, st, candidate);
      if end < |input| - 1 {
        SpanFrom(rule, input, pos, end + 1, k0, k1, p.state, Some(p.token), end, candidate);
      }
    } else {
      assert !rule.matcher.matches(candidate);
    }
  }

  /** SPAN consumes the first run of matching candidates: scanning stops at the
      first candidate after a match that no longer matches, and the token is
      the one made from the last matching candidate. */
  lemma SpanTakesFirstRun(rule: Rule, input: string, pos: nat, k0: nat, k1: nat, st: ScanState, scanned: string)
    requires rule.matcher.strategy == Span && Producing(rule)
    requires pos < k0 <= k1 <= |input|
    requires forall j :: pos < j < k0 ==> !rule.matcher.matches(input[pos..j])
    requires forall j :: k0 <= j <= k1 ==> rule.matcher.matches(input[pos..j])
    requires k1 < |input| ==> !rule.matcher.matches(input[pos..k1 + 1])
    ensures var r := ScanRule(rule, input, pos, pos, st, None, pos, scanned);
            r.Taken? && r.next == k1 && ProducedFrom(rule, r.token, input[pos..k1])
  {
    SpanFrom(rule, input, pos, pos, k0, k1, st, None, pos, scanned);
  }

  lemma {:induction false} MaxFrom(rule: Rule, input: string, pos: nat, end: nat, k: nat,
                                   st: ScanState, last: Option<Token>, lastEnd: nat, scanned: string)
    requires rule.matcher.strategy == Max && Producing(rule)
    requires pos < k <= |input| && pos <= end < |input|
    requires rule.matcher.matches(input[pos..k])
    requires forall j :: k < j <= |input| ==> !rule.matcher.matches(input[pos..j])
    requires last.Some? ==> pos <= lastEnd < end && ProducedFrom(rule, last.value, input[pos..lastEnd + 1])
    requires end >= k ==> last.Some? && lastEnd + 1 == k
    ensures var r := ScanRule(rule, input, pos, end, st, last, lastEnd, scanned);
            r.Taken? && r.next == k && ProducedFrom(rule, r.token, input[pos..k])
    decreases |input| - end
  {
    var candidate := input[pos..end + 1];
    var p := GetToken(rule, st, candidate);
    if rule.matcher.matches(candidate) {
      assert rule.action(st.(captured := candidate)).result.Produce?;
      ProducedByGetToken(rule, st, candidate);
      if end < |input| - 1 {
        MaxFrom(rule, input, pos, end + 1, k, p.state, Some(p.token), end, candidate);
      }
    } else if end < |input| - 1 {
      MaxFrom(rule, input, pos, end + 1, k, st, last, lastEnd, candidate);
    }
  }

  /** MAX consumes the longest matching prefix up to the end of the input. */
  lemma MaxTakesLongestMatch(rule: Rule, input: string, pos: nat, k: nat, st: ScanState, scanned: string)
    requires rule.matcher.strategy == Max && Producing(rule)
    requires pos < k <= |input|
    requires rule.matcher.matches(input[pos..k])
    requires forall j :: k < j <= |input| ==> !rule.matcher.matches(input[pos..j])
    ensures var r := ScanRule(rule, input, pos, pos, st, None, pos, scanned);
            r.Taken? && r.next == k && ProducedFrom(rule, r.token, input[pos..k])
  {
    MaxFrom(rule, input, pos, pos, k, st, None, pos, scanned);
  }

  lemma {:induction false} SkippedScanReachesEnd(rule: Rule, input: string, pos: nat, end: nat, st: ScanState,
                                                 last: Option<Token>, lastEnd: nat, scanned: string)
    requires pos <= end < |input|
    requires last.Some? ==> pos <= lastEnd < end
    ensures var r := ScanRule(rule, input, pos, end, st, last, lastEnd, scanned);
            r.Skipped? ==> r.scanned == input[pos..]
    decreases |input| - end
  {
    var candidate := input[pos..end + 1];
    if end + 1 < |input| {
      match GetToken(rule, st, candidate)
      case Abort(_) =>
      case Match(t, st') =>
        if rule.matcher.strategy != Greedy {
          SkippedScanReachesEnd(rule, input, pos, end + 1, st', Some(t), end, candidate);
        }
      case NoMatch =>
        SkippedScanReachesEnd(rule, input, pos, end + 1, st, last, lastEnd, candidate);
    }
  }

  lemma {:induction false} SkippedRulesReachEnd(rules: seq<Rule>, i: nat, input: string, pos: nat, st: ScanState, scanned: string)
    requires i < |rules| && pos < |input|
    ensures var r := TryRules(rules, i, input, pos, st, scanned);
            r.Skipped? ==> r.scanned == input[pos..]
    decreases |rules| - i
  {
    SkippedScanReachesEnd(rules[i], input, pos, pos, st, None, pos, scanned);
    var r := ScanRule(rules[i], input, pos, pos, st, None, pos, scanned);
    if r.Skipped? && i + 1 < |rules| {
      SkippedRulesReachEnd(rules, i + 1, input, pos, r.state, r.scanned);
    }
  }

  /** When no rule takes a token at `pos`, `lex` throws "Invalid token [...]"
      quoting the whole rest of the input. */
  lemma InvalidTokenQuotesRest(rules: seq<Rule>, input: string, pos: nat, st: ScanState, scanned: string, tokens: seq<Token>)
    requires 0 < |rules| && pos < |input|
    requires TryRules(rules, 0, input, pos, st, scanned).Skipped?
    ensures LexFrom(rules, input, pos, st, scanned, tokens)
         == Err(InvalidToken(input[pos..], TryRules(rules, 0, input, pos, st, scanned).state.line))
  {
    SkippedRulesReachEnd(rules, 0, input, pos, st, scanned);
  }

  /** Without rules, any non-empty input fails on line 1 quoting the empty scan. */
  lemma NoRulesRejectsInput(after: AfterFunction, input: string)
    requires |input| > 0
    ensures LexSpec(Lexer([], after), input) == Err(InvalidToken("", 1))
  {
  }

  lemma {:induction false} LexFromKeepsUnignored(rules: seq<Rule>, input: string, pos: nat, st: ScanState,
                                                 scanned: string, tokens: seq<Token>)
    requires pos <= |input|
    requires forall k :: 0 <= k < |tokens| ==> !tokens[k].ignored
    ensures var r := LexFrom(rules, input, pos, st, scanned, tokens);
            r.Ok? ==> tokens <= r.value && forall k :: 0 <= k < |r.value| ==> !r.value[k].ignored
    decreases |input| - pos
  {
    if pos < |input| {
      match TryRules(rules, 0, input, pos, st, scanned)
      case Taken(t, next, st', scanned') =>
        var tokens' := if t.ignored then tokens else tokens + [t];
        LexFromKeepsUnignored(rules, input, next, st', scanned', tokens');
      case _ =>
    }
  }

  /** Ignored tokens never reach the output (without an after-function that
      puts them back). */
  lemma OutputHasNoIgnoredTokens(rules: seq<Rule>, input: string)
    ensures var r := LexSpec(Lexer(rules, NoAfter()), input);
            r.Ok? ==> forall k :: 0 <= k < |r.value| ==> !r.value[k].ignored
  {
    LexFromKeepsUnignored(rules, input, 0, INITIAL, "", []);
  }

  /** `DEFAULT_LEXER` accepts only the empty input: text starting with an
      ordinary character hits the rule's "No lexer definition" error, text
      starting with a line terminator matches nothing. */
  lemma DefaultLexerRejectsInput(input: string)
    requires |input| > 0
    ensures !Text.IsLineTerminator(input[0]) ==>
      LexSpec(DEFAULT_LEXER, input) == Err(UnsupportedOperation(NO_LEXER_DEFINITION))
    ensures Text.IsLineTerminator(input[0]) ==>
      LexSpec(DEFAULT_LEXER, input) == Err(InvalidToken(input, 1))
  {
    var rule := DEFAULT_LEXER.rules[0];
    if !Text.IsLineTerminator(input[0]) {
      assert MatchesAnything(input[0..1]);
    } else {
      forall j | 0 < j <= |input|
        ensures !rule.matcher.matches(input[0..j])
      {
        assert input[0..j][0] == input[0];
      }
      NoMatchingPrefixSkips(rule, input, 0, INITIAL, "");
      InvalidTokenQuotesRest(DEFAULT_LEXER.rules, input, 0, INITIAL, "", []);
      assert input[0..] == input;
    }
  }
}
