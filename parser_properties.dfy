/** Properties of the parser: the order in which alternatives are tried, how
    terminals are matched, the two fixed grammars of the library and its
    tests, and the failure site's reporting. */
module ParserProperties {
  import opened Wrappers
  import opened Failures
  import opened Components
  import opened Grammars
  import opened SymbolTreeNodes
  import opened Parsing

  // ---------------------------------------------------------------------
  // The failure site affects messages only

  lemma {:induction false} PhraseOutcomeIgnoresSite(g: Grammar, window: seq<Token>, phrase: Phrase, s1: Site, s2: Site, fuel: nat)
    ensures ParsePhrase(g, window, phrase, s1, fuel).outcome == ParsePhrase(g, window, phrase, s2, fuel).outcome
    decreases fuel, 0
  {
    if fuel > 0 {
      SentencesOutcomeIgnoreSite(g, window, phrase, 0, s1, s2, fuel - 1);
    }
  }

  lemma {:induction false} SentencesOutcomeIgnoreSite(g: Grammar, window: seq<Token>, phrase: Phrase, k: nat, s1: Site, s2: Site, fuel: nat)
    requires k <= |phrase.sentences|
    ensures TrySentences(g, window, phrase, k, s1, fuel).outcome == TrySentences(g, window, phrase, k, s2, fuel).outcome
    decreases fuel, 2, |phrase.sentences| - k
  {
    if k < |phrase.sentences| {
      SentenceOutcomeIgnoresSite(g, phrase.id, phrase.sentences[k], window, 0, 0, [], s1, s2, fuel);
      var r1 := ParseSentence(g, phrase.id, phrase.sentences[k], window, 0, 0, [], s1, fuel);
      var r2 := ParseSentence(g, phrase.id, phrase.sentences[k], window, 0, 0, [], s2, fuel);
      if r1.outcome.Unresolved? {
        SentencesOutcomeIgnoreSite(g, window, phrase, k + 1, r1.site, r2.site, fuel);
      }
    }
  }

  lemma {:induction false} SentenceOutcomeIgnoresSite(g: Grammar, id: string, sentence: seq<string>, window: seq<Token>,
                                                      j: nat, depth: nat, children: seq<Comp>, s1: Site, s2: Site, fuel: nat)
    requires j <= |sentence| && depth <= |window|
    requires LeavesOf(children) == window[..depth]
    ensures ParseSentence(g, id, sentence, window, j, depth, children, s1, fuel).outcome
         == ParseSentence(g, id, sentence, window, j, depth, children, s2, fuel).outcome
    decreases fuel, 1, |sentence| - j
  {
    if j < |sentence| && depth < |window| {
      if sentence[j] in g.phrases {
        var phrase := g.phrases[sentence[j]];
        PhraseOutcomeIgnoresSite(g, window[depth..], phrase, s1, s2, fuel);
        var r1 := ParsePhrase(g, window[depth..], phrase, s1, fuel);
        var r2 := ParsePhrase(g, window[depth..], phrase, s2, fuel);
        if r1.outcome.Resolved? {
          var child := r1.outcome.node;
          LeavesOfAppend(children, child);
          SentenceOutcomeIgnoresSite(g, id, sentence, window, j + 1, depth + |Leaves(child)|, children + [child], r1.site, r2.site, fuel);
        }
      } else if sentence[j] == window[depth].id {
        LeavesOfAppend(children, Tok(window[depth]));
        assert window[..depth + 1] == window[..depth] + [window[depth]];
        SentenceOutcomeIgnoresSite(g, id, sentence, window, j + 1, depth + 1, children + [Tok(window[depth])], s1, s2, fuel);
      }
    }
  }

  /** What parsing a window against one sentence gives, whatever the site. */
  function SentenceOutcome(g: Grammar, id: string, sentence: seq<string>, window: seq<Token>, fuel: nat): Outcome
  {
    ParseSentence(g, id, sentence, window, 0, 0, [], NewSite(window), fuel).outcome
  }

  lemma {:induction false} TriesInOrder(g: Grammar, window: seq<Token>, phrase: Phrase, i: nat, site: Site, fuel: nat, k: nat)
    requires i <= k < |phrase.sentences|
    requires forall n :: 0 <= n < k ==> SentenceOutcome(g, phrase.id, phrase.sentences[n], window, fuel).Unresolved?
    requires !SentenceOutcome(g, phrase.id, phrase.sentences[k], window, fuel).Unresolved?
    ensures TrySentences(g, window, phrase, i, site, fuel).outcome == SentenceOutcome(g, phrase.id, phrase.sentences[k], window, fuel)
    decreases k - i
  {
    SentenceOutcomeIgnoresSite(g, phrase.id, phrase.sentences[i], window, 0, 0, [], site, NewSite(window), fuel);
    if i < k {
      var r := ParseSentence(g, phrase.id, phrase.sentences[i], window, 0, 0, [], site, fuel);
      TriesInOrder(g, window, phrase, i + 1, r.site, fuel, k);
    }
  }

  /** A phrase's outcome is that of its first sentence that does not fail:
      later alternatives are never consulted. */
  lemma FirstDecisiveSentenceWins(g: Grammar, window: seq<Token>, phrase: Phrase, site: Site, fuel: nat, k: nat)
    requires k < |phrase.sentences|
    requires forall n :: 0 <= n < k ==> SentenceOutcome(g, phrase.id, phrase.sentences[n], window, fuel).Unresolved?
    requires !SentenceOutcome(g, phrase.id, phrase.sentences[k], window, fuel).Unresolved?
    ensures ParsePhrase(g, window, phrase, site, fuel + 1).outcome == SentenceOutcome(g, phrase.id, phrase.sentences[k], window, fuel)
  {
    TriesInOrder(g, window, phrase, 0, site, fuel, k);
  }

  lemma {:induction false} AllFail(g: Grammar, window: seq<Token>, phrase: Phrase, i: nat, site: Site, fuel: nat)
    requires i <= |phrase.sentences|
    requires forall n :: 0 <= n < |phrase.sentences| ==> SentenceOutcome(g, phrase.id, phrase.sentences[n], window, fuel).Unresolved?
    ensures TrySentences(g, window, phrase, i, site, fuel).outcome == Unresolved
    decreases |phrase.sentences| - i
  {
    if i < |phrase.sentences| {
      SentenceOutcomeIgnoresSite(g, phrase.id, phrase.sentences[i], window, 0, 0, [], site, NewSite(window), fuel);
      var r := ParseSentence(g, phrase.id, phrase.sentences[i], window, 0, 0, [], site, fuel);
      AllFail(g, window, phrase, i + 1, r.site, fuel);
    }
  }

  /** A phrase whose every sentence fails fails too. */
  lemma NoSentenceResolves(g: Grammar, window: seq<Token>, phrase: Phrase, site: Site, fuel: nat)
    requires forall n :: 0 <= n < |phrase.sentences| ==> SentenceOutcome(g, phrase.id, phrase.sentences[n], window, fuel).Unresolved?
    ensures ParsePhrase(g, window, phrase, site, fuel + 1).outcome == Unresolved
  {
    AllFail(g, window, phrase, 0, site, fuel);
  }

  // ---------------------------------------------------------------------
  // One symbol at a time

  /** What parsing a window against a phrase gives, whatever the site. */
  function PhraseOutcome(g: Grammar, window: seq<Token>, phrase: Phrase, fuel: nat): Outcome
  {
    ParsePhrase(g, window, phrase, NewSite(window), fuel).outcome
  }

  /** The rest of a sentence from symbol `j`, whatever the site. */
  function SentenceFrom(g: Grammar, id: string, sentence: seq<string>, window: seq<Token>,
                        j: nat, depth: nat, children: seq<Comp>, fuel: nat): Outcome
    requires j <= |sentence| && depth <= |window|
    requires LeavesOf(children) == window[..depth]
  {
    ParseSentence(g, id, sentence, window, j, depth, children, NewSite(window), fuel).outcome
  }

  /** A symbol that names a phrase is parsed against that phrase on the
      rest of the window; if that resolves, the node becomes the next child
      and the sentence goes on after its tokens, otherwise the sentence ends
      with the same outcome. */
  lemma SymbolIsPhrase(g: Grammar, id: string, sentence: seq<string>, window: seq<Token>,
                       j: nat, depth: nat, children: seq<Comp>, fuel: nat)
    requires j < |sentence| && depth < |window|
    requires LeavesOf(children) == window[..depth]
    requires sentence[j] in g.phrases
    ensures var o := PhraseOutcome(g, window[depth..], g.phrases[sentence[j]], fuel);
            (o.Resolved? ==>
              depth + |Leaves(o.node)| <= |window|
              && LeavesOf(children + [o.node]) == window[..depth + |Leaves(o.node)|]
              && SentenceFrom(g, id, sentence, window, j, depth, children, fuel)
                 == SentenceFrom(g, id, sentence, window, j + 1, depth + |Leaves(o.node)|, children + [o.node], fuel))
            && (!o.Resolved? ==> SentenceFrom(g, id, sentence, window, j, depth, children, fuel) == o)
  {
    var phrase := g.phrases[sentence[j]];
    PhraseOutcomeIgnoresSite(g, window[depth..], phrase, NewSite(window), NewSite(window[depth..]), fuel);
    var r := ParsePhrase(g, window[depth..], phrase, NewSite(window), fuel);
    if r.outcome.Resolved? {
      var child := r.outcome.node;
      LeavesOfAppend(children, child);
      SentenceOutcomeIgnoresSite(g, id, sentence, window, j + 1, depth + |Leaves(child)|, children + [child], r.site, NewSite(window), fuel);
    }
  }

  /** Any other symbol is a terminal: it takes the next token when the ids
      agree, and fails the sentence otherwise. */
  lemma SymbolIsTerminal(g: Grammar, id: string, sentence: seq<string>, window: seq<Token>,
                         j: nat, depth: nat, children: seq<Comp>, fuel: nat)
    requires j < |sentence| && depth < |window|
    requires LeavesOf(children) == window[..depth]
    requires sentence[j] !in g.phrases
    ensures window[depth].id == sentence[j] ==>
              LeavesOf(children + [Tok(window[depth])]) == window[..depth + 1]
              && SentenceFrom(g, id, sentence, window, j, depth, children, fuel)
                 == SentenceFrom(g, id, sentence, window, j + 1, depth + 1, children + [Tok(window[depth])], fuel)
    ensures window[depth].id != sentence[j] ==> SentenceFrom(g, id, sentence, window, j, depth, children, fuel) == Unresolved
  {
    LeavesOfAppend(children, Tok(window[depth]));
    assert window[..depth + 1] == window[..depth] + [window[depth]];
  }

  /** A symbol left over when the window is used up fails the sentence. */
  lemma WindowExhausted(g: Grammar, id: string, sentence: seq<string>, window: seq<Token>,
                        j: nat, children: seq<Comp>, fuel: nat)
    requires j < |sentence|
    requires LeavesOf(children) == window
    ensures SentenceFrom(g, id, sentence, window, j, |window|, children, fuel) == Unresolved
  {
    assert window[..|window|] == window;
  }

  /** A sentence whose symbols have all been met resolves to a node holding
      the children gathered; in particular an empty sentence resolves on
      any window, taking no token. */
  lemma SentenceComplete(g: Grammar, id: string, sentence: seq<string>, window: seq<Token>,
                         depth: nat, children: seq<Comp>, fuel: nat)
    requires depth <= |window|
    requires LeavesOf(children) == window[..depth]
    ensures SentenceFrom(g, id, sentence, window, |sentence|, depth, children, fuel) == Resolved(Node(id, children))
  {
  }

  // ---------------------------------------------------------------------
  // Terminals

  /** Tokens as tree leaves. */
  function Toks(ts: seq<Token>): (r: seq<Comp>)
    ensures |r| == |ts| && forall i :: 0 <= i < |ts| ==> r[i] == Tok(ts[i])
  {
    seq(|ts|, i requires 0 <= i < |ts| => Tok(ts[i]))
  }

  lemma {:induction false} TerminalsFrom(g: Grammar, id: string, sentence: seq<string>, window: seq<Token>,
                                         j: nat, children: seq<Comp>, site: Site, fuel: nat)
    requires forall n :: 0 <= n < |sentence| ==> sentence[n] !in g.phrases
    requires j <= |sentence| && j <= |window|
    requires LeavesOf(children) == window[..j]
    ensures var r := ParseSentence(g, id, sentence, window, j, j, children, site, fuel);
            (r.outcome.Resolved? <==> |sentence| <= |window| && forall n :: j <= n < |sentence| ==> sentence[n] == window[n].id)
            && (r.outcome.Resolved? ==> r.outcome.node == Node(id, children + Toks(window[j..|sentence|])))
    decreases |sentence| - j
  {
    var r := ParseSentence(g, id, sentence, window, j, j, children, site, fuel);
    if j == |sentence| {
      assert r.outcome == Resolved(Node(id, children));
      assert children + Toks(window[j..|sentence|]) == children;
    } else if j == |window| {
      assert r.outcome.Unresolved?;
    } else {
      TerminalStep(g, id, sentence, window, j, children, site, fuel);
      if sentence[j] == window[j].id {
        TerminalsFrom(g, id, sentence, window, j + 1, children + [Tok(window[j])], site, fuel);
        if |sentence| <= |window| {
          ToksAppend(children, window, j, |sentence|);
        }
      }
    }
  }

  /** One terminal symbol of a sentence: its token is taken when the ids
      agree, and the sentence fails otherwise. */
  lemma TerminalStep(g: Grammar, id: string, sentence: seq<string>, window: seq<Token>,
                     j: nat, children: seq<Comp>, site: Site, fuel: nat)
    requires j < |sentence| && j < |window| && sentence[j] !in g.phrases
    requires LeavesOf(children) == window[..j]
    ensures LeavesOf(children + [Tok(window[j])]) == window[..j + 1]
    ensures ParseSentence(g, id, sentence, window, j, j, children, site, fuel) ==
      if sentence[j] == window[j].id
      then ParseSentence(g, id, sentence, window, j + 1, j + 1, children + [Tok(window[j])], site, fuel)
      else Step(Unresolved, ReportedSite(site, window))
  {
    LeavesOfAppend(children, Tok(window[j]));
    assert window[..j + 1] == window[..j] + [window[j]];
  }

  lemma ToksAppend(children: seq<Comp>, window: seq<Token>, j: nat, n: nat)
    requires j < n <= |window|
    ensures children + [Tok(window[j])] + Toks(window[j + 1..n]) == children + Toks(window[j..n])
  {
    var left, right := children + [Tok(window[j])] + Toks(window[j + 1..n]), children + Toks(window[j..n]);
    assert |left| == |right|;
    forall i | 0 <= i < |left|
      ensures left[i] == right[i]
    {
      if i > |children| {
        assert left[i] == Tok(window[j + 1..n][i - |children| - 1]);
      }
    }
  }

  /** A sentence whose symbols name no phrase resolves exactly when the
      window starts with tokens of those identifiers, and then holds those
      tokens. */
  lemma TerminalSentence(g: Grammar, id: string, sentence: seq<string>, window: seq<Token>, site: Site, fuel: nat)
    requires forall n :: 0 <= n < |sentence| ==> sentence[n] !in g.phrases
    ensures var r := ParseSentence(g, id, sentence, window, 0, 0, [], site, fuel);
            (r.outcome.Resolved? <==> |sentence| <= |window| && forall n :: 0 <= n < |sentence| ==> sentence[n] == window[n].id)
            && (r.outcome.Resolved? ==> r.outcome.node == Node(id, Toks(window[..|sentence|])))
  {
    TerminalsFrom(g, id, sentence, window, 0, [], site, fuel);
    if |sentence| <= |window| {
      assert [] + Toks(window[0..|sentence|]) == Toks(window[..|sentence|]);
    }
  }

  // ---------------------------------------------------------------------
  // Fixed grammars

  /** `AMBIGUOUS ::= AMBIGUOUS`, a left-recursive grammar. */
  const AMBIGUOUS: Phrase := Phrase("AMBIGUOUS", [["AMBIGUOUS"]])
  const AMBIGUOUS_GRAMMAR: Grammar := Grammar(AMBIGUOUS, map["AMBIGUOUS" := AMBIGUOUS])

  lemma {:induction false} AmbiguousPhrase(window: seq<Token>, site: Site, fuel: nat)
    requires |window| > 0
    ensures ParsePhrase(AMBIGUOUS_GRAMMAR, window, AMBIGUOUS, site, fuel).outcome == TooDeep
    decreases fuel
  {
    if fuel > 0 {
      assert window[0..] == window;
      AmbiguousPhrase(window, site, fuel - 1);
      var r := ParseSentence(AMBIGUOUS_GRAMMAR, "AMBIGUOUS", ["AMBIGUOUS"], window, 0, 0, [], site, fuel - 1);
      assert r.outcome == TooDeep;
    }
  }

  /** However deep the stack may go, a left-recursive grammar fails with the
      "too deep" error on any non-empty input, never with a syntax error. */
  lemma AmbiguousGrammarIsTooDeep(tokens: seq<Token>, fuel: nat)
    requires |tokens| > 0
    ensures ParseSpec(AMBIGUOUS_GRAMMAR, tokens, fuel) == Err(UnsupportedOperation(TOO_DEEP))
  {
    AmbiguousPhrase(tokens, NewSite(tokens), fuel);
  }

  /** On no tokens at all the same grammar stops at once: the sentence has
      a symbol left and the window is exhausted, a syntax error at the
      placeholder token. */
  lemma AmbiguousGrammarOnNoTokens(fuel: nat)
    requires fuel > 0
    ensures ParseSpec(AMBIGUOUS_GRAMMAR, [], fuel) == Err(SyntaxError(NOTHING))
  {
    var r := ParseSentence(AMBIGUOUS_GRAMMAR, "AMBIGUOUS", ["AMBIGUOUS"], [], 0, 0, [], NewSite([]), fuel - 1);
    assert r == Step(Unresolved, NewSite([]));
    assert TrySentences(AMBIGUOUS_GRAMMAR, [], AMBIGUOUS, 1, NewSite([]), fuel - 1) == Step(Unresolved, NewSite([]));
    assert ParsePhrase(AMBIGUOUS_GRAMMAR, [], AMBIGUOUS, NewSite([]), fuel) == Step(Unresolved, NewSite([]));
  }

  /** `DEFAULT_PARSER` rejects every input, naming the first token (or the
      placeholder "" on line 1 when there is none). */
  lemma DefaultParserRejects(tokens: seq<Token>, fuel: nat)
    requires fuel > 0
    ensures ParseSpec(DEFAULT_PARSER.grammar, tokens, fuel)
         == Err(SyntaxError(if |tokens| > 0 then tokens[0] else NOTHING))
  {
    var r := TrySentences(DEFAULT_PARSER.grammar, tokens, DEFAULT_PARSER.grammar.root, 0, NewSite(tokens), fuel - 1);
    assert r.site == NewSite(tokens);
  }

  // ---------------------------------------------------------------------
  // Failure site

  /** Since `report` never lowers the distance on record, a later report of
      any failing window shorter than the whole list replaces an earlier one,
      however much further along the earlier failure was. */
  lemma LatestReportWins(tokens: seq<Token>, w1: seq<Token>, w2: seq<Token>)
    requires 0 < |w2| < |tokens|
    ensures ReportedSite(ReportedSite(NewSite(tokens), w1), w2).token == w2[0]
    ensures ReportedSite(NewSite(tokens), w1).remaining == |tokens|
  {
  }
}
