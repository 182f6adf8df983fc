/** What the parser's trees are: every node it resolves derives, in the
    grammar, from one of its phrase's sentences, symbol by symbol. */
module ParseTrees {
  import opened Components
  import opened Grammars
  import opened SymbolTreeNodes
  import opened Parsing

  /** Child `i` stands for symbol `sentence[i]`: a node deriving that phrase
      when the symbol names one, else a token with that id. */
  predicate FitsAt(g: Grammar, sentence: seq<string>, children: seq<Comp>, i: nat)
    requires i < |children| && i < |sentence|
    decreases children, 0
  {
    Id(children[i]) == sentence[i]
    && if sentence[i] in g.phrases then Derives(g, children[i]) else children[i].Tok?
  }

  /** The first `j` children stand for the first `j` symbols. */
  predicate FitsPrefix(g: Grammar, sentence: seq<string>, children: seq<Comp>, j: nat)
    decreases children, 1
  {
    j == |children| && j <= |sentence| && forall i :: 0 <= i < j ==> FitsAt(g, sentence, children, i)
  }

  /** The children spell out the whole sentence. */
  predicate Fits(g: Grammar, sentence: seq<string>, children: seq<Comp>)
    decreases children, 2
  {
    FitsPrefix(g, sentence, children, |sentence|)
  }

  /** A node named after a phrase of `g` whose children spell out one of
      that phrase's sentences. */
  predicate Derives(g: Grammar, c: Comp)
    decreases c
  {
    c.Node? && c.id in g.phrases
    && exists k :: 0 <= k < |g.phrases[c.id].sentences| && Fits(g, g.phrases[c.id].sentences[k], c.children)
  }

  /** `parseUsingPhrase` on a phrase filed under its own id resolves only
      to a node that derives from it. */
  lemma {:induction false} PhraseDerives(g: Grammar, window: seq<Token>, phrase: Phrase, site: Site, fuel: nat)
    requires Keyed(g.phrases) && phrase.id in g.phrases && g.phrases[phrase.id] == phrase
    ensures var r := ParsePhrase(g, window, phrase, site, fuel);
      r.outcome.Resolved? ==> Derives(g, r.outcome.node)
    decreases fuel, 0
  {
    if fuel > 0 {
      SentencesDerive(g, window, phrase, 0, site, fuel - 1);
    }
  }

  lemma {:induction false} SentencesDerive(g: Grammar, window: seq<Token>, phrase: Phrase, k: nat, site: Site, fuel: nat)
    requires Keyed(g.phrases) && phrase.id in g.phrases && g.phrases[phrase.id] == phrase
    requires k <= |phrase.sentences|
    ensures var r := TrySentences(g, window, phrase, k, site, fuel);
      r.outcome.Resolved? ==> Derives(g, r.outcome.node)
    decreases fuel, 2, |phrase.sentences| - k
  {
    if k < |phrase.sentences| {
      var r := ParseSentence(g, phrase.id, phrase.sentences[k], window, 0, 0, [], site, fuel);
      SentenceFits(g, phrase.id, phrase.sentences[k], window, 0, 0, [], site, fuel);
      match r.outcome
      case Resolved(node) =>
        assert Fits(g, g.phrases[node.id].sentences[k], node.children);
      case TooDeep =>
      case Unresolved =>
        SentencesDerive(g, window, phrase, k + 1, r.site, fuel);
    }
  }

  /** `parseUsingSentence` from symbol `j`, with children that fit the
      sentence so far, resolves only to a node whose children fit it all. */
  lemma {:induction false} SentenceFits(g: Grammar, id: string, sentence: seq<string>, window: seq<Token>,
                                        j: nat, depth: nat, children: seq<Comp>, site: Site, fuel: nat)
    requires j <= |sentence| && depth <= |window|
    requires LeavesOf(children) == window[..depth]
    requires Keyed(g.phrases) && FitsPrefix(g, sentence, children, j)
    ensures var r := ParseSentence(g, id, sentence, window, j, depth, children, site, fuel);
      r.outcome.Resolved? ==> r.outcome.node.Node? && Fits(g, sentence, r.outcome.node.children)
    decreases fuel, 1, |sentence| - j
  {
    if j < |sentence| && depth < |window| {
      if sentence[j] in g.phrases {
        var phrase := g.phrases[sentence[j]];
        var r := ParsePhrase(g, window[depth..], phrase, site, fuel);
        PhraseDerives(g, window[depth..], phrase, site, fuel);
        if r.outcome.Resolved? {
          var child := r.outcome.node;
          LeavesOfAppend(children, child);
          var next := children + [child];
          assert FitsAt(g, sentence, next, j);
          assert forall i :: 0 <= i < j ==> FitsAt(g, sentence, next, i) == FitsAt(g, sentence, children, i);
          SentenceFits(g, id, sentence, window, j + 1, depth + |Leaves(child)|, next, r.site, fuel);
        }
      } else if sentence[j] == window[depth].id {
        LeavesOfAppend(children, Tok(window[depth]));
        assert window[..depth + 1] == window[..depth] + [window[depth]];
        var next := children + [Tok(window[depth])];
        assert FitsAt(g, sentence, next, j);
        assert forall i :: 0 <= i < j ==> FitsAt(g, sentence, next, i) == FitsAt(g, sentence, children, i);
        SentenceFits(g, id, sentence, window, j + 1, depth + 1, next, site, fuel);
      }
    }
  }

  /** A tree `parse` returns derives from the root phrase, when the root is
      the phrase filed under its id. */
  lemma ParsedTreeDerives(g: Grammar, tokens: seq<Token>, fuel: nat)
    requires Keyed(g.phrases) && g.root.id in g.phrases && g.phrases[g.root.id] == g.root
    ensures ParseSpec(g, tokens, fuel).Ok? ==>
      Derives(g, ParseSpec(g, tokens, fuel).value) && ParseSpec(g, tokens, fuel).value.id == g.root.id
  {
    PhraseDerives(g, tokens, g.root, NewSite(tokens), fuel);
  }
}
