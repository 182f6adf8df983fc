/** `Phrase` and `Grammar`: a phrase is an identifier with its alternative
    sentences (sequences of token or phrase identifiers); a grammar is a root
    phrase and every phrase keyed by its identifier. */
module Grammars {
  import Text

  datatype Phrase = Phrase(id: string, sentences: seq<seq<string>>)

  /** `getRoot()` is the phrase given to `from`; `phrases` is the lookup table
      the parser consults. */
  datatype Grammar = Grammar(root: Phrase, phrases: map<string, Phrase>)

  /** Every phrase is filed under its own identifier. */
  predicate Keyed(phrases: map<string, Phrase>)
  {
    forall k :: k in phrases ==> phrases[k].id == k
  }

  // ---------------------------------------------------------------------
  // toString

  /** `replaceAll(".", " ")`: every character but a line terminator blanked. */
  function Blank(s: string): (r: string)
    ensures |r| == |s|
    ensures forall i :: 0 <= i < |s| ==> r[i] == (if Text.IsLineTerminator(s[i]) then s[i] else ' ')
  {
    if |s| == 0 then [] else Blank(s[..|s| - 1]) + [if Text.IsLineTerminator(s[|s| - 1]) then s[|s| - 1] else ' ']
  }

  /** Each word followed by one space. */
  function Words(ws: seq<string>): string
  {
    if |ws| == 0 then "" else Words(ws[..|ws| - 1]) + ws[|ws| - 1] + " "
  }

  /** The lines of sentences `i..`, each but the last followed by the
      continuation marker. */
  function Alternatives(ss: seq<seq<string>>, i: nat, spacer: string): (r: string)
    requires i <= |ss|
    ensures i < |ss| ==> |r| > 0 && r[|r| - 1] == '\n'
    decreases |ss| - i
  {
    if i == |ss| then ""
    else Words(ss[i]) + "\n" + (if i < |ss| - 1 then spacer + "| " else "") + Alternatives(ss, i + 1, spacer)
  }

  /** The text `toString` renders. */
  function PhraseText(p: Phrase): (r: string)
    ensures |r| > |p.id| + 2 && r[..|p.id| + 2] == "  " + p.id
    ensures r[|r| - 1] == '\n'
  {
    if |p.sentences| == 0 then "  " + p.id + "\n"
    else "  " + p.id + " ::= " + Alternatives(p.sentences, 0, Blank("  " + p.id + " ::"))
  }

  /** `Phrase.toString()`. */
  method PhraseToString(p: Phrase) returns (s: string)
    ensures s == PhraseText(p)
  {
    s := "  " + p.id;
    if |p.sentences| == 0 {
      return s + "\n";
    }
    s := s + " ::= ";
    var spacer := Blank(s[..|s| - 2]);
    assert s[..|s| - 2] == "  " + p.id + " ::";
    s := AppendAlternatives(s, p.sentences, spacer);
  }

  /** The sentence loop of `toString`. */
  method AppendAlternatives(prefix: string, ss: seq<seq<string>>, spacer: string) returns (s: string)
    ensures s == prefix + Alternatives(ss, 0, spacer)
  {
    s := prefix;
    var i := 0;
    while i < |ss|
      invariant i <= |ss|
      invariant s + Alternatives(ss, i, spacer) == prefix + Alternatives(ss, 0, spacer)
    {
      ghost var before := s;
      s := AppendWords(s, ss[i]);
      s := s + "\n";
      var tail := "";
      if i < |ss| - 1 {
        tail := spacer + "| ";
      }
      s := s + tail;
      assert Alternatives(ss, i, spacer) == Words(ss[i]) + "\n" + tail + Alternatives(ss, i + 1, spacer);
      assert s == before + Words(ss[i]) + "\n" + tail;
      i := i + 1;
    }
  }

  /** The inner loop of `toString`: each word and a space. */
  method AppendWords(prefix: string, ws: seq<string>) returns (s: string)
    ensures s == prefix + Words(ws)
  {
    s := prefix;
    var k := 0;
    while k < |ws|
      invariant k <= |ws|
      invariant s == prefix + Words(ws[..k])
    {
      assert ws[..k + 1][..k] == ws[..k];
      s := s + ws[k] + " ";
      k := k + 1;
    }
    assert ws[..k] == ws;
  }

  /** Occurrences of `c` in `s`. */
  function Count(s: string, c: char): nat
  {
    if |s| == 0 then 0 else Count(s[..|s| - 1], c) + (if s[|s| - 1] == c then 1 else 0)
  }

  lemma {:induction false} CountAppend(a: string, b: string, c: char)
    ensures Count(a + b, c) == Count(a, c) + Count(b, c)
    decreases |b|
  {
    if |b| == 0 {
      assert a + b == a;
    } else {
      assert (a + b)[..|a + b| - 1] == a + b[..|b| - 1];
      CountAppend(a, b[..|b| - 1], c);
    }
  }

  lemma {:induction false} CountAbsent(s: string, c: char)
    requires c !in s
    ensures Count(s, c) == 0
    decreases |s|
  {
    if |s| > 0 {
      assert forall x :: x in s[..|s| - 1] ==> x in s;
      CountAbsent(s[..|s| - 1], c);
    }
  }

  lemma {:induction false} WordsLackNewline(ws: seq<string>)
    requires forall k :: 0 <= k < |ws| ==> '\n' !in ws[k]
    ensures '\n' !in Words(ws)
    decreases |ws|
  {
    if |ws| > 0 {
      WordsLackNewline(ws[..|ws| - 1]);
    }
  }

  lemma {:induction false} AlternativesLines(ss: seq<seq<string>>, i: nat, spacer: string)
    requires i <= |ss|
    requires '\n' !in spacer
    requires forall j, k :: 0 <= j < |ss| && 0 <= k < |ss[j]| ==> '\n' !in ss[j][k]
    ensures Count(Alternatives(ss, i, spacer), '\n') == |ss| - i
    decreases |ss| - i
  {
    if i < |ss| {
      AlternativeLine(ss, i, spacer);
      AlternativesLines(ss, i + 1, spacer);
    }
  }

  /** Alternative `i` takes exactly one line. */
  lemma AlternativeLine(ss: seq<seq<string>>, i: nat, spacer: string)
    requires i < |ss|
    requires '\n' !in spacer
    requires forall k :: 0 <= k < |ss[i]| ==> '\n' !in ss[i][k]
    ensures Count(Alternatives(ss, i, spacer), '\n') == 1 + Count(Alternatives(ss, i + 1, spacer), '\n')
  {
    var tail := if i < |ss| - 1 then spacer + "| " else "";
    WordsLackNewline(ss[i]);
    CountLine(Alternatives(ss, i, spacer), Words(ss[i]), tail, Alternatives(ss, i + 1, spacer));
  }

  /** One line of text, then the rest. */
  lemma CountLine(s: string, w: string, tail: string, rest: string)
    requires s == w + "\n" + tail + rest
    requires '\n' !in w && '\n' !in tail
    ensures Count(s, '\n') == 1 + Count(rest, '\n')
  {
    CountAbsent(w, '\n');
    CountAbsent(tail, '\n');
    assert Count("\n", '\n') == 1 by {
      assert "\n"[..0] == "";
    }
    CountAppend(w, "\n", '\n');
    CountAppend(w + "\n", tail, '\n');
    CountAppend(w + "\n" + tail, rest, '\n');
  }

  /** A phrase with no sentences prints as the line "  <id>"; otherwise
      there is one line per sentence (given no identifier or word contains a
      newline). */
  lemma PhraseTextLines(p: Phrase)
    requires '\n' !in p.id
    requires forall j, k :: 0 <= j < |p.sentences| && 0 <= k < |p.sentences[j]| ==> '\n' !in p.sentences[j][k]
    ensures |p.sentences| == 0 ==> PhraseText(p) == "  " + p.id + "\n"
    ensures Count(PhraseText(p), '\n') == if |p.sentences| == 0 then 1 else |p.sentences|
  {
    if |p.sentences| == 0 {
      CountAbsent("  " + p.id, '\n');
      CountAppend("  " + p.id, "\n", '\n');
    } else {
      var spacer := Blank("  " + p.id + " ::");
      assert '\n' !in spacer;
      CountAbsent("  " + p.id + " ::= ", '\n');
      AlternativesLines(p.sentences, 0, spacer);
      CountAppend("  " + p.id + " ::= ", Alternatives(p.sentences, 0, spacer), '\n');
    }
  }

  /** A single sentence prints on one line after " ::= ". */
  lemma SingleSentenceText(id: string, ws: seq<string>)
    ensures PhraseText(Phrase(id, [ws])) == "  " + id + " ::= " + Words(ws) + "\n"
  {
    assert Alternatives([ws], 1, Blank("  " + id + " ::")) == "";
  }

  // ---------------------------------------------------------------------
  // Builders

  /** `Phrase.Builder`: sentences are kept in the order they are added. */
  class PhraseBuilder {
    const id: string
    var sentences: seq<seq<string>>

    constructor (id: string)
      ensures this.id == id && sentences == []
    {
      this.id := id;
      sentences := [];
    }

    method AddSentence(sentence: seq<string>)
      modifies this
      ensures sentences == old(sentences) + [sentence]
    {
      sentences := sentences + [sentence];
    }

    function Build(): (p: Phrase)
      reads this
      ensures p.id == id && p.sentences == sentences
    {
      Phrase(id, sentences)
    }
  }

  /** `Grammar.Builder`: the root is filed under its identifier at creation;
      later phrases are inserted or overwrite by identifier. */
  class GrammarBuilder {
    const root: Phrase
    var phrases: map<string, Phrase>

    predicate Valid()
      reads this
    {
      Keyed(phrases) && root.id in phrases
    }

    constructor (root: Phrase)
      ensures Valid()
      ensures this.root == root && phrases == map[root.id := root]
    {
      this.root := root;
      phrases := map[root.id := root];
    }

    method AddPhrase(phrase: Phrase)
      requires Valid()
      modifies this
      ensures Valid()
      ensures phrases == old(phrases)[phrase.id := phrase]
    {
      phrases := phrases[phrase.id := phrase];
    }

    method AddPhraseBuilder(b: PhraseBuilder)
      requires Valid()
      modifies this
      ensures Valid()
      ensures phrases == old(phrases)[b.id := Phrase(b.id, b.sentences)]
    {
      AddPhrase(b.Build());
    }

    function Build(): (g: Grammar)
      reads this
      requires Valid()
      ensures g.root == root && g.phrases == phrases && Keyed(g.phrases)
    {
      Grammar(root, phrases)
    }
  }

  /** Overwriting the root's entry leaves `getRoot` unchanged, while lookups
      by that identifier now find the new phrase. */
  method RootSurvivesOverwrite(root: Phrase, sentences: seq<seq<string>>) returns (g: Grammar)
    ensures g.root == root
    ensures root.id in g.phrases && g.phrases[root.id] == Phrase(root.id, sentences)
  {
    var b := new GrammarBuilder(root);
    b.AddPhrase(Phrase(root.id, sentences));
    g := b.Build();
  }
}
