/** The trees the JSON grammar derives: the shape of each kind of node, and
    which keys each object's body holds. */
module JsonTrees {
  import opened Components
  import opened Grammars
  import opened ParseTrees
  import opened Parsing
  import opened JsonLexing
  import opened JsonParsing

  predicate IsTok(c: Comp, id: string) { c.Tok? && c.token.id == id }

  /** A node of phrase `id` deriving in the JSON grammar. */
  predicate IsDerived(c: Comp, id: string) { c.Node? && c.id == id && Derives(JSON_GRAMMAR, c) }

  lemma GrammarFacts()
    ensures Keyed(JSON_GRAMMAR.phrases)
    ensures JSON_GRAMMAR.phrases.Keys == PHRASE_IDS
    ensures JSON_GRAMMAR.phrases[JSON_GRAMMAR.root.id] == JSON_GRAMMAR.root
    ensures STRING_LITERAL !in JSON_GRAMMAR.phrases && BOOLEAN_LITERAL !in JSON_GRAMMAR.phrases
    ensures NULL_LITERAL !in JSON_GRAMMAR.phrases && NUMBER_LITERAL !in JSON_GRAMMAR.phrases
    ensures DECIMAL_LITERAL !in JSON_GRAMMAR.phrases && L_BRACE !in JSON_GRAMMAR.phrases
    ensures R_BRACE !in JSON_GRAMMAR.phrases && L_SQ_BRACKET !in JSON_GRAMMAR.phrases
    ensures R_SQ_BRACKET !in JSON_GRAMMAR.phrases && COLON !in JSON_GRAMMAR.phrases && COMMA !in JSON_GRAMMAR.phrases
  {
    PhrasesAreNotTokens();
    assert JSON_GRAMMAR.phrases.Keys == PHRASE_IDS;
  }

  /** A sentence of the node's phrase that its children spell out. */
  lemma SentenceOf(c: Comp) returns (s: seq<string>)
    requires Derives(JSON_GRAMMAR, c)
    ensures s in JSON_GRAMMAR.phrases[c.id].sentences
    ensures |s| == |c.children| && forall i :: 0 <= i < |s| ==> FitsAt(JSON_GRAMMAR, s, c.children, i)
  {
    var g := JSON_GRAMMAR;
    var k :| 0 <= k < |g.phrases[c.id].sentences| && Fits(g, g.phrases[c.id].sentences[k], c.children);
    s := g.phrases[c.id].sentences[k];
    assert FitsPrefix(g, s, c.children, |s|);
  }

  lemma ObjectShape(c: Comp)
    requires IsDerived(c, JSON_OBJECT)
    ensures var ch := c.children;
      (|ch| == 3 && IsTok(ch[0], L_BRACE) && IsDerived(ch[1], BODY) && IsTok(ch[2], R_BRACE))
      || (|ch| == 2 && IsTok(ch[0], L_BRACE) && IsTok(ch[1], R_BRACE))
  {
    GrammarFacts();
    var g := JSON_GRAMMAR;
    var s := SentenceOf(c);
    assert g.phrases[c.id] == OBJECT_PHRASE && s in OBJECT_PHRASE.sentences;
    assert FitsAt(g, s, c.children, 0) && FitsAt(g, s, c.children, 1);
    if s == [L_BRACE, BODY, R_BRACE] {
      assert FitsAt(g, s, c.children, 2);
    } else {
      assert s == [L_BRACE, R_BRACE];
    }
  }

  /** `"key": value`, optionally followed by `, BODY`. */
  predicate BodyShaped(c: Comp)
  {
    c.Node? &&
    var ch := c.children;
    (|ch| == 5 || |ch| == 3) && IsTok(ch[0], STRING_LITERAL) && IsTok(ch[1], COLON) && IsDerived(ch[2], VALUE)
    && (|ch| == 5 ==> IsTok(ch[3], COMMA) && IsDerived(ch[4], BODY))
  }

  lemma BodyShape(c: Comp)
    requires IsDerived(c, BODY)
    ensures BodyShaped(c)
  {
    GrammarFacts();
    var g := JSON_GRAMMAR;
    var s := SentenceOf(c);
    assert g.phrases[c.id] == BODY_PHRASE && s in BODY_PHRASE.sentences;
    assert FitsAt(g, s, c.children, 0) && FitsAt(g, s, c.children, 1) && FitsAt(g, s, c.children, 2);
    if s == [STRING_LITERAL, COLON, VALUE, COMMA, BODY] {
      assert FitsAt(g, s, c.children, 3) && FitsAt(g, s, c.children, 4);
    } else {
      assert s == [STRING_LITERAL, COLON, VALUE];
    }
  }

  lemma ValueShape(c: Comp)
    requires IsDerived(c, VALUE)
    ensures var ch := c.children;
      (|ch| == 1 && (IsDerived(ch[0], JSON_OBJECT) || IsTok(ch[0], NULL_LITERAL) || IsTok(ch[0], STRING_LITERAL)
                     || IsTok(ch[0], BOOLEAN_LITERAL) || IsDerived(ch[0], NUMBER_VALUE)))
      || (|ch| == 3 && IsTok(ch[0], L_SQ_BRACKET) && IsDerived(ch[1], VALUE) && IsDerived(ch[2], ARRAY_END))
      || (|ch| == 2 && IsTok(ch[0], L_SQ_BRACKET) && IsTok(ch[1], R_SQ_BRACKET))
  {
    GrammarFacts();
    var g := JSON_GRAMMAR;
    var s := SentenceOf(c);
    assert g.phrases[c.id] == VALUE_PHRASE && s in VALUE_PHRASE.sentences;
    assert FitsAt(g, s, c.children, 0);
    var ch := c.children;
    if s == [L_SQ_BRACKET, VALUE, ARRAY_END] {
      assert FitsAt(g, s, ch, 1) && FitsAt(g, s, ch, 2);
      assert IsTok(ch[0], L_SQ_BRACKET) && IsDerived(ch[1], VALUE) && IsDerived(ch[2], ARRAY_END);
    } else if s == [L_SQ_BRACKET, R_SQ_BRACKET] {
      assert FitsAt(g, s, ch, 1);
      assert IsTok(ch[0], L_SQ_BRACKET) && IsTok(ch[1], R_SQ_BRACKET);
    } else if s == [JSON_OBJECT] {
      assert JSON_OBJECT in g.phrases;
      assert Derives(g, c.children[0]) && c.children[0].Node?;
      assert IsDerived(c.children[0], JSON_OBJECT);
    } else if s == [NUMBER_VALUE] {
      assert NUMBER_VALUE in g.phrases;
    } else {
      assert s == [NULL_LITERAL] || s == [STRING_LITERAL] || s == [BOOLEAN_LITERAL];
    }
  }

  lemma NumberShape(c: Comp)
    requires IsDerived(c, NUMBER_VALUE)
    ensures var ch := c.children;
      (|ch| == 2 && IsTok(ch[0], NUMBER_LITERAL) && IsTok(ch[1], DECIMAL_LITERAL))
      || (|ch| == 1 && (IsTok(ch[0], NUMBER_LITERAL) || IsTok(ch[0], DECIMAL_LITERAL)))
  {
    GrammarFacts();
    var g := JSON_GRAMMAR;
    var s := SentenceOf(c);
    assert g.phrases[c.id] == NUMBER_PHRASE && s in NUMBER_PHRASE.sentences;
    assert FitsAt(g, s, c.children, 0);
    if s == [NUMBER_LITERAL, DECIMAL_LITERAL] {
      assert FitsAt(g, s, c.children, 1);
    } else {
      assert |s| == 1;
    }
  }

  lemma ArrayEndShape(c: Comp)
    requires IsDerived(c, ARRAY_END)
    ensures var ch := c.children;
      (|ch| == 3 && IsTok(ch[0], COMMA) && IsDerived(ch[1], VALUE) && IsDerived(ch[2], ARRAY_END))
      || (|ch| == 1 && IsTok(ch[0], R_SQ_BRACKET))
  {
    GrammarFacts();
    var g := JSON_GRAMMAR;
    var s := SentenceOf(c);
    assert g.phrases[c.id] == ARRAY_END_PHRASE && s in ARRAY_END_PHRASE.sentences;
    assert FitsAt(g, s, c.children, 0);
    if s == [COMMA, VALUE, ARRAY_END] {
      assert FitsAt(g, s, c.children, 1) && FitsAt(g, s, c.children, 2);
    } else {
      assert s == [R_SQ_BRACKET];
    }
  }

  /** Every tree the JSON parser returns is an object node deriving in the
      JSON grammar. */
  lemma ParsedJsonIsObject(tokens: seq<Token>, fuel: nat)
    ensures ParseSpec(JSON_GRAMMAR, tokens, fuel).Ok? ==> IsDerived(ParseSpec(JSON_GRAMMAR, tokens, fuel).value, JSON_OBJECT)
  {
    GrammarFacts();
    ParsedTreeDerives(JSON_GRAMMAR, tokens, fuel);
  }

  // ---------------------------------------------------------------------
  // Keys

  /** The keys of an object body in order: the leading string token of each
      link of the BODY chain. */
  function BodyKeys(body: Comp): seq<string>
    decreases body
  {
    if body.Node? && |body.children| > 0 && body.children[0].Tok? then
      [body.children[0].token.value] + (if |body.children| == 5 then BodyKeys(body.children[4]) else [])
    else []
  }

  predicate Distinct(keys: seq<string>)
  {
    forall i, j :: 0 <= i < j < |keys| ==> keys[i] != keys[j]
  }

  /** No object anywhere in the tree lists a key twice. */
  predicate KeysDistinctThroughout(c: Comp)
    decreases c
  {
    match c
    case Tok(_) => true
    case Node(id, children) =>
      (id == JSON_OBJECT ==> forall i :: 0 <= i < |children| && Id(children[i]) == BODY ==> Distinct(BodyKeys(children[i])))
      && forall i :: 0 <= i < |children| ==> KeysDistinctThroughout(children[i])
  }

  /** An object holding a body has distinct keys throughout exactly when
      the body lists each key once and has distinct keys throughout. */
  lemma ObjectThroughout(obj: Comp)
    requires obj.Node? && obj.id == JSON_OBJECT && |obj.children| == 3
    requires IsTok(obj.children[0], L_BRACE) && IsTok(obj.children[2], R_BRACE) && Id(obj.children[1]) == BODY
    ensures KeysDistinctThroughout(obj) <==> Distinct(BodyKeys(obj.children[1])) && KeysDistinctThroughout(obj.children[1])
  {
    var ch := obj.children;
    assert KeysDistinctThroughout(ch[0]) && KeysDistinctThroughout(ch[2]);
    assert Id(ch[0]) != BODY && Id(ch[2]) != BODY;
  }

  /** The empty object has distinct keys throughout. */
  lemma EmptyObjectThroughout(obj: Comp)
    requires obj.Node? && |obj.children| == 2 && IsTok(obj.children[0], L_BRACE) && IsTok(obj.children[1], R_BRACE)
    ensures KeysDistinctThroughout(obj)
  {
    assert KeysDistinctThroughout(obj.children[0]) && KeysDistinctThroughout(obj.children[1]);
  }

  /** A node other than an object whose children are one or two tokens has
      distinct keys throughout. */
  lemma TokensThroughout(c: Comp)
    requires c.Node? && c.id != JSON_OBJECT && 1 <= |c.children| <= 2
    requires c.children[0].Tok? && (|c.children| == 2 ==> c.children[1].Tok?)
    ensures KeysDistinctThroughout(c)
  {
    assert KeysDistinctThroughout(c.children[0]);
    if |c.children| == 2 {
      assert KeysDistinctThroughout(c.children[1]);
    }
  }

  /** A node other than an object with a single child has distinct keys
      throughout exactly when the child has. */
  lemma OnlyChildThroughout(c: Comp)
    requires c.Node? && c.id != JSON_OBJECT && |c.children| == 1
    ensures KeysDistinctThroughout(c) <==> KeysDistinctThroughout(c.children[0])
  {
  }

  /** A node other than an object made of a token and two nodes (an array
      and the rest of one) has distinct keys throughout exactly when both
      nodes have. */
  lemma TripleThroughout(c: Comp)
    requires c.Node? && c.id != JSON_OBJECT && |c.children| == 3 && c.children[0].Tok?
    ensures KeysDistinctThroughout(c) <==> KeysDistinctThroughout(c.children[1]) && KeysDistinctThroughout(c.children[2])
  {
    assert KeysDistinctThroughout(c.children[0]);
  }

  /** A body has distinct keys throughout exactly when its value and the
      body nested in it have. */
  lemma BodyThroughout(body: Comp)
    requires body.Node? && body.id != JSON_OBJECT && (|body.children| == 3 || |body.children| == 5)
    requires body.children[0].Tok? && body.children[1].Tok? && (|body.children| == 5 ==> body.children[3].Tok?)
    ensures var ch := body.children;
      |ch| == 3 ==> (KeysDistinctThroughout(body) <==> KeysDistinctThroughout(ch[2]))
    ensures var ch := body.children;
      |ch| == 5 ==> (KeysDistinctThroughout(body) <==> KeysDistinctThroughout(ch[2]) && KeysDistinctThroughout(ch[4]))
  {
    var ch := body.children;
    assert KeysDistinctThroughout(ch[0]) && KeysDistinctThroughout(ch[1]);
    if |ch| == 5 {
      assert KeysDistinctThroughout(ch[3]);
    }
  }
}
