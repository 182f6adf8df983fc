/** `JsonParserFactory`: the JSON grammar, built with the parser builder,
    and the component-id tests on the nodes it produces. */
module JsonParsing {
  import opened Wrappers
  import opened Components
  import opened Grammars
  import opened Parsing
  import opened JsonLexing

  const JSON_OBJECT: string := "JSON_OBJECT"
  const BODY: string := "BODY"
  const VALUE: string := "VALUE"
  const NUMBER_VALUE: string := "NUMBER_VALUE"
  const ARRAY_END: string := "ARRAY_END"

  /** `{ BODY }`, then `{}`. */
  const OBJECT_PHRASE: Phrase := Phrase(JSON_OBJECT, [[L_BRACE, BODY, R_BRACE], [L_BRACE, R_BRACE]])

  /** `"key": value, BODY`, then `"key": value`. */
  const BODY_PHRASE: Phrase := Phrase(BODY, [[STRING_LITERAL, COLON, VALUE, COMMA, BODY], [STRING_LITERAL, COLON, VALUE]])

  /** An object, `null`, a string, a boolean, a number, a non-empty array,
      then the empty array. */
  const VALUE_PHRASE: Phrase :=
    Phrase(VALUE, [[JSON_OBJECT], [NULL_LITERAL], [STRING_LITERAL], [BOOLEAN_LITERAL], [NUMBER_VALUE],
                   [L_SQ_BRACKET, VALUE, ARRAY_END], [L_SQ_BRACKET, R_SQ_BRACKET]])

  /** Integer and fraction, then integer alone, then fraction alone. */
  const NUMBER_PHRASE: Phrase := Phrase(NUMBER_VALUE, [[NUMBER_LITERAL, DECIMAL_LITERAL], [NUMBER_LITERAL], [DECIMAL_LITERAL]])

  /** `, value ARRAY_END`, then `]`. */
  const ARRAY_END_PHRASE: Phrase := Phrase(ARRAY_END, [[COMMA, VALUE, ARRAY_END], [R_SQ_BRACKET]])

  const JSON_GRAMMAR: Grammar :=
    Grammar(OBJECT_PHRASE, map[JSON_OBJECT := OBJECT_PHRASE, BODY := BODY_PHRASE, VALUE := VALUE_PHRASE,
                               NUMBER_VALUE := NUMBER_PHRASE, ARRAY_END := ARRAY_END_PHRASE])

  /** `JsonParserFactory.get()`: the builder chain, one `branch` per phrase. */
  method Get() returns (p: Parser)
    ensures p == Parser(JSON_GRAMMAR) && WellFormed(p.grammar)
  {
    var b := new ParserBuilder(JSON_OBJECT);
    b.Sentence([L_BRACE, BODY, R_BRACE]);
    b.Sentence([L_BRACE, R_BRACE]);
    assert b.currentPhrase == OBJECT_PHRASE;
    b.Branch(BODY);
    b.Sentence([STRING_LITERAL, COLON, VALUE, COMMA, BODY]);
    b.Sentence([STRING_LITERAL, COLON, VALUE]);
    assert b.currentPhrase == BODY_PHRASE;
    PushValuePhrase(b);
    b.Branch(NUMBER_VALUE);
    b.Sentence([NUMBER_LITERAL, DECIMAL_LITERAL]);
    b.Sentence([NUMBER_LITERAL]);
    b.Sentence([DECIMAL_LITERAL]);
    assert b.currentPhrase == NUMBER_PHRASE;
    b.Branch(ARRAY_END);
    b.Sentence([COMMA, VALUE, ARRAY_END]);
    b.Sentence([R_SQ_BRACKET]);
    assert b.currentPhrase == ARRAY_END_PHRASE;
    p := b.Build();
    assert p.grammar.phrases == map[JSON_OBJECT := OBJECT_PHRASE][BODY := BODY_PHRASE][VALUE := VALUE_PHRASE]
                                   [NUMBER_VALUE := NUMBER_PHRASE][ARRAY_END := ARRAY_END_PHRASE];
  }

  /** `.branch("VALUE")` and its seven sentences. */
  method PushValuePhrase(b: ParserBuilder)
    requires b.Valid()
    modifies b
    ensures b.Valid()
    ensures b.grammar == Some(Applied(old(b.grammar), old(b.currentPhrase)))
    ensures b.currentPhrase == VALUE_PHRASE
  {
    b.Branch(VALUE);
    b.Sentence([JSON_OBJECT]);
    b.Sentence([NULL_LITERAL]);
    b.Sentence([STRING_LITERAL]);
    b.Sentence([BOOLEAN_LITERAL]);
    b.Sentence([NUMBER_VALUE]);
    b.Sentence([L_SQ_BRACKET, VALUE, ARRAY_END]);
    b.Sentence([L_SQ_BRACKET, R_SQ_BRACKET]);
  }

  /** Every identifier some sentence of a phrase uses. */
  function PhraseSymbols(p: Phrase): set<string>
  {
    set i, j | 0 <= i < |p.sentences| && 0 <= j < |p.sentences[i]| :: p.sentences[i][j]
  }

  /** Every identifier some sentence of the grammar uses. */
  function Symbols(g: Grammar): set<string>
  {
    set k, w | k in g.phrases && w in PhraseSymbols(g.phrases[k]) :: w
  }

  lemma ObjectSymbols()
    ensures PhraseSymbols(OBJECT_PHRASE) == {L_BRACE, BODY, R_BRACE}
  {
    assert OBJECT_PHRASE.sentences[0][0] == L_BRACE && OBJECT_PHRASE.sentences[0][1] == BODY && OBJECT_PHRASE.sentences[0][2] == R_BRACE;
  }

  lemma BodySymbols()
    ensures PhraseSymbols(BODY_PHRASE) == {STRING_LITERAL, COLON, VALUE, COMMA, BODY}
  {
    var ss := BODY_PHRASE.sentences;
    assert ss[0][0] == STRING_LITERAL && ss[0][1] == COLON && ss[0][2] == VALUE && ss[0][3] == COMMA && ss[0][4] == BODY;
  }

  lemma ValueSymbols()
    ensures PhraseSymbols(VALUE_PHRASE) ==
      {JSON_OBJECT, NULL_LITERAL, STRING_LITERAL, BOOLEAN_LITERAL, NUMBER_VALUE, L_SQ_BRACKET, VALUE, ARRAY_END, R_SQ_BRACKET}
  {
    var ss := VALUE_PHRASE.sentences;
    assert ss[0][0] == JSON_OBJECT && ss[1][0] == NULL_LITERAL && ss[2][0] == STRING_LITERAL;
    assert ss[3][0] == BOOLEAN_LITERAL && ss[4][0] == NUMBER_VALUE;
    assert ss[5][0] == L_SQ_BRACKET && ss[5][1] == VALUE && ss[5][2] == ARRAY_END && ss[6][1] == R_SQ_BRACKET;
  }

  lemma NumberSymbols()
    ensures PhraseSymbols(NUMBER_PHRASE) == {NUMBER_LITERAL, DECIMAL_LITERAL}
  {
    assert NUMBER_PHRASE.sentences[0][0] == NUMBER_LITERAL && NUMBER_PHRASE.sentences[0][1] == DECIMAL_LITERAL;
  }

  lemma ArrayEndSymbols()
    ensures PhraseSymbols(ARRAY_END_PHRASE) == {COMMA, VALUE, ARRAY_END, R_SQ_BRACKET}
  {
    var ss := ARRAY_END_PHRASE.sentences;
    assert ss[0][0] == COMMA && ss[0][1] == VALUE && ss[0][2] == ARRAY_END && ss[1][0] == R_SQ_BRACKET;
  }

  const PHRASE_IDS: set<string> := {JSON_OBJECT, BODY, VALUE, NUMBER_VALUE, ARRAY_END}

  const TERMINALS: set<string> :=
    {STRING_LITERAL, BOOLEAN_LITERAL, NULL_LITERAL, NUMBER_LITERAL, DECIMAL_LITERAL,
     L_BRACE, R_BRACE, L_SQ_BRACKET, R_SQ_BRACKET, COLON, COMMA}

  /** The grammar's identifiers are those of its five phrases. */
  lemma SymbolsByPhrase()
    ensures Symbols(JSON_GRAMMAR) ==
      PhraseSymbols(OBJECT_PHRASE) + PhraseSymbols(BODY_PHRASE) + PhraseSymbols(VALUE_PHRASE)
      + PhraseSymbols(NUMBER_PHRASE) + PhraseSymbols(ARRAY_END_PHRASE)
  {
    var g := JSON_GRAMMAR;
    assert g.phrases[JSON_OBJECT] == OBJECT_PHRASE && g.phrases[BODY] == BODY_PHRASE;
    assert g.phrases[VALUE] == VALUE_PHRASE && g.phrases[NUMBER_VALUE] == NUMBER_PHRASE;
    assert g.phrases[ARRAY_END] == ARRAY_END_PHRASE;
    forall w | w in Symbols(g)
      ensures w in PhraseSymbols(OBJECT_PHRASE) + PhraseSymbols(BODY_PHRASE) + PhraseSymbols(VALUE_PHRASE)
        + PhraseSymbols(NUMBER_PHRASE) + PhraseSymbols(ARRAY_END_PHRASE)
    {
      var k :| k in g.phrases && w in PhraseSymbols(g.phrases[k]);
      assert k in {JSON_OBJECT, BODY, VALUE, NUMBER_VALUE, ARRAY_END};
    }
  }

  /** The grammar uses each phrase and each token id, and nothing else. */
  lemma SymbolsOfJsonGrammar()
    ensures Symbols(JSON_GRAMMAR) == PHRASE_IDS + TERMINALS
    ensures JSON_GRAMMAR.phrases.Keys == PHRASE_IDS
  {
    SymbolsByPhrase();
    ObjectSymbols();
    BodySymbols();
    ValueSymbols();
    NumberSymbols();
    ArrayEndSymbols();
    UsedIdentifiers();
  }

  /** The identifiers the five phrases use, together. */
  lemma UsedIdentifiers()
    ensures {L_BRACE, BODY, R_BRACE} + {STRING_LITERAL, COLON, VALUE, COMMA, BODY}
      + {JSON_OBJECT, NULL_LITERAL, STRING_LITERAL, BOOLEAN_LITERAL, NUMBER_VALUE, L_SQ_BRACKET, VALUE, ARRAY_END, R_SQ_BRACKET}
      + {NUMBER_LITERAL, DECIMAL_LITERAL} + {COMMA, VALUE, ARRAY_END, R_SQ_BRACKET}
      == PHRASE_IDS + TERMINALS
  {
    var used := {L_BRACE, BODY, R_BRACE} + {STRING_LITERAL, COLON, VALUE, COMMA, BODY}
      + {JSON_OBJECT, NULL_LITERAL, STRING_LITERAL, BOOLEAN_LITERAL, NUMBER_VALUE, L_SQ_BRACKET, VALUE, ARRAY_END, R_SQ_BRACKET}
      + {NUMBER_LITERAL, DECIMAL_LITERAL} + {COMMA, VALUE, ARRAY_END, R_SQ_BRACKET};
    forall w | w in used ensures w in PHRASE_IDS + TERMINALS {
    }
    forall w | w in PHRASE_IDS + TERMINALS ensures w in used {
    }
  }

  /** The ids of the tokens the lexer's rules make. */
  lemma ProducedIds()
    ensures (set i | 0 <= i < |PRODUCED_IDS| :: PRODUCED_IDS[i]) == TERMINALS
  {
    assert PRODUCED_IDS[0] == STRING_LITERAL && PRODUCED_IDS[1] == BOOLEAN_LITERAL;
    assert PRODUCED_IDS[2] == NULL_LITERAL && PRODUCED_IDS[3] == NUMBER_LITERAL;
    assert PRODUCED_IDS[4] == DECIMAL_LITERAL && PRODUCED_IDS[5] == L_BRACE;
    assert PRODUCED_IDS[6] == R_BRACE && PRODUCED_IDS[7] == L_SQ_BRACKET;
    assert PRODUCED_IDS[8] == R_SQ_BRACKET && PRODUCED_IDS[9] == COLON && PRODUCED_IDS[10] == COMMA;
  }

  /** The grammar and the JSON lexer fit together: the identifiers the
      grammar matches as terminals (those naming no phrase) are exactly the
      ids of the tokens the lexer's rules make, and every phrase is used by
      some sentence. */
  lemma GrammarMatchesLexer()
    ensures Symbols(JSON_GRAMMAR) - JSON_GRAMMAR.phrases.Keys == set i | 0 <= i < |PRODUCED_IDS| :: PRODUCED_IDS[i]
    ensures JSON_GRAMMAR.phrases.Keys <= Symbols(JSON_GRAMMAR)
  {
    SymbolsOfJsonGrammar();
    ProducedIds();
    PhrasesAreNotTokens();
  }

  /** No token id names a phrase, so the parser matches every token id as a
      terminal. */
  lemma PhrasesAreNotTokens()
    ensures PHRASE_IDS !! TERMINALS
  {
    assert NUMBER_VALUE[2] != NULL_LITERAL[2];
    assert NUMBER_VALUE[0] != L_SQ_BRACKET[0] && NUMBER_VALUE[0] != R_SQ_BRACKET[0];
    assert VALUE[0] != COLON[0] && VALUE[0] != COMMA[0];
  }

  predicate IsJsonObject(c: Comp) { Id(c) == JSON_OBJECT }
  predicate IsJsonValue(c: Comp) { Id(c) == VALUE }
  predicate IsJsonNumberValue(c: Comp) { Id(c) == NUMBER_VALUE }
  predicate IsJsonObjectBody(c: Comp) { Id(c) == BODY }
  predicate IsContinuedArray(c: Comp) { Id(c) == ARRAY_END }
  predicate IsArrayStart(c: Comp) { Id(c) == L_SQ_BRACKET }
  predicate IsArrayEnd(c: Comp) { Id(c) == R_SQ_BRACKET }
}
