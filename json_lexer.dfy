/** `JsonLexerFactory`: the JSON lexer's rule list and the component-id
    tests on its tokens. The string-literal and boolean-literal regular
    expressions are not given by the library and are parameters here. */
module JsonLexing {
  import opened Wrappers
  import opened Failures
  import opened Components
  import opened Scanning
  import opened Lexing
  import LexerProperties
  import Text
  import Tokens

  const STRING_LITERAL: string := "STRING_LITERAL"
  const BOOLEAN_LITERAL: string := "BOOLEAN_LITERAL"
  const NULL_LITERAL: string := "NULL_LITERAL"
  const NUMBER_LITERAL: string := "NUMBER_LITERAL"
  const DECIMAL_LITERAL: string := "DECIMAL_LITERAL"
  const L_BRACE: string := "L_BRACE"
  const R_BRACE: string := "R_BRACE"
  const L_SQ_BRACKET: string := "L_SQ_BRACKET"
  const R_SQ_BRACKET: string := "R_SQ_BRACKET"
  const COLON: string := "COLON"
  const COMMA: string := "COMMA"

  /** Whole-string match of `\R`: a CR LF pair or one line-break character. */
  predicate IsLineSeparator(s: string)
  {
    s == "\r\n"
    || (|s| == 1 && (s[0] == '\n' || s[0] == '\U{B}' || s[0] == '\U{C}' || s[0] == '\r'
                     || s[0] == '\U{85}' || s[0] == '\U{2028}' || s[0] == '\U{2029}'))
  }

  /** `\s`: the six ASCII whitespace characters. */
  predicate IsWhitespace(c: char)
  {
    c == ' ' || c == '\t' || c == '\n' || c == '\U{B}' || c == '\U{C}' || c == '\r'
  }

  /** Whole-string match of `\s*`. */
  predicate IsAnyAmountWhitespace(s: string)
  {
    forall i :: 0 <= i < |s| ==> IsWhitespace(s[i])
  }

  /** Whole-string match of `[0-9]+`. */
  predicate IsDigitRun(s: string)
  {
    |s| > 0 && Text.AllDigits(s)
  }

  /** Whole-string match of `\.[0-9]+`. */
  predicate IsDecimalPart(s: string)
  {
    |s| > 1 && s[0] == '.' && Text.AllDigits(s[1..])
  }

  /** Whole-string match of a regular expression without metacharacters. */
  function Literally(text: string): string -> bool
  {
    (s: string) => s == text
  }

  /** The string-literal action's text: the captured value without its first
      and last characters, with every `\"` replaced by `"` when a `"` is left.
      `substring(1, length - 1)` throws on a captured value shorter than two. */
  function Unquote(captured: string): (r: Result<string, Failure>)
    ensures r.Ok? <==> |captured| >= 2
    ensures r.Err? ==> r.error == IndexOutOfBounds(|captured| - 1)
    ensures r.Ok? && '"' !in captured[1..|captured| - 1] ==> r.value == captured[1..|captured| - 1]
  {
    if |captured| < 2 then Err(IndexOutOfBounds(|captured| - 1))
    else
      var value := captured[1..|captured| - 1];
      if '"' in value then Ok(Text.Replace(value, "\\\"", "\"")) else Ok(value)
  }

  /** The action of the string-literal rule. */
  function StringLiteralAction(s: ScanState): (e: Effect)
    ensures e.line == s.line && e.variables == s.variables
    ensures e.result.Produce? <==> |s.captured| >= 2
    ensures e.result.Produce? ==>
      e.result.token == Tokens.SimpleToken(STRING_LITERAL, Unquote(s.captured).value, s.line)
  {
    match Unquote(s.captured)
    case Ok(value) => Effect(Produce(Tokens.SimpleToken(STRING_LITERAL, value, s.line)), s.line, s.variables)
    case Err(f) => Effect(Raise(f), s.line, s.variables)
  }

  /** `in -> new SimpleToken(id, in)`: the captured text on the current line. */
  function CapturedAs(id: string): ScanState -> Effect
  {
    (s: ScanState) => Effect(Produce(Tokens.SimpleToken(id, s.captured, s.line)), s.line, s.variables)
  }

  /** `in -> new SimpleToken(id, value, in.getLineNumber())`. */
  function FixedAs(id: string, value: string): ScanState -> Effect
  {
    (s: ScanState) => Effect(Produce(Tokens.SimpleToken(id, value, s.line)), s.line, s.variables)
  }

  /** The layout rules: line separators, then any other whitespace. */
  function LayoutRules(): seq<Rule>
  {
    [ Rule(LexerBuilder.On(IsLineSeparator), IncrementLineNumberAndIgnoreAction),
      Rule(LexerBuilder.On(IsAnyAmountWhitespace), IgnoreAction) ]
  }

  /** The rules for literals: strings, booleans, `null`, numbers, decimals. */
  function LiteralRules(stringLiteral: string -> bool, booleanLiteral: string -> bool): seq<Rule>
  {
    [ Rule(LexerBuilder.On(stringLiteral), StringLiteralAction),
      Rule(LexerBuilder.On(booleanLiteral), CapturedAs(BOOLEAN_LITERAL)),
      Rule(LexerBuilder.On(Literally("null")), CapturedAs(NULL_LITERAL)),
      Rule(Matcher(IsDigitRun, Span), CapturedAs(NUMBER_LITERAL)),
      Rule(Matcher(IsDecimalPart, Span), CapturedAs(DECIMAL_LITERAL)) ]
  }

  /** The punctuation rules, one per character. */
  function PunctuationRules(): seq<Rule>
  {
    [ Rule(LexerBuilder.On(Literally("{")), FixedAs(L_BRACE, "{")),
      Rule(LexerBuilder.On(Literally("}")), FixedAs(R_BRACE, "}")),
      Rule(LexerBuilder.On(Literally("[")), FixedAs(L_SQ_BRACKET, "[")),
      Rule(LexerBuilder.On(Literally("]")), FixedAs(R_SQ_BRACKET, "]")),
      Rule(LexerBuilder.On(Literally(":")), FixedAs(COLON, ":")),
      Rule(LexerBuilder.On(Literally(",")), FixedAs(COMMA, ",")) ]
  }

  /** The rules of `get()`, in the order they are pushed. */
  function JsonRules(stringLiteral: string -> bool, booleanLiteral: string -> bool): seq<Rule>
  {
    LayoutRules() + LiteralRules(stringLiteral, booleanLiteral) + PunctuationRules()
  }

  /** `JsonLexerFactory.get()`: the builder chain. */
  method Get(stringLiteral: string -> bool, booleanLiteral: string -> bool) returns (l: Lexer)
    ensures l == Lexer(JsonRules(stringLiteral, booleanLiteral), NoAfter())
  {
    var b := new LexerBuilder();
    PushLayout(b);
    PushLiterals(b, stringLiteral, booleanLiteral);
    PushPunctuation(b);
    l := b.Build();
  }

  method PushLayout(b: LexerBuilder)
    modifies b
    ensures b.factory == old(b.factory) + LayoutRules() && b.afterFunction == old(b.afterFunction)
  {
    b.Create(LexerBuilder.On(IsLineSeparator), IncrementLineNumberAndIgnoreAction);
    b.Create(LexerBuilder.On(IsAnyAmountWhitespace), IgnoreAction);
  }

  method PushLiterals(b: LexerBuilder, stringLiteral: string -> bool, booleanLiteral: string -> bool)
    modifies b
    ensures b.factory == old(b.factory) + LiteralRules(stringLiteral, booleanLiteral)
    ensures b.afterFunction == old(b.afterFunction)
  {
    b.Create(LexerBuilder.On(stringLiteral), StringLiteralAction);
    b.Create(LexerBuilder.On(booleanLiteral), CapturedAs(BOOLEAN_LITERAL));
    b.Create(LexerBuilder.On(Literally("null")), CapturedAs(NULL_LITERAL));
    b.Create(Matcher(IsDigitRun, Span), CapturedAs(NUMBER_LITERAL));
    b.Create(Matcher(IsDecimalPart, Span), CapturedAs(DECIMAL_LITERAL));
  }

  method PushPunctuation(b: LexerBuilder)
    modifies b
    ensures b.factory == old(b.factory) + PunctuationRules() && b.afterFunction == old(b.afterFunction)
  {
    b.Create(LexerBuilder.On(Literally("{")), FixedAs(L_BRACE, "{"));
    b.Create(LexerBuilder.On(Literally("}")), FixedAs(R_BRACE, "}"));
    b.Create(LexerBuilder.On(Literally("[")), FixedAs(L_SQ_BRACKET, "["));
    b.Create(LexerBuilder.On(Literally("]")), FixedAs(R_SQ_BRACKET, "]"));
    b.Create(LexerBuilder.On(Literally(":")), FixedAs(COLON, ":"));
    b.Create(LexerBuilder.On(Literally(",")), FixedAs(COMMA, ","));
  }

  /** The token ids the rules from the third on produce, in rule order. */
  const PRODUCED_IDS: seq<string> :=
    [STRING_LITERAL, BOOLEAN_LITERAL, NULL_LITERAL, NUMBER_LITERAL, DECIMAL_LITERAL,
     L_BRACE, R_BRACE, L_SQ_BRACKET, R_SQ_BRACKET, COLON, COMMA]

  /** The rule order of `get()`: line separators first (counting a line and
      ignored), then whitespace (ignored), then one rule per token id in the
      order of `PRODUCED_IDS`; every rule keeps the line and the variables
      except the first, which adds one to the line. Number and decimal rules
      consume a whole run; the others stop at their first match. */
  lemma RuleOrder(stringLiteral: string -> bool, booleanLiteral: string -> bool, s: ScanState)
    ensures var rules := JsonRules(stringLiteral, booleanLiteral);
      |rules| == 13
      && rules[0].action(s).line == s.line + 1
      && (forall i :: 1 <= i < 13 ==> rules[i].action(s).line == s.line)
      && (forall i :: 0 <= i < 13 ==> rules[i].action(s).variables == s.variables)
      && rules[0].action(s).result.Produce? && rules[0].action(s).result.token.ignored
      && rules[1].action(s).result.Produce? && rules[1].action(s).result.token.ignored
      && (forall i :: 2 <= i < 13 && rules[i].action(s).result.Produce? ==>
            var t := rules[i].action(s).result.token;
            t.id == PRODUCED_IDS[i - 2] && !t.ignored && t.line == s.line)
      && (forall i :: 3 <= i < 13 ==> rules[i].action(s).result.Produce?)
      && (forall i :: 0 <= i < 13 ==> (rules[i].matcher.strategy == Span <==> i == 5 || i == 6))
  {
  }

  /** The punctuation rules make their token from the rule alone: the value
      is the character matched, whatever the context captured. */
  lemma PunctuationValues(stringLiteral: string -> bool, booleanLiteral: string -> bool, s: ScanState)
    ensures var rules := JsonRules(stringLiteral, booleanLiteral);
      forall i :: 7 <= i < 13 ==>
        rules[i].action(s).result.Produce?
        && rules[i].matcher.matches(rules[i].action(s).result.token.value)
        && |rules[i].action(s).result.token.value| == 1
  {
  }

  /** The captured-text rules keep what was captured as the token value. */
  lemma CapturedTextKept(stringLiteral: string -> bool, booleanLiteral: string -> bool, s: ScanState)
    ensures var rules := JsonRules(stringLiteral, booleanLiteral);
      forall i :: 3 <= i < 7 ==> rules[i].action(s).result.token.value == s.captured
  {
  }

  /** Text that holds no backslash is not changed by the `\"` replacement. */
  lemma {:induction false} ReplaceWithoutBackslash(s: string)
    requires '\\' !in s
    ensures Text.Replace(s, "\\\"", "\"") == s
    decreases |s|
  {
    if |s| >= 2 {
      assert s[..2] != "\\\"" by { assert s[0] != '\\'; }
      ReplaceWithoutBackslash(s[1..]);
      assert [s[0]] + s[1..] == s;
    }
  }

  /** A literal without backslashes loses exactly its quotes. */
  lemma UnquotePlain(captured: string)
    requires |captured| >= 2 && '\\' !in captured
    ensures Unquote(captured) == Ok(captured[1..|captured| - 1])
  {
    var value := captured[1..|captured| - 1];
    assert '\\' !in value by {
      forall i | 0 <= i < |value| ensures value[i] != '\\' {
        assert value[i] == captured[i + 1];
      }
    }
    ReplaceWithoutBackslash(value);
  }

  /** Every `\"` becomes `"`, and nothing else changes: the replacement is
      one character shorter per occurrence. */
  lemma {:induction false} ReplaceEscapedQuote(a: string, b: string)
    requires '\\' !in a
    ensures Text.Replace(a + "\\\"" + b, "\\\"", "\"") == a + "\"" + Text.Replace(b, "\\\"", "\"")
    decreases |a|
  {
    var s := a + "\\\"" + b;
    if |a| == 0 {
      assert s == "\\\"" + b;
      assert s[..2] == "\\\"";
      assert s[2..] == b;
    } else {
      assert s[..2] != "\\\"" by { assert s[0] == a[0] != '\\'; }
      assert s[1..] == a[1..] + "\\\"" + b;
      ReplaceEscapedQuote(a[1..], b);
      assert [s[0]] + (a[1..] + "\"" + Text.Replace(b, "\\\"", "\"")) == a + "\"" + Text.Replace(b, "\\\"", "\"");
    }
  }

  /** A literal of the shape of the compiler's test, `"escaped \"string\""`,
      has its quotes dropped and each escaped quote unescaped, giving
      `escaped "string"`. */
  lemma UnquoteEscapedQuotes(a: string, b: string)
    requires '\\' !in a && '\\' !in b
    ensures Unquote("\"" + a + "\\\"" + b + "\\\"" + "\"") == Ok(a + "\"" + b + "\"")
  {
    var captured := "\"" + a + "\\\"" + b + "\\\"" + "\"";
    var value := a + "\\\"" + b + "\\\"";
    assert captured[1..|captured| - 1] == value;
    assert value[|a| + 1] == '"';
    ReplaceEscapedQuote(b, "");
    assert b + "\\\"" + "" == b + "\\\"";
    assert Text.Replace("", "\\\"", "\"") == "";
    ReplaceEscapedQuote(a, b + "\\\"");
    assert a + "\\\"" + (b + "\\\"") == value;
    assert Text.Replace(b + "\\\"", "\\\"", "\"") == b + "\"";
    assert Text.Replace(value, "\\\"", "\"") == a + "\"" + (b + "\"");
    assert a + "\"" + (b + "\"") == a + "\"" + b + "\"";
  }

  /** Under SPAN, the number rule turns a whole run of digits into one
      NUMBER_LITERAL token holding the run. */
  lemma NumberRuleTakesDigitRun(stringLiteral: string -> bool, booleanLiteral: string -> bool,
                                input: string, pos: nat, k: nat, st: ScanState, scanned: string)
    requires pos < k <= |input|
    requires Text.AllDigits(input[pos..k])
    requires k < |input| ==> !Text.IsDigit(input[k])
    ensures var r := ScanRule(JsonRules(stringLiteral, booleanLiteral)[5], input, pos, pos, st, None, pos, scanned);
      r.Taken? && r.next == k && r.token.id == NUMBER_LITERAL && r.token.value == input[pos..k]
  {
    var rule := JsonRules(stringLiteral, booleanLiteral)[5];
    forall j | pos + 1 <= j <= k
      ensures rule.matcher.matches(input[pos..j])
    {
      assert input[pos..j] == input[pos..k][..j - pos];
    }
    if k < |input| {
      assert input[pos..k + 1][k - pos] == input[k];
    }
    LexerProperties.SpanTakesFirstRun(rule, input, pos, pos + 1, k, st, scanned);
  }

  /** Under SPAN, the decimal rule turns a '.' and the digits after it into
      one DECIMAL_LITERAL token. */
  lemma DecimalRuleTakesFraction(stringLiteral: string -> bool, booleanLiteral: string -> bool,
                                 input: string, pos: nat, k: nat, st: ScanState, scanned: string)
    requires pos + 1 < k <= |input| && input[pos] == '.'
    requires Text.AllDigits(input[pos + 1..k])
    requires k < |input| ==> !Text.IsDigit(input[k])
    ensures var r := ScanRule(JsonRules(stringLiteral, booleanLiteral)[6], input, pos, pos, st, None, pos, scanned);
      r.Taken? && r.next == k && r.token.id == DECIMAL_LITERAL && r.token.value == input[pos..k]
  {
    var rule := JsonRules(stringLiteral, booleanLiteral)[6];
    assert !rule.matcher.matches(input[pos..pos + 1]);
    forall j | pos + 2 <= j <= k
      ensures rule.matcher.matches(input[pos..j])
    {
      assert input[pos..j][1..] == input[pos + 1..k][..j - pos - 1];
    }
    if k < |input| {
      assert input[pos..k + 1][1..][k - pos - 1] == input[k];
    }
    LexerProperties.SpanTakesFirstRun(rule, input, pos, pos + 2, k, st, scanned);
  }

  /** The line-separator rule stops at its first match, so a CR LF pair is
      taken one character at a time and counts as two lines. */
  lemma CarriageReturnLineFeedCountsTwice(stringLiteral: string -> bool, booleanLiteral: string -> bool,
                                          input: string, pos: nat, st: ScanState, scanned: string)
    requires pos + 1 < |input| && input[pos] == '\r' && input[pos + 1] == '\n'
    ensures var rule := JsonRules(stringLiteral, booleanLiteral)[0];
      var first := ScanRule(rule, input, pos, pos, st, None, pos, scanned);
      first.Taken? && first.next == pos + 1 && first.state.line == st.line + 1
      && var second := ScanRule(rule, input, pos + 1, pos + 1, first.state, None, pos + 1, first.scanned);
      second.Taken? && second.next == pos + 2 && second.state.line == st.line + 2
  {
    assert input[pos..pos + 1] == "\r";
    assert input[pos + 1..pos + 2] == "\n";
  }

  predicate IsStringLiteral(c: Comp) { Id(c) == STRING_LITERAL }
  predicate IsBooleanLiteral(c: Comp) { Id(c) == BOOLEAN_LITERAL }
  predicate IsNullLiteral(c: Comp) { Id(c) == NULL_LITERAL }
  predicate IsNumberLiteral(c: Comp) { Id(c) == NUMBER_LITERAL }
  predicate IsDecimalLiteral(c: Comp) { Id(c) == DECIMAL_LITERAL }

  /** The tests hold of exactly the tokens the matching rule makes, and of
      no punctuation token. */
  lemma LiteralTests(stringLiteral: string -> bool, booleanLiteral: string -> bool, s: ScanState)
    ensures var rules := JsonRules(stringLiteral, booleanLiteral);
      (rules[2].action(s).result.Produce? ==> IsStringLiteral(Tok(rules[2].action(s).result.token)))
      && IsBooleanLiteral(Tok(rules[3].action(s).result.token))
      && IsNullLiteral(Tok(rules[4].action(s).result.token))
      && IsNumberLiteral(Tok(rules[5].action(s).result.token))
      && IsDecimalLiteral(Tok(rules[6].action(s).result.token))
      && forall i :: 7 <= i < 13 ==>
           var c := Tok(rules[i].action(s).result.token);
           !IsStringLiteral(c) && !IsBooleanLiteral(c) && !IsNullLiteral(c) && !IsNumberLiteral(c) && !IsDecimalLiteral(c)
  {
  }
}
