/** Grammar components: the tokens a lexer produces and the nodes a parser
    builds over them (`GrammarComponent`, `Token`, `SymbolTreeNode`). */
module Components {

  /** `SimpleToken` and `IgnoredToken`: identifier, matched text, line number,
      and whether the lexer drops it from its output. */
  datatype Token = Token(id: string, value: string, line: int, ignored: bool)

  /** A component of a symbol tree: a token leaf or a node named after the
      phrase it resolved, with its children in order. */
  datatype Comp = Tok(token: Token) | Node(id: string, children: seq<Comp>)

  function Id(c: Comp): string
  {
    match c
    case Tok(t) => t.id
    case Node(id, _) => id
  }
}

/** Token construction, equality, hashing, rendering and the `cast`/`valueOf`
    helpers of `Token`, `SimpleToken` and `IgnoredToken`. */
module Tokens {
  import opened Wrappers
  import opened Failures
  import opened Components
  import Text

  const IGNORED_ID: string := "__CC_IGNORED_TOKEN__"
  const IGNORED_VALUE: string := ""
  const IGNORED_LINE: int := -1

  /** `new SimpleToken(id, value, line)`: a token the lexer keeps. */
  function SimpleToken(id: string, value: string, line: int): (t: Token)
    ensures !t.ignored
    ensures t.id == id && t.value == value && t.line == line
  {
    Token(id, value, line, false)
  }

  /** `new SimpleToken(idAndValue, line)`: a token whose value is its identifier. */
  function FixedToken(idAndValue: string, line: int): (t: Token)
    ensures !t.ignored && t.id == t.value == idAndValue && t.line == line
  {
    SimpleToken(idAndValue, idAndValue, line)
  }

  /** `new IgnoredToken(id, value, line)`. */
  function IgnoredToken(id: string, value: string, line: int): (t: Token)
    ensures t.ignored
    ensures t.id == id && t.value == value && t.line == line
  {
    Token(id, value, line, true)
  }

  /** `new IgnoredToken()`: the placeholder every `ignore()` returns. */
  function DefaultIgnoredToken(): (t: Token)
    ensures t.ignored && t.id == IGNORED_ID && t.value == "" && t.line == -1
  {
    IgnoredToken(IGNORED_ID, IGNORED_VALUE, IGNORED_LINE)
  }

  /** `SimpleToken.equals`: only a token can be equal, and only identifier and
      value are compared (line number and ignored flag are not). */
  predicate TokenEquals(t: Token, other: Comp): (b: bool)
    ensures other == Tok(t) ==> b
    ensures b ==> other.Tok? && TokenHash(other.token) == TokenHash(t)
  {
    other.Tok? && other.token.id == t.id && other.token.value == t.value
  }

  /** `TokenEquals` is an equivalence relation on tokens. */
  lemma TokenEqualsIsEquivalence(a: Token, b: Token, c: Token)
    ensures TokenEquals(a, Tok(a))
    ensures TokenEquals(a, Tok(b)) <==> TokenEquals(b, Tok(a))
    ensures TokenEquals(a, Tok(b)) && TokenEquals(b, Tok(c)) ==> TokenEquals(a, Tok(c))
  {
  }

  /** Java's `int` arithmetic: a value reduced into [-2^31, 2^31). */
  function Wrap32(x: int): (r: int)
    ensures Text.INT_MIN <= r <= Text.INT_MAX
    ensures (r - x) % 0x1_0000_0000 == 0
  {
    (x + 0x8000_0000) % 0x1_0000_0000 - 0x8000_0000
  }

  /** `String.hashCode`: s[0]*31^(n-1) + ... + s[n-1], in `int` arithmetic. */
  function StringHash(s: string): (h: int)
    ensures Text.INT_MIN <= h <= Text.INT_MAX
  {
    if |s| == 0 then 0 else Wrap32(31 * StringHash(s[..|s| - 1]) + s[|s| - 1] as int)
  }

  /** `SimpleToken.hashCode`: `Objects.hash(id, value)`. */
  function TokenHash(t: Token): (h: int)
    ensures Text.INT_MIN <= h <= Text.INT_MAX
  {
    Wrap32(31 * Wrap32(31 * 1 + StringHash(t.id)) + StringHash(t.value))
  }

  /** Equal tokens hash alike, as the `equals`/`hashCode` contract demands. */
  lemma EqualTokensHashAlike(a: Token, b: Token)
    requires TokenEquals(a, Tok(b))
    ensures TokenHash(a) == TokenHash(b)
  {
  }

  /** `SimpleToken.toString`: "id: value". */
  function TokenToString(t: Token): (r: string)
    ensures |r| == |t.id| + 2 + |t.value|
    ensures r[..|t.id|] == t.id && r[|t.id|..|t.id| + 2] == ": " && r[|t.id| + 2..] == t.value
  {
    t.id + ": " + t.value
  }

  /** The rendering tells apart tokens that are not equal, as long as the
      identifier holds no colon. */
  lemma {:induction false} TokenToStringDistinguishes(a: Token, b: Token)
    requires ':' !in a.id && ':' !in b.id
    requires TokenToString(a) == TokenToString(b)
    ensures TokenEquals(a, Tok(b))
  {
    var s := TokenToString(a);
    ColonAfterId(a.id, a.value);
    ColonAfterId(b.id, b.value);
    assert s[..|a.id|] == a.id && s[..|b.id|] == b.id;
    assert s[|a.id| + 2..] == a.value;
    assert s[|b.id| + 2..] == b.value;
  }

  lemma ColonAfterId(id: string, value: string)
    requires ':' !in id
    ensures Text.IndexOfChar(id + ": " + value, ':') == |id|
  {
    var s := id + ": " + value;
    assert s[..|id|] == id;
    assert s[|id|] == ':';
  }

  /** `Token.cast`: the component itself when it is a token. */
  function Cast(c: Comp): (r: Result<Token, Failure>)
    ensures c.Tok? <==> r.Ok?
    ensures r.Ok? ==> r.value == c.token
    ensures r.Err? ==> r.error == IllegalArgument(Id(c) + " was expected to be a token.")
  {
    match c
    case Tok(t) => Ok(t)
    case Node(id, _) => Err(IllegalArgument(id + " was expected to be a token."))
  }

  /** `Token.valueOf`: the value of a component that is a token. */
  function ValueOf(c: Comp): (r: Result<string, Failure>)
    ensures c.Tok? <==> r.Ok?
    ensures r.Ok? ==> r.value == c.token.value
    ensures r.Err? ==> r == Cast(c).PropagateFailure()
  {
    var t :- Cast(c);
    Ok(t.value)
  }
}
