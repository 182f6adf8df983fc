/** `ScanContext`: the mutable state a lexer shares with its rules' actions
    (current line number, the text just captured, and free-form variables). */
module Scanning {
  import opened Components
  import opened Failures
  import Tokens

  /** A snapshot of a context, which is what a rule's action reads.
      Variable values (Java `Object`s) are modelled as strings. */
  datatype ScanState = ScanState(line: int, captured: string, variables: map<string, string>)

  /** A fresh context: line 1, nothing captured, no variables. */
  const INITIAL: ScanState := ScanState(1, "", map[])

  /** What a rule's action hands back to the lexer: a token, a runtime exception,
      or some other object (including `null`), rendered as `shown`. */
  datatype Yield = Produce(token: Token) | Raise(failure: Failure) | Unsupported(shown: string)

  /** An action's result together with the line number and variables it left
      in the context. */
  datatype Effect = Effect(result: Yield, line: int, variables: map<string, string>)

  /** The action `ScanContext::ignore`. */
  function IgnoreAction(s: ScanState): (e: Effect)
    ensures e.result.Produce? && e.result.token.ignored
    ensures e.line == s.line && e.variables == s.variables
  {
    Effect(Produce(Tokens.DefaultIgnoredToken()), s.line, s.variables)
  }

  /** The action `ScanContext::incrementLineNumberAndIgnore`. */
  function IncrementLineNumberAndIgnoreAction(s: ScanState): (e: Effect)
    ensures e.result.Produce? && e.result.token.ignored
    ensures e.line == s.line + 1 && e.variables == s.variables
  {
    Effect(Produce(Tokens.DefaultIgnoredToken()), s.line + 1, s.variables)
  }

  /** The action `context -> context.incrementLineNumberAndReturn(t)`. */
  function IncrementLineNumberAndReturnAction(t: Token, s: ScanState): (e: Effect)
    ensures e.result == Produce(t)
    ensures e.line == s.line + 1 && e.variables == s.variables
  {
    Effect(Produce(t), s.line + 1, s.variables)
  }

  class ScanContext {
    var variables: map<string, string>
    var capturedValue: string
    var lineNumber: int

    constructor ()
      ensures State() == INITIAL
    {
      variables := map[];
      capturedValue := "";
      lineNumber := 1;
    }

    function State(): ScanState
      reads this
    {
      ScanState(lineNumber, capturedValue, variables)
    }

    method IncrementLineNumber()
      modifies this
      ensures State() == old(State()).(line := old(lineNumber) + 1)
    {
      lineNumber := lineNumber + 1;
    }

    method IncrementLineNumberAndIgnore() returns (t: Token)
      modifies this
      ensures Effect(Produce(t), lineNumber, variables) == IncrementLineNumberAndIgnoreAction(old(State()))
      ensures capturedValue == old(capturedValue)
    {
      IncrementLineNumber();
      t := Ignore();
    }

    /** `ignore()`: a fresh placeholder token, the context untouched. */
    function Ignore(): (t: Token)
      ensures t.ignored && t == Tokens.DefaultIgnoredToken()
    {
      Tokens.DefaultIgnoredToken()
    }

    method IncrementLineNumberAndReturn(t: Token) returns (r: Token)
      modifies this
      ensures Effect(Produce(r), lineNumber, variables) == IncrementLineNumberAndReturnAction(t, old(State()))
      ensures capturedValue == old(capturedValue)
    {
      IncrementLineNumber();
      r := t;
    }

    /** `capture(s)`, done by the lexer before it applies an action. */
    method Capture(s: string)
      modifies this
      ensures State() == old(State()).(captured := s)
    {
      capturedValue := s;
    }

    /** The writes an action made through the context (`incrementLineNumber`
        and the map `getVariables` returns), as recorded in its effect. */
    method Commit(e: Effect)
      modifies this
      ensures State() == old(State()).(line := e.line, variables := e.variables)
    {
      lineNumber := e.line;
      variables := e.variables;
    }
  }
}
