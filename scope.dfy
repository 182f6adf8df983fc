/** `Scope` and `SymbolTable`: a stack of symbol maps, one per nesting level,
    searched innermost first. */
module Scopes {
  import opened Wrappers

  /** The data a stack of scopes holds, innermost last. */
  type Frames<D> = seq<map<string, D>>

  /** The index of the innermost frame binding `symbol`, or -1 when none
      does. */
  function Innermost<D>(frames: Frames<D>, symbol: string): (r: int)
    ensures -1 <= r < |frames|
    ensures r >= 0 ==> symbol in frames[r]
    ensures forall j :: r < j < |frames| ==> symbol !in frames[j]
  {
    if |frames| == 0 then -1
    else if symbol in frames[|frames| - 1] then |frames| - 1
    else Innermost(frames[..|frames| - 1], symbol)
  }

  /** The binding innermost-first lookup finds. */
  function Lookup<D>(frames: Frames<D>, symbol: string): (r: Option<D>)
    ensures r.None? <==> forall j :: 0 <= j < |frames| ==> symbol !in frames[j]
  {
    var i := Innermost(frames, symbol);
    if i < 0 then None else Some(frames[i][symbol])
  }

  /** A binding in the innermost frame hides every outer binding of the
      same symbol, and leaves the lookup of other symbols as it was. */
  lemma Shadowing<D>(frames: Frames<D>, top: map<string, D>, symbol: string, data: D, other: string)
    ensures Lookup(frames + [top[symbol := data]], symbol) == Some(data)
    ensures other != symbol ==> Lookup(frames + [top[symbol := data]], other) == Lookup(frames + [top], other)
  {
    var grown, plain := frames + [top[symbol := data]], frames + [top];
    assert grown[..|frames|] == frames == plain[..|frames|];
  }

  /** Frames that do not bind the symbol are looked through. */
  lemma LookThrough<D>(frames: Frames<D>, top: Frames<D>, symbol: string)
    requires forall j :: 0 <= j < |top| ==> symbol !in top[j]
    ensures Lookup(frames + top, symbol) == Lookup(frames, symbol)
    decreases |top|
  {
    if |top| > 0 {
      var all := frames + top;
      assert all[..|all| - 1] == frames + top[..|top| - 1];
      LookThrough(frames, top[..|top| - 1], symbol);
    } else {
      assert frames + top == frames;
    }
  }

  /** `Scope<D>`: the symbols of one level. The level is fixed at
      construction. */
  class Scope<D> {
    const level: int
    var symbols: map<string, D>

    constructor (level: int)
      ensures this.level == level && symbols == map[]
    {
      this.level := level;
      symbols := map[];
    }

    method Put(symbol: string, data: D)
      modifies this
      ensures symbols == old(symbols)[symbol := data]
      ensures Get(symbol) == Some(data) && Contains(symbol)
    {
      symbols := symbols[symbol := data];
    }

    /** `get`: the data, or `null` (`None`) for an absent symbol. */
    function Get(symbol: string): (r: Option<D>)
      reads this
      ensures r.Some? <==> symbol in symbols
      ensures r.Some? ==> r.value == symbols[symbol]
    {
      if symbol in symbols then Some(symbols[symbol]) else None
    }

    predicate Contains(symbol: string)
      reads this
      ensures Contains(symbol) <==> Get(symbol).Some?
    {
      symbol in symbols
    }

    /** `remove`: the prior data, if any; every other symbol keeps its data. */
    method Remove(symbol: string) returns (prior: Option<D>)
      modifies this
      ensures prior == old(Get(symbol))
      ensures symbols == old(symbols) - {symbol}
      ensures !Contains(symbol)
    {
      prior := Get(symbol);
      symbols := symbols - {symbol};
    }
  }

  /** The scopes as their symbol maps, in level order. */
  function FramesOf<D>(scopes: seq<Scope<D>>): (r: Frames<D>)
    reads scopes
    ensures |r| == |scopes|
    ensures forall i :: 0 <= i < |scopes| ==> r[i] == scopes[i].symbols
  {
    if |scopes| == 0 then [] else FramesOf(scopes[..|scopes| - 1]) + [scopes[|scopes| - 1].symbols]
  }

  /** `SymbolTable<D>`: the list of open scopes and the current level. */
  class SymbolTable<D> {
    var scopes: seq<Scope<D>>
    var level: int

    /** Scope `i` has level `i`, the current level is the innermost one, and
        no scope object appears twice. */
    predicate Valid()
      reads this, scopes
    {
      level == |scopes| - 1
      && (forall i :: 0 <= i < |scopes| ==> scopes[i].level == i)
      && (forall i, j :: 0 <= i < j < |scopes| ==> scopes[i] != scopes[j])
    }

    function Frames(): (r: Frames<D>)
      reads this, scopes
    {
      FramesOf(scopes)
    }

    constructor ()
      ensures Valid() && IsEmpty() && level == -1
    {
      scopes := [];
      level := -1;
    }

    predicate IsEmpty()
      reads this
    {
      |scopes| == 0
    }

    method OpenScope()
      requires Valid()
      modifies this
      ensures Valid()
      ensures level == old(level) + 1
      ensures scopes[..|scopes| - 1] == old(scopes) && fresh(scopes[|scopes| - 1])
      ensures Frames() == old(Frames()) + [map[]]
    {
      level := level + 1;
      var s := new Scope<D>(level);
      scopes := scopes + [s];
      assert scopes[..|scopes| - 1] == old(scopes);
    }

    /** Drops the innermost scope; does nothing when there is none. */
    method CloseScope()
      requires Valid()
      modifies this
      ensures Valid()
      ensures old(|scopes|) == 0 ==> scopes == [] && level == -1
      ensures old(|scopes|) > 0 ==> scopes == old(scopes[..|scopes| - 1]) && level == old(level) - 1
      ensures old(|scopes|) > 0 ==> Frames() == old(Frames()[..|scopes| - 1])
    {
      if |scopes| > 0 {
        scopes := scopes[..level];
        level := level - 1;
      }
    }

    /** Binds in the innermost scope, opening one first when there is none. */
    method Put(symbol: string, data: D)
      requires Valid()
      modifies this, scopes
      ensures Valid() && !IsEmpty()
      ensures old(|scopes|) == 0 ==> |scopes| == 1 && fresh(scopes[0]) && Frames() == [map[symbol := data]]
      ensures old(|scopes|) > 0 ==> scopes == old(scopes)
      ensures old(|scopes|) > 0 ==>
        var n := old(|scopes|);
        Frames() == old(Frames()[..n - 1]) + [old(Frames()[n - 1])[symbol := data]]
    {
      if IsEmpty() {
        OpenScope();
      }
      ghost var before := Frames();
      scopes[level].Put(symbol, data);
      assert Frames()[..level] == before[..level];
    }

    /** `getScope(l)`: present exactly for the open levels `0..level`. */
    function GetScope(l: int): (r: Option<Scope<D>>)
      reads this, scopes
      requires Valid()
      ensures r.None? <==> l < 0 || l > level
      ensures r.Some? ==> r.value == scopes[l]
    {
      if l < 0 || l > level then None else Some(scopes[l])
    }

    function GetCurrentScope(): (r: Option<Scope<D>>)
      reads this, scopes
      requires Valid()
      ensures r.None? <==> IsEmpty()
      ensures r.Some? ==> r.value == scopes[|scopes| - 1]
    {
      GetScope(level)
    }

    /** `findLatestScope`: the highest-level scope binding `symbol`. */
    function FindLatestScope(symbol: string): (r: Option<Scope<D>>)
      reads this, scopes
      requires Valid()
      ensures r.None? <==> forall i :: 0 <= i < |scopes| ==> !scopes[i].Contains(symbol)
      ensures r.Some? ==> r.value in scopes && r.value.Contains(symbol)
      ensures r.Some? ==> forall j :: r.value.level < j < |scopes| ==> !scopes[j].Contains(symbol)
    {
      var i := Innermost(Frames(), symbol);
      if i < 0 then None else Some(scopes[i])
    }

    /** `findLatest`: the innermost binding's data. */
    function FindLatest(symbol: string): (r: Option<D>)
      reads this, scopes
      requires Valid()
      ensures r == Lookup(Frames(), symbol)
    {
      var s := FindLatestScope(symbol);
      if s.None? then None else s.value.Get(symbol)
    }
  }

  /** Opening a scope, binding `symbol` in it and closing it again leaves
      every lookup as it was before, while inside the scope the new binding
      shadows the outer one. */
  method ShadowThenClose<D>(t: SymbolTable<D>, symbol: string, data: D) returns (inner: Option<D>)
    requires t.Valid()
    modifies t, t.scopes
    ensures t.Valid()
    ensures inner == Some(data)
    ensures t.Frames() == old(t.Frames())
    ensures forall s :: t.FindLatest(s) == Lookup(old(t.Frames()), s)
  {
    ghost var before := t.Frames();
    t.OpenScope();
    assert t.Frames() == before + [map[]];
    t.Put(symbol, data);
    assert t.Frames() == before + [map[symbol := data]];
    Shadowing(before, map[], symbol, data, symbol);
    inner := t.FindLatest(symbol);
    t.CloseScope();
    assert t.Frames() == (before + [map[symbol := data]])[..|before|] == before;
  }
}

module ScopeExamples {
  import opened Wrappers
  import opened Scopes

  const OUTER := map["foo" := "int", "bar" := "object"]
  const INNER := map["foo" := "string"]

  /** A table with one scope, binding "foo" to "int". */
  method FooTable() returns (t: SymbolTable<string>)
    ensures fresh(t) && t.Valid() && t.level == 0
    ensures |t.scopes| == 1 && fresh(t.scopes[0])
    ensures t.Frames() == [map["foo" := "int"]]
  {
    t := new SymbolTable<string>();
    t.OpenScope();
    assert t.Frames() == [map[]];
    t.Put("foo", "int");
  }

  /** "foo" and "bar" bound in a single scope. */
  method OuterTable() returns (t: SymbolTable<string>)
    ensures fresh(t) && t.Valid() && t.level == 0
    ensures |t.scopes| == 1 && fresh(t.scopes[0])
    ensures t.Frames() == [OUTER]
  {
    t := FooTable();
    t.Put("bar", "object");
    assert map["foo" := "int"]["bar" := "object"] == OUTER;
  }

  /** The table of the unit test: "foo" and "bar" bound at level 0, then
      "foo" bound again at level 1. */
  method NestedTable() returns (t: SymbolTable<string>)
    ensures fresh(t) && t.Valid() && t.level == 1
    ensures t.Frames() == [OUTER, INNER]
  {
    t := OuterTable();
    t.OpenScope();
    assert t.Frames() == [OUTER, map[]];
    t.Put("foo", "string");
    assert t.Frames() == [OUTER, map[]][..1] + [map[]["foo" := "string"]];
    assert [OUTER, map[]][..1] == [OUTER];
  }

  /** The scenario of the table's unit test: "foo" rebound at level 1
      shadows its level-0 binding until that scope is closed; "bar" is
      found at level 0 throughout. */
  method NestedScopes() returns (fooInner: Option<string>, fooLevel: int, barLevel: int, fooOuter: Option<string>, levelAfter: int)
    ensures fooInner == Some("string") && fooLevel == 1 && barLevel == 0
    ensures fooOuter == Some("int") && levelAfter == 0
  {
    var t := NestedTable();
    assert Innermost([OUTER, INNER], "foo") == 1;
    assert Innermost([OUTER, INNER], "bar") == 0 by {
      assert [OUTER, INNER][..1] == [OUTER];
    }
    var s := t.FindLatestScope("foo");
    fooLevel := s.value.level;
    fooInner := t.FindLatest("foo");
    s := t.FindLatestScope("bar");
    barLevel := s.value.level;
    t.CloseScope();
    assert t.Frames() == [OUTER];
    assert Innermost([OUTER], "foo") == 0;
    fooOuter := t.FindLatest("foo");
    levelAfter := t.level;
  }
}
