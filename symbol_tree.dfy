/** `SymbolTree`: the queries over a parsed tree, all read-only, as functions
    of its root node. */
module SymbolTrees {
  import opened Wrappers
  import opened Components
  import opened SymbolTreeNodes

  /** `flatten()`: the root, then each child's own flattening, in order. */
  function Flatten(c: Comp): (r: seq<Comp>)
    ensures |r| >= 1 && r[0] == c
  {
    match c
    case Tok(_) => [c]
    case Node(_, children) => [c] + FlattenAll(children)
  }

  function FlattenAll(children: seq<Comp>): (r: seq<Comp>)
    ensures |r| >= |children|
    ensures forall c :: c in children ==> c in r
  {
    if |children| == 0 then [] else Flatten(children[0]) + FlattenAll(children[1..])
  }

  /** The tokens of a listing, in order. */
  function TokensIn(s: seq<Comp>): seq<Token>
  {
    if |s| == 0 then [] else (if s[0].Tok? then [s[0].token] else []) + TokensIn(s[1..])
  }

  lemma TokensInAppend(a: seq<Comp>, b: seq<Comp>)
    ensures TokensIn(a + b) == TokensIn(a) + TokensIn(b)
  {
    if |a| > 0 {
      assert (a + b)[1..] == a[1..] + b;
      TokensInAppend(a[1..], b);
    } else {
      assert a + b == b;
    }
  }

  lemma LeavesOfCons(c: Comp, rest: seq<Comp>)
    ensures LeavesOf([c] + rest) == Leaves(c) + LeavesOf(rest)
    decreases |rest|
  {
    if |rest| > 0 {
      var init := rest[..|rest| - 1];
      assert ([c] + rest)[..|rest|] == [c] + init;
      assert rest == init + [rest[|rest| - 1]];
      LeavesOfCons(c, init);
      LeavesOfAppend(init, rest[|rest| - 1]);
    } else {
      assert ([c] + rest)[..0] == [];
    }
  }

  /** The tokens in a flattening are the tree's leaves, in order: `flatten`
      visits the same tokens `tokenCount` counts. */
  lemma {:induction false} FlattenTokensAreLeaves(c: Comp)
    ensures TokensIn(Flatten(c)) == Leaves(c)
    decreases c, 1
  {
    match c
    case Tok(_) =>
    case Node(_, children) =>
      TokensInAppend([c], FlattenAll(children));
      FlattenAllTokensAreLeaves(children);
  }

  lemma {:induction false} FlattenAllTokensAreLeaves(children: seq<Comp>)
    ensures TokensIn(FlattenAll(children)) == LeavesOf(children)
    decreases children, 0
  {
    if |children| > 0 {
      TokensInAppend(Flatten(children[0]), FlattenAll(children[1..]));
      FlattenTokensAreLeaves(children[0]);
      FlattenAllTokensAreLeaves(children[1..]);
      assert children == [children[0]] + children[1..];
      LeavesOfCons(children[0], children[1..]);
    }
  }

  /** A token rendered as "id:value", a node as its id. */
  function Render(c: Comp): (r: string)
    ensures c.Node? ==> r == c.id
    ensures c.Tok? ==> |r| > |c.token.id| && r[..|c.token.id| + 1] == c.token.id + ":" && r[|c.token.id| + 1..] == c.token.value
  {
    match c
    case Tok(t) => t.id + ":" + t.value
    case Node(id, _) => id
  }

  function RenderAll(s: seq<Comp>): (r: seq<string>)
    ensures |r| == |s| && forall i :: 0 <= i < |s| ==> r[i] == Render(s[i])
  {
    if |s| == 0 then [] else [Render(s[0])] + RenderAll(s[1..])
  }

  /** `flattenAsString()`: same length and order as `flatten()`. */
  function FlattenAsString(root: Comp): (r: seq<string>)
    requires root.Node?
    ensures |r| == |Flatten(root)|
    ensures forall i :: 0 <= i < |r| ==> r[i] == Render(Flatten(root)[i])
    ensures r[0] == root.id
  {
    RenderAll(Flatten(root))
  }

  /** The `Class<T>` argument of `find`. */
  datatype Kind = NodeKind | TokenKind | AnyKind

  predicate OfKind(c: Comp, kind: Kind)
  {
    match kind
    case NodeKind => c.Node?
    case TokenKind => c.Tok?
    case AnyKind => true
  }

  predicate Matches(c: Comp, id: string, kind: Kind)
  {
    OfKind(c, kind) && Id(c) == id
  }

  /** The elements of `s` that match, in order. */
  function Filter(s: seq<Comp>, id: string, kind: Kind): (r: seq<Comp>)
    ensures forall c :: c in r ==> c in s && Matches(c, id, kind)
  {
    if |s| == 0 then []
    else (if Matches(s[0], id, kind) then [s[0]] else []) + Filter(s[1..], id, kind)
  }

  lemma FilterAppend(a: seq<Comp>, b: seq<Comp>, id: string, kind: Kind)
    ensures Filter(a + b, id, kind) == Filter(a, id, kind) + Filter(b, id, kind)
  {
    if |a| > 0 {
      assert (a + b)[1..] == a[1..] + b;
      FilterAppend(a[1..], b, id, kind);
    } else {
      assert a + b == b;
    }
  }

  /** `findIn(node, id, type)`: each child that matches, followed by the
      matches below it when it is a node. */
  function FindAmong(children: seq<Comp>, id: string, kind: Kind): seq<Comp>
  {
    if |children| == 0 then []
    else
      var c := children[0];
      (if Matches(c, id, kind) then [c] else [])
      + (if c.Node? then FindAmong(c.children, id, kind) else [])
      + FindAmong(children[1..], id, kind)
  }

  /** `find(id, type)` on the tree rooted at `root`. */
  function Find(root: Comp, id: string, kind: Kind): (r: seq<Comp>)
    requires root.Node?
    ensures forall c :: c in r ==> Matches(c, id, kind) && c in Flatten(root)[1..]
  {
    FindAmongIsFilter(root.children, id, kind);
    assert Flatten(root)[1..] == FlattenAll(root.children);
    FindAmong(root.children, id, kind)
  }

  /** `findNodes(id)`. */
  function FindNodes(root: Comp, id: string): (r: seq<Comp>)
    requires root.Node?
    ensures forall c :: c in r ==> c.Node? && c.id == id
  {
    FindIsFilteredFlatten(root, id, NodeKind);
    Find(root, id, NodeKind)
  }

  /** `findTokens(id)`. */
  function FindTokens(root: Comp, id: string): (r: seq<Token>)
    requires root.Node?
    ensures |r| == |Find(root, id, TokenKind)|
    ensures forall t :: t in r ==> t.id == id
  {
    FindIsFilteredFlatten(root, id, TokenKind);
    MatchingTokens(Find(root, id, TokenKind), id);
    TokensIn(Find(root, id, TokenKind))
  }

  lemma MatchingTokens(s: seq<Comp>, id: string)
    requires forall c :: c in s ==> Matches(c, id, TokenKind)
    ensures |TokensIn(s)| == |s|
    ensures forall t :: t in TokensIn(s) ==> t.id == id
  {
    if |s| > 0 {
      assert s[0] in s;
      assert forall c :: c in s[1..] ==> c in s;
      MatchingTokens(s[1..], id);
      assert TokensIn(s) == [s[0].token] + TokensIn(s[1..]);
    }
  }

  lemma {:induction false} FindAmongIsFilter(children: seq<Comp>, id: string, kind: Kind)
    ensures FindAmong(children, id, kind) == Filter(FlattenAll(children), id, kind)
    decreases children
  {
    if |children| > 0 {
      var c := children[0];
      FilterAppend(Flatten(c), FlattenAll(children[1..]), id, kind);
      FindAmongIsFilter(children[1..], id, kind);
      match c
      case Tok(_) =>
        assert Filter([c], id, kind) == (if Matches(c, id, kind) then [c] else []);
      case Node(_, grand) =>
        FilterAppend([c], FlattenAll(grand), id, kind);
        assert Filter([c], id, kind) == (if Matches(c, id, kind) then [c] else []);
        FindAmongIsFilter(grand, id, kind);
    }
  }

  /** `find` lists, in pre-order, exactly the matching components of the
      flattening, leaving out the root. */
  lemma FindIsFilteredFlatten(root: Comp, id: string, kind: Kind)
    requires root.Node?
    ensures Find(root, id, kind) == Filter(Flatten(root)[1..], id, kind)
  {
    assert Flatten(root)[1..] == FlattenAll(root.children);
    FindAmongIsFilter(root.children, id, kind);
  }

  /** One step of `selectIn` at a child whose id is the path's head. */
  function SelectStep(c: Comp, path: seq<string>): Option<Comp>
    requires |path| > 0
    decreases c, 0
  {
    if |path| == 1 then Some(c)
    else if c.Node? then SelectAmong(c.children, path[1..])
    else None
  }

  function SelectAmong(children: seq<Comp>, path: seq<string>): Option<Comp>
    requires |path| > 0
    decreases children, 1
  {
    if |children| == 0 then None
    else if Id(children[0]) == path[0] then SelectStep(children[0], path)
    else SelectAmong(children[1..], path)
  }

  /** `select(path...)` on the tree rooted at `root`. */
  function Select(root: Comp, path: seq<string>): (r: Option<Comp>)
    requires root.Node?
    ensures |path| == 0 ==> r == None
  {
    if |path| == 0 then None else SelectAmong(root.children, path)
  }

  /** Only the first child whose id is the path's head is followed. */
  lemma {:induction false} SelectFollowsFirstMatch(children: seq<Comp>, path: seq<string>, k: nat)
    requires |path| > 0 && k < |children|
    requires Id(children[k]) == path[0]
    requires forall j :: 0 <= j < k ==> Id(children[j]) != path[0]
    ensures SelectAmong(children, path) == SelectStep(children[k], path)
    decreases k
  {
    if k > 0 {
      SelectFollowsFirstMatch(children[1..], path, k - 1);
    }
  }

  /** When no child has the path's head as id, nothing is selected. */
  lemma {:induction false} SelectWithoutMatch(children: seq<Comp>, path: seq<string>)
    requires |path| > 0
    requires forall j :: 0 <= j < |children| ==> Id(children[j]) != path[0]
    ensures SelectAmong(children, path) == None
    decreases |children|
  {
    if |children| > 0 {
      SelectWithoutMatch(children[1..], path);
    }
  }

  lemma FlattenAllContains(children: seq<Comp>, k: nat)
    requires k < |children|
    ensures forall c :: c in Flatten(children[k]) ==> c in FlattenAll(children)
  {
    if k > 0 {
      FlattenAllContains(children[1..], k - 1);
    }
  }

  /** A selected component carries the path's last id and lies strictly below
      the starting node. */
  lemma {:induction false} SelectedLiesBelow(children: seq<Comp>, path: seq<string>)
    requires |path| > 0
    requires SelectAmong(children, path).Some?
    ensures Id(SelectAmong(children, path).value) == path[|path| - 1]
    ensures SelectAmong(children, path).value in FlattenAll(children)
    decreases children
  {
    var c := children[0];
    FlattenAllContains(children, 0);
    if Id(c) == path[0] {
      if |path| > 1 {
        SelectedLiesBelow(c.children, path[1..]);
        assert path[1..][|path| - 2] == path[|path| - 1];
        assert Flatten(c) == [c] + FlattenAll(c.children);
      }
    } else {
      SelectedLiesBelow(children[1..], path);
    }
  }
}
