/** `SymbolTreeNode`: a node named after the phrase it resolved, with its
    children (tokens and nodes) in order. The Java methods exist on nodes
    only, hence the `node.Node?` preconditions. */
module SymbolTreeNodes {
  import opened Wrappers
  import opened Failures
  import opened Components
  import Tokens

  /** The tokens under a component, left to right. */
  function Leaves(c: Comp): seq<Token>
  {
    match c
    case Tok(t) => [t]
    case Node(_, children) => LeavesOf(children)
  }

  function LeavesOf(children: seq<Comp>): seq<Token>
  {
    if |children| == 0 then [] else LeavesOf(children[..|children| - 1]) + Leaves(children[|children| - 1])
  }

  lemma LeavesOfAppend(children: seq<Comp>, c: Comp)
    ensures LeavesOf(children + [c]) == LeavesOf(children) + Leaves(c)
  {
    assert (children + [c])[..|children|] == children;
  }

  /** `tokenCount()`: every token below the node, at any depth. */
  method TokenCount(node: Comp) returns (count: nat)
    requires node.Node?
    ensures count == |Leaves(node)|
    decreases node
  {
    count := 0;
    var children := node.children;
    var i := 0;
    while i < |children|
      invariant i <= |children|
      invariant count == |LeavesOf(children[..i])|
    {
      var component := children[i];
      assert children[..i + 1] == children[..i] + [component];
      LeavesOfAppend(children[..i], component);
      if component.Node? {
        var sub := TokenCount(component);
        count := count + sub;
      } else {
        count := count + 1;
      }
      i := i + 1;
    }
    assert children[..i] == children;
  }

  /** `is(sentence...)`: the children's identifiers are exactly the sentence. */
  method Is(node: Comp, sentence: seq<string>) returns (b: bool)
    requires node.Node?
    ensures b <==> |sentence| == |node.children| && forall i :: 0 <= i < |sentence| ==> sentence[i] == Id(node.children[i])
  {
    if |sentence| != |node.children| {
      return false;
    }
    var i := 0;
    while i < |sentence|
      invariant i <= |sentence|
      invariant forall k :: 0 <= k < i ==> sentence[k] == Id(node.children[k])
    {
      if sentence[i] != Id(node.children[i]) {
        return false;
      }
      i := i + 1;
    }
    return true;
  }

  /** `indexOf(word)`: the first child with that identifier, or -1. */
  method IndexOf(node: Comp, word: string) returns (index: int)
    requires node.Node?
    ensures -1 <= index < |node.children|
    ensures index == -1 <==> forall k :: 0 <= k < |node.children| ==> Id(node.children[k]) != word
    ensures index >= 0 ==>
      Id(node.children[index]) == word && forall k :: 0 <= k < index ==> Id(node.children[k]) != word
  {
    var i := 0;
    while i < |node.children|
      invariant i <= |node.children|
      invariant forall k :: 0 <= k < i ==> Id(node.children[k]) != word
    {
      if word == Id(node.children[i]) {
        return i;
      }
      i := i + 1;
    }
    return -1;
  }

  /** Some child of the node has identifier `word`. */
  predicate HasChild(node: Comp, word: string)
    requires node.Node?
  {
    exists k :: 0 <= k < |node.children| && Id(node.children[k]) == word
  }

  /** `contains(word)`: `indexOf(word) > -1`. */
  method Contains(node: Comp, word: string) returns (b: bool)
    requires node.Node?
    ensures b <==> HasChild(node, word)
  {
    var index := IndexOf(node, word);
    b := index > -1;
  }

  /** `SymbolTreeNode.cast`: the component itself when it is a node. */
  function CastNode(c: Comp): (r: Result<Comp, Failure>)
    ensures c.Node? <==> r.Ok?
    ensures r.Ok? ==> r.value == c
    ensures r.Err? ==> r.error == IllegalArgument(Id(c) + " was expected to be a tree node.")
  {
    if c.Node? then Ok(c) else Err(IllegalArgument(Id(c) + " was expected to be a tree node."))
  }

  /** `get(index)`: `List.get`, throwing for an index out of range. */
  function Get(node: Comp, index: int): (r: Result<Comp, Failure>)
    requires node.Node?
    ensures r.Ok? <==> 0 <= index < |node.children|
    ensures r.Ok? ==> r.value == node.children[index]
    ensures r.Err? ==> r.error == IndexOutOfBounds(index)
  {
    if 0 <= index < |node.children| then Ok(node.children[index]) else Err(IndexOutOfBounds(index))
  }

  /** What the accessors throw: an index out of range, or a component of
      the wrong kind. */
  predicate AccessFailure(f: Failure)
  {
    f.IndexOutOfBounds? || f.IllegalArgument?
  }

  /** `getNode(index)`. */
  function GetNode(node: Comp, index: int): (r: Result<Comp, Failure>)
    requires node.Node?
    ensures r.Ok? <==> 0 <= index < |node.children| && node.children[index].Node?
    ensures r.Ok? ==> r.value == node.children[index]
    ensures r.Err? ==> AccessFailure(r.error)
  {
    var c :- Get(node, index);
    CastNode(c)
  }

  /** `getToken(index)`. */
  function GetToken(node: Comp, index: int): (r: Result<Token, Failure>)
    requires node.Node?
    ensures r.Ok? <==> 0 <= index < |node.children| && node.children[index].Tok?
    ensures r.Ok? ==> r.value == node.children[index].token
    ensures r.Err? ==> AccessFailure(r.error)
  {
    var c :- Get(node, index);
    Tokens.Cast(c)
  }
}
