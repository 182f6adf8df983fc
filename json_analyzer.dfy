/** `JsonSemanticAnalyzer`: walks the tree from the root object, recording
    under each object the path of every key its body lists, and collects
    the paths a body lists twice. Any such path fails the analysis. */
module JsonAnalysis {
  import opened Wrappers
  import opened Failures
  import opened Components
  import opened SymbolTreeNodes
  import opened JsonLexing
  import opened JsonParsing
  import opened JsonTrees
  import Text

  /** The path the root object's keys hang from. */
  const ROOT_PATH: string := "OBJECT"

  /** `path + "." + key`. */
  function KeyPath(path: string, key: string): (p: string)
    ensures path <= p && |p| > |path|
  {
    path + "." + key
  }

  /** `path + "[" + index + "]"`. */
  function ElementPath(path: string, index: nat): (p: string)
    ensures path <= p && |p| > |path|
  {
    path + "[" + Text.IntToString(index) + "]"
  }

  /** The two sets `inspectBody` works on: the paths seen in the current
      object and the duplicates found so far. */
  datatype Scan = Scan(scanned: set<string>, duplicates: set<string>)

  /** Every path added to `duplicates` hangs from `path`. */
  predicate Below(found: set<string>, duplicates: set<string>, path: string)
  {
    duplicates <= found && forall p :: p in found && p !in duplicates ==> path <= p
  }

  // ---------------------------------------------------------------------
  // Specification

  /** `analyzeObject`: a body, when there is one, is inspected with a
      fresh set of scanned paths. */
  function ObjectDuplicates(obj: Comp, duplicates: set<string>, path: string): (r: Result<set<string>, Failure>)
    requires obj.Node?
    ensures r.Ok? ==> Below(r.value, duplicates, path)
    ensures r.Err? ==> AccessFailure(r.error)
    decreases obj
  {
    if HasChild(obj, BODY) then
      match GetNode(obj, 1)
      case Err(f) => Err(f)
      case Ok(body) =>
        match BodyDuplicates(body, {}, duplicates, path)
        case Err(f) => Err(f)
        case Ok(scan) => Ok(scan.duplicates)
    else Ok(duplicates)
  }

  /** `analyzeValue`: an obj is analyzed; an array's first element is
      analyzed at index 0 and the rest from index 1; anything else adds
      nothing. */
  function ValueDuplicates(value: Comp, duplicates: set<string>, path: string): (r: Result<set<string>, Failure>)
    requires value.Node?
    ensures r.Ok? ==> Below(r.value, duplicates, path)
    ensures r.Err? ==> AccessFailure(r.error)
    decreases value
  {
    match SymbolTreeNodes.Get(value, 0)
    case Err(f) => Err(f)
    case Ok(first) =>
      if IsJsonObject(first) then
        match GetNode(value, 0)
        case Err(f) => Err(f)
        case Ok(obj) => ObjectDuplicates(obj, duplicates, path)
      else if HasChild(value, VALUE) then
        match GetNode(value, 1)
        case Err(f) => Err(f)
        case Ok(element) =>
          match ValueDuplicates(element, duplicates, ElementPath(path, 0))
          case Err(f) => Err(f)
          case Ok(found) =>
            match GetNode(value, 2)
            case Err(f) => Err(f)
            case Ok(rest) => ArrayDuplicates(rest, found, path, 1)
      else Ok(duplicates)
  }

  /** `analyzeArray`: an `ARRAY_END` holding a value analyzes it at
      `index` and the rest at `index + 1`. */
  function ArrayDuplicates(arrayEnd: Comp, duplicates: set<string>, path: string, index: nat): (r: Result<set<string>, Failure>)
    requires arrayEnd.Node?
    ensures r.Ok? ==> Below(r.value, duplicates, path)
    ensures r.Err? ==> AccessFailure(r.error)
    decreases arrayEnd
  {
    if HasChild(arrayEnd, VALUE) then
      match GetNode(arrayEnd, 1)
      case Err(f) => Err(f)
      case Ok(element) =>
        match ValueDuplicates(element, duplicates, ElementPath(path, index))
        case Err(f) => Err(f)
        case Ok(found) =>
          match GetNode(arrayEnd, 2)
          case Err(f) => Err(f)
          case Ok(rest) => ArrayDuplicates(rest, found, path, index + 1)
    else Ok(duplicates)
  }

  /** `inspectBody`: the key's path is a duplicate when it was scanned
      before; the rest of the body is inspected first, with the same
      scanned set, and then the key's value. */
  function BodyDuplicates(body: Comp, scanned: set<string>, duplicates: set<string>, path: string): (r: Result<Scan, Failure>)
    requires body.Node?
    ensures r.Ok? ==> Below(r.value.duplicates, duplicates, path) && scanned <= r.value.scanned
    ensures r.Err? ==> AccessFailure(r.error)
    decreases body
  {
    match GetToken(body, 0)
    case Err(f) => Err(f)
    case Ok(key) =>
      var current := KeyPath(path, key.value);
      var found := if current in scanned then duplicates + {current} else duplicates;
      var rest :=
        if HasChild(body, BODY) then
          match GetNode(body, 4)
          case Err(f) => Err(f)
          case Ok(next) => BodyDuplicates(next, scanned + {current}, found, path)
        else Ok(Scan(scanned + {current}, found));
      match rest
      case Err(f) => Err(f)
      case Ok(after) =>
        match GetNode(body, 2)
        case Err(f) => Err(f)
        case Ok(value) =>
          match ValueDuplicates(value, after.duplicates, current)
          case Err(f) => Err(f)
          case Ok(d) => Ok(Scan(after.scanned, d))
  }

  /** `analyze(tokens, tree)`: the duplicates found from the root object,
      reported together when there are any. */
  function AnalyzeSpec(tokens: seq<Token>, tree: Comp): (r: Option<Failure>)
    ensures r.Some? && r.value.DuplicateKeys? ==>
      r.value.paths != {} && forall p :: p in r.value.paths ==> ROOT_PATH <= p
  {
    match CastNode(tree)
    case Err(f) => Some(f)
    case Ok(root) =>
      match ObjectDuplicates(root, {}, ROOT_PATH)
      case Err(f) => Some(f)
      case Ok(d) => if d == {} then None else Some(DuplicateKeys(d))
  }

  // ---------------------------------------------------------------------
  // Implementation

  /** A `HashSet<String>`. */
  class KeySet {
    var elements: set<string>

    constructor ()
      ensures elements == {}
    {
      elements := {};
    }

    /** `add(s)`: whether `s` was new. */
    method Add(s: string) returns (added: bool)
      modifies this
      ensures added <==> s !in old(elements)
      ensures elements == old(elements) + {s}
    {
      added := s !in elements;
      elements := elements + {s};
    }
  }

  /** The method ends as the specification says: with its failure, or
      without one and with `found` as the set's contents. */
  predicate Mirrors(r: Result<set<string>, Failure>, failure: Option<Failure>, found: set<string>)
  {
    match r
    case Err(f) => failure == Some(f)
    case Ok(d) => failure.None? && found == d
  }

  method AnalyzeObject(obj: Comp, duplicates: KeySet, path: string) returns (failure: Option<Failure>)
    requires obj.Node?
    modifies duplicates
    ensures Mirrors(ObjectDuplicates(obj, old(duplicates.elements), path), failure, duplicates.elements)
    decreases obj, 1
  {
    var hasBody := Contains(obj, BODY);
    if !hasBody {
      return None;
    }
    var body := GetNode(obj, 1);
    if body.Err? {
      return Some(body.error);
    }
    var scanned := new KeySet();
    failure := InspectBody(body.value, scanned, duplicates, path);
  }

  method AnalyzeValue(value: Comp, duplicates: KeySet, path: string) returns (failure: Option<Failure>)
    requires value.Node?
    modifies duplicates
    ensures Mirrors(ValueDuplicates(value, old(duplicates.elements), path), failure, duplicates.elements)
    decreases value, 1
  {
    var first := SymbolTreeNodes.Get(value, 0);
    if first.Err? {
      return Some(first.error);
    }
    if IsJsonObject(first.value) {
      var obj := GetNode(value, 0);
      if obj.Err? {
        return Some(obj.error);
      }
      failure := AnalyzeObject(obj.value, duplicates, path);
      return;
    }
    var isArray := Contains(value, VALUE);
    if !isArray {
      return None;
    }
    var element := GetNode(value, 1);
    if element.Err? {
      return Some(element.error);
    }
    failure := AnalyzeValue(element.value, duplicates, ElementPath(path, 0));
    if failure.Some? {
      return;
    }
    var rest := GetNode(value, 2);
    if rest.Err? {
      return Some(rest.error);
    }
    failure := AnalyzeArray(rest.value, duplicates, path, 1);
  }

  method AnalyzeArray(arrayEnd: Comp, duplicates: KeySet, path: string, index: nat) returns (failure: Option<Failure>)
    requires arrayEnd.Node?
    modifies duplicates
    ensures Mirrors(ArrayDuplicates(arrayEnd, old(duplicates.elements), path, index), failure, duplicates.elements)
    decreases arrayEnd, 1
  {
    var hasValue := Contains(arrayEnd, VALUE);
    if !hasValue {
      return None;
    }
    var element := GetNode(arrayEnd, 1);
    if element.Err? {
      return Some(element.error);
    }
    failure := AnalyzeValue(element.value, duplicates, ElementPath(path, index));
    if failure.Some? {
      return;
    }
    var rest := GetNode(arrayEnd, 2);
    if rest.Err? {
      return Some(rest.error);
    }
    failure := AnalyzeArray(rest.value, duplicates, path, index + 1);
  }

  method InspectBody(body: Comp, scanned: KeySet, duplicates: KeySet, path: string) returns (failure: Option<Failure>)
    requires body.Node? && scanned != duplicates
    modifies scanned, duplicates
    ensures var r := BodyDuplicates(body, old(scanned.elements), old(duplicates.elements), path);
      match r
      case Err(f) => failure == Some(f)
      case Ok(s) => failure.None? && scanned.elements == s.scanned && duplicates.elements == s.duplicates
    decreases body, 1
  {
    var key := GetToken(body, 0);
    if key.Err? {
      return Some(key.error);
    }
    var currentPath := KeyPath(path, key.value.value);
    var added := scanned.Add(currentPath);
    if !added {
      added := duplicates.Add(currentPath);
    }
    var hasMore := Contains(body, BODY);
    if hasMore {
      var next := GetNode(body, 4);
      if next.Err? {
        return Some(next.error);
      }
      failure := InspectBody(next.value, scanned, duplicates, path);
      if failure.Some? {
        return;
      }
    }
    var value := GetNode(body, 2);
    if value.Err? {
      return Some(value.error);
    }
    failure := AnalyzeValue(value.value, duplicates, currentPath);
  }

  /** `analyze(tokens, symbolTree)`. */
  method Analyze(tokens: seq<Token>, tree: Comp) returns (failure: Option<Failure>)
    ensures failure == AnalyzeSpec(tokens, tree)
  {
    var root := CastNode(tree);
    if root.Err? {
      return Some(root.error);
    }
    var duplicateKeys := new KeySet();
    failure := AnalyzeObject(root.value, duplicateKeys, ROOT_PATH);
    if failure.Some? {
      return;
    }
    if duplicateKeys.elements != {} {
      return Some(DuplicateKeys(duplicateKeys.elements));
    }
  }

  // ---------------------------------------------------------------------
  // Properties

  /** The paths of `keys` under `path`. */
  function KeyPaths(path: string, keys: seq<string>): set<string>
  {
    if |keys| == 0 then {} else {KeyPath(path, keys[0])} + KeyPaths(path, keys[1..])
  }

  lemma KeyPathInjective(path: string, a: string, b: string)
    ensures KeyPath(path, a) == KeyPath(path, b) ==> a == b
  {
    if KeyPath(path, a) == KeyPath(path, b) {
      assert KeyPath(path, a)[|path| + 1..] == a;
      assert KeyPath(path, b)[|path| + 1..] == b;
    }
  }

  lemma {:induction false} KeyPathsMembers(path: string, keys: seq<string>, k: string)
    ensures KeyPath(path, k) in KeyPaths(path, keys) <==> k in keys
  {
    if |keys| > 0 {
      KeyPathInjective(path, keys[0], k);
      KeyPathsMembers(path, keys[1..], k);
      assert keys == [keys[0]] + keys[1..];
    }
  }

  /** The analysis of a subtree succeeds; it adds nothing when the subtree
      is `clean`, and otherwise leaves at least one duplicate on record. */
  predicate Settles(r: Result<set<string>, Failure>, duplicates: set<string>, clean: bool)
  {
    r.Ok? && (clean ==> r.value == duplicates) && (!clean ==> r.value != {})
  }

  lemma {:induction false} ObjectFindings(obj: Comp, duplicates: set<string>, path: string)
    requires IsDerived(obj, JSON_OBJECT)
    ensures Settles(ObjectDuplicates(obj, duplicates, path), duplicates, KeysDistinctThroughout(obj))
    decreases obj, 1
  {
    ObjectShape(obj);
    var ch := obj.children;
    if |ch| == 3 {
      assert Id(ch[1]) == BODY;
      BodyFindings(ch[1], {}, duplicates, path);
      ObjectThroughout(obj);
    } else {
      assert !HasChild(obj, BODY);
      EmptyObjectThroughout(obj);
    }
  }

  lemma {:induction false} ValueFindings(value: Comp, duplicates: set<string>, path: string)
    requires IsDerived(value, VALUE)
    ensures Settles(ValueDuplicates(value, duplicates, path), duplicates, KeysDistinctThroughout(value))
    decreases value, 1
  {
    ValueShape(value);
    var ch := value.children;
    if |ch| == 1 {
      OnlyChildThroughout(value);
      if IsDerived(ch[0], JSON_OBJECT) {
        ObjectFindings(ch[0], duplicates, path);
      } else {
        assert !HasChild(value, VALUE);
        if IsDerived(ch[0], NUMBER_VALUE) {
          NumberShape(ch[0]);
          TokensThroughout(ch[0]);
        }
        assert KeysDistinctThroughout(ch[0]);
      }
    } else if |ch| == 3 {
      assert Id(ch[1]) == VALUE;
      var r := ValueDuplicates(ch[1], duplicates, ElementPath(path, 0));
      ValueFindings(ch[1], duplicates, ElementPath(path, 0));
      ArrayFindings(ch[2], r.value, path, 1);
      TripleThroughout(value);
    } else {
      assert !HasChild(value, VALUE);
      TokensThroughout(value);
    }
  }

  lemma {:induction false} ArrayFindings(arrayEnd: Comp, duplicates: set<string>, path: string, index: nat)
    requires IsDerived(arrayEnd, ARRAY_END)
    ensures Settles(ArrayDuplicates(arrayEnd, duplicates, path, index), duplicates, KeysDistinctThroughout(arrayEnd))
    decreases arrayEnd, 1
  {
    ArrayEndShape(arrayEnd);
    var ch := arrayEnd.children;
    if |ch| == 3 {
      assert Id(ch[1]) == VALUE;
      var r := ValueDuplicates(ch[1], duplicates, ElementPath(path, index));
      ValueFindings(ch[1], duplicates, ElementPath(path, index));
      ArrayFindings(ch[2], r.value, path, index + 1);
      TripleThroughout(arrayEnd);
    } else {
      assert !HasChild(arrayEnd, VALUE);
      TokensThroughout(arrayEnd);
    }
  }

  /** Inspecting a body records the path of each of its keys. It adds no
      duplicate exactly when no key was scanned before, no key repeats and
      no object inside the values repeats a key. */
  lemma {:induction false} BodyFindings(body: Comp, scanned: set<string>, duplicates: set<string>, path: string)
    requires IsDerived(body, BODY)
    ensures var r := BodyDuplicates(body, scanned, duplicates, path);
      var keys := BodyKeys(body);
      r.Ok? && r.value.scanned == scanned + KeyPaths(path, keys)
      && Settles(Ok(r.value.duplicates), duplicates,
                 scanned !! KeyPaths(path, keys) && Distinct(keys) && KeysDistinctThroughout(body))
    decreases body, 1
  {
    BodyShape(body);
    var ch := body.children;
    var k0 := ch[0].token.value;
    var current := KeyPath(path, k0);
    var found := if current in scanned then duplicates + {current} else duplicates;
    var keys := BodyKeys(body);
    BodyStep(body, scanned, duplicates, path);
    BodyThroughout(body);
    if |ch| == 5 {
      LinkFindings(body, scanned, duplicates, path);
    } else {
      assert keys == [k0];
      KeyPathsCons(path, k0, []);
      ValueFindings(ch[2], found, current);
    }
  }

  /** The case of `BodyFindings` where a body follows the first key. */
  lemma {:induction false} LinkFindings(body: Comp, scanned: set<string>, duplicates: set<string>, path: string)
    requires IsDerived(body, BODY) && BodyShaped(body) && |body.children| == 5
    ensures var r := BodyDuplicates(body, scanned, duplicates, path);
      var keys := BodyKeys(body);
      r.Ok? && r.value.scanned == scanned + KeyPaths(path, keys)
      && Settles(Ok(r.value.duplicates), duplicates,
                 scanned !! KeyPaths(path, keys) && Distinct(keys)
                 && KeysDistinctThroughout(body.children[2]) && KeysDistinctThroughout(body.children[4]))
    decreases body, 0
  {
    var ch := body.children;
    var k0 := ch[0].token.value;
    var current := KeyPath(path, k0);
    var found := if current in scanned then duplicates + {current} else duplicates;
    BodyStep(body, scanned, duplicates, path);
    var rest := ch[4];
    var restKeys := BodyKeys(rest);
    assert BodyKeys(body) == [k0] + restKeys;
    BodyFindings(rest, scanned + {current}, found, path);
    var after := BodyDuplicates(rest, scanned + {current}, found, path).value;
    ValueFindings(ch[2], after.duplicates, current);
    KeyPathsCons(path, k0, restKeys);
    CleanCons(scanned, path, k0, restKeys);
  }

  /** Adding a key in front: the keys stay clear of `scanned` and distinct
      exactly when the first one is new and the rest stay clear of
      `scanned` with it added. */
  lemma CleanCons(scanned: set<string>, path: string, k: string, keys: seq<string>)
    ensures (scanned !! KeyPaths(path, [k] + keys) && Distinct([k] + keys)) <==>
      (KeyPath(path, k) !in scanned && (scanned + {KeyPath(path, k)}) !! KeyPaths(path, keys) && Distinct(keys))
  {
    KeyPathsMembers(path, keys, k);
    KeyPathsCons(path, k, keys);
    DistinctCons(k, keys);
  }

  /** One step of `inspectBody` on a body of the JSON grammar. */
  lemma BodyStep(body: Comp, scanned: set<string>, duplicates: set<string>, path: string)
    requires BodyShaped(body)
    ensures var ch := body.children;
      var current := KeyPath(path, ch[0].token.value);
      var found := if current in scanned then duplicates + {current} else duplicates;
      var rest := if |ch| == 5 then BodyDuplicates(ch[4], scanned + {current}, found, path)
                  else Ok(Scan(scanned + {current}, found));
      BodyDuplicates(body, scanned, duplicates, path) ==
        if rest.Err? then Err(rest.error)
        else match ValueDuplicates(ch[2], rest.value.duplicates, current)
          case Err(f) => Err(f)
          case Ok(d) => Ok(Scan(rest.value.scanned, d))
  {
    var ch := body.children;
    assert GetToken(body, 0) == Ok(ch[0].token);
    assert GetNode(body, 2) == Ok(ch[2]);
    if |ch| == 5 {
      assert Id(ch[4]) == BODY;
      assert GetNode(body, 4) == Ok(ch[4]);
    } else {
      assert !HasChild(body, BODY);
    }
  }

  lemma KeyPathsCons(path: string, k: string, keys: seq<string>)
    ensures KeyPaths(path, [k] + keys) == {KeyPath(path, k)} + KeyPaths(path, keys)
  {
    assert ([k] + keys)[1..] == keys;
  }

  lemma DistinctCons(k: string, keys: seq<string>)
    ensures Distinct([k] + keys) <==> k !in keys && Distinct(keys)
  {
    var all := [k] + keys;
    assert all[0] == k;
    if Distinct(all) {
      forall i, j | 0 <= i < j < |keys| ensures keys[i] != keys[j] {
        assert all[i + 1] == keys[i] && all[j + 1] == keys[j];
      }
      forall i | 0 <= i < |keys| ensures keys[i] != k {
        assert all[i + 1] == keys[i];
      }
    }
  }

  /** On every tree the JSON parser can return, the analyzer fails exactly
      when some object lists a key twice, and then with the duplicate
      paths; objects are checked separately, so a key may recur in
      different objects. */
  lemma AnalyzerRejectsRepeatedKeys(tokens: seq<Token>, tree: Comp)
    requires IsDerived(tree, JSON_OBJECT)
    ensures AnalyzeSpec(tokens, tree).None? <==> KeysDistinctThroughout(tree)
    ensures AnalyzeSpec(tokens, tree).Some? ==> AnalyzeSpec(tokens, tree).value.DuplicateKeys?
  {
    ObjectFindings(tree, {}, ROOT_PATH);
  }
}
