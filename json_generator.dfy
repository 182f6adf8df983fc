/** `JsonModelGenerator`: turns the tree of a JSON document into the
    property model. Each value under a body becomes a property keyed by the
    string before it; array elements are keyed by their position. */
module JsonGeneration {
  import opened Wrappers
  import opened Failures
  import opened Components
  import opened SymbolTreeNodes
  import opened JsonLexing
  import opened JsonParsing
  import opened JsonTrees
  import M = JsonModel
  import Tokens
  import Text

  const NOT_AN_OBJECT: string := "Expected root to be a JSON object."

  function Unresolved(value: Comp): Failure
    requires value.Node?
  {
    IllegalArgument(value.id + " did not resolve to a value.")
  }

  /** The position of the first `BODY` child, if any: the stream
      `filter(isJsonObjectBody).findFirst()`. */
  function FirstBody(children: seq<Comp>): (r: Option<nat>)
    ensures r.Some? ==> r.value < |children| && IsJsonObjectBody(children[r.value])
    ensures r.Some? ==> forall k :: 0 <= k < r.value ==> !IsJsonObjectBody(children[k])
    ensures r.None? <==> forall k :: 0 <= k < |children| ==> !IsJsonObjectBody(children[k])
  {
    if |children| == 0 then None
    else if IsJsonObjectBody(children[0]) then Some(0)
    else
      var rest := FirstBody(children[1..]);
      if rest.Some? then Some(rest.value + 1) else None
  }

  /** The properties of the body the node holds, or none without a body. */
  function BodyOf(node: Comp): (r: Result<seq<M.Property>, Failure>)
    requires node.Node?
    decreases node, 0
  {
    match FirstBody(node.children)
    case None => Ok([])
    case Some(i) =>
      match CastNode(node.children[i])
      case Err(f) => Err(f)
      case Ok(_) => MapBody(node.children[i])
  }

  /** `mapObject(key, node)`: the body's properties, gathered into an
      object, which fails on a repeated key. */
  function MapObject(key: string, obj: Comp): (r: Result<M.Property, Failure>)
    requires obj.Node?
    ensures r.Ok? ==> r.value.Object? && r.value.key == key && M.DistinctKeys(r.value.entries)
    ensures BodyOf(obj).Ok? ==> (r.Ok? <==> M.DistinctKeys(BodyOf(obj).value))
    decreases obj, 1
  {
    match BodyOf(obj)
    case Err(f) => Err(f)
    case Ok(entries) => M.NewObject(key, entries)
  }

  /** The state of the `mapBody` loop after `n` children. */
  datatype BodyState = BodyState(properties: seq<M.Property>, currentKey: string)

  /** One pass of the `mapBody` loop, over child `c`: a string sets the
      key, a value is mapped under it, a nested body adds its properties,
      anything else is skipped. */
  function BodyChild(state: BodyState, c: Comp): (r: Result<BodyState, Failure>)
    ensures r.Ok? ==> state.properties <= r.value.properties
    ensures r.Ok? && !IsStringLiteral(c) ==> r.value.currentKey == state.currentKey
    decreases c, if c.Node? then |c.children| + 4 else 0
  {
    if IsStringLiteral(c) then
      match Tokens.ValueOf(c)
      case Err(f) => Err(f)
      case Ok(key) => Ok(state.(currentKey := key))
    else if IsJsonValue(c) then
      match CastNode(c)
      case Err(f) => Err(f)
      case Ok(_) =>
        match MapValue(state.currentKey, c)
        case Err(f) => Err(f)
        case Ok(p) => Ok(state.(properties := state.properties + [p]))
    else if IsJsonObjectBody(c) then
      match CastNode(c)
      case Err(f) => Err(f)
      case Ok(_) =>
        match MapBody(c)
        case Err(f) => Err(f)
        case Ok(ps) => Ok(state.(properties := state.properties + ps))
    else Ok(state)
  }

  /** The `mapBody` loop over the first `n` children. */
  function BodyFold(body: Comp, n: nat): (r: Result<BodyState, Failure>)
    requires body.Node? && n <= |body.children|
    decreases body, n
  {
    if n == 0 then Ok(BodyState([], ""))
    else
      match BodyFold(body, n - 1)
      case Err(f) => Err(f)
      case Ok(state) => BodyChild(state, body.children[n - 1])
  }

  /** `mapBody(body)`. */
  function MapBody(body: Comp): (r: Result<seq<M.Property>, Failure>)
    requires body.Node?
    ensures |body.children| == 0 ==> r == Ok([])
    decreases body, |body.children| + 3
  {
    match BodyFold(body, |body.children|)
    case Err(f) => Err(f)
    case Ok(state) => Ok(state.properties)
  }

  /** `mapValue(key, node)`, decided by the node's first child. A non-empty
      array is `mapArrayValue`: its first element keyed "0", the rest from
      index 1. */
  function MapValue(key: string, value: Comp): (r: Result<M.Property, Failure>)
    requires value.Node?
    ensures r.Ok? ==> r.value.key == key
    decreases value, 0
  {
    match SymbolTreeNodes.Get(value, 0)
    case Err(f) => Err(f)
    case Ok(definition) =>
      if IsJsonObject(definition) then
        match CastNode(definition)
        case Err(f) => Err(f)
        case Ok(_) => MapObject(key, definition)
      else if IsNullLiteral(definition) then Ok(M.Null(key))
      else if IsStringLiteral(definition) then
        match Tokens.ValueOf(definition)
        case Err(f) => Err(f)
        case Ok(s) => Ok(M.Plain(key, M.Str(s)))
      else if IsBooleanLiteral(definition) then
        match Tokens.ValueOf(definition)
        case Err(f) => Err(f)
        case Ok(s) => Ok(M.Plain(key, M.Bool(M.ParseBoolean(s))))
      else if IsJsonNumberValue(definition) then
        match CastNode(definition)
        case Err(f) => Err(f)
        case Ok(_) => MapNumber(key, definition)
      else if IsArrayStart(definition) then
        match SymbolTreeNodes.Get(value, 1)
        case Err(f) => Err(f)
        case Ok(next) =>
          if IsArrayEnd(next) then Ok(M.Array(key, []))
          else
            match CastNode(next)
            case Err(f) => Err(f)
            case Ok(_) =>
              match GetNode(value, 2)
              case Err(f) => Err(f)
              case Ok(end) =>
                match MapValue("0", next)
                case Err(f) => Err(f)
                case Ok(first) =>
                  match MapArrayToEnd(1, end)
                  case Err(f) => Err(f)
                  case Ok(rest) => Ok(M.Array(key, [first] + rest))
      else Err(Unresolved(value))
  }

  /** The children's identifiers are exactly `sentence`: `is(sentence...)`. */
  predicate Spells(node: Comp, sentence: seq<string>)
    requires node.Node?
  {
    |sentence| == |node.children| && forall i :: 0 <= i < |sentence| ==> sentence[i] == Id(node.children[i])
  }

  /** The numeral `mapNumber` parses: integer and fraction joined, a bare
      fraction after a "0", an integer as it is. */
  function NumberText(number: Comp): (r: Result<string, Failure>)
    requires number.Node?
  {
    match GetToken(number, 0)
    case Err(f) => Err(f)
    case Ok(first) =>
      if Spells(number, [NUMBER_LITERAL, DECIMAL_LITERAL]) then
        match GetToken(number, 1)
        case Err(f) => Err(f)
        case Ok(second) => Ok(first.value + second.value)
      else if Spells(number, [DECIMAL_LITERAL]) then Ok("0" + first.value)
      else Ok(first.value)
  }

  /** `mapNumber(key, node)`. */
  function MapNumber(key: string, number: Comp): (r: Result<M.Property, Failure>)
    requires number.Node?
    ensures r.Ok? <==> NumberText(number).Ok?
    ensures r.Ok? ==> r.value == M.Plain(key, M.Num(M.ParseNumber(NumberText(number).value)))
  {
    match NumberText(number)
    case Err(f) => Err(f)
    case Ok(text) => Ok(M.Plain(key, M.Num(M.ParseNumber(text))))
  }

  /** The state of the `mapArrayToEnd` loop: the elements so far and the
      index the loop's variable holds. */
  datatype ArrayState = ArrayState(elements: seq<M.Property>, index: nat)

  /** One pass of the `mapArrayToEnd` loop, over child `c`: a value is
      mapped under the current index; the rest of the array is mapped from
      the next index, which the loop then holds. */
  function ArrayChild(state: ArrayState, c: Comp): (r: Result<ArrayState, Failure>)
    ensures r.Ok? ==> state.elements <= r.value.elements
    ensures r.Ok? ==> r.value.index == if IsContinuedArray(c) && !IsJsonValue(c) then state.index + 1 else state.index
    decreases c, if c.Node? then |c.children| + 4 else 0
  {
    if IsJsonValue(c) then
      match CastNode(c)
      case Err(f) => Err(f)
      case Ok(_) =>
        match MapValue(Text.IntToString(state.index), c)
        case Err(f) => Err(f)
        case Ok(p) => Ok(state.(elements := state.elements + [p]))
    else if IsContinuedArray(c) then
      match CastNode(c)
      case Err(f) => Err(f)
      case Ok(_) =>
        match MapArrayToEnd(state.index + 1, c)
        case Err(f) => Err(f)
        case Ok(ps) => Ok(ArrayState(state.elements + ps, state.index + 1))
    else Ok(state)
  }

  /** The `mapArrayToEnd` loop over the first `n` children. */
  function ArrayFold(index: nat, arrayEnd: Comp, n: nat): (r: Result<ArrayState, Failure>)
    requires arrayEnd.Node? && n <= |arrayEnd.children|
    decreases arrayEnd, n
  {
    if n == 0 then Ok(ArrayState([], index))
    else
      match ArrayFold(index, arrayEnd, n - 1)
      case Err(f) => Err(f)
      case Ok(state) => ArrayChild(state, arrayEnd.children[n - 1])
  }

  /** `mapArrayToEnd(index, node)`, with the index advanced before the
      recursive call. */
  function MapArrayToEnd(index: nat, arrayEnd: Comp): (r: Result<seq<M.Property>, Failure>)
    requires arrayEnd.Node?
    ensures |arrayEnd.children| == 0 ==> r == Ok([])
    decreases arrayEnd, |arrayEnd.children| + 3
  {
    match ArrayFold(index, arrayEnd, |arrayEnd.children|)
    case Err(f) => Err(f)
    case Ok(state) => Ok(state.elements)
  }

  /** `generate(tree)`: the root must be an object; its body's properties
      become the top-level `Json`. */
  function GenerateSpec(tree: Comp): (r: Result<M.Json, Failure>)
    ensures tree.Node? && !IsJsonObject(tree) ==> r == Err(IllegalArgument(NOT_AN_OBJECT))
  {
    match CastNode(tree)
    case Err(f) => Err(f)
    case Ok(root) =>
      if !IsJsonObject(root) then Err(IllegalArgument(NOT_AN_OBJECT))
      else
        match BodyOf(root)
        case Err(f) => Err(f)
        case Ok(entries) => M.NewJson(entries)
  }

  /** `generate(tokens, tree)`, the `Generator` the compiler calls. */
  function Generate(tokens: seq<Token>, tree: Comp): (r: Result<Option<M.Json>, Failure>)
    ensures r.Ok? <==> GenerateSpec(tree).Ok?
    ensures r.Ok? ==> r.value == Some(GenerateSpec(tree).value)
  {
    match GenerateSpec(tree)
    case Err(f) => Err(f)
    case Ok(j) => Ok(Some(j))
  }

  // The loops

  /** `mapBody(body)`: the loop over the children. */
  method MapBodyLoop(body: Comp) returns (r: Result<seq<M.Property>, Failure>)
    requires body.Node?
    ensures r == MapBody(body)
    decreases body, 0
  {
    var state := BodyState([], "");
    var i := 0;
    while i < |body.children|
      invariant i <= |body.children|
      invariant BodyFold(body, i) == Ok(state)
    {
      var next := MapBodyChild(state, body.children[i]);
      if next.Err? {
        BodyFoldStaysFailed(body, i + 1, |body.children|);
        return Err(next.error);
      }
      state := next.value;
      i := i + 1;
    }
    return Ok(state.properties);
  }

  /** One pass of the `mapBody` loop: a nested body is mapped by
      `MapBodyLoop` again. */
  method MapBodyChild(state: BodyState, c: Comp) returns (r: Result<BodyState, Failure>)
    ensures r == BodyChild(state, c)
    decreases c, 1
  {
    if IsStringLiteral(c) {
      var key := Tokens.ValueOf(c);
      if key.Err? {
        return Err(key.error);
      }
      return Ok(state.(currentKey := key.value));
    } else if IsJsonValue(c) {
      var node := CastNode(c);
      if node.Err? {
        return Err(node.error);
      }
      var p := MapValue(state.currentKey, c);
      if p.Err? {
        return Err(p.error);
      }
      return Ok(state.(properties := state.properties + [p.value]));
    } else if IsJsonObjectBody(c) {
      var node := CastNode(c);
      if node.Err? {
        return Err(node.error);
      }
      var ps := MapBodyLoop(c);
      if ps.Err? {
        return Err(ps.error);
      }
      return Ok(state.(properties := state.properties + ps.value));
    }
    return Ok(state);
  }

  /** Once a child fails, the rest of the body is not mapped. */
  lemma {:induction false} BodyFoldStaysFailed(body: Comp, n: nat, m: nat)
    requires body.Node? && n <= m <= |body.children| && BodyFold(body, n).Err?
    ensures BodyFold(body, m) == BodyFold(body, n)
    decreases m
  {
    if m > n {
      BodyFoldStaysFailed(body, n, m - 1);
    }
  }

  /** `mapArrayToEnd(index, node)`: the loop over the children. */
  method MapArrayToEndLoop(index: nat, arrayEnd: Comp) returns (r: Result<seq<M.Property>, Failure>)
    requires arrayEnd.Node?
    ensures r == MapArrayToEnd(index, arrayEnd)
    decreases arrayEnd, 0
  {
    var elements: seq<M.Property> := [];
    var current := index;
    var i := 0;
    while i < |arrayEnd.children|
      invariant i <= |arrayEnd.children|
      invariant ArrayFold(index, arrayEnd, i) == Ok(ArrayState(elements, current))
    {
      var next := MapArrayChild(ArrayState(elements, current), arrayEnd.children[i]);
      if next.Err? {
        ArrayFoldStaysFailed(index, arrayEnd, i + 1, |arrayEnd.children|);
        return Err(next.error);
      }
      elements, current := next.value.elements, next.value.index;
      i := i + 1;
    }
    return Ok(elements);
  }

  /** One pass of the `mapArrayToEnd` loop: the rest of the array is mapped
      by `MapArrayToEndLoop` again, from the next index. */
  method MapArrayChild(state: ArrayState, c: Comp) returns (r: Result<ArrayState, Failure>)
    ensures r == ArrayChild(state, c)
    decreases c, 1
  {
    if IsJsonValue(c) {
      var node := CastNode(c);
      if node.Err? {
        return Err(node.error);
      }
      var p := MapValue(Text.IntToString(state.index), c);
      if p.Err? {
        return Err(p.error);
      }
      return Ok(state.(elements := state.elements + [p.value]));
    } else if IsContinuedArray(c) {
      var node := CastNode(c);
      if node.Err? {
        return Err(node.error);
      }
      var next := state.index + 1;
      var ps := MapArrayToEndLoop(next, c);
      if ps.Err? {
        return Err(ps.error);
      }
      return Ok(ArrayState(state.elements + ps.value, next));
    }
    return Ok(state);
  }

  /** Once a child fails, the rest of the array is not mapped. */
  lemma {:induction false} ArrayFoldStaysFailed(index: nat, arrayEnd: Comp, n: nat, m: nat)
    requires arrayEnd.Node? && n <= m <= |arrayEnd.children| && ArrayFold(index, arrayEnd, n).Err?
    ensures ArrayFold(index, arrayEnd, m) == ArrayFold(index, arrayEnd, n)
    decreases m
  {
    if m > n {
      ArrayFoldStaysFailed(index, arrayEnd, n, m - 1);
    }
  }

  // Properties on trees of the JSON grammar

  /** The keys of properties, in order. */
  function Keys(ps: seq<M.Property>): (r: seq<string>)
    ensures |r| == |ps|
    ensures forall i :: 0 <= i < |ps| ==> r[i] == ps[i].key
  {
    if |ps| == 0 then [] else [ps[0].key] + Keys(ps[1..])
  }

  /** The keys the first body of an object lists. */
  function ObjectKeys(obj: Comp): seq<string>
    requires obj.Node?
  {
    match FirstBody(obj.children)
    case None => []
    case Some(i) => BodyKeys(obj.children[i])
  }

  lemma DistinctKeysAreDistinct(ps: seq<M.Property>)
    ensures M.DistinctKeys(ps) <==> Distinct(Keys(ps))
  {
  }

  lemma IdsDiffer()
    ensures VALUE != COLON && VALUE != COMMA && BODY != COLON && BODY != COMMA
    ensures NULL_LITERAL != L_SQ_BRACKET && NUMBER_VALUE != L_SQ_BRACKET && ARRAY_END != COMMA
  {
    PhrasesAreNotTokens();
    assert NULL_LITERAL[0] != L_SQ_BRACKET[0];
  }

  /** Elements keyed by consecutive indices from `start`: a first element
      keyed `start`, then elements keyed from `start + 1`. */
  lemma ConsecutiveKeys(head: M.Property, tail: seq<M.Property>, start: nat)
    requires head.key == Text.IntToString(start)
    requires forall i :: 0 <= i < |tail| ==> tail[i].key == Text.IntToString(start + 1 + i)
    ensures var elements := [head] + tail;
      forall i :: 0 <= i < |elements| ==> elements[i].key == Text.IntToString(start + i)
  {
    var elements := [head] + tail;
    forall i | 0 <= i < |elements| ensures elements[i].key == Text.IntToString(start + i) {
      if i > 0 {
        assert elements[i] == tail[i - 1];
      }
    }
  }

  /** `mapBody` on a body of the grammar: the value under the body's key,
      then the properties of the body nested in it. */
  lemma BodyStep(body: Comp)
    requires BodyShaped(body)
    ensures var ch := body.children;
      MapBody(body) ==
        match MapValue(ch[0].token.value, ch[2])
        case Err(f) => Err(f)
        case Ok(p) =>
          if |ch| == 3 then Ok([p])
          else match MapBody(ch[4])
            case Err(f) => Err(f)
            case Ok(ps) => Ok([p] + ps)
  {
    var ch := body.children;
    var k := ch[0].token.value;
    IdsDiffer();
    var start := BodyState([], k);
    assert BodyChild(BodyState([], ""), ch[0]) == Ok(start);
    assert BodyFold(body, 1) == Ok(start);
    assert BodyChild(start, ch[1]) == Ok(start);
    assert BodyFold(body, 2) == Ok(start);
    assert IsJsonValue(ch[2]) && !IsStringLiteral(ch[2]) && CastNode(ch[2]) == Ok(ch[2]);
    var v := MapValue(k, ch[2]);
    if v.Ok? {
      assert [] + [v.value] == [v.value];
    }
    assert BodyChild(start, ch[2]) == if v.Err? then Err(v.error) else Ok(BodyState([v.value], k));
    assert BodyFold(body, 3) == if v.Err? then Err(v.error) else Ok(BodyState([v.value], k));
    if |ch| == 5 && v.Ok? {
      var after := BodyState([v.value], k);
      assert BodyChild(after, ch[3]) == Ok(after);
      assert BodyFold(body, 4) == Ok(after);
      assert IsJsonObjectBody(ch[4]) && !IsJsonValue(ch[4]) && !IsStringLiteral(ch[4]) && CastNode(ch[4]) == Ok(ch[4]);
      var rest := MapBody(ch[4]);
      assert BodyChild(after, ch[4]) == if rest.Err? then Err(rest.error) else Ok(BodyState([v.value] + rest.value, k));
      assert BodyFold(body, 5) == BodyChild(after, ch[4]);
      assert MapBody(body) == if rest.Err? then Err(rest.error) else Ok([v.value] + rest.value);
    } else if |ch| == 3 {
      assert MapBody(body) == if v.Err? then Err(v.error) else Ok([v.value]);
    } else {
      assert BodyFold(body, 4) == Err(v.error);
      assert BodyFold(body, 5) == Err(v.error);
    }
  }

  /** `mapArrayToEnd` on an array end of the grammar: the value under the
      index, then the rest of the array from the next index. */
  lemma ArrayStep(index: nat, arrayEnd: Comp)
    requires arrayEnd.Node?
    requires var ch := arrayEnd.children;
      (|ch| == 3 && IsTok(ch[0], COMMA) && ch[1].Node? && ch[1].id == VALUE && ch[2].Node? && ch[2].id == ARRAY_END)
      || (|ch| == 1 && IsTok(ch[0], R_SQ_BRACKET))
    ensures var ch := arrayEnd.children;
      |ch| == 1 ==> MapArrayToEnd(index, arrayEnd) == Ok([])
    ensures var ch := arrayEnd.children;
      |ch| == 3 ==>
      MapArrayToEnd(index, arrayEnd) ==
        match MapValue(Text.IntToString(index), ch[1])
        case Err(f) => Err(f)
        case Ok(p) =>
          match MapArrayToEnd(index + 1, ch[2])
          case Err(f) => Err(f)
          case Ok(ps) => Ok([p] + ps)
  {
    IdsDiffer();
    var ch := arrayEnd.children;
    var start := ArrayState([], index);
    if |ch| == 3 {
      assert ArrayChild(start, ch[0]) == Ok(start);
      assert ArrayFold(index, arrayEnd, 1) == Ok(start);
      assert IsJsonValue(ch[1]) && CastNode(ch[1]) == Ok(ch[1]);
      var v := MapValue(Text.IntToString(index), ch[1]);
      if v.Ok? {
        assert [] + [v.value] == [v.value];
      }
      assert ArrayChild(start, ch[1]) == if v.Err? then Err(v.error) else Ok(ArrayState([v.value], index));
      assert ArrayFold(index, arrayEnd, 2) == if v.Err? then Err(v.error) else Ok(ArrayState([v.value], index));
      assert IsContinuedArray(ch[2]) && !IsJsonValue(ch[2]) && CastNode(ch[2]) == Ok(ch[2]);
      if v.Ok? {
        var rest := MapArrayToEnd(index + 1, ch[2]);
        assert ArrayChild(ArrayState([v.value], index), ch[2]) ==
          if rest.Err? then Err(rest.error) else Ok(ArrayState([v.value] + rest.value, index + 1));
        assert ArrayFold(index, arrayEnd, 3) == ArrayChild(ArrayState([v.value], index), ch[2]);
        assert MapArrayToEnd(index, arrayEnd) == if rest.Err? then Err(rest.error) else Ok([v.value] + rest.value);
      } else {
        assert ArrayFold(index, arrayEnd, 3) == Err(v.error);
      }
    } else {
      assert !IsJsonValue(ch[0]) && !IsContinuedArray(ch[0]);
      assert ArrayChild(start, ch[0]) == Ok(start);
      assert ArrayFold(index, arrayEnd, 1) == Ok(start);
    }
  }

  /** `mapValue` on a value of the grammar, one alternative at a time: an
      object, `null`, a string, a boolean and a number become the property
      of that kind under the key; `[` then `]` an empty array; a non-empty
      array its first element keyed "0", then the rest from index 1. */
  lemma ValueStep(key: string, value: Comp)
    requires IsDerived(value, VALUE)
    ensures var ch := value.children;
      |ch| == 1 && IsDerived(ch[0], JSON_OBJECT) ==> MapValue(key, value) == MapObject(key, ch[0])
    ensures var ch := value.children;
      |ch| == 1 && IsTok(ch[0], NULL_LITERAL) ==> MapValue(key, value) == Ok(M.Null(key))
    ensures var ch := value.children;
      |ch| == 1 && IsTok(ch[0], STRING_LITERAL) ==> MapValue(key, value) == Ok(M.Plain(key, M.Str(ch[0].token.value)))
    ensures var ch := value.children;
      |ch| == 1 && IsTok(ch[0], BOOLEAN_LITERAL) ==>
      MapValue(key, value) == Ok(M.Plain(key, M.Bool(M.ParseBoolean(ch[0].token.value))))
    ensures var ch := value.children;
      |ch| == 1 && IsDerived(ch[0], NUMBER_VALUE) ==> MapValue(key, value) == MapNumber(key, ch[0])
    ensures var ch := value.children;
      |ch| == 2 ==> MapValue(key, value) == Ok(M.Array(key, []))
    ensures var ch := value.children;
      |ch| == 3 && ch[1].Node? && ch[2].Node? ==>
      var head := MapValue("0", ch[1]);
      var tail := MapArrayToEnd(1, ch[2]);
      MapValue(key, value) ==
        if head.Err? then Err(head.error)
        else if tail.Err? then Err(tail.error)
        else Ok(M.Array(key, [head.value] + tail.value))
  {
    ValueShape(value);
    IdsDiffer();
    var ch := value.children;
    assert SymbolTreeNodes.Get(value, 0) == Ok(ch[0]);
    if |ch| == 2 {
      assert SymbolTreeNodes.Get(value, 1) == Ok(ch[1]) && IsArrayEnd(ch[1]);
    } else if |ch| == 3 {
      assert SymbolTreeNodes.Get(value, 1) == Ok(ch[1]) && !IsArrayEnd(ch[1]);
      assert GetNode(value, 2) == Ok(ch[2]);
    }
  }

  /** An object maps exactly when no object in it repeats a key; its
      entries carry the keys of its body, in order. */
  lemma {:induction false} ObjectMaps(key: string, obj: Comp)
    requires IsDerived(obj, JSON_OBJECT)
    ensures MapObject(key, obj).Ok? <==> KeysDistinctThroughout(obj)
    ensures MapObject(key, obj).Ok? ==>
      MapObject(key, obj).value.Object? && MapObject(key, obj).value.key == key
      && Keys(MapObject(key, obj).value.entries) == ObjectKeys(obj)
    decreases obj, 1
  {
    ObjectShape(obj);
    var ch := obj.children;
    if |ch| == 3 {
      assert IsJsonObjectBody(ch[1]) && !IsJsonObjectBody(ch[0]);
      assert FirstBody(ch) == Some(1);
      BodyMaps(ch[1]);
      if MapBody(ch[1]).Ok? {
        DistinctKeysAreDistinct(MapBody(ch[1]).value);
      }
      ObjectThroughout(obj);
    } else {
      assert FirstBody(ch) == None;
      EmptyObjectThroughout(obj);
    }
  }

  /** A body maps exactly when no object in its values repeats a key; its
      properties carry the body's keys, in order. */
  lemma {:induction false} BodyMaps(body: Comp)
    requires IsDerived(body, BODY)
    ensures MapBody(body).Ok? <==> KeysDistinctThroughout(body)
    ensures MapBody(body).Ok? ==> Keys(MapBody(body).value) == BodyKeys(body)
    decreases body, 1
  {
    BodyShape(body);
    BodyStep(body);
    var ch := body.children;
    var k := ch[0].token.value;
    ValueMaps(k, ch[2]);
    BodyThroughout(body);
    if |ch| == 5 {
      BodyMaps(ch[4]);
      assert BodyKeys(body) == [k] + BodyKeys(ch[4]);
    } else {
      assert BodyKeys(body) == [k];
    }
  }

  /** A value maps exactly when no object in it repeats a key. It keeps its
      key; a non-empty array keys its elements by position. */
  lemma {:induction false} ValueMaps(key: string, value: Comp)
    requires IsDerived(value, VALUE)
    ensures MapValue(key, value).Ok? <==> KeysDistinctThroughout(value)
    ensures MapValue(key, value).Ok? && MapValue(key, value).value.Array? ==>
      var elements := MapValue(key, value).value.elements;
      forall i :: 0 <= i < |elements| ==> elements[i].key == Text.IntToString(i)
    decreases value, 1
  {
    ValueShape(value);
    ValueStep(key, value);
    var ch := value.children;
    if |ch| == 1 {
      OnlyChildThroughout(value);
      if IsDerived(ch[0], JSON_OBJECT) {
        ObjectMaps(key, ch[0]);
      } else if IsDerived(ch[0], NUMBER_VALUE) {
        NumberMaps(ch[0]);
      } else {
        assert KeysDistinctThroughout(ch[0]);
      }
    } else if |ch| == 3 {
      ArrayValueMaps(key, value);
    } else {
      TokensThroughout(value);
    }
  }

  /** The non-empty array case of `ValueMaps`. */
  lemma {:induction false} ArrayValueMaps(key: string, value: Comp)
    requires IsDerived(value, VALUE) && |value.children| == 3
    ensures MapValue(key, value).Ok? <==> KeysDistinctThroughout(value)
    ensures MapValue(key, value).Ok? ==> MapValue(key, value).value.Array?
    ensures MapValue(key, value).Ok? ==>
      var elements := MapValue(key, value).value.elements;
      forall i :: 0 <= i < |elements| ==> elements[i].key == Text.IntToString(i)
    decreases value, 0
  {
    ValueShape(value);
    ValueStep(key, value);
    var ch := value.children;
    var head := MapValue("0", ch[1]);
    var tail := MapArrayToEnd(1, ch[2]);
    ValueMaps("0", ch[1]);
    ArrayMaps(1, ch[2]);
    TripleThroughout(value);
    if head.Ok? && tail.Ok? {
      M.IntTextZero(0);
      ConsecutiveKeys(head.value, tail.value, 0);
    }
  }

  /** A number of the grammar always maps, and holds no object. */
  lemma NumberMaps(number: Comp)
    requires IsDerived(number, NUMBER_VALUE)
    ensures NumberText(number).Ok? && KeysDistinctThroughout(number)
  {
    NumberShape(number);
    var ch := number.children;
    TokensThroughout(number);
    assert GetToken(number, 0) == Ok(ch[0].token);
    if |ch| == 2 {
      assert GetToken(number, 1) == Ok(ch[1].token);
    }
  }

  /** The rest of an array maps exactly when no object in it repeats a key;
      its elements are keyed by consecutive indices from `index`. */
  lemma {:induction false} ArrayMaps(index: nat, arrayEnd: Comp)
    requires IsDerived(arrayEnd, ARRAY_END)
    ensures MapArrayToEnd(index, arrayEnd).Ok? <==> KeysDistinctThroughout(arrayEnd)
    ensures MapArrayToEnd(index, arrayEnd).Ok? ==>
      var elements := MapArrayToEnd(index, arrayEnd).value;
      forall i :: 0 <= i < |elements| ==> elements[i].key == Text.IntToString(index + i)
    decreases arrayEnd, 1
  {
    ArrayEndShape(arrayEnd);
    ArrayStep(index, arrayEnd);
    var ch := arrayEnd.children;
    if |ch| == 3 {
      var head := MapValue(Text.IntToString(index), ch[1]);
      var tail := MapArrayToEnd(index + 1, ch[2]);
      ValueMaps(Text.IntToString(index), ch[1]);
      ArrayMaps(index + 1, ch[2]);
      TripleThroughout(arrayEnd);
      if head.Ok? && tail.Ok? {
        ConsecutiveKeys(head.value, tail.value, index);
      }
    } else {
      OnlyChildThroughout(arrayEnd);
      assert KeysDistinctThroughout(ch[0]);
    }
  }

  /** The number rule: integer and fraction are joined, a bare fraction
      gets a leading "0", a bare integer is kept. */
  lemma NumberTextRule(number: Comp)
    requires number.Node?
    ensures var ch := number.children;
      |ch| == 2 && IsTok(ch[0], NUMBER_LITERAL) && IsTok(ch[1], DECIMAL_LITERAL) ==>
      NumberText(number) == Ok(ch[0].token.value + ch[1].token.value)
    ensures var ch := number.children;
      |ch| == 1 && IsTok(ch[0], DECIMAL_LITERAL) ==> NumberText(number) == Ok("0" + ch[0].token.value)
    ensures var ch := number.children;
      |ch| == 1 && IsTok(ch[0], NUMBER_LITERAL) ==> NumberText(number) == Ok(ch[0].token.value)
  {
    var ch := number.children;
    if |ch| > 0 && ch[0].Tok? {
      assert GetToken(number, 0) == Ok(ch[0].token);
    }
    if |ch| == 2 && ch[1].Tok? {
      assert GetToken(number, 1) == Ok(ch[1].token);
    }
    if |ch| == 1 && IsTok(ch[0], NUMBER_LITERAL) {
      assert NUMBER_LITERAL[0] != DECIMAL_LITERAL[0];
      assert !Spells(number, [DECIMAL_LITERAL]);
    }
  }

  /** The document maps exactly when no object in it repeats a key; the
      top-level entries carry the keys of its body, in order. */
  lemma GenerateMaps(tree: Comp)
    requires IsDerived(tree, JSON_OBJECT)
    ensures GenerateSpec(tree).Ok? <==> KeysDistinctThroughout(tree)
    ensures GenerateSpec(tree).Ok? ==> Keys(GenerateSpec(tree).value.entries) == ObjectKeys(tree)
  {
    ObjectMaps(M.JSON_KEY, tree);
    assert GenerateSpec(tree) == if MapObject(M.JSON_KEY, tree).Ok? then Ok(M.Json(MapObject(M.JSON_KEY, tree).value.entries))
                                 else Err(MapObject(M.JSON_KEY, tree).error);
  }

  /** Different indices give different keys. */
  lemma IndexKeysDiffer(a: nat, b: nat)
    requires a != b
    ensures Text.IntToString(a) != Text.IntToString(b)
  {
    Text.DigitsValueOfNatToString(a);
    Text.DigitsValueOfNatToString(b);
  }

  /** The elements of an array have pairwise different keys. */
  lemma ArrayKeysDistinct(key: string, value: Comp)
    requires IsDerived(value, VALUE)
    ensures MapValue(key, value).Ok? && MapValue(key, value).value.Array? ==>
      M.DistinctKeys(MapValue(key, value).value.elements)
  {
    ValueMaps(key, value);
    var r := MapValue(key, value);
    if r.Ok? && r.value.Array? {
      var elements := r.value.elements;
      forall i, j | 0 <= i < j < |elements| ensures elements[i].key != elements[j].key {
        IndexKeysDiffer(i, j);
      }
    }
  }

  // `mapArrayToEnd` as written: `index++` hands the nested call the index
  // before the increment.

  /** One pass of the `mapArrayToEnd` loop as written: the rest of the
      array is mapped from the same index. Only this array's own tail is
      mapped as written: an element that is itself an array goes through
      `MapValue`, and so through the corrected `MapArrayToEnd`. */
  function ArrayChildAsWritten(state: ArrayState, c: Comp): (r: Result<ArrayState, Failure>)
    decreases c, if c.Node? then |c.children| + 4 else 0
  {
    if IsJsonValue(c) then
      match CastNode(c)
      case Err(f) => Err(f)
      case Ok(_) =>
        match MapValue(Text.IntToString(state.index), c)
        case Err(f) => Err(f)
        case Ok(p) => Ok(state.(elements := state.elements + [p]))
    else if IsContinuedArray(c) then
      match CastNode(c)
      case Err(f) => Err(f)
      case Ok(_) =>
        match MapArrayToEndAsWritten(state.index, c)
        case Err(f) => Err(f)
        case Ok(ps) => Ok(ArrayState(state.elements + ps, state.index + 1))
    else Ok(state)
  }

  /** The `mapArrayToEnd` loop as written, over the first `n` children. */
  function ArrayFoldAsWritten(index: nat, arrayEnd: Comp, n: nat): (r: Result<ArrayState, Failure>)
    requires arrayEnd.Node? && n <= |arrayEnd.children|
    decreases arrayEnd, n
  {
    if n == 0 then Ok(ArrayState([], index))
    else
      match ArrayFoldAsWritten(index, arrayEnd, n - 1)
      case Err(f) => Err(f)
      case Ok(state) => ArrayChildAsWritten(state, arrayEnd.children[n - 1])
  }

  /** `mapArrayToEnd(index, node)` as written. */
  function MapArrayToEndAsWritten(index: nat, arrayEnd: Comp): (r: Result<seq<M.Property>, Failure>)
    requires arrayEnd.Node?
    decreases arrayEnd, |arrayEnd.children| + 1
  {
    match ArrayFoldAsWritten(index, arrayEnd, |arrayEnd.children|)
    case Err(f) => Err(f)
    case Ok(state) => Ok(state.elements)
  }

  lemma ArrayStepAsWritten(index: nat, arrayEnd: Comp)
    requires arrayEnd.Node?
    requires var ch := arrayEnd.children;
      (|ch| == 3 && IsTok(ch[0], COMMA) && ch[1].Node? && ch[1].id == VALUE && ch[2].Node? && ch[2].id == ARRAY_END)
      || (|ch| == 1 && IsTok(ch[0], R_SQ_BRACKET))
    ensures var ch := arrayEnd.children;
      |ch| == 1 ==> MapArrayToEndAsWritten(index, arrayEnd) == Ok([])
    ensures var ch := arrayEnd.children;
      |ch| == 3 ==>
      var head := MapValue(Text.IntToString(index), ch[1]);
      var tail := MapArrayToEndAsWritten(index, ch[2]);
      MapArrayToEndAsWritten(index, arrayEnd) ==
        if head.Err? then Err(head.error)
        else if tail.Err? then Err(tail.error)
        else Ok([head.value] + tail.value)
  {
    IdsDiffer();
    var ch := arrayEnd.children;
    var start := ArrayState([], index);
    if |ch| == 3 {
      assert ArrayChildAsWritten(start, ch[0]) == Ok(start);
      assert ArrayFoldAsWritten(index, arrayEnd, 1) == Ok(start);
      assert IsJsonValue(ch[1]) && CastNode(ch[1]) == Ok(ch[1]);
      var v := MapValue(Text.IntToString(index), ch[1]);
      if v.Ok? {
        assert [] + [v.value] == [v.value];
      }
      assert ArrayChildAsWritten(start, ch[1]) == if v.Err? then Err(v.error) else Ok(ArrayState([v.value], index));
      assert ArrayFoldAsWritten(index, arrayEnd, 2) == if v.Err? then Err(v.error) else Ok(ArrayState([v.value], index));
      assert IsContinuedArray(ch[2]) && !IsJsonValue(ch[2]) && CastNode(ch[2]) == Ok(ch[2]);
      if v.Ok? {
        var rest := MapArrayToEndAsWritten(index, ch[2]);
        assert ArrayChildAsWritten(ArrayState([v.value], index), ch[2]) ==
          if rest.Err? then Err(rest.error) else Ok(ArrayState([v.value] + rest.value, index + 1));
        assert ArrayFoldAsWritten(index, arrayEnd, 3) == ArrayChildAsWritten(ArrayState([v.value], index), ch[2]);
        assert MapArrayToEndAsWritten(index, arrayEnd) == if rest.Err? then Err(rest.error) else Ok([v.value] + rest.value);
      } else {
        assert ArrayFoldAsWritten(index, arrayEnd, 3) == Err(v.error);
      }
    } else {
      assert !IsJsonValue(ch[0]) && !IsContinuedArray(ch[0]);
      assert ArrayChildAsWritten(start, ch[0]) == Ok(start);
      assert ArrayFoldAsWritten(index, arrayEnd, 1) == Ok(start);
    }
  }

  /** As written, every element after the first of an array is keyed by the
      index the first call was given: "1". */
  lemma {:induction false} AsWrittenKeysRepeat(index: nat, arrayEnd: Comp)
    requires IsDerived(arrayEnd, ARRAY_END)
    ensures MapArrayToEndAsWritten(index, arrayEnd).Ok? ==>
      var elements := MapArrayToEndAsWritten(index, arrayEnd).value;
      forall i :: 0 <= i < |elements| ==> elements[i].key == Text.IntToString(index)
    decreases arrayEnd
  {
    ArrayEndShape(arrayEnd);
    ArrayStepAsWritten(index, arrayEnd);
    var ch := arrayEnd.children;
    if |ch| == 3 {
      var head := MapValue(Text.IntToString(index), ch[1]);
      var tail := MapArrayToEndAsWritten(index, ch[2]);
      AsWrittenKeysRepeat(index, ch[2]);
      if head.Ok? && tail.Ok? {
        SameKeys(head.value, tail.value, Text.IntToString(index));
      }
    }
  }

  lemma SameKeys(head: M.Property, tail: seq<M.Property>, key: string)
    requires head.key == key && forall i :: 0 <= i < |tail| ==> tail[i].key == key
    ensures forall i :: 0 <= i < |[head] + tail| ==> ([head] + tail)[i].key == key
  {
    var elements := [head] + tail;
    forall i | 0 <= i < |elements| ensures elements[i].key == key {
      if i > 0 {
        assert elements[i] == tail[i - 1];
      }
    }
  }

  /** The discrepancy: on an array end holding two or more elements (the
      tail of `[a, b, c]`), the code as written gives two elements the same
      key, where the corrected mapping keys them by their positions. */
  lemma AsWrittenRepeatsKeys(index: nat, arrayEnd: Comp)
    requires IsDerived(arrayEnd, ARRAY_END)
    requires MapArrayToEndAsWritten(index, arrayEnd).Ok? && |MapArrayToEndAsWritten(index, arrayEnd).value| >= 2
    ensures MapArrayToEndAsWritten(index, arrayEnd).value[1].key == MapArrayToEndAsWritten(index, arrayEnd).value[0].key
    ensures MapArrayToEnd(index, arrayEnd).Ok? ==>
      |MapArrayToEnd(index, arrayEnd).value| >= 2
      && MapArrayToEnd(index, arrayEnd).value[1].key != MapArrayToEnd(index, arrayEnd).value[0].key
  {
    AsWrittenKeysRepeat(index, arrayEnd);
    SameElementsButKeys(index, index, arrayEnd);
    ArrayMaps(index, arrayEnd);
    IndexKeysDiffer(index, index + 1);
  }

  /** Both mappings give the same number of elements, and succeed together,
      whatever indices they start from. */
  lemma {:induction false} SameElementsButKeys(index: nat, start: nat, arrayEnd: Comp)
    requires IsDerived(arrayEnd, ARRAY_END)
    ensures MapArrayToEnd(index, arrayEnd).Ok? <==> MapArrayToEndAsWritten(start, arrayEnd).Ok?
    ensures MapArrayToEnd(index, arrayEnd).Ok? ==>
      |MapArrayToEnd(index, arrayEnd).value| == |MapArrayToEndAsWritten(start, arrayEnd).value|
    decreases arrayEnd
  {
    ArrayEndShape(arrayEnd);
    ArrayStep(index, arrayEnd);
    ArrayStepAsWritten(start, arrayEnd);
    var ch := arrayEnd.children;
    if |ch| == 3 {
      ValueMaps(Text.IntToString(index), ch[1]);
      ValueMaps(Text.IntToString(start), ch[1]);
      SameElementsButKeys(index + 1, start, ch[2]);
    }
  }
}
