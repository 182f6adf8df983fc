/** The JSON property model: `JsonProperty` and its subclasses
    `ObjectProperty`, `ArrayProperty`, `NullProperty` and `MissingProperty`,
    and the top-level `Json` view with its path evaluation. */
module JsonModel {
  import opened Wrappers
  import opened Failures
  import Text

  /** A `Number` as `JsonProperty.parseNumber` makes it: a `Long`, a
      `Double` (kept as the decimal numeral it was parsed from), or the
      `Integer` 0 when neither parse succeeds. */
  datatype Number = Integral(value: int) | Decimal(numeral: string)

  /** The value of a plain `JsonProperty`: a `String`, a `Boolean` or a
      `Number`. */
  datatype Scalar = Str(s: string) | Bool(b: bool) | Num(n: Number)

  datatype Property =
    | Plain(key: string, scalar: Scalar)          // `JsonProperty`
    | Object(key: string, entries: seq<Property>) // `ObjectProperty`
    | Array(key: string, elements: seq<Property>) // `ArrayProperty`
    | Null(key: string)                           // `NullProperty`
    | Missing(key: string)                        // `MissingProperty`

  const NULL_VALUE: string := "null"
  const MISSING_VALUE: string := "<MISSING>"

  // ---------------------------------------------------------------------
  // Numbers

  /** A decimal numeral `Double.parseDouble` accepts: digits, optionally a
      point and more digits, at least one digit in all. */
  predicate IsDecimalNumeral(s: string)
  {
    var p := Text.IndexOfChar(s, '.');
    if p < 0 then |s| > 0 && Text.AllDigits(s)
    else Text.AllDigits(s[..p]) && Text.AllDigits(s[p + 1..]) && |s| > 1
  }

  /** `parseNumber(input)`: `Long.parseLong`, else `Double.parseDouble`,
      else 0. */
  function ParseNumber(input: string): (n: Number)
    ensures Text.ParseLong(input).Some? ==> n == Integral(Text.ParseLong(input).value)
    ensures Text.ParseLong(input).None? && IsDecimalNumeral(input) ==> n == Decimal(input)
    ensures n.Decimal? ==> IsDecimalNumeral(n.numeral)
  {
    var asLong := Text.ParseLong(input);
    if asLong.Some? then Integral(asLong.value)
    else if IsDecimalNumeral(input) then Decimal(input)
    else Integral(0)
  }

  /** The integer part of a decimal numeral. */
  function IntegerPart(numeral: string): nat
    requires IsDecimalNumeral(numeral)
  {
    var p := Text.IndexOfChar(numeral, '.');
    if p < 0 then Text.DigitsValue(numeral) else Text.DigitsValue(numeral[..p])
  }

  /** `Number.intValue()`: the low 32 bits of a `Long`; a `Double` is cut
      toward zero and saturates at `Integer.MAX_VALUE`. */
  function IntValue(n: Number): (i: int)
    ensures Text.INT_MIN <= i <= Text.INT_MAX
  {
    match n
    case Integral(v) => (v + 0x8000_0000) % 0x1_0000_0000 - 0x8000_0000
    case Decimal(numeral) =>
      if !IsDecimalNumeral(numeral) then 0
      else if IntegerPart(numeral) > Text.INT_MAX then Text.INT_MAX
      else IntegerPart(numeral)
  }

  function NumberText(n: Number): string
  {
    match n
    case Integral(v) => Text.IntToString(v)
    case Decimal(numeral) => numeral
  }

  /** `Boolean.parseBoolean`: "true" in any letter case. */
  predicate ParseBoolean(s: string)
  {
    |s| == 4 && s[0] in "tT" && s[1] in "rR" && s[2] in "uU" && s[3] in "eE"
  }

  function ScalarText(v: Scalar): string
  {
    match v
    case Str(s) => s
    case Bool(b) => if b then "true" else "false"
    case Num(n) => NumberText(n)
  }

  // ---------------------------------------------------------------------
  // Rendering

  /** `s1 + sep + s2 + ... + sn`. */
  function JoinWith(parts: seq<string>, sep: string): string
  {
    if |parts| == 0 then ""
    else if |parts| == 1 then parts[0]
    else parts[0] + sep + JoinWith(parts[1..], sep)
  }

  function Quoted(s: string): string
  {
    "\"" + s + "\""
  }

  /** `toString()` of each property. An object's entries are rendered in
      the order they were given. */
  function ToString(p: Property): (r: string)
    ensures !p.Missing? ==> |r| >= |p.key| + 4 && r[..|p.key| + 4] == Quoted(p.key) + ": "
    decreases p, 1
  {
    match p
    case Plain(key, Str(s)) => Quoted(key) + ": " + Quoted(s)
    case Plain(key, v) => Quoted(key) + ": " + ScalarText(v)
    case Object(key, entries) => Quoted(key) + ": {" + JoinWith(Texts(entries), ", ") + "}"
    case Array(key, elements) => ArrayText(key, elements)
    case Null(key) => Quoted(key) + ": " + NULL_VALUE
    case Missing(key) => "{{ Missing node " + key + " }}"
  }

  function Texts(ps: seq<Property>): (r: seq<string>)
    ensures |r| == |ps|
    decreases ps, 0
  {
    if |ps| == 0 then [] else [ToString(ps[0])] + Texts(ps[1..])
  }

  /** What follows the first ':' of a text, or all of it. */
  function AfterColon(s: string): (r: string)
    ensures ':' !in s ==> r == s
  {
    s[Text.IndexOfChar(s, ':') + 1..]
  }

  /** `ArrayProperty.toString()`: each element's text after its first ':',
      comma separated, inside the brackets after the key. */
  function ArrayText(key: string, elements: seq<Property>): string
    decreases elements, 2
  {
    Quoted(key) + ": [" + JoinWith(ElementTexts(elements), ",") + "]"
  }

  function ElementTexts(elements: seq<Property>): (r: seq<string>)
    ensures |r| == |elements|
    decreases elements, 1
  {
    if |elements| == 0 then [] else [AfterColon(ToString(elements[0]))] + ElementTexts(elements[1..])
  }

  /** The element loop of `ArrayProperty.toString()`. */
  method ArrayToString(key: string, elements: seq<Property>) returns (s: string)
    ensures s == ArrayText(key, elements)
  {
    ghost var texts := ElementTexts(elements);
    s := Quoted(key) + ": [";
    TailIsJoin(texts);
    var i := 0;
    while i < |elements|
      invariant i <= |elements|
      invariant s + Tail(texts, i) == ArrayText(key, elements)
    {
      var arrayValue := ElementText(elements[i]);
      ElementTextAt(elements, i);
      TailAdvance(s, texts, i);
      s := s + arrayValue;
      if i < |elements| - 1 {
        s := s + ",";
      }
      i := i + 1;
    }
    s := s + "]";
  }

  /** One element's text: what follows the first ':' of its `toString()`. */
  method ElementText(p: Property) returns (t: string)
    ensures t == AfterColon(ToString(p))
  {
    var propertyString := ToString(p);
    var removePoint := Text.IndexOfChar(propertyString, ':');
    t := propertyString[removePoint + 1..];
  }

  /** The loop's text so far, moved on by one element and its separator. */
  lemma TailAdvance(s: string, texts: seq<string>, i: nat)
    requires i < |texts|
    ensures i < |texts| - 1 ==> s + Tail(texts, i) == s + texts[i] + "," + Tail(texts, i + 1)
    ensures i == |texts| - 1 ==> s + Tail(texts, i) == s + texts[i] + Tail(texts, i + 1)
  {
    TailStep(texts, i);
    if i < |texts| - 1 {
      assert s + (texts[i] + "," + Tail(texts, i + 1)) == s + texts[i] + "," + Tail(texts, i + 1);
    } else {
      assert texts[i] + "" + Tail(texts, i + 1) == texts[i] + Tail(texts, i + 1);
      assert s + (texts[i] + Tail(texts, i + 1)) == s + texts[i] + Tail(texts, i + 1);
    }
  }

  /** The rest of `ArrayText` from element `i` on: the joined texts and the
      closing bracket. */
  function Tail(texts: seq<string>, i: nat): string
    requires i <= |texts|
    decreases |texts| - i
  {
    if i == |texts| then "]"
    else texts[i] + (if i < |texts| - 1 then "," else "") + Tail(texts, i + 1)
  }

  lemma {:induction false} TailStep(texts: seq<string>, i: nat)
    requires i < |texts|
    ensures Tail(texts, i) == texts[i] + (if i < |texts| - 1 then "," else "") + Tail(texts, i + 1)
  {
  }

  lemma {:induction false} TailIsJoin(texts: seq<string>)
    ensures Tail(texts, 0) == JoinWith(texts, ",") + "]"
    decreases |texts|
  {
    if |texts| > 1 {
      TailShift(texts, 0);
      TailIsJoin(texts[1..]);
    } else if |texts| == 1 {
      assert Tail(texts, 1) == "]";
    }
  }

  lemma {:induction false} TailShift(texts: seq<string>, i: nat)
    requires i < |texts|
    ensures Tail(texts, i + 1) == Tail(texts[1..], i)
    decreases |texts| - i
  {
    if i + 1 < |texts| {
      TailShift(texts, i + 1);
    }
  }

  lemma {:induction false} ElementTextAt(elements: seq<Property>, i: nat)
    requires i < |elements|
    ensures ElementTexts(elements)[i] == AfterColon(ToString(elements[i]))
    decreases i
  {
    var texts := ElementTexts(elements);
    assert texts == [AfterColon(ToString(elements[0]))] + ElementTexts(elements[1..]);
    if i > 0 {
      ElementTextAt(elements[1..], i - 1);
      assert texts[i] == ElementTexts(elements[1..])[i - 1];
    }
  }

  // ---------------------------------------------------------------------
  // Queries

  function Key(p: Property): string
  {
    p.key
  }

  predicate IsArrayValue(p: Property) { p.Array? }

  /** `isObjectValue()`: true for `ObjectProperty` (and so for `Json`). */
  predicate IsObjectValue(p: Property) { p.Object? }

  predicate IsNull(p: Property) { p.Null? }

  /** `exists()`: false only for `MissingProperty`. */
  predicate Exists(p: Property) { !p.Missing? }

  /** `stringValue()`: `value.toString()`. The value of an object or array
      property is its list of properties, rendered as a `List` is. */
  function StringValue(p: Property): (r: string)
    ensures p.Null? ==> r == NULL_VALUE
    ensures p.Missing? ==> r == MISSING_VALUE
    ensures p.Object? || p.Array? ==> |r| >= 2 && r[0] == '[' && r[|r| - 1] == ']'
  {
    match p
    case Plain(_, v) => ScalarText(v)
    case Object(_, entries) => "[" + JoinWith(Texts(entries), ", ") + "]"
    case Array(_, elements) => "[" + JoinWith(Texts(elements), ", ") + "]"
    case Null(_) => NULL_VALUE
    case Missing(_) => MISSING_VALUE
  }

  /** `numberValue()`: a stored number, or the parse of `stringValue()`. */
  function NumberValue(p: Property): (r: Number)
    ensures p.Plain? && p.scalar.Num? ==> r == p.scalar.n
    ensures p.Null? || p.Missing? || (p.Plain? && p.scalar.Bool?) ==> r == Integral(0)
  {
    if p.Plain? && p.scalar.Num? then p.scalar.n
    else
      var s := StringValue(p);
      NonNumeralIsZero(s);
      ParseNumber(s)
  }

  /** A text that starts with neither a digit, a sign nor a point is no
      number: it parses as 0. */
  lemma NonNumeralIsZero(s: string)
    ensures |s| > 0 && !Text.IsDigit(s[0]) && s[0] !in "+-." ==> ParseNumber(s) == Integral(0)
  {
    if |s| > 0 && !Text.IsDigit(s[0]) && s[0] !in "+-." {
      assert !Text.AllDigits(s);
      var p := Text.IndexOfChar(s, '.');
      if p >= 0 {
        assert s[..p][0] == s[0];
      }
    }
  }

  /** `arrayValue()`: the elements when the value is an array's list. */
  function ArrayValue(p: Property): (r: seq<Property>)
    ensures r == (if p.Array? then p.elements else [])
  {
    if IsArrayValue(p) then p.elements else []
  }

  /** Whether the stored value is a `Map`. No property stores one: an
      object property stores the `Collection` it was built from. */
  predicate ValueIsMap(p: Property)
  {
    false
  }

  /** `objectValue()`. */
  function ObjectValue(p: Property): (r: map<string, Property>)
    ensures r == map[]
  {
    if IsObjectValue(p) && ValueIsMap(p) then KeyedEntries(p.entries) else map[]
  }

  /** The entries by key, a later entry replacing an earlier one. */
  function KeyedEntries(entries: seq<Property>): map<string, Property>
  {
    if |entries| == 0 then map[]
    else KeyedEntries(entries[..|entries| - 1])[entries[|entries| - 1].key := entries[|entries| - 1]]
  }

  /** `booleanValue()`, in the order its tests are made. */
  predicate BooleanValue(p: Property): (b: bool)
    ensures p.Null? ==> !b
    ensures p.Missing? ==> b
    ensures p.Array? && |p.elements| == 0 ==> !b
  {
    if IsNull(p) then false
    else if p.Plain? && p.scalar.Bool? then p.scalar.b
    else if IsArrayValue(p) && |ArrayValue(p)| == 0 then false
    else
      var s := StringValue(p);
      ParseBoolean(s) || (|s| > 0 && s != "0") || IntValue(NumberValue(p)) > 0
  }

  /** The entry of an object filed under `key`, if any. */
  function Entry(entries: seq<Property>, key: string): (r: Option<Property>)
    ensures r.Some? ==> r.value in entries && r.value.key == key
    ensures r.None? <==> forall e :: e in entries ==> e.key != key
  {
    if |entries| == 0 then None
    else if entries[0].key == key then Some(entries[0])
    else Entry(entries[1..], key)
  }

  /** `ArrayProperty.get(index)`: bounds-checked. */
  function ElementAt(elements: seq<Property>, index: int): (r: Property)
    ensures 0 <= index < |elements| ==> r == elements[index]
    ensures !(0 <= index < |elements|) ==> r == Missing(Text.IntToString(index))
  {
    if index >= |elements| || index < 0 then Missing(Text.IntToString(index)) else elements[index]
  }

  /** `path(key)`. */
  function Path(p: Property, key: string): (r: Property)
    ensures !p.Array? ==> r.key == key
    ensures Exists(r) ==> (p.Object? && r in p.entries) || (p.Array? && r in p.elements)
  {
    match p
    case Object(_, entries) =>
      var e := Entry(entries, key);
      if e.Some? then e.value else Missing(key)
    case Array(_, elements) =>
      var index := Text.ParseInt(key);
      if index.Some? then ElementAt(elements, index.value) else Missing(key)
    case _ => Missing(key)
  }

  /** `get(index)`. */
  function Get(p: Property, index: int): (r: Property)
    ensures !p.Array? ==> r.key == Text.IntToString(index)
    ensures Exists(r) ==> (p.Object? && r in p.entries) || (p.Array? && r in p.elements)
  {
    match p
    case Object(_, entries) => Path(p, Text.IntToString(index))
    case Array(_, elements) => ElementAt(elements, index)
    case _ => Missing(Text.IntToString(index))
  }

  // ---------------------------------------------------------------------
  // Construction

  /** No two properties share a key. */
  predicate DistinctKeys(ps: seq<Property>)
  {
    forall i, j :: 0 <= i < j < |ps| ==> ps[i].key != ps[j].key
  }

  /** The key of the first property whose key an earlier one already has,
      the one `Collectors.toMap` stops at. */
  function FirstRepeatedKey(ps: seq<Property>): (r: Option<string>)
    ensures r.None? <==> DistinctKeys(ps)
  {
    if |ps| == 0 then None
    else
      var prior := FirstRepeatedKey(ps[..|ps| - 1]);
      if prior.Some? then prior
      else if Entry(ps[..|ps| - 1], ps[|ps| - 1].key).Some? then Some(ps[|ps| - 1].key)
      else None
  }

  /** `new ObjectProperty(key, entries)`: the entries are collected into a
      map by key, which fails on a repeated key. */
  function NewObject(key: string, entries: seq<Property>): (r: Result<Property, Failure>)
    ensures r.Ok? <==> DistinctKeys(entries)
    ensures r.Ok? ==> r.value == Object(key, entries)
    ensures r.Err? ==> r.error == IllegalState("Duplicate key " + FirstRepeatedKey(entries).value)
  {
    var repeated := FirstRepeatedKey(entries);
    if repeated.Some? then Err(IllegalState("Duplicate key " + repeated.value)) else Ok(Object(key, entries))
  }

  // ---------------------------------------------------------------------
  // Properties

  /** `booleanValue()` is false for null and for an empty array, the stored
      flag for a boolean, and otherwise true exactly when `stringValue()`
      is neither empty nor "0": the numeric test never decides. */
  lemma BooleanValueRule(p: Property)
    ensures p.Null? ==> !BooleanValue(p)
    ensures p.Plain? && p.scalar.Bool? ==> (BooleanValue(p) <==> p.scalar.b)
    ensures p.Array? && |p.elements| == 0 ==> !BooleanValue(p)
    ensures !p.Null? && !(p.Plain? && p.scalar.Bool?) && !(p.Array? && |p.elements| == 0) ==>
      (BooleanValue(p) <==> |StringValue(p)| > 0 && StringValue(p) != "0")
  {
    var s := StringValue(p);
    if !p.Null? && !(p.Plain? && p.scalar.Bool?) && !(p.Array? && |p.elements| == 0) {
      if s == "" || s == "0" {
        NumberOfBlankOrZero(p);
      }
    }
  }

  /** A property whose text is "" or "0" has number value 0. */
  lemma NumberOfBlankOrZero(p: Property)
    requires StringValue(p) == "" || StringValue(p) == "0"
    ensures IntValue(NumberValue(p)) == 0
  {
    ZeroText();
    if p.Plain? && p.scalar.Num? && p.scalar.n.Integral? {
      IntTextZero(p.scalar.n.value);
    }
  }

  lemma ZeroText()
    ensures Text.ParseLong("0") == Some(0) && Text.ParseLong("") == None
    ensures IsDecimalNumeral("0") && IntegerPart("0") == 0 && !IsDecimalNumeral("")
  {
    assert Text.AllDigits("0");
    assert Text.DigitsValue("0") == 10 * Text.DigitsValue("0"[..0]) + 0;
  }

  /** Only 0 is written "0". */
  lemma IntTextZero(v: int)
    ensures Text.IntToString(v) == "0" <==> v == 0
  {
    if v >= 10 {
      assert Text.NatToString(v) == Text.NatToString(v / 10) + [Text.DigitChar(v % 10)];
    }
  }

  /** Null and missing properties: what the placeholders hold and how they
      answer. */
  lemma Placeholders(key: string)
    ensures IsNull(Null(key)) && Exists(Null(key)) && !BooleanValue(Null(key))
    ensures StringValue(Null(key)) == "null" && ToString(Null(key)) == "\"" + key + "\": null"
    ensures !Exists(Missing(key)) && !IsNull(Missing(key)) && Key(Missing(key)) == key
    ensures StringValue(Missing(key)) == "<MISSING>" && BooleanValue(Missing(key))
  {
  }

  /** A property that is neither object nor array has no children: `path`
      and `get` give a missing property named after the request. */
  lemma ScalarsHaveNoChildren(p: Property, key: string, index: int)
    requires !p.Object? && !p.Array?
    ensures Path(p, key) == Missing(key)
    ensures Get(p, index) == Missing(Text.IntToString(index))
    ensures !IsObjectValue(p) && !IsArrayValue(p) && ArrayValue(p) == [] && ObjectValue(p) == map[]
  {
  }

  /** `objectValue()` is always empty, objects included. */
  lemma ObjectValueAlwaysEmpty(p: Property)
    ensures ObjectValue(p) == map[]
  {
  }

  /** `path(key)` on an object finds the entry with that key, or a missing
      property with that key; either way the result carries the key. */
  lemma ObjectPath(p: Property, key: string, index: int)
    requires p.Object? && forall e :: e in p.entries ==> Exists(e)
    ensures Exists(Path(p, key)) <==> exists e :: e in p.entries && e.key == key
    ensures Key(Path(p, key)) == key
    ensures Exists(Path(p, key)) ==> Path(p, key) in p.entries
    ensures Get(p, index) == Path(p, Text.IntToString(index))
  {
  }

  /** `path` on an array reads the key as an `int` index: the index's own
      text gives the element `get` gives; any other key misses. */
  lemma {:induction false} ArrayPathIsGet(p: Property, index: int)
    requires p.Array? && Text.INT_MIN <= index <= Text.INT_MAX
    ensures Path(p, Text.IntToString(index)) == Get(p, index)
  {
    Text.ParseIntOfIntToString(index);
  }

  /** `get` on an array is bounds-checked. */
  lemma ArrayGet(p: Property, index: int)
    requires p.Array? && forall e :: e in p.elements ==> Exists(e)
    ensures Exists(Get(p, index)) <==> 0 <= index < |p.elements|
    ensures 0 <= index < |p.elements| ==> Get(p, index) == p.elements[index]
    ensures !(0 <= index < |p.elements|) ==> Get(p, index) == Missing(Text.IntToString(index))
  {
  }

  /** Built objects have distinct keys, so each entry is found by its key. */
  lemma {:induction false} EntriesFoundByKey(key: string, entries: seq<Property>, i: nat)
    requires NewObject(key, entries).Ok? && i < |entries|
    ensures Path(NewObject(key, entries).value, entries[i].key) == entries[i]
  {
    EntryOfDistinct(entries, i);
  }

  lemma {:induction false} EntryOfDistinct(entries: seq<Property>, i: nat)
    requires DistinctKeys(entries) && i < |entries|
    ensures Entry(entries, entries[i].key) == Some(entries[i])
    decreases i
  {
    if i > 0 {
      assert entries[0].key != entries[i].key;
      assert entries[1..][i - 1] == entries[i];
      EntryOfDistinct(entries[1..], i - 1);
    }
  }

  // ---------------------------------------------------------------------
  // Json

  /** `Json`: the top-level object, keyed "JSON". */
  datatype Json = Json(entries: seq<Property>)

  const JSON_KEY: string := "JSON"

  function Root(j: Json): (p: Property)
    ensures p.Object? && Key(p) == "JSON" && p.entries == j.entries
  {
    Object(JSON_KEY, j.entries)
  }

  /** `JsonFactory.newJson(properties)`. */
  function NewJson(entries: seq<Property>): (r: Result<Json, Failure>)
    ensures r.Ok? <==> NewObject(JSON_KEY, entries).Ok?
    ensures r.Ok? ==> r.value.entries == entries
  {
    var root :- NewObject(JSON_KEY, entries);
    Ok(Json(entries))
  }

  /** `Json.toString()`: the entries' texts back to back inside braces. */
  function JsonText(j: Json): (r: string)
    ensures |r| >= 2 && r[0] == '{' && r[|r| - 1] == '}'
    ensures |j.entries| == 0 ==> r == "{}"
  {
    "{" + Concat(Texts(j.entries)) + "}"
  }

  function Concat(parts: seq<string>): string
  {
    if |parts| == 0 then "" else parts[0] + Concat(parts[1..])
  }

  /** Following path segments from a property, one `path` call each. */
  function Follow(p: Property, segments: seq<string>): Property
    decreases |segments|
  {
    if |segments| == 0 then p else Follow(Path(p, segments[0]), segments[1..])
  }

  /** `getAt(path...)`: each segment's `toString()` given to `path`, left
      to right, from the `Json` itself. */
  method GetAt(j: Json, segments: seq<string>) returns (current: Property)
    ensures current == Follow(Root(j), segments)
  {
    current := Root(j);
    var i := 0;
    while i < |segments|
      invariant i <= |segments|
      invariant Follow(current, segments[i..]) == Follow(Root(j), segments)
    {
      assert segments[i..][1..] == segments[i + 1..];
      current := Path(current, segments[i]);
      i := i + 1;
    }
  }

  /** Following a concatenation follows its parts in turn. */
  lemma {:induction false} FollowAppend(p: Property, a: seq<string>, b: seq<string>)
    ensures Follow(p, a + b) == Follow(Follow(p, a), b)
    decreases |a|
  {
    if |a| > 0 {
      assert (a + b)[0] == a[0] && (a + b)[1..] == a[1..] + b;
      FollowAppend(Path(p, a[0]), a[1..], b);
    } else {
      assert a + b == b;
    }
  }

  /** Once a segment misses, every later one does too, and the result is
      the missing property of the last segment. */
  lemma {:induction false} MissingStaysMissing(p: Property, segments: seq<string>)
    requires !Exists(p) && |segments| > 0
    ensures Follow(p, segments) == Missing(segments[|segments| - 1])
    decreases |segments|
  {
    if |segments| > 1 {
      MissingStaysMissing(Path(p, segments[0]), segments[1..]);
    }
  }

  // ---------------------------------------------------------------------
  // Path expressions

  /** Whether a trimmed segment uses bracket notation: it has a '[' before
      its last ']'. */
  predicate Bracketed(seg: string)
  {
    '[' in seg && ']' in seg && Text.IndexOfChar(seg, '[') < Text.LastIndexOfChar(seg, ']')
  }

  /** A piece between '[' characters, trimmed and cut at its last ']'. */
  function Unbracket(piece: string): string
  {
    var str := Text.Trim(piece);
    var splitPoint := Text.LastIndexOfChar(str, ']');
    if splitPoint > -1 then Text.Trim(str[..splitPoint]) else str
  }

  function UnbracketAll(pieces: seq<string>): (r: seq<string>)
    ensures |r| == |pieces|
    ensures forall k :: 0 <= k < |pieces| ==> r[k] == Unbracket(pieces[k])
  {
    if |pieces| == 0 then [] else UnbracketAll(pieces[..|pieces| - 1]) + [Unbracket(pieces[|pieces| - 1])]
  }

  /** The path segments one dotted segment contributes. */
  function SegmentPath(raw: string): seq<string>
  {
    var seg := Text.Trim(raw);
    if Bracketed(seg) then UnbracketAll(Text.Split(seg, '[')) else [seg]
  }

  /** The path segments of each dotted segment in turn. */
  function ExpressionPath(raws: seq<string>): seq<string>
  {
    if |raws| == 0 then [] else ExpressionPath(raws[..|raws| - 1]) + SegmentPath(raws[|raws| - 1])
  }

  /** The path `evaluate` builds for an expression. */
  function EvaluatePath(expression: string): seq<string>
  {
    ExpressionPath(Text.Split(Text.Trim(expression), '.'))
  }

  /** `evaluate(expression)`: the segment loop, then `getAt`. */
  method Evaluate(j: Json, expression: string) returns (r: Property)
    ensures r == Follow(Root(j), EvaluatePath(expression))
  {
    var raws := Text.Split(Text.Trim(expression), '.');
    var path: seq<string> := [];
    var i := 0;
    while i < |raws|
      invariant i <= |raws|
      invariant path == ExpressionPath(raws[..i])
    {
      var added := AddSegment(path, raws[i]);
      ExpressionPathStep(raws, i);
      path := added;
      i := i + 1;
    }
    assert raws[..i] == raws;
    r := GetAt(j, path);
  }

  lemma ExpressionPathStep(raws: seq<string>, i: nat)
    requires i < |raws|
    ensures ExpressionPath(raws[..i + 1]) == ExpressionPath(raws[..i]) + SegmentPath(raws[i])
  {
    assert raws[..i + 1][..i] == raws[..i];
  }

  /** The body of the segment loop: one dotted segment's path segments
      appended to `path`. */
  method AddSegment(path: seq<string>, raw: string) returns (next: seq<string>)
    ensures next == path + SegmentPath(raw)
  {
    var seg := Text.Trim(raw);
    if Bracketed(seg) {
      next := AddPieces(path, Text.Split(seg, '['));
    } else {
      next := path + [seg];
    }
  }

  /** The bracket case: each piece between '[' characters, unbracketed. */
  method AddPieces(path: seq<string>, pieces: seq<string>) returns (next: seq<string>)
    ensures next == path + UnbracketAll(pieces)
  {
    next := path;
    var k := 0;
    while k < |pieces|
      invariant k <= |pieces|
      invariant next == path + UnbracketAll(pieces[..k])
    {
      UnbracketAllStep(pieces, k);
      next := next + [Unbracket(pieces[k])];
      k := k + 1;
    }
    assert pieces[..k] == pieces;
  }

  lemma UnbracketAllStep(pieces: seq<string>, k: nat)
    requires k < |pieces|
    ensures UnbracketAll(pieces[..k + 1]) == UnbracketAll(pieces[..k]) + [Unbracket(pieces[k])]
  {
    assert pieces[..k + 1][..k] == pieces[..k];
  }

  /** An expression without brackets is a dotted path: each segment
      trimmed, one `path` step each. */
  lemma {:induction false} DottedSegments(raws: seq<string>)
    requires forall k :: 0 <= k < |raws| ==> '[' !in raws[k]
    ensures ExpressionPath(raws) == TrimAll(raws)
    decreases |raws|
  {
    if |raws| > 0 {
      var n := |raws| - 1;
      NoBracketAfterTrim(raws[n]);
      DottedSegments(raws[..n]);
    }
  }

  /** Each dotted segment trimmed. */
  function TrimAll(raws: seq<string>): (r: seq<string>)
    ensures |r| == |raws|
  {
    if |raws| == 0 then [] else TrimAll(raws[..|raws| - 1]) + [Text.Trim(raws[|raws| - 1])]
  }

  lemma NoBracketAfterTrim(raw: string)
    requires '[' !in raw
    ensures !Bracketed(Text.Trim(raw))
  {
  }

  /** A path segment written without dots, brackets or surrounding blanks. */
  predicate PlainSegment(x: string)
  {
    |x| > 0 && !Text.IsTrimmed(x[0]) && !Text.IsTrimmed(x[|x| - 1])
    && '.' !in x && '[' !in x && ']' !in x
  }

  lemma PlainSegmentPath(x: string)
    requires PlainSegment(x)
    ensures SegmentPath(x) == [x]
  {
    Text.TrimUntrimmed(x);
  }

  lemma UnbracketPair(a: string, b: string)
    requires PlainSegment(a) && PlainSegment(b)
    ensures UnbracketAll([a, b + "]"]) == [a, b]
  {
    Text.TrimUntrimmed(a);
    Text.TrimUntrimmed(b + "]");
    Text.TrimUntrimmed(b);
    assert Text.LastIndexOfChar(b + "]", ']') == |b|;
    assert (b + "]")[..|b|] == b;
    var r := UnbracketAll([a, b + "]"]);
    assert r[0] == a && r[1] == b;
  }

  lemma IndexedSegmentPath(a: string, b: string)
    requires PlainSegment(a) && PlainSegment(b)
    ensures SegmentPath(a + "[" + b + "]") == [a, b]
  {
    var s := a + "[" + b + "]";
    assert s == a + ['['] + (b + "]");
    Text.TrimUntrimmed(s);
    assert Bracketed(s) by {
      assert s[|a|] == '[' && s[..|a|] == a;
      assert s[|s| - 1] == ']';
    }
    Text.SplitAround(a, b + "]", '[');
    UnbracketPair(a, b);
  }

  lemma IndexedHasNoDot(a: string, b: string)
    requires PlainSegment(a) && PlainSegment(b)
    ensures '.' !in a + "[" + b + "]"
  {
    var s := a + "[" + b + "]";
    forall k | 0 <= k < |s| ensures s[k] != '.' {
      if k < |a| { assert s[k] == a[k]; }
      else if |a| < k < |a| + 1 + |b| { assert s[k] == b[k - |a| - 1]; }
    }
  }

  lemma ExpressionPathOfTwo(x: string, y: string)
    ensures ExpressionPath([x]) == SegmentPath(x)
    ensures ExpressionPath([x, y]) == SegmentPath(x) + SegmentPath(y)
  {
    assert [x][..0] == [];
    assert [x, y][..1] == [x];
  }

  lemma IndexedPath(a: string, b: string)
    requires PlainSegment(a) && PlainSegment(b)
    ensures EvaluatePath(a + "[" + b + "]") == [a, b]
  {
    var s := a + "[" + b + "]";
    IndexedHasNoDot(a, b);
    Text.TrimUntrimmed(s);
    assert Text.Split(Text.Trim(s), '.') == [s];
    ExpressionPathOfTwo(s, s);
    IndexedSegmentPath(a, b);
  }

  lemma DottedPath(a: string, b: string)
    requires PlainSegment(a) && PlainSegment(b)
    ensures EvaluatePath(a + "." + b) == [a, b]
  {
    var s := a + "." + b;
    Text.TrimUntrimmed(s);
    assert s == a + ['.'] + b;
    Text.SplitAround(a, b, '.');
    assert Text.Split(Text.Trim(s), '.') == [a, b];
    ExpressionPathOfTwo(a, b);
    PlainSegmentPath(a);
    PlainSegmentPath(b);
  }

  /** Index notation and dotted notation name the same path. */
  lemma IndexMatchesDotted(a: string, b: string)
    requires PlainSegment(a) && PlainSegment(b)
    ensures EvaluatePath(a + "[" + b + "]") == EvaluatePath(a + "." + b) == [a, b]
  {
    IndexedPath(a, b);
    DottedPath(a, b);
  }
}
