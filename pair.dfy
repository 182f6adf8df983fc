/** `Pair<K, V>`: an immutable key and value, compared component-wise and
    hashed as `Objects.hash(key, value)`. A `null` component is a value of
    `K` or `V` like any other (instantiate with an `Option` to have one);
    the components' own `hashCode` is passed in. */
module Pairs {

  import Text
  import opened Tokens

  predicate IsInt32(x: int)
  {
    Text.INT_MIN <= x <= Text.INT_MAX
  }

  /** Values that differ by a multiple of 2^32 wrap to the same `int`. */
  lemma {:induction false} WrapCongruent(x: int, y: int)
    requires (x - y) % 0x1_0000_0000 == 0
    ensures Wrap32(x) == Wrap32(y)
  {
    var k := (x - y) / 0x1_0000_0000;
    assert x + 0x8000_0000 == (y + 0x8000_0000) + k * 0x1_0000_0000;
    assert (y + 0x8000_0000 + k * 0x1_0000_0000) % 0x1_0000_0000 == (y + 0x8000_0000) % 0x1_0000_0000;
  }

  /** `Arrays.hashCode` over the element hashes: start at 1, then
      `31 * result + h` for each element, in `int` arithmetic. */
  function ArrayHash(hashes: seq<int>): (r: int)
    ensures IsInt32(r)
    ensures |hashes| == 0 ==> r == 1
  {
    if |hashes| == 0 then 1 else Wrap32(31 * ArrayHash(hashes[..|hashes| - 1]) + hashes[|hashes| - 1])
  }

  datatype Pair<K, V> = Pair(key: K, value: V)

  /** `of(key, value)`. */
  function Of<K, V>(key: K, value: V): (p: Pair<K, V>)
    ensures p.key == key && p.value == value
  {
    Pair(key, value)
  }

  /** `identity(self)`. */
  function Identity<T>(self: T): (p: Pair<T, T>)
    ensures p.key == self && p.value == self
  {
    Pair(self, self)
  }

  /** What `equals` may be handed: another pair, or some other object. */
  datatype Other<K, V> = APair(pair: Pair<K, V>) | NotAPair

  /** `equals(obj)`: component-wise `Objects.equals`. */
  predicate Equals<K(==), V(==)>(p: Pair<K, V>, obj: Other<K, V>): (b: bool)
    ensures b <==> obj == APair(p)
  {
    obj.APair? && obj.pair.key == p.key && obj.pair.value == p.value
  }

  /** `hashCode()`: `Objects.hash(key, value)`. */
  function HashCode<K, V>(p: Pair<K, V>, keyHash: K -> int, valueHash: V -> int): (h: int)
    ensures IsInt32(h)
  {
    ArrayHash([keyHash(p.key), valueHash(p.value)])
  }

  /** `equals` is value equality of pairs, and never holds for a non-pair. */
  lemma EqualsIsComponentEquality<K, V>(p: Pair<K, V>, obj: Other<K, V>)
    ensures Equals(p, obj) <==> obj == APair(p)
    ensures Equals(p, obj) <==> obj.APair? && obj.pair.key == p.key && obj.pair.value == p.value
    ensures obj.NotAPair? ==> !Equals(p, obj)
  {
  }

  /** `equals` is reflexive and symmetric. */
  lemma EqualsIsEquivalence<K, V>(p: Pair<K, V>, q: Pair<K, V>)
    ensures Equals(p, APair(p))
    ensures Equals(p, APair(q)) <==> Equals(q, APair(p))
  {
  }

  /** Equal pairs hash alike, whatever the components' hash functions. */
  lemma EqualPairsHashAlike<K, V>(p: Pair<K, V>, q: Pair<K, V>, keyHash: K -> int, valueHash: V -> int)
    requires Equals(p, APair(q))
    ensures HashCode(p, keyHash, valueHash) == HashCode(q, keyHash, valueHash)
  {
  }

  /** For `int` component hashes `a` and `b`, the pair hashes to
      `961 + 31 * a + b` wrapped to an `int`. */
  lemma {:induction false} HashClosedForm<K, V>(p: Pair<K, V>, keyHash: K -> int, valueHash: V -> int)
    requires IsInt32(keyHash(p.key)) && IsInt32(valueHash(p.value))
    ensures HashCode(p, keyHash, valueHash) == Wrap32(961 + 31 * keyHash(p.key) + valueHash(p.value))
  {
    var a, b := keyHash(p.key), valueHash(p.value);
    var hashes := [a, b];
    assert hashes[..1] == [a] && [a][..0] == [];
    var first := ArrayHash([a]);
    assert first == Wrap32(31 + a);
    assert ArrayHash(hashes) == Wrap32(31 * first + b);
    var d := first - (31 + a);
    assert d % 0x1_0000_0000 == 0;
    var k := d / 0x1_0000_0000;
    assert d == k * 0x1_0000_0000;
    assert (31 * first + b) - (961 + 31 * a + b) == (31 * k) * 0x1_0000_0000;
    WrapCongruent(31 * first + b, 961 + 31 * a + b);
  }
}

module PairExamples {
  import opened Pairs

  /** The pair unit tests: `of` keeps key and value, `identity` uses its
      argument for both. */
  lemma OfAndIdentity()
    ensures Of("KEY", 7).key == "KEY" && Of("KEY", 7).value == 7
    ensures Identity("SELF") == Pair("SELF", "SELF")
    ensures !Equals(Of("KEY", 7), APair(Of("KEY", 8)))
  {
  }
}
