/** The extension mechanism: hook points, hooks with a clamped sequence, the
    four argument adapters, and the engine that buckets hooks per hook point
    and runs each bucket in ascending sequence. A hook's own logic is caller
    code; running it is recorded as an event in a trace. */
module Hooks {
  import opened Components
  import opened Failures

  /** `HookPoint`, in declaration order. */
  datatype HookPoint =
    | OnFailure | BeforeCompile
    | BeforeLex | AfterLex
    | BeforeParse | AfterParse
    | BeforeSemanticAnalysis | AfterSemanticAnalysis
    | BeforeCodeGeneration | AfterCodeGeneration
    | AfterCompile

  const DECLARED: seq<HookPoint> := [OnFailure, BeforeCompile, BeforeLex, AfterLex, BeforeParse, AfterParse,
                                     BeforeSemanticAnalysis, AfterSemanticAnalysis, BeforeCodeGeneration,
                                     AfterCodeGeneration, AfterCompile]

  /** `getSequenceNumber()`. */
  function SequenceNumber(p: HookPoint): (n: int)
    ensures -1 <= n <= 9
    ensures n == -1 <==> p == OnFailure
  {
    match p
    case OnFailure => -1
    case BeforeCompile => 0
    case BeforeLex => 1
    case AfterLex => 2
    case BeforeParse => 3
    case AfterParse => 4
    case BeforeSemanticAnalysis => 5
    case AfterSemanticAnalysis => 6
    case BeforeCodeGeneration => 7
    case AfterCodeGeneration => 8
    case AfterCompile => 9
  }

  /** The declaration order is the order of the sequence numbers, which run
      from -1 to 9 without a gap; so each point is determined by its number
      and every `BEFORE_X` comes right before its `AFTER_X`. */
  lemma SequenceNumbersFollowDeclaration()
    ensures forall i :: 0 <= i < |DECLARED| ==> SequenceNumber(DECLARED[i]) == i - 1
    ensures forall p :: p in DECLARED
    ensures forall p, q :: SequenceNumber(p) == SequenceNumber(q) ==> p == q
  {
    forall p
      ensures p in DECLARED
    {
      match p
      case OnFailure => assert DECLARED[0] == p;
      case BeforeCompile => assert DECLARED[1] == p;
      case BeforeLex => assert DECLARED[2] == p;
      case AfterLex => assert DECLARED[3] == p;
      case BeforeParse => assert DECLARED[4] == p;
      case AfterParse => assert DECLARED[5] == p;
      case BeforeSemanticAnalysis => assert DECLARED[6] == p;
      case AfterSemanticAnalysis => assert DECLARED[7] == p;
      case BeforeCodeGeneration => assert DECLARED[8] == p;
      case AfterCodeGeneration => assert DECLARED[9] == p;
      case AfterCompile => assert DECLARED[10] == p;
    }
  }

  /** Which typed `execute` an adapted hook forwards to. */
  datatype Adapter = RawInputAdapted | TokenListAdapted | SymbolTreeAdapted | ThrowableAdapted

  /** A hook: its identity (`name`), adapter, hook point and sequence. */
  datatype Hook = Hook(name: string, adapter: Adapter, point: HookPoint, sequence: nat)

  /** `AbstractHook(hookPoint, sequence)`: the stored sequence is
      `max(sequence, 0)`. */
  function MakeHook(name: string, adapter: Adapter, point: HookPoint, sequence: int): (h: Hook)
    ensures h.name == name && h.adapter == adapter && h.point == point
    ensures h.sequence >= sequence && (h.sequence == sequence || h.sequence == 0)
  {
    Hook(name, adapter, point, if sequence < 0 then 0 else sequence)
  }

  /** `AbstractHook(hookPoint)`: sequence 0. */
  function DefaultHook(name: string, adapter: Adapter, point: HookPoint): (h: Hook)
    ensures h.point == point && h.sequence == 0
  {
    MakeHook(name, adapter, point, 0)
  }

  /** `ThrowableAdaptedHook(sequence)`: always at `ON_FAILURE`. */
  function ThrowableHook(name: string, sequence: int): (h: Hook)
    ensures h.adapter == ThrowableAdapted && h.point == OnFailure
    ensures h.sequence >= sequence && (h.sequence == sequence || h.sequence == 0)
  {
    MakeHook(name, ThrowableAdapted, OnFailure, sequence)
  }

  /** The objects the compiler pushes into `execute(Object...)`. */
  datatype Arg = Text(text: string) | TokenList(tokens: seq<Token>) | Tree(root: Comp) | Thrown(failure: Failure) | Other

  /** How many leading arguments an adapter passes on. */
  function Arity(a: Adapter): nat
  {
    if a == SymbolTreeAdapted then 2 else 1
  }

  /** The runtime type test of each adapter's `execute(Object...)`. */
  predicate Accepts(a: Adapter, args: seq<Arg>)
  {
    match a
    case RawInputAdapted => |args| > 0 && args[0].Text?
    case TokenListAdapted => |args| > 0 && args[0].TokenList?
    case SymbolTreeAdapted => |args| > 1 && args[0].TokenList? && args[1].Tree?
    case ThrowableAdapted => |args| > 0 && args[0].Thrown?
  }

  /** One run of a hook's own logic, with the arguments it was handed. */
  datatype Event = Event(hook: Hook, args: seq<Arg>)

  /** `hook.execute(objects)`: the hook's logic runs once, on the leading
      arguments, when the type test passes, and not at all otherwise. */
  function Execute(h: Hook, args: seq<Arg>): (r: seq<Event>)
    ensures |r| <= 1
    ensures |r| == 1 <==> Accepts(h.adapter, args)
    ensures |r| == 1 ==> r[0].hook == h && r[0].args == args[..Arity(h.adapter)]
  {
    if Accepts(h.adapter, args) then [Event(h, args[..Arity(h.adapter)])] else []
  }

  /** Arguments after the ones an adapter looks at change nothing. */
  lemma ExtraArgumentsIgnored(h: Hook, args: seq<Arg>, extra: seq<Arg>)
    requires |args| >= Arity(h.adapter)
    ensures Execute(h, args + extra) == Execute(h, args)
  {
    assert (args + extra)[..Arity(h.adapter)] == args[..Arity(h.adapter)];
  }

  /** Each adapter ignores the payloads of the other kinds of hook point. */
  lemma AdaptersSelectPayload(h: Hook, s: string, ts: seq<Token>, root: Comp, f: Failure)
    ensures |Execute(h, [Text(s)])| == 1 <==> h.adapter == RawInputAdapted
    ensures |Execute(h, [TokenList(ts)])| == 1 <==> h.adapter == TokenListAdapted
    ensures |Execute(h, [TokenList(ts), Tree(root)])| == 1 <==> h.adapter in {TokenListAdapted, SymbolTreeAdapted}
    ensures |Execute(h, [Thrown(f)])| == 1 <==> h.adapter == ThrowableAdapted
    ensures Execute(h, []) == []
  {
  }

  // ---------------------------------------------------------------------
  // The engine

  /** Strictly ascending sequence, as a `TreeSet` ordered by sequence keeps
      its hooks. */
  predicate Sorted(b: seq<Hook>)
  {
    forall i, j :: 0 <= i < j < |b| ==> b[i].sequence < b[j].sequence
  }

  /** The sequences present in a bucket. */
  function Used(b: seq<Hook>): set<nat>
  {
    set y | y in b :: y.sequence
  }

  /** `TreeSet.add` under the sequence comparator: a hook whose sequence is
      already present is dropped. */
  function Insert(b: seq<Hook>, h: Hook): (r: seq<Hook>)
    ensures 0 < |r| <= |b| + 1 && (r[0] == h || (|b| > 0 && r[0] == b[0]))
  {
    if |b| == 0 then [h]
    else if b[0].sequence == h.sequence then b
    else if h.sequence < b[0].sequence then [h] + b
    else [b[0]] + Insert(b[1..], h)
  }

  /** `Insert` keeps a bucket in ascending sequence. */
  lemma {:induction false} InsertSorted(b: seq<Hook>, h: Hook)
    requires Sorted(b)
    ensures Sorted(Insert(b, h))
    decreases |b|
  {
    if |b| > 0 && b[0].sequence != h.sequence && h.sequence >= b[0].sequence {
      var rest := Insert(b[1..], h);
      InsertSorted(b[1..], h);
      assert |b| > 1 ==> b[0].sequence < b[1].sequence;
      assert b[0].sequence < rest[0].sequence;
      assert Insert(b, h) == [b[0]] + rest;
    }
  }

  /** Every hook of a sorted bucket has a sequence at least its first one's. */
  lemma SortedFromFirst(b: seq<Hook>, x: Hook)
    requires Sorted(b) && x in b
    ensures b[0].sequence <= x.sequence
  {
    var i :| 0 <= i < |b| && b[i] == x;
  }

  /** After `Insert` the bucket holds what it held, plus the hook exactly
      when its sequence was not present. */
  lemma {:induction false} InsertMembers(b: seq<Hook>, h: Hook)
    requires Sorted(b)
    ensures forall x :: x in Insert(b, h) <==> x in b || (x == h && h.sequence !in Used(b))
    decreases |b|
  {
    if |b| > 0 {
      assert b[0] in b;
      if b[0].sequence != h.sequence {
        if h.sequence < b[0].sequence {
          forall y | y in b
            ensures y.sequence != h.sequence
          {
            SortedFromFirst(b, y);
          }
        } else {
          InsertMembers(b[1..], h);
          assert b == [b[0]] + b[1..];
          assert Used(b) == Used(b[1..]) + {b[0].sequence};
        }
      }
    }
  }

  /** A hook whose sequence is above every present one goes last. */
  lemma {:induction false} InsertLargest(b: seq<Hook>, h: Hook)
    requires forall x :: x in b ==> x.sequence < h.sequence
    ensures Insert(b, h) == b + [h]
    decreases |b|
  {
    if |b| > 0 {
      assert forall x :: x in b[1..] ==> x.sequence < h.sequence by {
        assert forall x :: x in b[1..] ==> x in b;
      }
      InsertLargest(b[1..], h);
      assert b[0].sequence < h.sequence by {
        assert b[0] in b;
      }
      assert Insert(b, h) == [b[0]] + (b[1..] + [h]);
      assert [b[0]] + (b[1..] + [h]) == b + [h];
    }
  }

  /** The bucket `create` builds for `p`: every hook at `p`, in order of
      registration, added to an initially empty set. */
  function Bucket(hooks: seq<Hook>, p: HookPoint): (r: seq<Hook>)
    ensures |r| <= |hooks|
  {
    if |hooks| == 0 then []
    else
      var rest := Bucket(hooks[..|hooks| - 1], p);
      var h := hooks[|hooks| - 1];
      if h.point == p then Insert(rest, h) else rest
  }

  /** A bucket is in ascending sequence. */
  lemma {:induction false} BucketSorted(hooks: seq<Hook>, p: HookPoint)
    ensures Sorted(Bucket(hooks, p))
    decreases |hooks|
  {
    if |hooks| > 0 {
      BucketSorted(hooks[..|hooks| - 1], p);
      InsertSorted(Bucket(hooks[..|hooks| - 1], p), hooks[|hooks| - 1]);
    }
  }

  /** A bucket holds only hooks registered at its point. */
  lemma {:induction false} BucketMembers(hooks: seq<Hook>, p: HookPoint)
    ensures forall x :: x in Bucket(hooks, p) ==> x.point == p && x in hooks
    decreases |hooks|
  {
    if |hooks| > 0 {
      var init, h := hooks[..|hooks| - 1], hooks[|hooks| - 1];
      BucketMembers(init, p);
      assert forall x :: x in init ==> x in hooks;
      if h.point == p {
        BucketSorted(init, p);
        InsertMembers(Bucket(init, p), h);
      }
    }
  }

  /** The index of the first registered hook at `p` with sequence `s`, or
      -1. */
  function FirstIndex(hooks: seq<Hook>, p: HookPoint, s: nat): (r: int)
    ensures -1 <= r < |hooks|
    ensures r >= 0 ==> hooks[r].point == p && hooks[r].sequence == s
    ensures forall j :: 0 <= j < |hooks| && (r < 0 || j < r) ==> !(hooks[j].point == p && hooks[j].sequence == s)
  {
    if |hooks| == 0 then -1
    else
      var i := FirstIndex(hooks[..|hooks| - 1], p, s);
      var h := hooks[|hooks| - 1];
      if i >= 0 then i else if h.point == p && h.sequence == s then |hooks| - 1 else -1
  }

  /** A bucket holds exactly the first-registered hook at `p` for each
      sequence used at `p`: later hooks with an equal sequence are dropped. */
  lemma {:induction false} BucketKeepsFirst(hooks: seq<Hook>, p: HookPoint, x: Hook)
    ensures x in Bucket(hooks, p) <==> x.point == p && FirstIndex(hooks, p, x.sequence) >= 0
                                       && hooks[FirstIndex(hooks, p, x.sequence)] == x
    decreases |hooks|, 1
  {
    if |hooks| > 0 {
      var init, h := hooks[..|hooks| - 1], hooks[|hooks| - 1];
      BucketKeepsFirst(init, p, x);
      var i := FirstIndex(init, p, x.sequence);
      if i >= 0 {
        assert hooks[i] == init[i];
      }
      if h.point == p {
        BucketSorted(init, p);
        InsertMembers(Bucket(init, p), h);
        if x == h && i < 0 {
          forall y | y in Bucket(init, p)
            ensures y.sequence != h.sequence
          {
            BucketKeepsFirst(init, p, y);
          }
          assert h.sequence !in Used(Bucket(init, p));
        }
        if x == h && i >= 0 {
          BucketKeepsFirst(init, p, init[i]);
        }
      }
    }
  }

  /** `ExtensionExecutionEngine`: hook point to sorted bucket; points with no
      hooks have no entry. */
  datatype Engine = Engine(buckets: map<HookPoint, seq<Hook>>)

  function Points(hooks: seq<Hook>): set<HookPoint>
  {
    set h | h in hooks :: h.point
  }

  /** What `create(hooks)` builds. */
  function CreateSpec(hooks: seq<Hook>): (e: Engine)
    ensures e.buckets.Keys == Points(hooks)
  {
    Engine(map p | p in Points(hooks) :: Bucket(hooks, p))
  }

  /** The bucket of a point no hook is registered at is empty. */
  lemma {:induction false} BucketOfAbsentPoint(hooks: seq<Hook>, p: HookPoint)
    requires p !in Points(hooks)
    ensures Bucket(hooks, p) == []
    decreases |hooks|
  {
    if |hooks| > 0 {
      var init := hooks[..|hooks| - 1];
      assert hooks[|hooks| - 1] in hooks;
      assert Points(init) <= Points(hooks) by {
        assert forall x :: x in init ==> x in hooks;
      }
      BucketOfAbsentPoint(init, p);
    }
  }

  /** Registering one more hook adds it to its own point's bucket only. */
  lemma BucketAppend(hooks: seq<Hook>, h: Hook, p: HookPoint)
    ensures Bucket(hooks + [h], p) == if p == h.point then Insert(Bucket(hooks, p), h) else Bucket(hooks, p)
  {
    assert (hooks + [h])[..|hooks|] == hooks;
  }

  lemma PointsAppend(hooks: seq<Hook>, h: Hook)
    ensures Points(hooks + [h]) == Points(hooks) + {h.point}
  {
    assert forall x :: x in hooks + [h] <==> x in hooks || x == h;
  }

  /** One point's entry after one more registration. */
  lemma CreateStepAt(hooks: seq<Hook>, h: Hook, p: HookPoint)
    ensures var before, after := CreateSpec(hooks).buckets, CreateSpec(hooks + [h]).buckets;
      (p in after <==> p == h.point || p in before)
      && (p in after ==> after[p] == if p == h.point then Insert(Bucket(hooks, p), h) else before[p])
  {
    PointsAppend(hooks, h);
    BucketAppend(hooks, h, p);
  }

  /** Registering one more hook changes only its own point's bucket, by
      one `TreeSet.add`. */
  lemma CreateStep(hooks: seq<Hook>, h: Hook)
    ensures var before := CreateSpec(hooks).buckets;
      CreateSpec(hooks + [h]).buckets
        == before[h.point := Insert(if h.point in before then before[h.point] else [], h)]
  {
    var before, after := CreateSpec(hooks).buckets, CreateSpec(hooks + [h]).buckets;
    if h.point !in Points(hooks) {
      BucketOfAbsentPoint(hooks, h.point);
    }
    var expected := before[h.point := Insert(Bucket(hooks, h.point), h)];
    forall p
      ensures p in after <==> p in expected
      ensures p in after ==> after[p] == expected[p]
    {
      CreateStepAt(hooks, h, p);
    }
    SameEntries(after, expected);
  }

  lemma SameEntries(a: map<HookPoint, seq<Hook>>, b: map<HookPoint, seq<Hook>>)
    requires forall p :: p in a <==> p in b
    requires forall p :: p in a ==> a[p] == b[p]
    ensures a == b
  {
  }

  /** The body of `create`'s loop: the point's set is made on first use,
      then the hook is added to it. */
  method File(buckets: map<HookPoint, seq<Hook>>, h: Hook) returns (next: map<HookPoint, seq<Hook>>)
    ensures next == buckets[h.point := Insert(if h.point in buckets then buckets[h.point] else [], h)]
  {
    next := buckets;
    if h.point !in next {
      next := next[h.point := []];
    }
    next := next[h.point := Insert(next[h.point], h)];
  }

  /** `create(hooks)`: one pass over the hooks, filing each into its
      point's bucket. */
  method Create(hooks: seq<Hook>) returns (e: Engine)
    ensures e == CreateSpec(hooks)
  {
    var buckets: map<HookPoint, seq<Hook>> := map[];
    for i := 0 to |hooks|
      invariant buckets == CreateSpec(hooks[..i]).buckets
    {
      var h := hooks[i];
      assert hooks[..i + 1] == hooks[..i] + [h];
      CreateStep(hooks[..i], h);
      buckets := File(buckets, h);
    }
    assert hooks[..|hooks|] == hooks;
    e := Engine(buckets);
  }

  /** `hasExtensions()`. */
  predicate HasExtensions(e: Engine): (b: bool)
    ensures b <==> exists p :: p in e.buckets
  {
    |e.buckets| > 0
  }

  lemma HasExtensionsIffHooks(hooks: seq<Hook>)
    ensures HasExtensions(CreateSpec(hooks)) <==> |hooks| > 0
  {
    if |hooks| > 0 {
      assert hooks[0].point in Points(hooks);
    }
  }

  /** `getExtensions()`: every retained hook of every bucket (the order of
      the buckets is that of a `HashMap`, so only membership is stated). */
  function Extensions(e: Engine): (r: set<Hook>)
    ensures forall h :: h in r <==> exists p :: p in e.buckets && h in e.buckets[p]
  {
    set p, h | p in e.buckets && h in e.buckets[p] :: h
  }

  /** The retained hooks are the first-registered ones per point and
      sequence. */
  lemma ExtensionsOfCreate(hooks: seq<Hook>, x: Hook)
    ensures x in Extensions(CreateSpec(hooks)) <==>
      FirstIndex(hooks, x.point, x.sequence) >= 0 && hooks[FirstIndex(hooks, x.point, x.sequence)] == x
  {
    var e := CreateSpec(hooks);
    BucketKeepsFirst(hooks, x.point, x);
    if FirstIndex(hooks, x.point, x.sequence) >= 0 {
      assert x.point in Points(hooks) by {
        assert hooks[FirstIndex(hooks, x.point, x.sequence)] in hooks;
      }
    }
    if x in Extensions(e) {
      var p :| p in e.buckets && x in e.buckets[p];
      BucketKeepsFirst(hooks, p, x);
    }
  }

  /** Every hook of a bucket run in turn on the same arguments. */
  function RunAll(b: seq<Hook>, args: seq<Arg>): (r: seq<Event>)
    ensures |r| <= |b|
  {
    if |b| == 0 then [] else RunAll(b[..|b| - 1], args) + Execute(b[|b| - 1], args)
  }

  /** Only the bucket's hooks run, and in a sorted bucket they run in
      ascending sequence. */
  lemma {:induction false} RunAllOrder(b: seq<Hook>, args: seq<Arg>)
    ensures forall k :: 0 <= k < |RunAll(b, args)| ==> RunAll(b, args)[k].hook in b
    ensures Sorted(b) ==> forall i, j :: 0 <= i < j < |RunAll(b, args)| ==>
      RunAll(b, args)[i].hook.sequence < RunAll(b, args)[j].hook.sequence
    decreases |b|
  {
    if |b| > 0 {
      var init, last := b[..|b| - 1], b[|b| - 1];
      RunAllOrder(init, args);
      var r, front, tail := RunAll(b, args), RunAll(init, args), Execute(last, args);
      assert r == front + tail;
      forall k | 0 <= k < |r|
        ensures r[k].hook in b
      {
        if k < |front| {
          assert r[k] == front[k] && front[k].hook in init;
        } else {
          assert r[k] == tail[0];
        }
      }
      if Sorted(b) {
        assert Sorted(init);
        forall i, j | 0 <= i < j < |r|
          ensures r[i].hook.sequence < r[j].hook.sequence
        {
          assert r[i] == front[i] && front[i].hook in init;
          if j >= |front| {
            assert r[j] == tail[0] && tail[0].hook == last;
            var n :| 0 <= n < |init| && init[n] == front[i].hook;
            assert b[n] == init[n];
          } else {
            assert r[j] == front[j];
          }
        }
      }
    }
  }

  /** When every hook of a bucket accepts the arguments, each runs exactly
      once, in bucket order. */
  lemma {:induction false} RunAllAccepting(b: seq<Hook>, args: seq<Arg>)
    requires forall h :: h in b ==> Accepts(h.adapter, args)
    ensures |RunAll(b, args)| == |b|
    ensures forall k :: 0 <= k < |b| ==> RunAll(b, args)[k].hook == b[k]
    decreases |b|
  {
    if |b| > 0 {
      var init, last := b[..|b| - 1], b[|b| - 1];
      assert forall h :: h in init ==> h in b;
      RunAllAccepting(init, args);
      assert last in b;
      var tail := Execute(last, args);
      assert |tail| == 1 && tail[0].hook == last;
      assert RunAll(b, args) == RunAll(init, args) + tail;
    }
  }

  /** `run(hookPoint, ...)`: the point's bucket, or nothing when it has
      none. */
  function RunSpec(e: Engine, p: HookPoint, args: seq<Arg>): (r: seq<Event>)
    ensures p !in e.buckets ==> r == []
    ensures p in e.buckets ==> |r| <= |e.buckets[p]| && forall k :: 0 <= k < |r| ==> r[k].hook in e.buckets[p]
  {
    if p in e.buckets then
      var b := e.buckets[p];
      RunAllOrder(b, args);
      RunAll(b, args)
    else []
  }

  /** `run(hookPoint, ...)`: the `for` loop over the bucket. */
  method Run(e: Engine, p: HookPoint, args: seq<Arg>) returns (trace: seq<Event>)
    ensures trace == RunSpec(e, p, args)
  {
    trace := [];
    if p in e.buckets {
      var b := e.buckets[p];
      for i := 0 to |b|
        invariant trace == RunAll(b[..i], args)
      {
        assert b[..i + 1][..i] == b[..i];
        trace := trace + Execute(b[i], args);
      }
      assert b[..|b|] == b;
    }
  }

  /** `runForFailure(t)`: the `ON_FAILURE` bucket with the throwable. */
  method RunForFailure(e: Engine, f: Failure) returns (trace: seq<Event>)
    ensures trace == RunSpec(e, OnFailure, [Thrown(f)])
  {
    trace := Run(e, OnFailure, [Thrown(f)]);
  }

  /** Running a point of an engine built by `create` runs only hooks
      registered at that point, each at most once, in ascending sequence. */
  lemma RunInSequence(hooks: seq<Hook>, p: HookPoint, args: seq<Arg>)
    ensures var r := RunSpec(CreateSpec(hooks), p, args);
      (forall k :: 0 <= k < |r| ==> r[k].hook in hooks && r[k].hook.point == p)
      && (forall i, j :: 0 <= i < j < |r| ==> r[i].hook.sequence < r[j].hook.sequence)
  {
    var e := CreateSpec(hooks);
    if p in e.buckets {
      assert e.buckets[p] == Bucket(hooks, p);
      BucketMembers(hooks, p);
      BucketSorted(hooks, p);
      RunAllOrder(Bucket(hooks, p), args);
    }
  }

  /** A point no hook is registered at runs nothing. */
  lemma RunWithoutHooks(hooks: seq<Hook>, p: HookPoint, args: seq<Arg>)
    requires forall h :: h in hooks ==> h.point != p
    ensures RunSpec(CreateSpec(hooks), p, args) == []
  {
  }
}

module HookExamples {
  import opened Hooks

  /** A before-compilation hook that records its own sequence. */
  function TestHook(sequence: nat): Hook
  {
    Hook("TestHook", RawInputAdapted, BeforeCompile, sequence)
  }

  const REGISTERED: seq<Hook> := [TestHook(8), TestHook(6), TestHook(7), TestHook(5), TestHook(3), TestHook(0), TestHook(9)]

  const SORTED: seq<Hook> := [TestHook(0), TestHook(3), TestHook(5), TestHook(6), TestHook(7), TestHook(8), TestHook(9)]

  lemma BucketOfFirstThree()
    ensures Bucket(REGISTERED[..3], BeforeCompile) == [TestHook(6), TestHook(7), TestHook(8)]
  {
    var h, t6, t7, t8 := REGISTERED, TestHook(6), TestHook(7), TestHook(8);
    assert h[..1][..0] == [];
    assert Bucket(h[..1], BeforeCompile) == [t8];
    assert h[..2][..1] == h[..1];
    assert Bucket(h[..2], BeforeCompile) == [t6, t8];
    assert [t6, t8][1..] == [t8];
    assert h[..3][..2] == h[..2] && h[..3][2] == t7;
    assert Insert([t8], t7) == [t7, t8];
    assert Insert([t6, t8], t7) == [t6, t7, t8];
  }

  /** One registration step of the test: hook `k` has a sequence below all
      those already filed, so it goes first. */
  lemma BucketStep(k: nat, before: seq<Hook>)
    requires 0 < k < |REGISTERED|
    requires Bucket(REGISTERED[..k], BeforeCompile) == before
    requires |before| > 0 && REGISTERED[k].sequence < before[0].sequence
    ensures Bucket(REGISTERED[..k + 1], BeforeCompile) == [REGISTERED[k]] + before
  {
    assert REGISTERED[..k + 1][..k] == REGISTERED[..k];
  }

  lemma BucketOfFirstSix()
    ensures Bucket(REGISTERED[..6], BeforeCompile) == [TestHook(0)] + ([TestHook(3)] + ([TestHook(5)] + [TestHook(6), TestHook(7), TestHook(8)]))
  {
    var b3 := [TestHook(6), TestHook(7), TestHook(8)];
    BucketOfFirstThree();
    BucketStep(3, b3);
    BucketStep(4, [TestHook(5)] + b3);
    BucketStep(5, [TestHook(3)] + ([TestHook(5)] + b3));
  }

  lemma BucketOfFirstSixSorted()
    ensures Bucket(REGISTERED[..6], BeforeCompile) == SORTED[..6]
  {
    BucketOfFirstSix();
    assert [TestHook(0)] + ([TestHook(3)] + ([TestHook(5)] + [TestHook(6), TestHook(7), TestHook(8)])) == SORTED[..6];
  }

  lemma NineGoesLast()
    ensures Insert(SORTED[..6], TestHook(9)) == SORTED
  {
    InsertLargest(SORTED[..6], TestHook(9));
    assert SORTED[..6] + [TestHook(9)] == SORTED;
  }

  lemma BucketOfAll()
    ensures Bucket(REGISTERED, BeforeCompile) == SORTED
  {
    BucketOfFirstSixSorted();
    NineGoesLast();
    assert REGISTERED[..6] == REGISTERED[..|REGISTERED| - 1];
  }

  lemma RunOfRegistered(args: seq<Arg>)
    ensures RunSpec(CreateSpec(REGISTERED), BeforeCompile, args) == RunAll(SORTED, args)
  {
    BucketOfAll();
    assert REGISTERED[0] in REGISTERED;
  }

  lemma RunOfSorted(args: seq<Arg>)
    requires |args| > 0 && args[0].Text?
    ensures var r := RunAll(SORTED, args);
      |r| == 7 && r[0].hook.sequence == 0 && r[1].hook.sequence == 3 && r[2].hook.sequence == 5
      && r[3].hook.sequence == 6 && r[4].hook.sequence == 7 && r[5].hook.sequence == 8 && r[6].hook.sequence == 9
  {
    RunAllAccepting(SORTED, args);
  }

  /** The engine's unit test: hooks registered as 8, 6, 7, 5, 3, 0, 9 run
      as 0, 3, 5, 6, 7, 8, 9. */
  lemma RunsInNumericOrder()
    ensures var r := RunSpec(CreateSpec(REGISTERED), BeforeCompile, [Text("")]);
      |r| == 7 && r[0].hook.sequence == 0 && r[1].hook.sequence == 3 && r[2].hook.sequence == 5
      && r[3].hook.sequence == 6 && r[4].hook.sequence == 7 && r[5].hook.sequence == 8 && r[6].hook.sequence == 9
  {
    RunOfRegistered([Text("")]);
    RunOfSorted([Text("")]);
  }
}
