/**
 The table of device heaps and the indices handed out for it (src/device_fwd.hpp:37-44, 66-106). Native
 heaps occupy the low indices and are never recycled; reference heaps occupy the rest and are.
 */
module HeapIndex {
  /** Slots of s that hold a heap. */
  function Occupied(s: seq<nat>): nat {
    if s == [] then 0 else Occupied(s[..|s| - 1]) + if s[|s| - 1] != 0 then 1 else 0
  }

  lemma {:induction false} OccupiedFull(s: seq<nat>)
    ensures Occupied(s) <= |s|
    ensures (forall i :: 0 <= i < |s| ==> s[i] != 0) <==> Occupied(s) == |s|
    decreases |s|
  {
    if s != [] { OccupiedFull(s[..|s| - 1]); }
  }

  /** Where the scan for an empty slot stops. */
  function FirstEmpty(s: seq<nat>): (k: nat)
    ensures k <= |s| && (forall i :: 0 <= i < k ==> s[i] != 0) && (k < |s| ==> s[k] == 0)
  {
    if s == [] || s[0] == 0 then 0 else 1 + FirstEmpty(s[1..])
  }

  /** Indices handed out, by what the table holds for them. */
  ghost predicate Backed(s: seq<nat>, base: nat, m: multiset<nat>) {
    forall i :: 0 <= i < |s| && s[i] != 0 ==> base + i in m
  }

  /** Every heap in the table belongs to some index handed out. */
  lemma {:induction false} OccupiedWithin(s: seq<nat>, base: nat, m: multiset<nat>)
    requires Backed(s, base, m)
    ensures Occupied(s) <= |m|
    decreases |s|
  {
    if s != [] {
      var n := |s| - 1;
      var front := s[..n];
      if s[n] != 0 {
        var m' := m - multiset{base + n};
        assert base + n in m && |m'| == |m| - 1;
        assert Backed(front, base, m');
        OccupiedWithin(front, base, m');
      } else {
        OccupiedWithin(front, base, m);
      }
    }
  }

  /** The indices handed out that have no heap in the table. */
  ghost function Pending(s: seq<nat>, base: nat, m: multiset<nat>): set<nat> {
    set i | i in m && !(base <= i < base + |s| && s[i - base] != 0)
  }

  lemma StopsAt(s: seq<nat>, k: nat)
    requires k < |s| && s[k] == 0 && forall i :: 0 <= i < k ==> s[i] != 0
    ensures FirstEmpty(s) == k
  {}

  /** An empty slot belongs to an index handed out exactly when that index is pending. */
  lemma HeldOrPending(s: seq<nat>, base: nat, m: multiset<nat>)
    requires FirstEmpty(s) < |s|
    ensures base + FirstEmpty(s) in m <==> base + FirstEmpty(s) in Pending(s, base, m)
  {}

  lemma StillBacked(s: seq<nat>, base: nat, m: multiset<nat>, idx: nat)
    requires Backed(s, base, m)
    ensures Backed(s, base, m + multiset{idx})
  {}

  ghost predicate Once(m: multiset<nat>) { forall i :: i in m ==> m[i] == 1 }

  lemma {:induction false} OccupiedExactly(s: seq<nat>, base: nat, m: multiset<nat>)
    requires Backed(s, base, m) && Once(m)
    ensures |m| == Occupied(s) + |Pending(s, base, m)|
    decreases |s|
  {
    if s == [] {
      assert Pending(s, base, m) == Elements(m);
      OnceSize(m);
    } else {
      var n := |s| - 1;
      var front := s[..n];
      if s[n] != 0 {
        var m' := m - multiset{base + n};
        assert base + n in m && |m'| == |m| - 1;
        assert Backed(front, base, m') && Once(m');
        OccupiedExactly(front, base, m');
        assert Pending(front, base, m') == Pending(s, base, m);
      } else {
        OccupiedExactly(front, base, m);
        assert Pending(front, base, m) == Pending(s, base, m);
      }
    }
  }

  ghost function Elements(m: multiset<nat>): set<nat> { set i | i in m }

  lemma {:induction false} OnceSize(m: multiset<nat>)
    requires Once(m)
    ensures |m| == |Elements(m)|
    decreases |m|
  {
    var s := Elements(m);
    if |m| > 0 {
      var x :| x in m;
      var m' := m - multiset{x};
      assert Once(m') && |m'| == |m| - 1;
      OnceSize(m');
      assert Elements(m') == s - {x};
      assert x in s && |s - {x}| == |s| - 1;
    } else {
      assert s == {};
    }
  }

  datatype Result = Index(idx: nat) | Exceeded

  /**
   The table, the two counts, and the reference indices handed out and not freed, as often as they were
   handed out.
   */
  datatype Snap = Snap(heaps: seq<nat>, countNative: nat, countRef: nat, handed: multiset<nat>)

  ghost predicate SnapOk(native: nat, ref: nat, s: Snap) {
    && native >= 1 && |s.heaps| == native + ref && s.heaps[0] == 0
    && 1 <= s.countNative <= native && s.countRef <= ref
    && (forall i :: s.countNative <= i < native ==> s.heaps[i] == 0)
    && (forall i :: i in s.handed ==> native <= i < native + ref)
    && Backed(s.heaps[native..], native, s.handed) && s.countRef == |s.handed|
  }

  class HeapTable {
    const maxNative: nat
    const maxRef: nat
    const heaps: array<nat>
    var countNative: nat
    var countRef: nat
    ghost var handed: multiset<nat>

    ghost function S(): Snap
      reads this, heaps
    {
      Snap(heaps[..], countNative, countRef, handed)
    }

    /** The reference part of the table. */
    ghost function Refs(): seq<nat>
      requires heaps.Length == maxNative + maxRef
      reads this, heaps
    {
      heaps[..][maxNative..]
    }

    ghost predicate Valid()
      reads this, heaps
    {
      heaps.Length == maxNative + maxRef && SnapOk(maxNative, maxRef, S())
    }

    /** The heaps in use. */
    ghost predicate Live(i: nat)
      reads this, heaps
    {
      0 < i < heaps.Length && heaps[i] != 0
    }

    constructor (native: nat, ref: nat)
      requires native >= 1
      ensures Valid() && maxNative == native && maxRef == ref && countNative == 1 && countRef == 0
      ensures handed == multiset{} && fresh(heaps) && forall i :: 0 <= i < heaps.Length ==> heaps[i] == 0
    {
      maxNative, maxRef := native, ref;
      heaps := new nat[native + ref](_ => 0);
      countNative, countRef := 1, 0;
      handed := multiset{};
    }

    /** A new native index is larger than every one before it. */
    method AllocNative() returns (r: Result)
      requires Valid()
      modifies this`countNative
      ensures Valid()
      ensures r.Exceeded? <==> old(countNative) >= maxNative
      ensures r.Exceeded? ==> countNative == old(countNative)
      ensures r.Index? ==> r.idx == old(countNative) && countNative == r.idx + 1
      ensures r.Index? ==> 0 < r.idx < maxNative && !Live(r.idx)
    {
      if countNative >= maxNative { return Exceeded; }
      r := Index(countNative);
      countNative := countNative + 1;
    }

    /**
     A reference index is the first empty slot of its range; the count guarantees that there is one. It collides with
     an index handed out before exactly when that one's slot is the first empty one.
     */
    method AllocRef() returns (r: Result)
      requires Valid()
      modifies this`countRef, this`handed
      ensures Valid()
      ensures r.Exceeded? <==> old(countRef) >= maxRef
      ensures r.Exceeded? ==> countRef == old(countRef) && handed == old(handed)
      ensures r.Index? ==> r.idx == maxNative + FirstEmpty(Refs()) < maxNative + maxRef && !Live(r.idx)
      ensures r.Index? ==> handed == old(handed) + multiset{r.idx} && countRef == old(countRef) + 1
      ensures r.Index? ==>
                (r.idx in old(handed) <==> maxNative + FirstEmpty(Refs()) in Pending(Refs(), maxNative, old(handed)))
    {
      hide Occupied, Backed, Pending, FirstEmpty;
      if countRef >= maxRef { return Exceeded; }
      var lim := maxNative + maxRef;
      var idx := maxNative;
      ghost var refs := Refs();
      OccupiedFull(refs);
      OccupiedWithin(refs, maxNative, handed);
      assert forall i :: 0 <= i < |refs| ==> refs[i] == heaps[maxNative + i];
      while idx < lim && heaps[idx] != 0
        invariant maxNative <= idx <= lim && forall i :: maxNative <= i < idx ==> heaps[i] != 0
      {
        idx := idx + 1;
      }
      StopsAt(refs, idx - maxNative);
      HeldOrPending(refs, maxNative, handed);
      StillBacked(refs, maxNative, handed, idx);
      countRef := countRef + 1;
      handed := handed + multiset{idx};
      r := Index(idx);
    }

    /** get(idx, true) = st. */
    method Register(idx: nat, h: nat)
      requires Valid() && h != 0 && 0 < idx && if idx < maxNative then idx < countNative else idx in handed
      modifies heaps
      ensures Valid() && Live(idx) && heaps[..] == old(heaps[..])[idx := h]
    {
      heaps[idx] := h;
    }

    /** get(idx) = nullptr. */
    method Unregister(idx: nat)
      requires Valid() && Live(idx)
      modifies heaps
      ensures Valid() && !Live(idx) && heaps[..] == old(heaps[..])[idx := 0]
    {
      heaps[idx] := 0;
    }

    function Remaining(held: multiset<nat>, idx: nat): multiset<nat> {
      if idx >= maxNative then held - multiset{idx} else held
    }

    /** free_index: a native index is not given back. */
    method FreeIndex(idx: nat)
      requires Valid() && 0 < idx < heaps.Length && heaps[idx] == 0 && (idx >= maxNative ==> idx in handed)
      modifies this`countRef, this`handed
      ensures Valid() && countRef == if idx >= maxNative then old(countRef) - 1 else old(countRef)
      ensures handed == Remaining(old(handed), idx)
    {
      if idx >= maxNative {
        countRef := countRef - 1;
        handed := handed - multiset{idx};
      }
    }
  }

  // ----- whole runs -----

  datatype Op = OpenNative | OpenRef | Enter(idx: nat, h: nat) | Remove(idx: nat) | Release(idx: nat)

  datatype Reply = Given(idx: nat) | Done | Refused

  /** What the operations on an index ask of the program: it holds the index, and the slot is empty, or not. */
  predicate Allowed(native: nat, s: Snap, op: Op) {
    match op
    case Enter(idx, h) => h != 0 && 0 < idx < |s.heaps| && if idx < native then idx < s.countNative else idx in s.handed
    case Remove(idx) => 0 < idx < |s.heaps| && s.heaps[idx] != 0
    case Release(idx) => 0 < idx < |s.heaps| && s.heaps[idx] == 0 && (idx >= native ==> idx in s.handed)
    case _ => true
  }

  /** One operation and its result. Beyond the limit, or without leave, nothing changes. */
  function Do(native: nat, ref: nat, s: Snap, op: Op): (Snap, Reply)
    requires |s.heaps| == native + ref
  {
    if !Allowed(native, s, op) then (s, Refused)
    else match op
      case OpenNative =>
        if s.countNative >= native then (s, Refused) else (s.(countNative := s.countNative + 1), Given(s.countNative))
      case OpenRef =>
        if s.countRef >= ref then (s, Refused)
        else
          var idx := native + FirstEmpty(s.heaps[native..]);
          (s.(countRef := s.countRef + 1, handed := s.handed + multiset{idx}), Given(idx))
      case Enter(idx, h) => (s.(heaps := s.heaps[idx := h]), Done)
      case Remove(idx) => (s.(heaps := s.heaps[idx := 0]), Done)
      case Release(idx) =>
        if idx < native || s.countRef == 0 then (s, Done)
        else (s.(countRef := s.countRef - 1, handed := s.handed - multiset{idx}), Done)
  }

  const NOTHING_HELD: multiset<nat> := multiset{}

  function Fresh(native: nat, ref: nat): Snap { Snap(seq(native + ref, _ => 0), 1, 0, NOTHING_HELD) }

  /** A run: the table before each operation and after the last, and every result. */
  ghost predicate Trace(native: nat, ref: nat, ops: seq<Op>, replies: seq<Reply>, snaps: seq<Snap>) {
    && native >= 1 && |replies| == |ops| && |snaps| == |ops| + 1 && snaps[0] == Fresh(native, ref)
    && (forall k :: 0 <= k < |snaps| ==> |snaps[k].heaps| == native + ref)
    && (forall k :: 0 <= k < |ops| ==> (snaps[k + 1], replies[k]) == Do(native, ref, snaps[k], ops[k]))
  }

  /** The methods do what Do says; held are the indices the program holds. */
  method Perform(t: HeapTable, op: Op, held: multiset<nat>) returns (reply: Reply, held': multiset<nat>)
    requires t.Valid() && t.handed == held
    modifies t, t.heaps
    ensures t.Valid() && t.handed == held'
    ensures (t.S(), reply) == Do(t.maxNative, t.maxRef, old(t.S()), op)
  {
    hide Do, SnapOk;
    if op.OpenNative? || op.OpenRef? {
      reply, held' := PerformOpen(t, op, held);
    } else {
      reply, held' := PerformOn(t, op, held);
    }
  }

  method PerformOpen(t: HeapTable, op: Op, held: multiset<nat>) returns (reply: Reply, held': multiset<nat>)
    requires t.Valid() && t.handed == held && (op.OpenNative? || op.OpenRef?)
    modifies t`countNative, t`countRef, t`handed
    ensures t.Valid() && t.handed == held'
    ensures (t.S(), reply) == Do(t.maxNative, t.maxRef, old(t.S()), op)
  {
    hide Occupied, Backed, Pending, FirstEmpty, SnapOk;
    reply, held' := Refused, held;
    if op.OpenNative? {
      var r := t.AllocNative();
      if r.Index? { reply := Given(r.idx); }
    } else {
      var r := t.AllocRef();
      if r.Index? { reply, held' := Given(r.idx), held + multiset{r.idx}; }
    }
  }

  method PerformOn(t: HeapTable, op: Op, held: multiset<nat>) returns (reply: Reply, held': multiset<nat>)
    requires t.Valid() && t.handed == held && !op.OpenNative? && !op.OpenRef?
    modifies t`countRef, t`handed, t.heaps
    ensures t.Valid() && t.handed == held'
    ensures (t.S(), reply) == Do(t.maxNative, t.maxRef, old(t.S()), op)
  {
    hide Occupied, Backed, Pending, FirstEmpty, SnapOk;
    reply, held' := Refused, held;
    match op
    case Enter(idx, h) =>
      if h != 0 && 0 < idx < t.heaps.Length && (if idx < t.maxNative then idx < t.countNative else idx in held) {
        t.Register(idx, h);
        reply := Done;
      }
    case Remove(idx) =>
      if 0 < idx < t.heaps.Length && t.heaps[idx] != 0 {
        t.Unregister(idx);
        reply := Done;
      }
    case Release(idx) =>
      if 0 < idx < t.heaps.Length && t.heaps[idx] == 0 && (idx >= t.maxNative ==> idx in held) {
        t.FreeIndex(idx);
        reply, held' := Done, t.Remaining(held, idx);
      }
    case _ =>
  }

  /** The table before each operation and after the last. */
  function Snaps(native: nat, ref: nat, ops: seq<Op>): (snaps: seq<Snap>)
    ensures |snaps| == |ops| + 1 && forall k :: 0 <= k < |snaps| ==> |snaps[k].heaps| == native + ref
  {
    if ops == [] then [Fresh(native, ref)]
    else
      var n := |ops| - 1;
      var snaps := Snaps(native, ref, ops[..n]);
      snaps + [Do(native, ref, snaps[n], ops[n]).0]
  }

  /** The result of each operation. */
  function Replies(native: nat, ref: nat, ops: seq<Op>): (replies: seq<Reply>)
    ensures |replies| == |ops|
  {
    if ops == [] then []
    else
      var n := |ops| - 1;
      Replies(native, ref, ops[..n]) + [Do(native, ref, Snaps(native, ref, ops[..n])[n], ops[n]).1]
  }

  lemma {:induction false} Traced(native: nat, ref: nat, ops: seq<Op>)
    requires native >= 1
    ensures Trace(native, ref, ops, Replies(native, ref, ops), Snaps(native, ref, ops))
    decreases |ops|
  {
    hide Do;
    if ops != [] {
      var n := |ops| - 1;
      Traced(native, ref, ops[..n]);
      var snaps, replies := Snaps(native, ref, ops[..n]), Replies(native, ref, ops[..n]);
      forall k | 0 <= k < |ops|
        ensures (Snaps(native, ref, ops)[k + 1], Replies(native, ref, ops)[k])
                == Do(native, ref, Snaps(native, ref, ops)[k], ops[k])
      {
        if k < n { assert (snaps[k + 1], replies[k]) == Do(native, ref, snaps[k], ops[..n][k]); }
      }
    }
  }

  /** A program that allocates, registers, unregisters and frees indices in any order. */
  method Run(native: nat, ref: nat, ops: seq<Op>) returns (replies: seq<Reply>)
    requires native >= 1
    ensures replies == Replies(native, ref, ops)
  {
    hide Occupied, Backed, Pending, FirstEmpty, Do;
    var t := new HeapTable(native, ref);
    var held := NOTHING_HELD;
    replies := [];
    for k := 0 to |ops|
      invariant t.Valid() && t.maxNative == native && t.maxRef == ref && t.handed == held && fresh(t) && fresh(t.heaps)
      invariant replies == Replies(native, ref, ops[..k]) && t.S() == Snaps(native, ref, ops[..k])[k]
    {
      assert ops[..k + 1][..k] == ops[..k];
      var reply;
      reply, held := Perform(t, ops[k], held);
      replies := replies + [reply];
    }
    assert ops[..|ops|] == ops;
  }

  // ----- what holds of every run -----

  lemma FreshOk(native: nat, ref: nat)
    requires native >= 1
    ensures SnapOk(native, ref, Fresh(native, ref)) && Once(Fresh(native, ref).handed)
  {}

  /** Every operation keeps the table in order. */
  lemma DoOk(native: nat, ref: nat, s: Snap, op: Op)
    requires SnapOk(native, ref, s)
    ensures SnapOk(native, ref, Do(native, ref, s, op).0)
    ensures op.OpenRef? && Do(native, ref, s, op).1.Given? ==> FirstEmpty(s.heaps[native..]) < ref
  {
    hide FirstEmpty, Occupied, Backed, SnapOk;
    SnapRange(native, ref, s);
    match op
    case OpenNative => OpenNativeOk(native, ref, s);
    case OpenRef => OpenRefOk(native, ref, s);
    case Enter(idx, h) => if Allowed(native, s, op) { PutOk(native, ref, s, idx, h); }
    case Remove(idx) => if Allowed(native, s, op) { PutOk(native, ref, s, idx, 0); }
    case Release(idx) => if Allowed(native, s, op) { ReleaseOk(native, ref, s, idx); }
  }

  lemma SnapRange(native: nat, ref: nat, s: Snap)
    requires SnapOk(native, ref, s)
    ensures |s.heaps| == native + ref
  {}

  lemma OpenNativeOk(native: nat, ref: nat, s: Snap)
    requires SnapOk(native, ref, s)
    ensures s.countNative < native ==> SnapOk(native, ref, s.(countNative := s.countNative + 1))
  {
    hide Backed;
  }

  lemma OpenRefOk(native: nat, ref: nat, s: Snap)
    requires SnapOk(native, ref, s) && |s.heaps| == native + ref
    ensures s.countRef < ref ==>
              var k := FirstEmpty(s.heaps[native..]);
              k < ref && SnapOk(native, ref, s.(countRef := s.countRef + 1, handed := s.handed + multiset{native + k}))
  {
    hide FirstEmpty, Occupied, Backed;
    var refs := s.heaps[native..];
    if s.countRef < ref {
      SlotLeft(refs, native, s.handed);
      StillBacked(refs, native, s.handed, native + FirstEmpty(refs));
    }
  }

  lemma PutOk(native: nat, ref: nat, s: Snap, idx: nat, h: nat)
    requires SnapOk(native, ref, s) && 0 < idx < native + ref
    requires h == 0 || if idx < native then idx < s.countNative else idx in s.handed
    ensures |s.heaps| == native + ref && SnapOk(native, ref, s.(heaps := s.heaps[idx := h]))
  {
    hide Backed;
    PutBacked(s.heaps, native, s.handed, idx, h);
  }

  lemma ReleaseOk(native: nat, ref: nat, s: Snap, idx: nat)
    requires SnapOk(native, ref, s) && |s.heaps| == native + ref && Allowed(native, s, Release(idx))
    ensures SnapOk(native, ref, Do(native, ref, s, Release(idx)).0)
  {
    hide Backed, FirstEmpty;
    if idx >= native { FreedBacked(s.heaps[native..], native, s.handed, idx); }
  }

  lemma PutBacked(heaps: seq<nat>, native: nat, m: multiset<nat>, idx: nat, h: nat)
    requires native <= |heaps| && idx < |heaps| && Backed(heaps[native..], native, m)
    requires h == 0 || idx < native || idx in m
    ensures Backed(heaps[idx := h][native..], native, m)
  {
    var s := heaps[idx := h][native..];
    forall i | 0 <= i < |s| && s[i] != 0
      ensures native + i in m
    {
      if native + i != idx { assert heaps[native..][i] != 0; }
    }
  }

  lemma FreedBacked(s: seq<nat>, base: nat, m: multiset<nat>, idx: nat)
    requires Backed(s, base, m) && base <= idx < base + |s| && s[idx - base] == 0
    ensures Backed(s, base, m - multiset{idx})
  {
    forall i | 0 <= i < |s| && s[i] != 0
      ensures base + i in m - multiset{idx}
    {
      assert base + i in m && base + i != idx;
    }
  }

  /** Below the limit the scan stops at an empty slot. */
  lemma SlotLeft(s: seq<nat>, base: nat, m: multiset<nat>)
    requires Backed(s, base, m) && |m| < |s|
    ensures FirstEmpty(s) < |s|
  {
    OccupiedFull(s);
    OccupiedWithin(s, base, m);
  }

  lemma {:induction false} TraceOk(native: nat, ref: nat, ops: seq<Op>, replies: seq<Reply>, snaps: seq<Snap>, k: nat)
    requires Trace(native, ref, ops, replies, snaps) && k <= |ops|
    ensures SnapOk(native, ref, snaps[k])
    decreases k
  {
    hide SnapOk, Do;
    if k == 0 {
      FreshOk(native, ref);
    } else {
      TraceOk(native, ref, ops, replies, snaps, k - 1);
      DoOk(native, ref, snaps[k - 1], ops[k - 1]);
    }
  }

  /** The first empty slot of the reference range belongs to an index that is held but has no heap. */
  ghost predicate FirstIsPending(native: nat, s: Snap)
    requires native <= |s.heaps|
  {
    native + FirstEmpty(s.heaps[native..]) in Pending(s.heaps[native..], native, s.handed)
  }

  /** Operation k gave an index that the program holds already. */
  ghost predicate Collides(ops: seq<Op>, replies: seq<Reply>, snaps: seq<Snap>, k: nat)
    requires k < |ops| == |replies| < |snaps|
  {
    ops[k].OpenRef? && replies[k].Given? && replies[k].idx in snaps[k].handed
  }

  /** Operation k allocated a reference index while the first empty slot was pending. */
  ghost predicate Early(native: nat, ops: seq<Op>, replies: seq<Reply>, snaps: seq<Snap>, k: nat)
    requires k < |ops| == |replies| < |snaps| && native <= |snaps[k].heaps|
  {
    ops[k].OpenRef? && replies[k].Given? && FirstIsPending(native, snaps[k])
  }

  /**
   Step by step: an index is given again exactly when the first empty slot was pending, and only then one is
   held twice.
   */
  lemma StepCollides(native: nat, ref: nat, s: Snap, op: Op)
    requires SnapOk(native, ref, s)
    ensures var (s', r) := Do(native, ref, s, op);
            && (op.OpenRef? && r.Given? ==> (r.idx in s.handed <==> FirstIsPending(native, s)))
            && (Once(s.handed) ==> (Once(s'.handed) <==> !(op.OpenRef? && r.Given? && r.idx in s.handed)))
  {
    hide FirstEmpty, Occupied, Backed;
    DoOk(native, ref, s, op);
    var (s', r) := Do(native, ref, s, op);
    if op.OpenRef? && r.Given? {
      HeldOrPending(s.heaps[native..], native, s.handed);
      if r.idx in s.handed && Once(s.handed) { assert s'.handed[r.idx] == 2; }
    }
  }

  lemma {:induction false} OnceUpTo(native: nat, ref: nat, ops: seq<Op>, replies: seq<Reply>, snaps: seq<Snap>, n: nat)
    requires Trace(native, ref, ops, replies, snaps) && n <= |ops|
    requires forall k :: 0 <= k < n ==> !Collides(ops, replies, snaps, k)
    ensures Once(snaps[n].handed)
    decreases n
  {
    hide Do, Once;
    if n == 0 {
      FreshOk(native, ref);
    } else {
      OnceUpTo(native, ref, ops, replies, snaps, n - 1);
      TraceOk(native, ref, ops, replies, snaps, n - 1);
      StepCollides(native, ref, snaps[n - 1], ops[n - 1]);
      assert !Collides(ops, replies, snaps, n - 1);
    }
  }

  /**
   Over any run some index is handed out while it is held exactly when some allocation met a first empty slot that was
   pending, and that is exactly when the program at some point holds an index twice.
   */
  lemma HandedTwiceExactlyWhen(native: nat, ref: nat, ops: seq<Op>, replies: seq<Reply>, snaps: seq<Snap>)
    requires Trace(native, ref, ops, replies, snaps)
    ensures (exists k :: 0 <= k < |ops| && Collides(ops, replies, snaps, k)) <==>
            (exists k :: 0 <= k < |ops| && Early(native, ops, replies, snaps, k))
    ensures (exists k :: 0 <= k < |ops| && Collides(ops, replies, snaps, k)) <==>
            (exists k :: 0 <= k <= |ops| && !Once(snaps[k].handed))
  {
    hide Do, Once, FirstIsPending;
    forall k | 0 <= k < |ops|
      ensures Collides(ops, replies, snaps, k) <==> Early(native, ops, replies, snaps, k)
      ensures Once(snaps[k].handed) && Collides(ops, replies, snaps, k) ==> !Once(snaps[k + 1].handed)
    {
      assert (snaps[k + 1], replies[k]) == Do(native, ref, snaps[k], ops[k]);
      TraceOk(native, ref, ops, replies, snaps, k);
      StepCollides(native, ref, snaps[k], ops[k]);
    }
    if k :| 0 <= k < |ops| && Collides(ops, replies, snaps, k) {
      assert !Once(snaps[k].handed) || !Once(snaps[k + 1].handed);
    }
    if n :| 0 <= n <= |ops| && !Once(snaps[n].handed) {
      if forall k :: 0 <= k < |ops| ==> !Collides(ops, replies, snaps, k) {
        OnceUpTo(native, ref, ops, replies, snaps, n);
      }
    }
  }

  /** As long as no index is handed out twice, the count is that of the occupied slots and the pending indices. */
  lemma CountIsExact(native: nat, ref: nat, ops: seq<Op>, replies: seq<Reply>, snaps: seq<Snap>, n: nat)
    requires Trace(native, ref, ops, replies, snaps) && n <= |ops|
    requires forall k :: 0 <= k < n ==> !Early(native, ops, replies, snaps, k)
    ensures var refs := snaps[n].heaps[native..];
            snaps[n].countRef == Occupied(refs) + |Pending(refs, native, snaps[n].handed)|
  {
    hide Do, Once, FirstIsPending, Occupied, Pending;
    forall k | 0 <= k < n
      ensures !Collides(ops, replies, snaps, k)
    {
      assert (snaps[k + 1], replies[k]) == Do(native, ref, snaps[k], ops[k]);
      TraceOk(native, ref, ops, replies, snaps, k);
      StepCollides(native, ref, snaps[k], ops[k]);
      assert !Early(native, ops, replies, snaps, k);
    }
    OnceUpTo(native, ref, ops, replies, snaps, n);
    TraceOk(native, ref, ops, replies, snaps, n);
    OccupiedExactly(snaps[n].heaps[native..], native, snaps[n].handed);
  }

  /** Every index is in the range of its kind, and a native one is larger than every one given before it. */
  lemma {:induction false} NativesRise(native: nat, ref: nat, ops: seq<Op>, replies: seq<Reply>, snaps: seq<Snap>,
                                       i: nat, j: nat)
    requires Trace(native, ref, ops, replies, snaps) && i < j < |ops| && replies[i].Given? && replies[j].Given?
    ensures if ops[i].OpenNative? then 0 < replies[i].idx < native else native <= replies[i].idx < native + ref
    ensures ops[i].OpenNative? && ops[j].OpenNative? ==> replies[i].idx < replies[j].idx
  {
    hide FirstEmpty;
    TraceOk(native, ref, ops, replies, snaps, i);
    DoOk(native, ref, snaps[i], ops[i]);
    assert (snaps[i + 1], replies[i]) == Do(native, ref, snaps[i], ops[i]);
    assert (snaps[j + 1], replies[j]) == Do(native, ref, snaps[j], ops[j]);
    CountGrows(native, ref, ops, replies, snaps, i + 1, j);
  }

  lemma {:induction false} CountGrows(native: nat, ref: nat, ops: seq<Op>, replies: seq<Reply>, snaps: seq<Snap>,
                                      i: nat, j: nat)
    requires Trace(native, ref, ops, replies, snaps) && i <= j <= |ops|
    ensures snaps[i].countNative <= snaps[j].countNative
    decreases j
  {
    if i < j { CountGrows(native, ref, ops, replies, snaps, i, j - 1); }
  }

  /**
   Two allocations of a reference index. In between the first may be registered, and unregistered again. The second
   index is another one exactly when the first has its heap in the table at that time.
   */
  method SecondAllocation(t: HeapTable, h: nat, remove: bool) returns (r1: Result, r2: Result)
    requires t.Valid()
    modifies t, t.heaps
    ensures t.Valid()
    ensures r1.Index? && r2.Index? ==> (r2.idx != r1.idx <==> h != 0 && !remove)
  {
    r1 := t.AllocRef();
    r2 := r1;
    if r1.Index? {
      ghost var refs := t.Refs();
      if h != 0 {
        t.Register(r1.idx, h);
        assert t.Refs() == refs[r1.idx - t.maxNative := h];
        if remove {
          t.Unregister(r1.idx);
          assert t.Refs() == refs;
        }
      }
      r2 := t.AllocRef();
    }
  }
}
