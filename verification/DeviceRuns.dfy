/**
 How devices use the table of heap indices: an index is registered before the next one is allocated, and a failure in
 between ends the process (src/cuda.cpp:252-281, src/hip.cpp:293-314, src/ze.cpp:564-634); closing a device empties its
 slot and gives the index back (src/cuda.cpp:326-327, src/hip.cpp:358-359, src/ze.cpp:691-692).
 */
module DeviceRuns {
  import opened HeapIndex

  datatype Device = Open(native: bool, h: nat) | Close(idx: nat)

  predicate IsLive(s: Snap, idx: nat) { 0 < idx < |s.heaps| && s.heaps[idx] != 0 }

  /** Opening allocates and registers, closing unregisters and frees. */
  function Act(native: nat, ref: nat, s: Snap, d: Device): (Snap, Reply)
    requires |s.heaps| == native + ref
  {
    match d
    case Open(uses, h) =>
      var (s1, r) := Do(native, ref, s, if uses then OpenNative else OpenRef);
      if r.Given? then (Do(native, ref, s1, Enter(r.idx, h)).0, r) else (s1, r)
    case Close(idx) =>
      if IsLive(s, idx) then (Do(native, ref, Do(native, ref, s, Remove(idx)).0, Release(idx)).0, Done)
        else (s, Refused)
  }

  /** The indices held are those of the heaps in the table, each once. */
  ghost predicate Settled(native: nat, s: Snap)
    requires native <= |s.heaps|
  {
    Once(s.handed) && Pending(s.heaps[native..], native, s.handed) == {}
  }

  lemma HeldIsLive(native: nat, ref: nat, s: Snap, idx: nat)
    requires SnapOk(native, ref, s) && Settled(native, s) && native <= idx < native + ref
    ensures idx in s.handed <==> s.heaps[idx] != 0
  {
    var refs := s.heaps[native..];
    assert refs[idx - native] == s.heaps[idx];
    assert idx !in Pending(refs, native, s.handed);
  }

  lemma SettledIf(native: nat, ref: nat, s: Snap)
    requires SnapOk(native, ref, s) && Once(s.handed) && forall i :: i in s.handed ==> s.heaps[i] != 0
    ensures Settled(native, s)
  {
    forall i | i in s.handed ensures s.heaps[native..][i - native] == s.heaps[i] {}
  }

  lemma HeldAreLive(native: nat, ref: nat, s: Snap)
    requires SnapOk(native, ref, s) && Settled(native, s)
    ensures Once(s.handed) && forall i :: i in s.handed ==> s.heaps[i] != 0
  {
    hide Backed, Occupied, Pending, Settled, Once;
    SettledOnce(native, s);
    forall i | i in s.handed ensures s.heaps[i] != 0 { HeldIsLive(native, ref, s, i); }
  }

  /** All slots of the kind are taken: native ones are never free again, reference ones while a heap is in them. */
  ghost predicate NoneLeft(native: nat, s: Snap, uses: bool) {
    if uses then s.countNative >= native else forall i :: native <= i < |s.heaps| ==> s.heaps[i] != 0
  }

  lemma NativesFull(native: nat, s: Snap)
    ensures NoneLeft(native, s, true) <==> s.countNative >= native
  {}

  lemma CountFull(native: nat, ref: nat, s: Snap)
    requires SnapOk(native, ref, s) && Settled(native, s)
    ensures s.countRef >= ref <==> NoneLeft(native, s, false)
  {
    hide Occupied, Settled, Backed;
    var refs := s.heaps[native..];
    SettledCount(native, ref, s);
    OccupiedFull(refs);
    assert forall i :: 0 <= i < |refs| ==> refs[i] == s.heaps[native + i];
    if forall i :: 0 <= i < |refs| ==> refs[i] != 0 {
      forall i | native <= i < |s.heaps| ensures s.heaps[i] != 0 { assert refs[i - native] != 0; }
    }
  }

  /** The answer of an allocation. */
  lemma OpenAnswers(native: nat, ref: nat, s: Snap, uses: bool)
    requires SnapOk(native, ref, s) && Settled(native, s)
    ensures var (s1, r) := Do(native, ref, s, if uses then OpenNative else OpenRef);
            && !r.Done? && (r.Refused? <==> NoneLeft(native, s, uses)) && (r.Refused? ==> s1 == s)
            && (r.Given? ==> 0 < r.idx < |s.heaps| && s.heaps[r.idx] == 0 && r.idx !in s.handed)
            && (r.Given? && uses ==> r.idx == s.countNative && s1 == s.(countNative := s.countNative + 1))
            && (r.Given? && !uses ==>
                  && r.idx >= native && (forall i :: native <= i < r.idx ==> s.heaps[i] != 0)
                  && s1 == s.(countRef := s.countRef + 1, handed := s.handed + multiset{r.idx})
                  && Once(s1.handed))
  {
    hide FirstEmpty, Backed, Occupied, Pending, Settled, Once, NoneLeft;
    CountFull(native, ref, s);
    NativesFull(native, s);
    DoOk(native, ref, s, if uses then OpenNative else OpenRef);
    var r := Do(native, ref, s, if uses then OpenNative else OpenRef).1;
    if r.Given? && !uses { OneMore(s, native, ref, r.idx); }
  }

  /**
   Opening a device is refused exactly when no slot of its kind is left. Otherwise it gives an index that is not held
   and whose slot is empty: the next native one, or the least empty one of the others.
   */
  lemma OpenOk(native: nat, ref: nat, s: Snap, uses: bool, h: nat)
    requires SnapOk(native, ref, s) && Settled(native, s) && h != 0
    ensures var (s', r) := Act(native, ref, s, Open(uses, h));
            && SnapOk(native, ref, s') && Settled(native, s')
            && (r.Refused? ==> s' == s) && !r.Done?
            && (r.Refused? <==> NoneLeft(native, s, uses))
            && (r.Given? ==>
                  0 < r.idx < |s.heaps| && s.heaps[r.idx] == 0 && r.idx !in s.handed && s'.heaps == s.heaps[r.idx := h])
            && (r.Given? && uses ==> r.idx == s.countNative && s'.countNative == s.countNative + 1)
            && (r.Given? && !uses ==> r.idx >= native && forall i :: native <= i < r.idx ==> s.heaps[i] != 0)
  {
    hide FirstEmpty, Backed, Occupied, Pending, Settled, Once, NoneLeft;
    HeldAreLive(native, ref, s);
    OpenAnswers(native, ref, s, uses);
    var op := if uses then OpenNative else OpenRef;
    DoOk(native, ref, s, op);
    var (s1, r) := Do(native, ref, s, op);
    var s' := Act(native, ref, s, Open(uses, h)).0;
    if r.Given? {
      DoOk(native, ref, s1, Enter(r.idx, h));
      assert s' == s1.(heaps := s.heaps[r.idx := h]);
    }
    SettledIf(native, ref, s');
  }

  /** Closing a device touches its slot only. */
  lemma CloseOk(native: nat, ref: nat, s: Snap, idx: nat)
    requires SnapOk(native, ref, s) && Settled(native, s)
    ensures var (s', r) := Act(native, ref, s, Close(idx));
            && SnapOk(native, ref, s') && Settled(native, s')
            && (r.Refused? ==> s' == s) && !r.Given? && s'.countNative == s.countNative
            && (r.Done? <==> 0 < idx < |s.heaps| && s.heaps[idx] != 0)
            && (r.Done? ==> s'.heaps == s.heaps[idx := 0])
  {
    hide FirstEmpty, Backed, Occupied, Pending, Settled, Once;
    HeldAreLive(native, ref, s);
    if IsLive(s, idx) {
      var s1 := Do(native, ref, s, Remove(idx)).0;
      DoOk(native, ref, s, Remove(idx));
      if idx >= native { HeldIsLive(native, ref, s, idx); }
      DoOk(native, ref, s1, Release(idx));
      OneLess(s.handed, idx);
      SettledIf(native, ref, Act(native, ref, s, Close(idx)).0);
    }
  }

  lemma ActOk(native: nat, ref: nat, s: Snap, d: Device)
    requires SnapOk(native, ref, s) && Settled(native, s) && (d.Open? ==> d.h != 0)
    ensures var (s', r) := Act(native, ref, s, d);
            && SnapOk(native, ref, s') && Settled(native, s') && (r.Refused? ==> s' == s)
            && (if d.Open? then !r.Done? else !r.Given?)
            && (r.Given? ==> 0 < r.idx < |s.heaps| && s.heaps[r.idx] == 0 && r.idx !in s.handed)
            && (d.Open? && r.Given? ==> s'.heaps == s.heaps[r.idx := d.h])
            && (d.Close? && r.Done? ==> IsLive(s, d.idx) && s'.heaps == s.heaps[d.idx := 0])
  {
    hide Act, SnapOk, Settled;
    match d
    case Open(uses, h) => OpenOk(native, ref, s, uses, h);
    case Close(idx) => CloseOk(native, ref, s, idx);
  }

  lemma SettledOnce(native: nat, s: Snap)
    requires native <= |s.heaps| && Settled(native, s)
    ensures Once(s.handed)
  {}

  lemma OneMore(s: Snap, native: nat, ref: nat, idx: nat)
    requires SnapOk(native, ref, s) && Settled(native, s)
    requires idx == native + FirstEmpty(s.heaps[native..]) < native + ref
    ensures s.heaps[idx] == 0 && idx !in s.handed && Once(s.handed + multiset{idx})
    ensures forall i :: native <= i < idx ==> s.heaps[i] != 0
  {
    forall i | native <= i < idx ensures s.heaps[i] != 0 { assert s.heaps[native..][i - native] != 0; }
    assert s.heaps[native..][idx - native] == s.heaps[idx];
    HeldIsLive(native, ref, s, idx);
  }

  lemma OneLess(m: multiset<nat>, idx: nat)
    requires Once(m)
    ensures Once(m - multiset{idx}) && idx !in m - multiset{idx}
  {
    assert idx in m ==> m[idx] == 1;
  }

  // ----- whole programs -----

  /** A program that opens and closes devices, from the start. */
  ghost predicate DeviceTrace(native: nat, ref: nat, ds: seq<Device>, replies: seq<Reply>, snaps: seq<Snap>) {
    && native >= 1 && |replies| == |ds| && |snaps| == |ds| + 1 && snaps[0] == Fresh(native, ref)
    && (forall k :: 0 <= k < |snaps| ==> |snaps[k].heaps| == native + ref)
    && (forall k :: 0 <= k < |ds| ==> (snaps[k + 1], replies[k]) == Act(native, ref, snaps[k], ds[k]))
  }

  /** The table before each action and after the last. */
  function DeviceSnaps(native: nat, ref: nat, ds: seq<Device>): (snaps: seq<Snap>)
    ensures |snaps| == |ds| + 1 && forall k :: 0 <= k < |snaps| ==> |snaps[k].heaps| == native + ref
  {
    if ds == [] then [Fresh(native, ref)]
    else
      var n := |ds| - 1;
      var snaps := DeviceSnaps(native, ref, ds[..n]);
      snaps + [Act(native, ref, snaps[n], ds[n]).0]
  }

  function DeviceReplies(native: nat, ref: nat, ds: seq<Device>): (replies: seq<Reply>)
    ensures |replies| == |ds|
  {
    if ds == [] then []
    else
      var n := |ds| - 1;
      DeviceReplies(native, ref, ds[..n]) + [Act(native, ref, DeviceSnaps(native, ref, ds[..n])[n], ds[n]).1]
  }

  lemma {:induction false} DevicesTraced(native: nat, ref: nat, ds: seq<Device>)
    requires native >= 1
    ensures DeviceTrace(native, ref, ds, DeviceReplies(native, ref, ds), DeviceSnaps(native, ref, ds))
    decreases |ds|
  {
    hide Act;
    if ds != [] {
      var n := |ds| - 1;
      DevicesTraced(native, ref, ds[..n]);
      var snaps, replies := DeviceSnaps(native, ref, ds[..n]), DeviceReplies(native, ref, ds[..n]);
      forall k | 0 <= k < |ds|
        ensures (DeviceSnaps(native, ref, ds)[k + 1], DeviceReplies(native, ref, ds)[k])
                == Act(native, ref, DeviceSnaps(native, ref, ds)[k], ds[k])
      {
        if k < n { assert (snaps[k + 1], replies[k]) == Act(native, ref, snaps[k], ds[..n][k]); }
      }
    }
  }

  ghost predicate ProperDevices(ds: seq<Device>) { forall k :: 0 <= k < |ds| && ds[k].Open? ==> ds[k].h != 0 }

  /** At every point the count is that of the occupied slots, and no index is pending or held twice. */
  lemma {:induction false} AlwaysSettled(native: nat, ref: nat, ds: seq<Device>, replies: seq<Reply>, snaps: seq<Snap>,
                                         k: nat)
    requires DeviceTrace(native, ref, ds, replies, snaps) && ProperDevices(ds) && k <= |ds|
    ensures SnapOk(native, ref, snaps[k]) && Settled(native, snaps[k])
    ensures snaps[k].countRef == Occupied(snaps[k].heaps[native..])
    decreases k
  {
    hide Act, SnapOk, Settled, Occupied, Pending;
    if k == 0 {
      FreshOk(native, ref);
      FreshSettled(native, ref);
    } else {
      AlwaysSettled(native, ref, ds, replies, snaps, k - 1);
      assert (snaps[k], replies[k - 1]) == Act(native, ref, snaps[k - 1], ds[k - 1]);
      ActOk(native, ref, snaps[k - 1], ds[k - 1]);
    }
    SettledCount(native, ref, snaps[k]);
  }

  lemma FreshSettled(native: nat, ref: nat)
    requires native >= 1
    ensures Settled(native, Fresh(native, ref))
  {}

  lemma SettledCount(native: nat, ref: nat, s: Snap)
    requires SnapOk(native, ref, s) && Settled(native, s)
    ensures s.countRef == Occupied(s.heaps[native..])
  {
    hide Occupied;
    OccupiedExactly(s.heaps[native..], native, s.handed);
  }

  /**
   No open is given the index of a device that is still open, and the heap of a device stays in its slot
   until it is closed.
   */
  lemma {:induction false} IndicesNeverCollide(native: nat, ref: nat, ds: seq<Device>, replies: seq<Reply>,
                                               snaps: seq<Snap>, i: nat, j: nat)
    requires DeviceTrace(native, ref, ds, replies, snaps) && ProperDevices(ds) && i < j <= |ds|
    requires ds[i].Open? && replies[i].Given? && forall k :: i < k < j ==> ds[k] != Close(replies[i].idx)
    ensures 0 < replies[i].idx < native + ref && snaps[j].heaps[replies[i].idx] == ds[i].h
    ensures j < |ds| && ds[j].Open? && replies[j].Given? ==> replies[j].idx != replies[i].idx
    decreases j
  {
    hide Act, SnapOk, Settled, Occupied;
    var idx := replies[i].idx;
    AlwaysSettled(native, ref, ds, replies, snaps, j - 1);
    assert (snaps[j], replies[j - 1]) == Act(native, ref, snaps[j - 1], ds[j - 1]);
    ActOk(native, ref, snaps[j - 1], ds[j - 1]);
    if i < j - 1 { IndicesNeverCollide(native, ref, ds, replies, snaps, i, j - 1); }
    if j < |ds| {
      AlwaysSettled(native, ref, ds, replies, snaps, j);
      assert (snaps[j + 1], replies[j]) == Act(native, ref, snaps[j], ds[j]);
      ActOk(native, ref, snaps[j], ds[j]);
    }
  }

  // ----- the methods do this -----

  method OpenDevice(t: HeapTable, uses: bool, h: nat, held: multiset<nat>) returns (reply: Reply, held': multiset<nat>)
    requires t.Valid() && t.handed == held && h != 0
    modifies t, t.heaps
    ensures t.Valid() && t.handed == held'
    ensures (t.S(), reply) == Act(t.maxNative, t.maxRef, old(t.S()), Open(uses, h))
  {
    hide Do, SnapOk;
    reply, held' := Perform(t, if uses then OpenNative else OpenRef, held);
    if reply.Given? {
      var done;
      done, held' := Perform(t, Enter(reply.idx, h), held');
    }
  }

  method CloseDevice(t: HeapTable, idx: nat, held: multiset<nat>) returns (reply: Reply, held': multiset<nat>)
    requires t.Valid() && t.handed == held
    modifies t, t.heaps
    ensures t.Valid() && t.handed == held'
    ensures (t.S(), reply) == Act(t.maxNative, t.maxRef, old(t.S()), Close(idx))
  {
    hide Do, SnapOk;
    reply, held' := Refused, held;
    if 0 < idx < t.heaps.Length && t.heaps[idx] != 0 {
      var done;
      done, held' := Perform(t, Remove(idx), held');
      done, held' := Perform(t, Release(idx), held');
      reply := Done;
    }
  }

  /** The program run on the table. */
  method RunDevices(native: nat, ref: nat, ds: seq<Device>) returns (replies: seq<Reply>)
    requires native >= 1 && ProperDevices(ds)
    ensures replies == DeviceReplies(native, ref, ds)
  {
    hide Act, SnapOk;
    var t := new HeapTable(native, ref);
    var held := NOTHING_HELD;
    replies := [];
    for k := 0 to |ds|
      invariant t.Valid() && t.maxNative == native && t.maxRef == ref && t.handed == held && fresh(t) && fresh(t.heaps)
      invariant replies == DeviceReplies(native, ref, ds[..k]) && t.S() == DeviceSnaps(native, ref, ds[..k])[k]
    {
      assert ds[..k + 1][..k] == ds[..k];
      var reply;
      match ds[k] {
        case Open(uses, h) => reply, held := OpenDevice(t, uses, h, held);
        case Close(idx) => reply, held := CloseDevice(t, idx, held);
      }
      replies := replies + [reply];
    }
    assert ds[..|ds|] == ds;
  }
}
