/**
 The completion actions of one operation from construction to the last callback
 (src/completion.hpp:640-672, 709-951, 1283-1388, 1526-1589). A promise has a dependency count and a
 reference count; an action may hold one of each, and whoever holds them last gives them back.
 */
module Completions {
  datatype Event = SourceEvent | RemoteEvent | OperationEvent

  datatype Kind = Buffered | Blocking | Fut(eager: bool) | Prom(eager: bool, p: nat) | Lpc

  /** An action as the user wrote it; enabled says that its event is delivered on this side. */
  datatype Action = Action(ev: Event, enabled: bool, kind: Kind)

  /** What the state of an action holds: a reference, a reference and a dependency, an undischarged lpc. */
  datatype Hold = Nothing | Ref(p: nat) | Dep(p: nat) | Armed

  /** Where it is: in the list, in a dormant lpc, in a progress queue, finished. */
  datatype Place = InList | Asleep | Queued | Gone

  datatype Item = Item(ev: Event, enabled: bool, kind: Kind, place: Place, hold: Hold)

  /** cx_event_done, a word of one bit per event. */
  datatype DoneFlag = NoneDone | SourceDone | RemoteDone | OperationDone

  function EventBit(e: Event): bv8 {
    match e
    case SourceEvent => 1
    case RemoteEvent => 2
    case OperationEvent => 4
  }

  function DoneBits(f: DoneFlag): bv8 {
    match f
    case NoneDone => 0
    case SourceDone => EventBit(SourceEvent)
    case RemoteDone => EventBit(SourceEvent) | EventBit(RemoteEvent)
    case OperationDone => EventBit(SourceEvent) | EventBit(RemoteEvent) | EventBit(OperationEvent)
  }

  /** cx_event_is_done: completing the operation implies the others, remote completion implies source. */
  predicate IsDone(f: DoneFlag, e: Event): (done: bool)
    ensures done <==>
            f == OperationDone || (f == RemoteDone && e != OperationEvent) || (f == SourceDone && e == SourceEvent)
  {
    DoneBits(f) & EventBit(e) != 0
  }

  // ----- counting -----

  function DepsOf(h: Hold, p: nat): int { if h == Dep(p) then 1 else 0 }

  function RefsOf(h: Hold, p: nat): int { if h == Dep(p) || h == Ref(p) then 1 else 0 }

  function ArmedOf(h: Hold): int { if h == Armed then 1 else 0 }

  function Deps(s: seq<Item>, p: nat): int { if s == [] then 0 else DepsOf(s[0].hold, p) + Deps(s[1..], p) }

  function Refs(s: seq<Item>, p: nat): int { if s == [] then 0 else RefsOf(s[0].hold, p) + Refs(s[1..], p) }

  function Lpcs(s: seq<Item>): int { if s == [] then 0 else ArmedOf(s[0].hold) + Lpcs(s[1..]) }

  lemma {:induction false} CountUpdate(s: seq<Item>, i: nat, x: Item, p: nat)
    requires i < |s|
    ensures Deps(s[i := x], p) == Deps(s, p) - DepsOf(s[i].hold, p) + DepsOf(x.hold, p)
    ensures Refs(s[i := x], p) == Refs(s, p) - RefsOf(s[i].hold, p) + RefsOf(x.hold, p)
    ensures Lpcs(s[i := x]) == Lpcs(s) - ArmedOf(s[i].hold) + ArmedOf(x.hold)
  {
    if i == 0 {
      assert s[i := x][1..] == s[1..];
    } else {
      CountUpdate(s[1..], i - 1, x, p);
      assert s[i := x][1..] == s[1..][i - 1 := x];
    }
  }

  lemma {:induction false} CountAppend(s: seq<Item>, x: Item, p: nat)
    ensures Deps(s + [x], p) == Deps(s, p) + DepsOf(x.hold, p)
    ensures Refs(s + [x], p) == Refs(s, p) + RefsOf(x.hold, p)
    ensures Lpcs(s + [x]) == Lpcs(s) + ArmedOf(x.hold)
  {
    if s == [] {
      assert s + [x] == [x] && [x][1..] == [];
    } else {
      CountAppend(s[1..], x, p);
      assert (s + [x])[1..] == s[1..] + [x];
    }
  }

  lemma {:induction false} CountNone(s: seq<Item>, p: nat)
    requires forall i :: 0 <= i < |s| ==> s[i].hold == Nothing
    ensures Deps(s, p) == 0 && Refs(s, p) == 0 && Lpcs(s) == 0
  {
    if s != [] { CountNone(s[1..], p); }
  }

  // ----- the counters of the process -----

  datatype Counters = Counters(deps: nat -> int, refs: nat -> int, undischarged: int)

  function Require(c: Counters, p: nat): Counters {
    c.(deps := (x: nat) => if x == p then c.deps(x) + 1 else c.deps(x))
  }

  function DropRef(c: Counters, p: nat): Counters {
    c.(refs := (x: nat) => if x == p then c.refs(x) - 1 else c.refs(x))
  }

  /** fulfill_now, or fulfill_during when its turn has come: one dependency and the reference moved in. */
  function Fulfill(c: Counters, p: nat): Counters {
    DropRef(c.(deps := (x: nat) => if x == p then c.deps(x) - 1 else c.deps(x)), p)
  }

  /** What the counters were, or will be, without the actions. */
  ghost predicate Balanced(c: Counters, base: Counters, s: seq<Item>) {
    && (forall p: nat :: c.deps(p) == base.deps(p) + Deps(s, p))
    && (forall p: nat :: c.refs(p) == base.refs(p) + Refs(s, p))
    && c.undischarged == base.undischarged + Lpcs(s)
  }

  /** An action gives back, or takes, exactly what its hold says. */
  ghost predicate Moved(c: Counters, c': Counters, h: Hold, h': Hold) {
    && (forall p: nat :: c'.deps(p) == c.deps(p) - DepsOf(h, p) + DepsOf(h', p))
    && (forall p: nat :: c'.refs(p) == c.refs(p) - RefsOf(h, p) + RefsOf(h', p))
    && c'.undischarged == c.undischarged - ArmedOf(h) + ArmedOf(h')
  }

  lemma BalancedUpdate(c: Counters, c': Counters, base: Counters, s: seq<Item>, i: nat, x: Item)
    requires Balanced(c, base, s) && i < |s| && Moved(c, c', s[i].hold, x.hold)
    ensures Balanced(c', base, s[i := x])
  {
    hide Deps, Refs, Lpcs;
    CountUpdate(s, i, x, 0);
    forall p: nat
      ensures c'.deps(p) == base.deps(p) + Deps(s[i := x], p) && c'.refs(p) == base.refs(p) + Refs(s[i := x], p)
    {
      CountUpdate(s, i, x, p);
    }
  }

  /** A promise is held only by actions that work on one. */
  ghost predicate KindOk(x: Item) {
    && (x.hold.Armed? ==> x.kind.Lpc? && x.place.InList?)
    && (x.kind.Lpc? && x.place.InList? && x.enabled ==> x.hold.Armed?)
    && (x.place.Gone? || !x.enabled ==> x.hold.Nothing?)
    && (x.hold.Ref? ==> x.place.InList? && x.kind.Prom?)
    && (x.hold.Dep? ==> x.kind.Prom? || x.kind.Fut?)
  }

  /** Some action after position i is delivered on this side: its list is not empty. */
  predicate LaterEnabled(s: seq<Item>, i: nat) { exists k :: i <= k < |s| && s[k].enabled }

  predicate Matches(x: Item, e: Event) { x.enabled && x.ev == e }

  function Matching(s: seq<Item>, e: Event): nat {
    if s == [] then 0 else Matching(s[..|s| - 1], e) + if Matches(s[|s| - 1], e) then 1 else 0
  }

  function Repeat<V>(v: V, n: nat): (r: seq<V>)
    ensures |r| == n && forall k :: 0 <= k < n ==> r[k] == v
  {
    seq(n, _ => v)
  }

  /** The same actions, whatever became of them. */
  ghost predicate SameActions(s: seq<Item>, t: seq<Item>) {
    && |s| == |t|
    && forall i :: 0 <= i < |s| ==> s[i].ev == t[i].ev && s[i].enabled == t[i].enabled && s[i].kind == t[i].kind
  }

  /** Actions of other events are left alone. */
  ghost predicate OthersKept(s: seq<Item>, t: seq<Item>, e: Event) {
    SameActions(s, t) && forall i :: 0 <= i < |s| && !Matches(s[i], e) ==> t[i] == s[i]
  }

  /** Every action of the event waits for its one call. */
  predicate Ready(s: seq<Item>, e: Event) { forall i :: 0 <= i < |s| && Matches(s[i], e) ==> s[i].place == InList }

  /** Only futures, promises and lpcs can sleep, and only with something to do when woken. */
  predicate CanSleep(s: seq<Item>, e: Event) {
    forall i :: 0 <= i < |s| && Matches(s[i], e) ==> s[i].hold.Dep? || s[i].hold.Armed?
  }

  /** How many actions delivered here bring a reference to promise p. */
  function Promised(actions: seq<Action>, p: nat): nat {
    if actions == [] then 0
    else
      var a := actions[|actions| - 1];
      Promised(actions[..|actions| - 1], p) + if a.enabled && a.kind.Prom? && a.kind.p == p then 1 else 0
  }

  datatype Option<V> = None | Some(value: V)

  /** What the state of an action takes when it is built. */
  function HoldAtStart(a: Action, valued: bool): Hold {
    if !a.enabled then Nothing
    else match a.kind
      case Prom(eager, p) => if valued then Dep(p) else Ref(p)
      case Lpc => Armed
      case _ => Nothing
  }

  /** The actions as they were built. */
  ghost predicate AtStart(s: seq<Item>, valued: Event -> bool) {
    forall i :: 0 <= i < |s| ==>
      s[i].place == InList && s[i].hold == HoldAtStart(Action(s[i].ev, s[i].enabled, s[i].kind), valued(s[i].ev))
  }

  /**
   Nothing is left to do for the action when the returner has run: it is eager, without values, and its event
   is done.
   */
  predicate Spared(ev: Event, eager: bool, valued: bool, done: DoneFlag) { eager && !valued && IsDone(done, ev) }

  /** What an action holds after the returner: futures a promise made for them, numbered from n on. */
  ghost predicate ReturnedItem(x: Item, valued: bool, done: DoneFlag, n: nat, m: nat) {
    x.place == InList &&
    if !x.enabled then x.hold == Nothing
    else match x.kind
      case Fut(eager) => if Spared(x.ev, eager, valued, done) then x.hold == Nothing
        else x.hold.Dep? && n <= x.hold.p < m
      case Prom(eager, p) => x.hold == if Spared(x.ev, eager, valued, done) then Nothing else Dep(p)
      case Lpc => x.hold == Armed
      case _ => x.hold == Nothing
  }

  /** No two futures share a promise. */
  ghost predicate OwnPromises(s: seq<Item>) {
    forall i, j :: 0 <= i < j < |s| && s[i].kind.Fut? && s[j].kind.Fut? && s[i].hold.Dep? && s[j].hold.Dep? ==>
      s[i].hold.p != s[j].hold.p
  }

  function CountersAfter(c: Counters, a: Action, valued: bool): Counters {
    match HoldAtStart(a, valued)
    case Dep(p) => Require(c, p)
    case Armed => c.(undischarged := c.undischarged + 1)
    case _ => c
  }

  /** The reference an action brought is now the state's. */
  ghost function BaseAfter(b: Counters, a: Action): Counters {
    if a.enabled && a.kind.Prom? then DropRef(b, a.kind.p) else b
  }

  lemma StartOk(c: Counters, b: Counters, s: seq<Item>, x: Item, a: Action, valued: bool)
    requires Balanced(c, b, s) && x == Item(a.ev, a.enabled, a.kind, InList, HoldAtStart(a, valued))
    ensures Balanced(CountersAfter(c, a, valued), BaseAfter(b, a), s + [x]) && KindOk(x)
  {
    BalancedAppend(c, b, CountersAfter(c, a, valued), BaseAfter(b, a), s, x);
  }

  lemma NothingYet(c: Counters)
    ensures Balanced(c, c, []) && Charged(c, c, [])
  {}

  /** The base counts: the user's, without the references his actions brought. */
  ghost predicate Charged(c: Counters, b: Counters, actions: seq<Action>) {
    && (forall p: nat :: b.deps(p) == c.deps(p) && b.refs(p) == c.refs(p) - Promised(actions, p))
    && b.undischarged == c.undischarged
  }

  lemma ChargedMore(c: Counters, b: Counters, actions: seq<Action>, i: nat)
    requires i < |actions| && Charged(c, b, actions[..i])
    ensures Charged(c, BaseAfter(b, actions[i]), actions[..i + 1])
  {
    assert actions[..i + 1][..i] == actions[..i];
  }

  lemma {:induction false} PromisedNone(actions: seq<Action>, p: nat, n: nat)
    requires p >= n && forall i :: 0 <= i < |actions| && actions[i].kind.Prom? ==> actions[i].kind.p < n
    ensures Promised(actions, p) == 0
    decreases |actions|
  {
    if actions != [] { PromisedNone(actions[..|actions| - 1], p, n); }
  }

  lemma Unpromised(c: Counters, b: Counters, actions: seq<Action>, n: nat)
    requires Charged(c, b, actions) && (forall p: nat :: p >= n ==> c.deps(p) == 0 && c.refs(p) == 0)
    requires forall i :: 0 <= i < |actions| && actions[i].kind.Prom? ==> actions[i].kind.p < n
    ensures forall p: nat :: p >= n ==> b.deps(p) == 0 && b.refs(p) == 0
  {
    hide Promised;
    forall p: nat | p >= n ensures b.deps(p) == 0 && b.refs(p) == 0 { PromisedNone(actions, p, n); }
  }

  /**
   The promises the user brought keep their base counts; only those of new futures, at or above n, gain the
   user's reference.
   */
  ghost predicate KeptBelow(b: Counters, b': Counters, n: nat) {
    b'.undischarged == b.undischarged && (forall p: nat :: b'.deps(p) == b.deps(p)) && forall p: nat :: p < n ==>
      b'.refs(p) == b.refs(p)
  }

  /**
   What the call that fires the event does to an action. Finished within the call: buffered and blocking actions,
   actions with nothing left to do, an eager future, and an eager promise with values, which give back what they hold.
   Left to progress: an lpc, which is discharged, and a deferred future or any other promise, which keep their hold.
   */
  ghost predicate FiredItem(x: Item, y: Item, valued: bool) {
    match x.kind
    case Buffered => y.place == Gone && y.hold == Nothing
    case Blocking => y.place == Gone && y.hold == Nothing
    case Lpc => y.place == Queued && y.hold == Nothing
    case Fut(eager) =>
      if eager || x.hold == Nothing then y.place == Gone && y.hold == Nothing else y.place == Queued && y.hold == x.hold
    case Prom(eager, _) =>
      if (eager && valued) || x.hold == Nothing then y.place == Gone && y.hold == Nothing
      else y.place == Queued && y.hold == x.hold
  }

  /** An action put to sleep keeps the promise it holds; an lpc is discharged. */
  ghost predicate SleepingItem(x: Item, y: Item) {
    y.place == Asleep && y.hold == if x.kind == Lpc then Nothing else x.hold
  }

  /** Awakened, an action is left to progress with what it holds; dropped, it gives it back at once. */
  ghost predicate WokenItem(x: Item, y: Item, awaken: bool) {
    if x.place != Asleep then y == x
    else if awaken then y == x.(place := Queued)
    else y == x.(place := Gone, hold := Nothing)
  }

  class Operation<V> {
    var items: seq<Item>
    var c: Counters
    var returned: bool
    var next: nat
    ghost var base: Counters
    var seen: seq<V>
    const valued: Event -> bool

    /** The counters are what they would be without the operation, plus what its actions hold. */
    ghost predicate Valid()
      reads this
    {
      && Balanced(c, base, items)
      && (forall i :: 0 <= i < |items| ==> KindOk(items[i]) && (returned ==> !items[i].hold.Ref?))
      && (forall p: nat :: p >= next ==> base.deps(p) == 0 && base.refs(p) == 0)
    }

    /** The completion state takes over the references of the promise actions; lpcs count as undischarged. */
    constructor (actions: seq<Action>, counters: Counters, fresh0: nat, vals: Event -> bool)
      requires forall p: nat :: p >= fresh0 ==> counters.deps(p) == 0 && counters.refs(p) == 0
      requires forall i :: 0 <= i < |actions| && actions[i].kind.Prom? ==> actions[i].kind.p < fresh0
      ensures Valid() && !returned && seen == [] && valued == vals && |items| == |actions|
      ensures forall i :: 0 <= i < |actions| ==> Action(items[i].ev, items[i].enabled, items[i].kind) == actions[i]
      ensures AtStart(items, valued)
      ensures Charged(counters, base, actions) && next == fresh0
    {
      hide Balanced, KindOk, Promised, Require, DropRef;
      var its: seq<Item> := [];
      var cs := counters;
      ghost var b := counters;
      NothingYet(counters);
      for i := 0 to |actions|
        invariant Balanced(cs, b, its) && |its| == i && Charged(counters, b, actions[..i])
        invariant forall k :: 0 <= k < i ==> KindOk(its[k])
        invariant forall k :: 0 <= k < i ==> Action(its[k].ev, its[k].enabled, its[k].kind) == actions[k]
        invariant AtStart(its, vals)
      {
        var a := actions[i];
        var x := Item(a.ev, a.enabled, a.kind, InList, HoldAtStart(a, vals(a.ev)));
        StartOk(cs, b, its, x, a, vals(a.ev));
        ChargedMore(counters, b, actions, i);
        b := BaseAfter(b, a);
        cs := CountersAfter(cs, a, vals(a.ev));
        its := its + [x];
      }
      assert actions[..|actions|] == actions;
      Unpromised(counters, b, actions, fresh0);
      items, c, returned, next, base, seen, valued := its, cs, false, fresh0, b, [], vals;
    }

    /** One action changes what it holds, and the counters follow. */
    method Put(i: nat, x: Item, c': Counters)
      requires Valid() && i < |items| && Moved(c, c', items[i].hold, x.hold) && KindOk(x) && (returned ==> !x.hold.Ref?)
      modifies this`items, this`c
      ensures Valid() && items == old(items)[i := x]
    {
      hide Balanced, Moved, KindOk;
      BalancedUpdate(c, c', base, items, i, x);
      items, c := items[i := x], c';
    }

    /** get_future, when a promise is needed: the state and the user's future each hold a reference. */
    method NewFuture(i: nat)
      requires Valid() && i < |items| && items[i].enabled && items[i].kind.Fut? && items[i].hold.Nothing?
      requires items[i].place == InList
      modifies this
      ensures Valid() && items == old(items)[i := old(items)[i].(hold := Dep(old(next)))]
      ensures returned == old(returned) && seen == old(seen) && KeptBelow(old(base), base, old(next))
      ensures next == old(next) + 1
    {
      var q := next;
      var c0 := c;
      c := c.(refs := (x: nat) => if x == q then c0.refs(x) + 1 else c0.refs(x));
      base := base.(refs := (x: nat) => if x == q then old(base).refs(x) + 1 else old(base).refs(x));
      next := next + 1;
      var c1 := c;
      var c2 := Require(c1.(refs := (x: nat) => if x == q then c1.refs(x) + 1 else c1.refs(x)), q);
      Put(i, items[i].(hold := Dep(q)), c2);
    }

    /**
     completions_returner: futures get their promise, void promises their dependency, unless the event is
     done already.
     */
    method Return(done: DoneFlag)
      requires Valid() && !returned && AtStart(items, valued)
      modifies this
      ensures Valid() && returned && SameActions(old(items), items) && seen == old(seen)
      ensures KeptBelow(old(base), base, old(next)) && old(next) <= next
      ensures forall i :: 0 <= i < |items| ==> ReturnedItem(items[i], valued(items[i].ev), done, old(next), next)
      ensures OwnPromises(items)
    {
      hide Balanced, KindOk, KeptBelow, ReturnedItem, OwnPromises, HoldAtStart;
      ghost var s0 := items;
      KeptSelf(base, next);
      var i := |items|;
      NoneShared(items[i..]);
      while i > 0
        invariant 0 <= i <= |items| && Valid() && !returned && SameActions(s0, items) && seen == old(seen)
        invariant KeptBelow(old(base), base, old(next)) && next >= old(next)
        invariant forall k :: 0 <= k < i ==> items[k] == s0[k]
        invariant forall k :: i <= k < |items| ==> ReturnedItem(items[k], valued(items[k].ev), done, old(next), next)
        invariant OwnPromises(items[i..])
      {
        i := i - 1;
        ghost var later, base1, next1 := items[i + 1..], base, next;
        ReturnItem(i, done, old(next));
        KeptOn(old(base), base1, base, old(next), next1);
        forall k | i < k < |items|
          ensures ReturnedItem(items[k], valued(items[k].ev), done, old(next), next)
        {
          assert items[k] == later[k - i - 1];
          ReturnedMore(items[k], valued(items[k].ev), done, old(next), next1, next);
        }
        assert items[i..] == [items[i]] + later;
        OwnMore(items[i], later, valued, done, old(next), next1);
      }
      assert items[0..] == items;
      NoRefs(items, valued, done, old(next), next);
      returned := true;
    }

    /** The returner on one action: get_future or set_done. */
    method ReturnItem(i: nat, done: DoneFlag, ghost n: nat)
      requires Valid() && !returned && i < |items| && n <= next && AtStart([items[i]], valued)
      modifies this
      ensures Valid() && !returned && SameActions(old(items), items) && items == old(items)[i := items[i]]
      ensures seen == old(seen)
      ensures KeptBelow(old(base), base, old(next)) && old(next) <= next
      ensures ReturnedItem(items[i], valued(items[i].ev), done, n, next)
      ensures items[i].kind.Fut? && items[i].hold.Dep? ==> items[i].hold.p == old(next)
    {
      hide Balanced, KindOk, KeptBelow;
      var x := items[i];
      assert AtStart([x], valued) && [x][0] == x;
      KeptSelf(base, next);
      if x.enabled && x.kind.Fut? && !(x.kind.eager && !valued(x.ev) && IsDone(done, x.ev)) {
        NewFuture(i);
      } else if x.hold.Ref? && x.kind.eager && IsDone(done, x.ev) {
        DropOk(c, x);
        Put(i, x.(hold := Nothing), DropRef(c, x.hold.p));
      } else if x.hold.Ref? {
        DropOk(c, x);
        Put(i, x.(hold := Dep(x.hold.p)), Require(c, x.hold.p));
      }
    }

    /** operator() of one action: fulfil_now, fulfil_during, lpc_ff, or nothing to do. */
    method FireItem(i: nat)
      requires Valid() && returned && i < |items| && items[i].place == InList && items[i].enabled
      modifies this`items, this`c
      ensures Valid() && SameActions(old(items), items) && FiredItem(old(items[i]), items[i], valued(old(items[i]).ev))
      ensures forall k :: 0 <= k < |items| && k != i ==> items[k] == old(items)[k]
    {
      hide Balanced;
      var x := items[i];
      match x.kind
      case Buffered => Put(i, x.(place := Gone), c);
      case Blocking => Put(i, x.(place := Gone), c);
      case Lpc => Put(i, x.(place := Queued, hold := Nothing), c.(undischarged := c.undischarged - 1));
      case Fut(eager) =>
        if x.hold.Nothing? {
          Put(i, x.(place := Gone), c);
        } else if eager {
          Put(i, x.(place := Gone, hold := Nothing), Fulfill(c, x.hold.p));
        } else {
          Put(i, x.(place := Queued), c);
        }
      case Prom(eager, p) =>
        if x.hold.Nothing? {
          Put(i, x.(place := Gone), c);
        } else if eager && valued(x.ev) {
          Put(i, x.(place := Gone, hold := Nothing), Fulfill(c, x.hold.p));
        } else {
          Put(i, x.(place := Queued), c);
        }
    }

    /**
     Firing an event: every action of the event gets the values as they were given, and is finished in the call or
     queued for progress. The last action that is delivered on this side may move the values out; all before it copy.
     */
    method Fire(e: Event, v: V)
      requires Valid() && returned && Ready(items, e)
      modifies this`items, this`c, this`seen
      ensures Valid() && OthersKept(old(items), items, e)
      ensures forall i :: 0 <= i < |items| && Matches(items[i], e) ==>
                FiredItem(old(items)[i], items[i], valued(items[i].ev))
      ensures seen == old(seen) + Repeat(v, Matching(old(items), e))
    {
      hide Balanced, KindOk, FiredItem, LaterEnabled;
      ghost var s0 := items;
      var current := Some(v);
      for i := 0 to |items|
        invariant Valid() && OthersKept(s0, items, e) && forall k :: i <= k < |items| ==> items[k] == s0[k]
        invariant forall k :: 0 <= k < i && Matches(items[k], e) ==> FiredItem(s0[k], items[k], valued(items[k].ev))
        invariant LaterEnabled(s0, i) ==> current == Some(v)
        invariant seen == old(seen) + Repeat(v, Matching(s0[..i], e))
      {
        assert s0[..i + 1][..i] == s0[..i];
        if Matches(items[i], e) {
          EnabledHere(s0, items, i);
          seen := seen + [current.value];
          if !LaterEnabled(items, i + 1) { current := None; }
          FireItem(i);
        }
        EnabledOn(s0, i);
      }
      assert s0[..|s0|] == s0;
    }

    /** cancel: dependencies and references are given back at once. */
    method Cancel(e: Event)
      requires Valid() && returned && Ready(items, e)
      modifies this`items, this`c
      ensures Valid() && OthersKept(old(items), items, e)
      ensures forall i :: 0 <= i < |items| && Matches(items[i], e) ==>
                items[i].place == Gone && items[i].hold == Nothing
    {
      hide Balanced;
      for i := 0 to |items|
        invariant Valid() && OthersKept(old(items), items, e)
        invariant forall k :: i <= k < |items| ==> items[k] == old(items)[k]
        invariant forall k :: 0 <= k < i && Matches(items[k], e) ==> items[k].place == Gone && items[k].hold == Nothing
      {
        var x := items[i];
        if Matches(x, e) {
          if x.hold.Dep? {
            Put(i, x.(place := Gone, hold := Nothing), Fulfill(c, x.hold.p));
          } else if x.hold.Armed? {
            Put(i, x.(place := Gone, hold := Nothing), c.(undischarged := c.undischarged - 1));
          } else {
            Put(i, x.(place := Gone), c);
          }
        }
      }
    }

    /** to_lpc_dormant: what the actions hold moves into a dormant lpc; an lpc is discharged. */
    method MakeDormant(e: Event)
      requires Valid() && returned && Ready(items, e) && CanSleep(items, e)
      modifies this`items, this`c
      ensures Valid() && OthersKept(old(items), items, e)
      ensures forall i :: 0 <= i < |items| && Matches(items[i], e) ==> SleepingItem(old(items)[i], items[i])
    {
      hide Balanced;
      for i := 0 to |items|
        invariant Valid() && OthersKept(old(items), items, e)
        invariant forall k :: i <= k < |items| ==> items[k] == old(items)[k]
        invariant forall k :: 0 <= k < i && Matches(items[k], e) ==> SleepingItem(old(items)[k], items[k])
      {
        var x := items[i];
        if Matches(x, e) {
          if x.hold.Armed? {
            Put(i, x.(place := Asleep, hold := Nothing), c.(undischarged := c.undischarged - 1));
          } else {
            Put(i, x.(place := Asleep), c);
          }
        }
      }
    }

    /** The dormant lpc is awakened, or dropped. */
    method Wake(e: Event, awaken: bool)
      requires Valid() && returned
      modifies this`items, this`c
      ensures Valid() && OthersKept(old(items), items, e)
      ensures forall i :: 0 <= i < |items| && Matches(items[i], e) ==> WokenItem(old(items)[i], items[i], awaken)
    {
      hide Balanced;
      for i := 0 to |items|
        invariant Valid() && OthersKept(old(items), items, e)
        invariant forall k :: i <= k < |items| ==> items[k] == old(items)[k]
        invariant forall k :: 0 <= k < i && Matches(items[k], e) ==> WokenItem(old(items)[k], items[k], awaken)
      {
        var x := items[i];
        if Matches(x, e) && x.place == Asleep {
          if awaken {
            Put(i, x.(place := Queued), c);
          } else if x.hold.Dep? {
            Put(i, x.(place := Gone, hold := Nothing), Fulfill(c, x.hold.p));
          } else {
            Put(i, x.(place := Gone), c);
          }
        }
      }
    }

    /** Progress: one queued fulfilment or lpc is run. */
    method RunQueued(i: nat)
      requires Valid() && returned && i < |items| && items[i].place == Queued
      modifies this`items, this`c
      ensures Valid() && items == old(items)[i := old(items)[i].(place := Gone, hold := Nothing)]
    {
      hide Balanced;
      var x := items[i];
      if x.hold.Dep? {
        Put(i, x.(place := Gone, hold := Nothing), Fulfill(c, x.hold.p));
      } else {
        Put(i, x.(place := Gone), c);
      }
    }

    /** When every action is finished, all dependencies, references and undischarged lpcs have been given back. */
    lemma AllGivenBack()
      requires Valid() && forall i :: 0 <= i < |items| && items[i].enabled ==> items[i].place == Gone
      ensures forall p: nat :: c.deps(p) == base.deps(p) && c.refs(p) == base.refs(p)
      ensures c.undischarged == base.undischarged
    {
      CountNone(items, 0);
      forall p: nat
        ensures c.deps(p) == base.deps(p) && c.refs(p) == base.refs(p)
      {
        CountNone(items, p);
      }
    }
  }

  lemma EnabledHere(s0: seq<Item>, s: seq<Item>, i: nat)
    requires SameActions(s0, s) && i < |s| && s[i].enabled
    ensures LaterEnabled(s0, i) && (LaterEnabled(s0, i + 1) <==> LaterEnabled(s, i + 1))
  {
    assert s0[i].enabled;
    if k :| i + 1 <= k < |s0| && s0[k].enabled { assert s[k].enabled; }
    if k :| i + 1 <= k < |s| && s[k].enabled { assert s0[k].enabled; }
  }

  lemma EnabledOn(s: seq<Item>, i: nat)
    ensures LaterEnabled(s, i + 1) ==> LaterEnabled(s, i)
  {}

  lemma KeptSelf(b: Counters, n: nat)
    ensures KeptBelow(b, b, n)
  {}

  lemma KeptOn(b0: Counters, b1: Counters, b2: Counters, n: nat, m: nat)
    requires KeptBelow(b0, b1, n) && KeptBelow(b1, b2, m) && n <= m
    ensures KeptBelow(b0, b2, n)
  {}

  lemma DropOk(c: Counters, x: Item)
    requires KindOk(x) && x.hold.Ref?
    ensures x.place == InList && KindOk(x.(hold := Nothing)) && KindOk(x.(hold := Dep(x.hold.p)))
    ensures Moved(c, DropRef(c, x.hold.p), x.hold, Nothing) && Moved(c, Require(c, x.hold.p), x.hold, Dep(x.hold.p))
  {}

  lemma NoneShared(s: seq<Item>)
    requires s == []
    ensures OwnPromises(s)
  {}

  lemma ReturnedMore(x: Item, valued: bool, done: DoneFlag, n: nat, m: nat, m': nat)
    requires ReturnedItem(x, valued, done, n, m) && m <= m'
    ensures ReturnedItem(x, valued, done, n, m')
  {}

  lemma OwnMore(x: Item, s: seq<Item>, valued: Event -> bool, done: DoneFlag, n: nat, m: nat)
    requires OwnPromises(s) && (x.kind.Fut? && x.hold.Dep? ==> x.hold.p >= m)
    requires forall k :: 0 <= k < |s| ==> ReturnedItem(s[k], valued(s[k].ev), done, n, m)
    ensures OwnPromises([x] + s)
  {
    var t := [x] + s;
    forall i, j | 0 <= i < j < |t| && t[i].kind.Fut? && t[j].kind.Fut? && t[i].hold.Dep? && t[j].hold.Dep?
      ensures t[i].hold.p != t[j].hold.p
    {
      if i > 0 {
        assert s[i - 1] == t[i] && s[j - 1] == t[j];
      } else {
        assert ReturnedItem(s[j - 1], valued(s[j - 1].ev), done, n, m);
      }
    }
  }

  lemma NoRefs(s: seq<Item>, valued: Event -> bool, done: DoneFlag, n: nat, m: nat)
    requires forall i :: 0 <= i < |s| ==> ReturnedItem(s[i], valued(s[i].ev), done, n, m)
    ensures forall i :: 0 <= i < |s| ==> !s[i].hold.Ref?
  {}

  lemma BalancedAppend(c: Counters, base: Counters, c': Counters, base': Counters, s: seq<Item>, x: Item)
    requires Balanced(c, base, s)
    requires forall p: nat :: c'.deps(p) - base'.deps(p) == c.deps(p) - base.deps(p) + DepsOf(x.hold, p)
    requires forall p: nat :: c'.refs(p) - base'.refs(p) == c.refs(p) - base.refs(p) + RefsOf(x.hold, p)
    requires c'.undischarged - base'.undischarged == c.undischarged - base.undischarged + ArmedOf(x.hold)
    ensures Balanced(c', base', s + [x])
  {
    hide Deps, Refs, Lpcs;
    CountAppend(s, x, 0);
    forall p: nat
      ensures c'.deps(p) == base'.deps(p) + Deps(s + [x], p) && c'.refs(p) == base'.refs(p) + Refs(s + [x], p)
    {
      CountAppend(s, x, p);
    }
  }

  // ----- a whole operation -----

  /** What becomes of an event: fired, cancelled, or put to sleep and later awakened or dropped. */
  datatype Fate = Fired | Cancelled | Slept(awaken: bool)

  /** Only futures, promises and lpcs that the returner left something to do can sleep (src/completion.hpp:730, 809). */
  predicate MaySleep(a: Action, valued: bool, done: DoneFlag) {
    match a.kind
    case Fut(eager) => !Spared(a.ev, eager, valued, done)
    case Prom(eager, _) => !Spared(a.ev, eager, valued, done)
    case Lpc => true
    case _ => false
  }

  predicate Calls(a: Action, e: Event) { a.enabled && a.ev == e }

  /** Every event of the actions is called once, in some order, and put to sleep only if its actions can sleep. */
  ghost predicate Proper(actions: seq<Action>, done: DoneFlag, valued: Event -> bool, calls: seq<(Event, Fate)>) {
    && (forall i, j :: 0 <= i < j < |calls| ==> calls[i].0 != calls[j].0)
    && (forall i :: 0 <= i < |actions| && actions[i].enabled ==>
        exists k :: 0 <= k < |calls| && calls[k].0 == actions[i].ev)
    && (forall k, i ::
          0 <= k < |calls| && 0 <= i < |actions| && calls[k].1.Slept? && Calls(actions[i], calls[k].0) ==>
            MaySleep(actions[i], valued(actions[i].ev), done))
  }

  ghost predicate Called(calls: seq<(Event, Fate)>, k: nat, e: Event)
    requires k <= |calls|
  {
    exists j :: 0 <= j < k && calls[j].0 == e
  }

  /** After k calls: actions of events called are on their way, all others as the returner left them. */
  ghost predicate Halfway(s: seq<Item>, r: seq<Item>, calls: seq<(Event, Fate)>, k: nat)
    requires k <= |calls|
  {
    SameActions(r, s) && forall i :: 0 <= i < |s| && s[i].enabled ==>
      if Called(calls, k, s[i].ev) then s[i].place != InList else s[i] == r[i]
  }

  lemma HalfwayMore(s0: seq<Item>, s1: seq<Item>, r: seq<Item>, calls: seq<(Event, Fate)>, k: nat)
    requires k < |calls| && Halfway(s0, r, calls, k) && OthersKept(s0, s1, calls[k].0)
    requires forall i :: 0 <= i < |s1| && Matches(s1[i], calls[k].0) ==> s1[i].place != InList
    ensures Halfway(s1, r, calls, k + 1)
  {
    forall i | 0 <= i < |s1| && s1[i].enabled
      ensures if Called(calls, k + 1, s1[i].ev) then s1[i].place != InList else s1[i] == r[i]
    {
      if s1[i].ev != calls[k].0 {
        assert Called(calls, k + 1, s1[i].ev) <==> Called(calls, k, s1[i].ev);
      }
    }
  }

  lemma ReadyNow(s: seq<Item>, r: seq<Item>, calls: seq<(Event, Fate)>, k: nat)
    requires k < |calls| && Halfway(s, r, calls, k) && forall i, j :: 0 <= i < j < |calls| ==> calls[i].0 != calls[j].0
    requires forall i :: 0 <= i < |r| ==> r[i].place == InList
    ensures Ready(s, calls[k].0) && forall i :: 0 <= i < |s| && Matches(s[i], calls[k].0) ==> s[i] == r[i]
  {
    assert !Called(calls, k, calls[k].0);
  }

  lemma SleepyNow(s: seq<Item>, e: Event, actions: seq<Action>, valued: Event -> bool, done: DoneFlag, n: nat, m: nat)
    requires |s| == |actions| && forall i :: 0 <= i < |s| ==> Action(s[i].ev, s[i].enabled, s[i].kind) == actions[i]
    requires forall i :: 0 <= i < |s| && Matches(s[i], e) ==>
               ReturnedItem(s[i], valued(s[i].ev), done, n, m) && MaySleep(actions[i], valued(actions[i].ev), done)
    ensures CanSleep(s, e)
  {}

  /** What has become of an action when its event has been called, before any progress. */
  ghost predicate SettledItem(a: Action, x: Item, valued: bool, done: DoneFlag, fate: Fate) {
    match fate
    case Cancelled => x.place == Gone && x.hold == Nothing
    case Slept(_) => x.place == Asleep && (a.kind == Lpc ==> x.hold == Nothing) && (a.kind != Lpc ==> x.hold.Dep?)
    case Fired =>
      match a.kind
      case Buffered => x.place == Gone && x.hold == Nothing
      case Blocking => x.place == Gone && x.hold == Nothing
      case Lpc => x.place == Queued && x.hold == Nothing
      case Fut(eager) => if eager then x.place == Gone && x.hold == Nothing else x.place == Queued && x.hold.Dep?
      case Prom(eager, p) =>
        if eager && (valued || IsDone(done, a.ev)) then x.place == Gone && x.hold == Nothing
        else x.place == Queued && x.hold == Dep(p)
  }

  /** After k calls, every action whose event was called is settled. */
  ghost predicate Settled(s: seq<Item>, actions: seq<Action>, valued: Event -> bool, done: DoneFlag,
                          calls: seq<(Event, Fate)>, k: nat)
    requires k <= |calls|
  {
    && |s| == |actions|
    && forall j, i :: 0 <= j < k && 0 <= i < |s| && Calls(actions[i], calls[j].0) ==>
         SettledItem(actions[i], s[i], valued(actions[i].ev), done, calls[j].1)
  }

  lemma SettledMore(s0: seq<Item>, s1: seq<Item>, actions: seq<Action>, valued: Event -> bool, done: DoneFlag,
                    calls: seq<(Event, Fate)>, k: nat, n: nat, m: nat)
    requires k < |calls| && Settled(s0, actions, valued, done, calls, k) && OthersKept(s0, s1, calls[k].0)
    requires forall i, j :: 0 <= i < j < |calls| ==> calls[i].0 != calls[j].0
    requires forall i :: 0 <= i < |s0| ==> Action(s0[i].ev, s0[i].enabled, s0[i].kind) == actions[i]
    requires forall i :: 0 <= i < |s0| && Matches(s0[i], calls[k].0) ==>
               ReturnedItem(s0[i], valued(s0[i].ev), done, n, m)
    requires calls[k].1.Slept? ==> CanSleep(s0, calls[k].0)
    requires forall i :: 0 <= i < |s1| && Matches(s1[i], calls[k].0) ==>
               match calls[k].1
               case Fired => FiredItem(s0[i], s1[i], valued(s1[i].ev))
               case Cancelled => s1[i].place == Gone && s1[i].hold == Nothing
               case Slept(_) => SleepingItem(s0[i], s1[i])
    ensures Settled(s1, actions, valued, done, calls, k + 1)
  {
    hide FiredItem, SleepingItem, ReturnedItem, SettledItem;
    forall j, i | 0 <= j < k + 1 && 0 <= i < |s1| && Calls(actions[i], calls[j].0)
      ensures SettledItem(actions[i], s1[i], valued(actions[i].ev), done, calls[j].1)
    {
      if j == k {
        assert Matches(s1[i], calls[k].0) && Matches(s0[i], calls[k].0);
        SettledNow(actions[i], s0[i], s1[i], valued(actions[i].ev), done, calls[k].1, n, m);
      } else {
        assert s1[i] == s0[i];
      }
    }
  }

  lemma SettledNow(a: Action, x: Item, y: Item, valued: bool, done: DoneFlag, fate: Fate, n: nat, m: nat)
    requires Action(x.ev, x.enabled, x.kind) == a && a.enabled && ReturnedItem(x, valued, done, n, m)
    requires fate.Slept? ==> x.hold.Dep? || x.hold.Armed?
    requires match fate
             case Fired => FiredItem(x, y, valued)
             case Cancelled => y.place == Gone && y.hold == Nothing
             case Slept(_) => SleepingItem(x, y)
    ensures SettledItem(a, y, valued, done, fate)
  {}

  /** One call on one event. */
  method Settle<V>(o: Operation<V>, e: Event, fate: Fate, v: V)
    requires o.Valid() && o.returned && Ready(o.items, e) && (fate.Slept? ==> CanSleep(o.items, e))
    modifies o`items, o`c, o`seen
    ensures o.Valid() && OthersKept(old(o.items), o.items, e)
    ensures forall i :: 0 <= i < |o.items| && Matches(o.items[i], e) ==>
              match fate
              case Fired => FiredItem(old(o.items)[i], o.items[i], o.valued(o.items[i].ev))
              case Cancelled => o.items[i].place == Gone && o.items[i].hold == Nothing
              case Slept(_) => SleepingItem(old(o.items)[i], o.items[i])
    ensures o.seen == old(o.seen) + if fate.Fired? then Repeat(v, Matching(old(o.items), e)) else []
  {
    match fate
    case Fired => o.Fire(e, v);
    case Cancelled => o.Cancel(e);
    case Slept(_) => o.MakeDormant(e);
  }

  /** How many actions listen to an event on this side. */
  function Wanted(actions: seq<Action>, e: Event): nat {
    if actions == [] then 0
    else
      Wanted(actions[..|actions| - 1], e) + if Calls(actions[|actions| - 1], e) then 1 else 0
  }

  lemma {:induction false} WantedMatch(s: seq<Item>, actions: seq<Action>, e: Event)
    requires |s| == |actions| && forall i :: 0 <= i < |s| ==> Action(s[i].ev, s[i].enabled, s[i].kind) == actions[i]
    ensures Matching(s, e) == Wanted(actions, e)
    decreases |s|
  {
    if s != [] { WantedMatch(s[..|s| - 1], actions[..|actions| - 1], e); }
  }

  /** The values the actions see, call after call: each action of a fired event the values of the event. */
  function Expected<V>(actions: seq<Action>, calls: seq<(Event, Fate)>, v: Event -> V): seq<V> {
    if calls == [] then []
    else
      var (e, fate) := calls[|calls| - 1];
      Expected(actions, calls[..|calls| - 1], v) + if fate.Fired? then Repeat(v(e), Wanted(actions, e)) else []
  }

  ghost predicate NoneListed(s: seq<Item>) { forall i :: 0 <= i < |s| && s[i].enabled ==> s[i].place != InList }

  /** The dormant lpcs are awakened or dropped; none is left asleep. */
  method WakeAll<V>(o: Operation<V>, awaken: Event -> bool)
    requires o.Valid() && o.returned && NoneListed(o.items)
    modifies o`items, o`c
    ensures o.Valid() && SameActions(old(o.items), o.items)
    ensures forall i :: 0 <= i < |o.items| && o.items[i].enabled ==> o.items[i].place in {Queued, Gone}
  {
    o.Wake(SourceEvent, awaken(SourceEvent));
    o.Wake(RemoteEvent, awaken(RemoteEvent));
    o.Wake(OperationEvent, awaken(OperationEvent));
  }

  /** Progress runs everything that is queued. */
  method Drain<V>(o: Operation<V>)
    requires o.Valid() && o.returned
    requires forall i :: 0 <= i < |o.items| && o.items[i].enabled ==> o.items[i].place in {Queued, Gone}
    modifies o`items, o`c
    ensures o.Valid() && forall i :: 0 <= i < |o.items| && o.items[i].enabled ==> o.items[i].place == Gone
  {
    ghost var s0 := o.items;
    for i := 0 to |o.items|
      invariant o.Valid() && |o.items| == |s0| && forall k :: i <= k < |s0| ==> o.items[k] == s0[k]
      invariant forall k :: 0 <= k < i && o.items[k].enabled ==> o.items[k].place == Gone
    {
      if o.items[i].place == Queued { o.RunQueued(i); }
    }
  }

  /**
   Any list of actions, from construction through the returner, one call per event in any order, waking and progress:
   all dependencies net to zero, the references the actions brought are dropped once, undischarged lpcs are balanced.
   After the calls and before progress, exactly the actions that are not to be finished in their call hold promises.
   */
  method Lifecycle<V>(actions: seq<Action>, counters: Counters, n: nat, valued: Event -> bool, done: DoneFlag,
                      calls: seq<(Event, Fate)>, awaken: Event -> bool, v: Event -> V)
      returns (c: Counters, seen: seq<V>, ghost settled: seq<Item>, ghost before: Counters)
    requires forall p: nat :: p >= n ==> counters.deps(p) == 0 && counters.refs(p) == 0
    requires forall i :: 0 <= i < |actions| && actions[i].kind.Prom? ==> actions[i].kind.p < n
    requires Proper(actions, done, valued, calls)
    ensures Settled(settled, actions, valued, done, calls, |calls|)
    ensures forall p: nat :: before.deps(p) == counters.deps(p) + Deps(settled, p)
    ensures forall p: nat :: p < n ==> before.refs(p) == counters.refs(p) - Promised(actions, p) + Refs(settled, p)
    ensures forall p: nat :: c.deps(p) == counters.deps(p)
    ensures forall p: nat :: p < n ==> c.refs(p) == counters.refs(p) - Promised(actions, p)
    ensures c.undischarged == counters.undischarged
    ensures seen == Expected(actions, calls, v)
  {
    hide Balanced, KindOk, OwnPromises, Promised, Proper, Matching, Wanted, Settled, FiredItem, SleepingItem;
    hide Deps, Refs, Lpcs;
    var o := new Operation<V>(actions, counters, n, valued);
    ghost var base0 := o.base;
    o.Return(done);
    ghost var r, base1, m := o.items, o.base, o.next;
    assert Halfway(o.items, r, calls, 0) && forall i, j :: 0 <= i < j < |calls| ==> calls[i].0 != calls[j].0 by {
      ProperCalls(actions, done, valued, calls);
    }
    NoneSettled(o.items, actions, valued, done, calls);
    for k := 0 to |calls|
      invariant o.Valid() && o.returned && o.base == base1 && Halfway(o.items, r, calls, k)
      invariant o.seen == Expected(actions, calls[..k], v) && o.valued == valued
      invariant Settled(o.items, actions, valued, done, calls, k)
    {
      ReadyNow(o.items, r, calls, k);
      if calls[k].1.Slept? {
        ProperSleep(actions, done, valued, calls, k);
        SleepyNow(o.items, calls[k].0, actions, valued, done, n, m);
      }
      ghost var s0 := o.items;
      WantedMatch(s0, actions, calls[k].0);
      Settle(o, calls[k].0, calls[k].1, v(calls[k].0));
      ListedNoMore(s0, o.items, o.valued, calls[k].0, calls[k].1);
      HalfwayMore(s0, o.items, r, calls, k);
      SettledMore(s0, o.items, actions, valued, done, calls, k, n, m);
      assert calls[..k + 1][..k] == calls[..k];
    }
    AllCalled(o.items, r, actions, done, valued, calls);
    settled, before := o.items, o.c;
    CountersNow(o, settled);
    WakeAll(o, awaken);
    Drain(o);
    o.AllGivenBack();
    assert calls[..|calls|] == calls;
    c, seen := o.c, o.seen;
  }

  lemma NoneSettled(s: seq<Item>, actions: seq<Action>, valued: Event -> bool, done: DoneFlag,
                    calls: seq<(Event, Fate)>)
    requires |s| == |actions|
    ensures Settled(s, actions, valued, done, calls, 0)
  {}

  lemma ListedNoMore(s0: seq<Item>, s1: seq<Item>, valued: Event -> bool, e: Event, fate: Fate)
    requires |s0| == |s1| && forall i :: 0 <= i < |s1| && Matches(s1[i], e) ==>
               match fate
               case Fired => FiredItem(s0[i], s1[i], valued(s1[i].ev))
               case Cancelled => s1[i].place == Gone && s1[i].hold == Nothing
               case Slept(_) => SleepingItem(s0[i], s1[i])
    ensures forall i :: 0 <= i < |s1| && Matches(s1[i], e) ==> s1[i].place != InList
  {}

  lemma CountersNow<V>(o: Operation<V>, s: seq<Item>)
    requires o.Valid() && s == o.items
    ensures forall p: nat :: o.c.deps(p) == o.base.deps(p) + Deps(s, p) && o.c.refs(p) == o.base.refs(p) + Refs(s, p)
  {}

  lemma ProperCalls(actions: seq<Action>, done: DoneFlag, valued: Event -> bool, calls: seq<(Event, Fate)>)
    requires Proper(actions, done, valued, calls)
    ensures forall i, j :: 0 <= i < j < |calls| ==> calls[i].0 != calls[j].0
  {}

  lemma ProperSleep(actions: seq<Action>, done: DoneFlag, valued: Event -> bool, calls: seq<(Event, Fate)>, k: nat)
    requires Proper(actions, done, valued, calls) && k < |calls| && calls[k].1.Slept?
    ensures forall i :: 0 <= i < |actions| && Calls(actions[i], calls[k].0) ==>
              MaySleep(actions[i], valued(actions[i].ev), done)
  {}

  lemma AllCalled(s: seq<Item>, r: seq<Item>, actions: seq<Action>, done: DoneFlag, valued: Event -> bool,
                  calls: seq<(Event, Fate)>)
    requires Proper(actions, done, valued, calls) && Halfway(s, r, calls, |calls|) && |s| == |actions|
    requires forall i :: 0 <= i < |s| ==> Action(s[i].ev, s[i].enabled, s[i].kind) == actions[i]
    ensures NoneListed(s)
  {
    forall i | 0 <= i < |s| && s[i].enabled
      ensures s[i].place != InList
    {
      assert actions[i].enabled;
      assert Called(calls, |calls|, s[i].ev);
    }
  }
}
