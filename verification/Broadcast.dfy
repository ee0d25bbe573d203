/**
 Broadcast of a value that is not trivially serializable (src/broadcast.hpp:72-123). On every rank two
 contributions complete a registered state: the value and the local call, in either order; at the root
 both come from the call.
 */
module Broadcast {
  type Id = nat
  type Val = int

  datatype Option = None | Some(v: Val)

  /** broadcast_state: the two union members may not be constructed yet. */
  datatype BState = BState(awaiting: nat, value: Option, cxs: bool)

  datatype Fired = Fired(id: Id, v: Val)

  /** A rank: its registry, the completions it has fired, the entries it has erased. */
  datatype RankState = RankState(registry: map<Id, BState>, fired: multiset<Fired>, erased: multiset<Id>)

  /** registered_state: found or made. */
  function Registered(k: RankState, id: Id): RankState {
    if id in k.registry then k else k.(registry := k.registry[id := BState(2, None, false)])
  }

  /** Both members are there when the last contribution is made. */
  predicate CanContribute(k: RankState, id: Id) {
    id in k.registry && var s := k.registry[id]; s.awaiting > 0 && (s.awaiting == 1 ==> s.value.Some? && s.cxs)
  }

  function Contributed(k: RankState, id: Id): RankState
    requires CanContribute(k, id)
  {
    var s := k.registry[id];
    if s.awaiting == 1 then
      RankState(k.registry - {id}, k.fired + multiset{Fired(id, s.value.v)}, k.erased + multiset{id})
    else k.(registry := k.registry[id := s.(awaiting := s.awaiting - 1)])
  }

  function WithValue(k: RankState, id: Id, v: Val): RankState
    requires id in k.registry
  {
    k.(registry := k.registry[id := k.registry[id].(value := Some(v))])
  }

  function WithCxs(k: RankState, id: Id): RankState
    requires id in k.registry
  {
    k.(registry := k.registry[id := k.registry[id].(cxs := true)])
  }

  predicate CanReceive(k: RankState, id: Id) {
    id in k.registry ==> k.registry[id] == BState(1, None, true)
  }

  function Received(k: RankState, id: Id, v: Val): RankState
    requires CanReceive(k, id)
  {
    Contributed(WithValue(Registered(k, id), id, v), id)
  }

  predicate CanCall(k: RankState, id: Id, isRoot: bool) {
    id in k.registry ==> !isRoot && k.registry[id].awaiting == 1 && k.registry[id].value.Some? && !k.registry[id].cxs
  }

  function Called(k: RankState, id: Id, isRoot: bool, v: Val): RankState
    requires CanCall(k, id, isRoot)
  {
    var k1 := Registered(k, id);
    var k2 := if isRoot then Contributed(WithValue(k1, id, v), id) else k1;
    Contributed(WithCxs(k2, id), id)
  }

  /** The code of one rank. */
  class Participant {
    var registry: map<Id, BState>
    var fired: multiset<Fired>
    var erased: multiset<Id>

    ghost function K(): RankState
      reads this
    {
      RankState(registry, fired, erased)
    }

    method Register(id: Id)
      modifies this`registry
      ensures K() == Registered(old(K()), id)
    {
      if id !in registry { registry := registry[id := BState(2, None, false)]; }
    }

    /** contribute: the last one fires operation completion with the value, then the state and its entry go. */
    method Contribute(id: Id)
      requires CanContribute(K(), id)
      modifies this
      ensures K() == Contributed(old(K()), id)
    {
      var s := registry[id];
      s := s.(awaiting := s.awaiting - 1);
      registry := registry[id := s];
      if s.awaiting == 0 {
        fired := fired + multiset{Fired(id, s.value.v)};
        registry := registry - {id};
        erased := erased + multiset{id};
      }
    }

    /** The message from the root. */
    method OnMessage(id: Id, v: Val)
      requires CanReceive(K(), id)
      modifies this
      ensures K() == Received(old(K()), id, v)
    {
      Register(id);
      registry := registry[id := registry[id].(value := Some(v))];
      Contribute(id);
    }

    /** The local call; at the root the value is put in place first. */
    method Call(id: Id, isRoot: bool, v: Val)
      requires CanCall(K(), id, isRoot)
      modifies this
      ensures K() == Called(old(K()), id, isRoot, v)
    {
      Register(id);
      if isRoot {
        registry := registry[id := registry[id].(value := Some(v))];
        Contribute(id);
      }
      registry := registry[id := registry[id].(cxs := true)];
      Contribute(id);
    }
  }

  // ----- all ranks, all broadcasts -----

  /** Which rank is the root of each broadcast, and what it sends. */
  datatype Plan = Plan(root: Id -> int, value: Id -> Val)

  /** called and got: the calls made and the messages received, by rank and broadcast; net: messages under way. */
  datatype System = System(ranks: seq<RankState>, called: set<(int, Id)>, got: set<(int, Id)>, net: set<(int, Id)>)

  datatype Choice = Local(r: int, id: Id) | Deliver(r: int, id: Id)

  ghost predicate Enabled(w: Plan, s: System, c: Choice) {
    match c
    case Local(r, id) => 0 <= r < |s.ranks| && 0 <= w.root(id) < |s.ranks| && (r, id) !in s.called
    case Deliver(r, id) => (r, id) in s.net
  }

  /** The recipients of the root's message. */
  function Others(n: nat, r: int, id: Id): set<(int, Id)> { set q | 0 <= q < n && q != r :: (q, id) }

  ghost function Step(w: Plan, s: System, c: Choice): System
    requires Enabled(w, s, c) && Inv(w, s)
  {
    match c
    case Local(r, id) =>
      assert PairOk(w, s, r, id);
      var isRoot := r == w.root(id);
      System(s.ranks[r := Called(s.ranks[r], id, isRoot, w.value(id))], s.called + {(r, id)}, s.got,
             if isRoot then s.net + Others(|s.ranks|, r, id) else s.net)
    case Deliver(r, id) =>
      assert PairOk(w, s, r, id);
      System(s.ranks[r := Received(s.ranks[r], id, w.value(id))], s.called, s.got + {(r, id)}, s.net - {(r, id)})
  }

  // ----- the invariant -----

  /** How a rank stands to one broadcast, from what has happened there. */
  ghost predicate PairOk(w: Plan, s: System, r: int, id: Id) {
    0 <= r < |s.ranks| ==>
      var k := s.ranks[r];
      var c, m := (r, id) in s.called, (r, id) in s.got;
      var over := c && (m || r == w.root(id));
      && k.fired[Fired(id, w.value(id))] == (if over then 1 else 0)
      && k.erased[id] == (if over then 1 else 0)
      && (forall v :: v != w.value(id) ==> k.fired[Fired(id, v)] == 0)
      && (id in k.registry <==> !over && (c || m))
      && (id in k.registry ==> k.registry[id] == if c then BState(1, None, true)
          else BState(1, Some(w.value(id)), false))
      && (r == w.root(id) ==> !m && (r, id) !in s.net)
      && (r != w.root(id) ==> ((r, id) in s.net || m <==> (w.root(id), id) in s.called && 0 <= w.root(id) < |s.ranks|))
      && (m ==> (r, id) !in s.net)
  }

  ghost predicate Inv(w: Plan, s: System) {
    && (forall r: int, id: Id :: PairOk(w, s, r, id))
    && (forall x :: x in s.net ==> 0 <= x.0 < |s.ranks|)
  }

  lemma StepKeeps(w: Plan, s: System, c: Choice)
    requires Inv(w, s) && Enabled(w, s, c)
    ensures Inv(w, Step(w, s, c))
  {
    var s' := Step(w, s, c);
    forall r: int, id: Id
      ensures PairOk(w, s', r, id)
    {
      assert PairOk(w, s, r, id) && PairOk(w, s, c.r, c.id) && PairOk(w, s, c.r, id);
      if id == c.id { PairStep(w, s, c, r); } else { OtherPair(w, s, c, r, id); }
    }
  }

  lemma PairStep(w: Plan, s: System, c: Choice, r: int)
    requires Inv(w, s) && Enabled(w, s, c) && PairOk(w, s, r, c.id) && PairOk(w, s, c.r, c.id)
    ensures PairOk(w, Step(w, s, c), r, c.id)
  {
    hide Inv;
    if r != c.r {
      OtherRank(w, s, c, r);
    } else if c.Local? {
      OwnCall(w, s, c.r, c.id);
    } else {
      OwnMessage(w, s, c.r, c.id);
    }
  }

  lemma InRange(w: Plan, s: System, c: Choice)
    requires Inv(w, s) && Enabled(w, s, c)
    ensures 0 <= c.r < |s.ranks| && CanStep(w, s, c)
  {
    assert c.Deliver? ==> (c.r, c.id) in s.net;
    assert PairOk(w, s, c.r, c.id);
  }

  ghost predicate CanStep(w: Plan, s: System, c: Choice)
    requires 0 <= c.r < |s.ranks|
  {
    match c
    case Local(r, id) => CanCall(s.ranks[r], id, r == w.root(id))
    case Deliver(r, id) => CanReceive(s.ranks[r], id)
  }

  lemma OtherRank(w: Plan, s: System, c: Choice, r: int)
    requires Inv(w, s) && Enabled(w, s, c) && r != c.r && PairOk(w, s, r, c.id) && PairOk(w, s, c.r, c.id)
    ensures PairOk(w, Step(w, s, c), r, c.id)
  {
    hide Called, Received, Inv;
    InRange(w, s, c);
  }

  lemma OwnCall(w: Plan, s: System, r: int, id: Id)
    requires Inv(w, s) && Enabled(w, s, Local(r, id)) && PairOk(w, s, r, id)
    ensures PairOk(w, Step(w, s, Local(r, id)), r, id)
  {
    hide Inv;
  }

  lemma OwnMessage(w: Plan, s: System, r: int, id: Id)
    requires Inv(w, s) && Enabled(w, s, Deliver(r, id)) && PairOk(w, s, r, id)
    ensures PairOk(w, Step(w, s, Deliver(r, id)), r, id)
  {
    hide Inv;
    InRange(w, s, Deliver(r, id));
  }

  /** What is known of one broadcast on a rank. */
  ghost predicate SameFor(k: RankState, k': RankState, id: Id) {
    && (forall v :: k'.fired[Fired(id, v)] == k.fired[Fired(id, v)]) && k'.erased[id] == k.erased[id]
    && (id in k'.registry <==> id in k.registry) && (id in k.registry ==> k'.registry[id] == k.registry[id])
  }

  lemma CallElsewhere(k: RankState, id: Id, isRoot: bool, v: Val, other: Id)
    requires CanCall(k, id, isRoot) && other != id
    ensures SameFor(k, Called(k, id, isRoot, v), other)
  {}

  lemma ReceiveElsewhere(k: RankState, id: Id, v: Val, other: Id)
    requires CanReceive(k, id) && other != id
    ensures SameFor(k, Received(k, id, v), other)
  {}

  lemma OtherPair(w: Plan, s: System, c: Choice, r: int, id: Id)
    requires Inv(w, s) && Enabled(w, s, c) && id != c.id && PairOk(w, s, r, id) && PairOk(w, s, c.r, c.id)
    ensures PairOk(w, Step(w, s, c), r, id)
  {
    hide Called, Received, Inv;
    InRange(w, s, c);
    var k := s.ranks[c.r];
    match c
    case Local(q, other) => CallElsewhere(k, other, q == w.root(other), w.value(other), id);
    case Deliver(q, other) => ReceiveElsewhere(k, other, w.value(other), id);
    var s' := Step(w, s, c);
    if 0 <= r < |s.ranks| { assert SameFor(s.ranks[r], s'.ranks[r], id); }
    assert (w.root(id), id) in s'.called <==> (w.root(id), id) in s.called;
  }

  ghost predicate Possible(w: Plan, s: System, cs: seq<Choice>)
    requires Inv(w, s)
    decreases |cs|
  {
    cs == [] || (Enabled(w, s, cs[0]) && (StepKeeps(w, s, cs[0]); Possible(w, Step(w, s, cs[0]), cs[1..])))
  }

  ghost function Reached(w: Plan, s: System, cs: seq<Choice>): (s': System)
    requires Inv(w, s) && Possible(w, s, cs)
    ensures Inv(w, s')
    decreases |cs|
  {
    if cs == [] then s else (StepKeeps(w, s, cs[0]); Reached(w, Step(w, s, cs[0]), cs[1..]))
  }

  ghost predicate Initial(s: System) {
    && s.called == {} && s.got == {} && s.net == {}
    && forall r :: 0 <= r < |s.ranks| ==> s.ranks[r] == RankState(map[], multiset{}, multiset{})
  }

  /**
   A rank that has called, in a broadcast whose messages are all delivered and whose root has called, is done
   with it.
   */
  lemma FiredOnce(w: Plan, s0: System, cs: seq<Choice>, r: int, id: Id)
    requires Initial(s0) && Possible(w, s0, cs)
    requires var s := Reached(w, s0, cs);
             && 0 <= r < |s.ranks| && 0 <= w.root(id) < |s.ranks|
             && (r, id) in s.called && (w.root(id), id) in s.called && (r, id) !in s.net
    ensures var k := Reached(w, s0, cs).ranks[r];
            && k.fired[Fired(id, w.value(id))] == 1 && (forall v :: v != w.value(id) ==> k.fired[Fired(id, v)] == 0)
            && k.erased[id] == 1 && id !in k.registry
  {
    assert PairOk(w, Reached(w, s0, cs), r, id);
  }

  /** At no time does a rank fire a broadcast more than once, or with another value. */
  lemma NeverTwice(w: Plan, s0: System, cs: seq<Choice>, r: int, id: Id)
    requires Initial(s0) && Possible(w, s0, cs) && 0 <= r < |Reached(w, s0, cs).ranks|
    ensures var k := Reached(w, s0, cs).ranks[r];
            k.fired[Fired(id, w.value(id))] <= 1 && k.erased[id] <= 1 && forall v :: v != w.value(id) ==>
              k.fired[Fired(id, v)] == 0
  {
    assert PairOk(w, Reached(w, s0, cs), r, id);
  }
}
