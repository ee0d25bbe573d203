/**
 Threads that tokenize through their own caches while a verification runs under the lock
 (src/ccs.hpp:149-162, 169-185, src/ccs.cpp:1039-1056, 1106-1171). The pointer cache is searched
 without the lock; the epoch decides whether it may be. verify_segment raises the epoch before it sets the
 index, verify_all after it has set all of them.
 */
module EpochProtocol {
  type Ident = nat

  /** Where a thread is in a tokenization of some pointer into segment d. */
  datatype Pc =
    | Idle
    | Loaded(d: Ident, e: nat, seen: set<Ident>)
    | Missed(d: Ident, seen: set<Ident>)

  /** The pointer cache of a thread, by the segments it holds. seen is what was verified when it started. */
  datatype Thread = Thread(cached: set<Ident>, epoch: nat, pc: Pc)

  /** A token handed out: by hash or by index. */
  datatype Answer = Answer(d: Ident, byHash: bool, seen: set<Ident>)

  datatype Lock = Free | Raised(d: Ident) | IndexedAll

  /** published are the segments whose verification has left the lock. */
  datatype State = State(epoch: nat, indexed: set<Ident>, published: set<Ident>, lock: Lock, threads: seq<Thread>,
                         answers: seq<Answer>)

  datatype Choice =
    | Load(i: nat, d: Ident)                    // epoch.load
    | Look(i: nat)                              // search, or empty the cache
    | Map(i: nat, evicted: set<Ident>)          // search_map under the lock
    | Detokenize(i: nat, d: Ident, evicted: set<Ident>)
    | Raise(d: Ident)                           // verify_segment: epoch++
    | Index                                     // verify_segment: it->idx = idx
    | IndexMany(ds: set<Ident>)                 // verify_all: the indices
    | RaiseAfter                                // verify_all: epoch++

  predicate Enabled(s: State, c: Choice) {
    match c
    case Load(i, d) => i < |s.threads| && s.threads[i].pc.Idle?
    case Look(i) => i < |s.threads| && s.threads[i].pc.Loaded?
    case Map(i, ev) => i < |s.threads| && s.threads[i].pc.Missed? && s.lock.Free?
    case Detokenize(i, d, ev) => i < |s.threads| && s.threads[i].pc.Idle? && s.lock.Free?
    case Raise(d) => s.lock.Free? && d !in s.indexed
    case Index => s.lock.Raised?
    case IndexMany(ds) => s.lock.Free?
    case RaiseAfter => s.lock.IndexedAll?
  }

  /** activate: an indexed segment leaves the pointer cache alone; another is added, perhaps in place of one. */
  function Activated(s: State, cached: set<Ident>, d: Ident, evicted: set<Ident>): set<Ident> {
    if d in s.indexed then cached else cached - evicted + {d}
  }

  function Step(s: State, c: Choice): State
    requires Enabled(s, c)
  {
    match c
    case Load(i, d) => s.(threads := s.threads[i := s.threads[i].(pc := Loaded(d, s.epoch, s.published))])
    case Look(i) =>
      var t := s.threads[i];
      var pc := t.pc;
      if pc.e == t.epoch then
        if pc.d in t.cached then
          s.(threads := s.threads[i := t.(pc := Idle)], answers := s.answers + [Answer(pc.d, true, pc.seen)])
        else s.(threads := s.threads[i := t.(pc := Missed(pc.d, pc.seen))])
      else s.(threads := s.threads[i := Thread({}, pc.e, Missed(pc.d, pc.seen))])
    case Map(i, ev) =>
      var t := s.threads[i];
      s.(threads := s.threads[i := t.(cached := Activated(s, t.cached, t.pc.d, ev), pc := Idle)],
         answers := s.answers + [Answer(t.pc.d, t.pc.d !in s.indexed, t.pc.seen)])
    case Detokenize(i, d, ev) =>
      s.(threads := s.threads[i := s.threads[i].(cached := Activated(s, s.threads[i].cached, d, ev))])
    case Raise(d) => s.(epoch := s.epoch + 1, lock := Raised(d))
    case Index => s.(indexed := s.indexed + {s.lock.d}, published := s.indexed + {s.lock.d}, lock := Free)
    case IndexMany(ds) => s.(indexed := s.indexed + ds, lock := IndexedAll)
    case RaiseAfter =>
      s.(epoch := if s.published == s.indexed then s.epoch else s.epoch + 1, published := s.indexed, lock := Free)
  }

  ghost predicate Possible(s: State, cs: seq<Choice>)
    decreases cs
  {
    cs == [] || (Enabled(s, cs[0]) && Possible(Step(s, cs[0]), cs[1..]))
  }

  ghost function Reached(s: State, cs: seq<Choice>): State
    requires Possible(s, cs)
    decreases cs
  {
    if cs == [] then s else Reached(Step(s, cs[0]), cs[1..])
  }

  // ----- the invariant -----

  ghost predicate ThreadOk(s: State, t: Thread) {
    && t.epoch <= s.epoch
    && (t.epoch == s.epoch ==> t.cached !! s.published)
    && (t.epoch == s.epoch && s.lock.Raised? ==> t.cached == {})
    && match t.pc
       case Idle => true
       case Loaded(d, e, seen) => t.epoch <= e <= s.epoch && seen <= s.published && (t.epoch == e ==> t.cached !! seen)
       case Missed(d, seen) => seen <= s.published
  }

  ghost predicate Inv(s: State) {
    && s.published <= s.indexed && (!s.lock.IndexedAll? ==> s.published == s.indexed)
    && (forall i :: 0 <= i < |s.threads| ==> ThreadOk(s, s.threads[i]))
    && (forall i :: 0 <= i < |s.answers| ==> s.answers[i].byHash ==> s.answers[i].d !in s.answers[i].seen)
  }

  lemma StepKeeps(s: State, c: Choice)
    requires Inv(s) && Enabled(s, c)
    ensures Inv(Step(s, c))
  {
    var s' := Step(s, c);
    forall i | 0 <= i < |s'.threads|
      ensures ThreadOk(s', s'.threads[i])
    {
      assert ThreadOk(s, s.threads[i]);
    }
    if c.Look? || c.Map? { assert ThreadOk(s, s.threads[c.i]); }
  }

  lemma {:induction false} RunsKeep(s: State, cs: seq<Choice>)
    requires Inv(s) && Possible(s, cs)
    ensures Inv(Reached(s, cs))
    decreases cs
  {
    hide Inv;
    if cs != [] {
      StepKeeps(s, cs[0]);
      RunsKeep(Step(s, cs[0]), cs[1..]);
    }
  }

  /** The program starts with nothing verified and all caches empty. */
  predicate Initial(s: State) {
    && s.indexed == {} && s.published == {} && s.lock.Free? && s.answers == []
    && forall i :: 0 <= i < |s.threads| ==> s.threads[i] == Thread({}, 0, Idle)
  }

  /** Outside the lock, a cache of the current epoch holds no segment that has an index. */
  lemma CurrentCachesAreClean(s: State, cs: seq<Choice>, i: nat)
    requires Initial(s) && Possible(s, cs) && Reached(s, cs).lock.Free? && i < |Reached(s, cs).threads|
    ensures var s' := Reached(s, cs); s'.threads[i].epoch == s'.epoch ==> s'.threads[i].cached !! s'.indexed
  {
    RunsKeep(s, cs);
    assert ThreadOk(Reached(s, cs), Reached(s, cs).threads[i]);
  }

  /** A tokenization that starts after a segment was verified never hands out its hash. */
  lemma NoStaleHash(s: State, cs: seq<Choice>, k: nat)
    requires Initial(s) && Possible(s, cs) && k < |Reached(s, cs).answers|
    ensures var a := Reached(s, cs).answers[k]; a.byHash ==> a.d !in a.seen
  {
    RunsKeep(s, cs);
  }
}
