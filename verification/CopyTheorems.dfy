/**
 What every run of upcxx::copy guarantees, whatever the interleaving of messages, transfers, callbacks
 and a user who reuses his buffers as soon as he may.
 */
module CopyTheorems {
  import opened CopyMachine
  import opened CopySoundness
  import opened CopyPaths
  import opened CopyChecks

  /** A third party copy that involves a device goes through an internal future at the target. */
  predicate UsesInner(j: Job) { j.me != j.rankD && j.me != j.rankS && !HostOnly(j) }

  function Wants(j: Job): set<Note> {
    (if j.want.source then {SourceNote} else {}) + (if j.want.op then {OpNote} else {})
    + (if j.want.remote then {RemoteNote} else {}) + (if UsesInner(j) then {InnerNote} else {})
  }

  /**
   Where things belong: source and operation completion, the completion state and the undischarged count to the
   initiator, remote completion to the destination's rank, bounce buffers to the ends they serve.
   */
  function HomeOf(j: Job, x: Res): Rank {
    match x
    case ReadSrc => j.rankS
    case WriteDst => j.rankD
    case Owe(n) => (match n case SourceNote => j.me case OpNote => j.me case RemoteNote => j.rankD case InnerNote =>
                    j.rankD)
    case Own(o) => (match o
                    case HereCx => j.me
                    case AmBuf => j.me
                    case InnerCx => j.rankD
                    case RemoteCx => j.rankD
                    case Bounce(b) => if b == AtSource then j.rankS else j.rankD)
    case Charge => j.me
  }

  function KindOf(j: Job, l: Loc): Kind {
    match l case SrcBuf => j.kindS case DstBuf => j.kindD case Stage(_) => Host
  }

  /** Private memory is out of reach for other ranks; bounce buffers are shared. */
  function OpenTo(j: Job, l: Loc): bool {
    match l case SrcBuf => j.heapS != PRIVATE_HEAP case DstBuf => j.heapD != PRIVATE_HEAP case Stage(_) => true
  }

  function TermsOf(j: Job, charged: bool): Terms {
    Terms(Wants(j), x => HomeOf(j, x), l => KindOf(j, l), k => k == Host || j.mk, l => OpenTo(j, l), charged)
  }

  /** The paths that count the remote completion of the initiator as undischarged while bytes move. */
  predicate Charges(j: Job) {
    && j.want.remote
    && (if j.rankD == j.rankS then j.me == j.rankD
        else if j.mk then j.me == j.rankD || (j.me == j.rankS && j.want.op)
        else j.me == j.rankD)
  }

  function StartPerm(j: Job): Perm {
    Perm(Fresh, Fresh, Due(j.want.source), Due(j.want.op), Due(j.want.remote), Due(UsesInner(j)),
         Fresh, Fresh, Fresh, Fresh, Fresh, Fresh, Fresh)
  }

  /** The call is made: the source holds the bytes, nothing has happened yet. */
  ghost predicate Begins(w: World, j: Job, p: Prog, charged: bool, s: State) {
    && w.terms == TermsOf(j, charged) && s.tasks == [Task(j.me, p, Ready, StartPerm(j))]
    && (forall l :: |s.m.mem(l)| == |w.data|) && s.m.mem(SrcBuf) == w.data
    && (forall o :: s.m.objs(o) == Unborn) && (forall n :: s.m.fired(n) == 0)
    && s.m.undischarged == w.undischarged0 && !s.m.read && !s.m.landed
  }

  /** The reference put that may delete its completion state too early. */
  predicate Excepted(j: Job) { j.me == j.rankS && j.rankS != j.rankD && !j.mk && EarlyDelete(j) }

  lemma BeginsInv(w: World, j: Job, p: Prog, charged: bool, s: State)
    requires Begins(w, j, p, charged, s) && Check(w.terms, p, j.me, StartPerm(j), NOTHING)
    ensures Inv(w, s)
  {
    hide Check;
    var t := s.tasks[0];
    forall x
      ensures Means(w, s.m, x, Get(t.perm, x))
      ensures Held(s.tasks, x) || Settled(w, s.m, x)
    {
      assert Get(s.tasks[0].perm, x) != No ==> Held(s.tasks, x);
    }
    assert FactsOf(s.m) == NOTHING;
    assert TaskOk(w, s.m, t);
  }

  lemma StartsRight(j: Job, charged: bool)
    requires WellPosed(j)
    ensures var w, q := TermsOf(j, charged), StartPerm(j);
            && Entry(j, Outer, w, q.(oweInner := No)) && w.charged == charged
            && (if UsesInner(j) then q.oweInner == Fresh && InnerNote in w.wants else q.oweInner == No)
            && w.home(Own(InnerCx)) == w.home(Owe(InnerNote)) == j.rankD
  {}

  lemma GeneralOk(j: Job)
    requires WellPosed(j) && !Excepted(j)
    ensures Check(TermsOf(j, Charges(j)), General(j), j.me, StartPerm(j), NOTHING)
  {
    hide Check, Only, Minus, Entry, TermsOf, StartPerm;
    var w, q := TermsOf(j, Charges(j)), StartPerm(j);
    StartsRight(j, Charges(j));
    if j.me != j.rankD && j.me != j.rankS {
      ThirdPartyOk(j, w, q);
    } else {
      assert q == q.(oweInner := No);
      if j.rankD == j.rankS {
        LoopbackOk(j, Outer, w, q);
      } else if j.mk && j.rankS == j.me && j.want.remote && !j.want.op {
        PutAsGetOk(j, w, q);
      } else if j.mk {
        NativeOk(j, Outer, w, q);
      } else if j.rankD == j.me {
        RefGetOk(j, Outer, w, q);
      } else {
        RefPutOk(j, w, q);
      }
    }
  }

  /**
   Every interleaving of every path is safe, and a run that has come to rest has delivered each requested
   completion once, deleted every object once on its own rank and restored undischarged_n_.
   */
  lemma CopyIsSafe(w: World, j: Job, s: State, cs: seq<Choice>)
    requires WellPosed(j) && !Excepted(j) && Begins(w, j, General(j), Charges(j), s) && Possible(w, s, cs)
    ensures Safe(w, Reached(w, s, cs))
    ensures Quiescent(Reached(w, s, cs)) ==> Finished(w, Reached(w, s, cs))
  {
    hide Check, Inv, Safe, Finished, Quiescent, General;
    GeneralOk(j);
    BeginsInv(w, j, General(j), Charges(j), s);
    RunsKeep(w, s, cs);
    InvSafe(w, Reached(w, s, cs));
    if Quiescent(Reached(w, s, cs)) { InvFinished(w, Reached(w, s, cs)); }
  }

  /** The same for a host to host get into own memory. */
  lemma AsGetIsSafe(w: World, j: Job, shared: bool, s: State, cs: seq<Choice>)
    requires j.me == j.rankD && HostOnly(j) && j.heapS != PRIVATE_HEAP
    requires Begins(w, j, AsGet(j, shared), j.want.remote && !shared, s) && Possible(w, s, cs)
    ensures Safe(w, Reached(w, s, cs))
    ensures Quiescent(Reached(w, s, cs)) ==> Finished(w, Reached(w, s, cs))
  {
    hide Check, Inv, Safe, Finished, Quiescent, AsGet;
    AsGetOk(j, shared, TermsOf(j, j.want.remote && !shared), StartPerm(j));
    BeginsInv(w, j, AsGet(j, shared), j.want.remote && !shared, s);
    RunsKeep(w, s, cs);
    InvSafe(w, Reached(w, s, cs));
    if Quiescent(Reached(w, s, cs)) { InvFinished(w, Reached(w, s, cs)); }
  }

  /** The completion that first tells the user about the destination finds all source bytes there. */
  lemma ToldWithData(w: World, j: Job, s0: State, cs: seq<Choice>, c: Choice)
    requires WellPosed(j) && !Excepted(j) && Begins(w, j, General(j), Charges(j), s0) && Possible(w, s0, cs)
    requires Enabled(w, Reached(w, s0, cs), c)
    requires !Told(Reached(w, s0, cs).m) && Told(Step(w, Reached(w, s0, cs), c).m)
    ensures Reached(w, s0, cs).m.mem(DstBuf) == w.data && Step(w, Reached(w, s0, cs), c).m.mem(DstBuf) == w.data
  {
    hide Check, General, Only, Minus;
    var s := Reached(w, s0, cs);
    Extend(w, s0, cs, c);
    CopyIsSafe(w, j, s0, cs);
    CopyIsSafe(w, j, s0, cs + [c]);
    assert s.m.landed by { TellingKeepsLanded(w, s, c); }
  }

  lemma TellingKeepsLanded(w: World, s: State, c: Choice)
    requires Enabled(w, s, c) && !Told(s.m) && Told(Step(w, s, c).m)
    ensures Step(w, s, c).m.landed == s.m.landed && Step(w, s, c).m.mem(DstBuf) == s.m.mem(DstBuf)
  {}

  lemma {:induction false} Extend(w: World, s: State, cs: seq<Choice>, c: Choice)
    requires Possible(w, s, cs) && Enabled(w, Reached(w, s, cs), c)
    ensures Possible(w, s, cs + [c]) && Reached(w, s, cs + [c]) == Step(w, Reached(w, s, cs), c)
    decreases cs
  {
    hide Step, Enabled;
    if cs == [] {
      assert cs + [c] == [c] && [c][1..] == [];
      assert Possible(w, Step(w, s, c), []);
    } else {
      Extend(w, Step(w, s, cs[0]), cs[1..], c);
      assert (cs + [c])[1..] == cs[1..] + [c];
    }
  }

  // ----- what is complete when the call returns -----

  /** The call itself, without any callback or message, delivers n from here on. */
  predicate Ahead(p: Prog, n: Note) {
    match p
    case Halt => false
    case Do(a, rest) => a == Call(n) || Ahead(rest, n)
    case Start(_, _, _, _, rest) => Ahead(rest, n)
    case Send(_, _, _, rest) => Ahead(rest, n)
  }

  ghost predicate WillTell(s: State, n: Note) {
    |s.tasks| > 0 && s.m.fired(n) >= 0 && (s.m.fired(n) > 0 || Ahead(s.tasks[0].prog, n))
  }

  lemma {:induction false} TellsOn(w: World, s: State, cs: seq<Choice>, n: Note)
    requires WillTell(s, n) && n in w.terms.wants && Possible(w, s, cs)
    ensures WillTell(Reached(w, s, cs), n)
    decreases cs
  {
    if cs != [] { TellsOn(w, Step(w, s, cs[0]), cs[1..], n); }
  }

  /**
   A put from private memory has delivered source completion when the call returns, unless the network sends directly
   from that memory.
   */
  lemma PrivateSourceAtOnce(w: World, j: Job, s: State, cs: seq<Choice>)
    requires WellPosed(j) && Begins(w, j, General(j), Charges(j), s) && Possible(w, s, cs) && j.want.source
    requires j.heapS == PRIVATE_HEAP && j.rankD != j.rankS && (j.mk ==> j.want.remote && !j.want.op)
    ensures var s' := Reached(w, s, cs);
            |s'.tasks| > 0 && (s'.tasks[0].prog == Halt ==> s'.m.fired(SourceNote) > 0)
  {
    hide PutAsGetTarget, RefPutTarget, Possible, Reached;
    var p := General(j).rest.rest.rest;
    assert Ahead(if j.mk then p else p.rest, SourceNote);
    assert Ahead(p, SourceNote) && Ahead(General(j).rest, SourceNote);
    TellsOn(w, s, cs, SourceNote);
  }

  /** A get within shared memory has delivered source and operation completion when the call returns. */
  lemma SharedGetAtOnce(w: World, j: Job, s: State, cs: seq<Choice>, n: Note)
    requires j.me == j.rankD && Begins(w, j, AsGet(j, true), false, s) && Possible(w, s, cs)
    requires (n == SourceNote && j.want.source) || (n == OpNote && j.want.op)
    ensures var s' := Reached(w, s, cs);
            |s'.tasks| > 0 && (s'.tasks[0].prog == Halt ==> s'.m.fired(n) > 0)
  {
    hide Possible, Reached;
    var p := AsGet(j, true).rest.rest;
    assert Ahead(p.rest, OpNote) && Ahead(p, n);
    assert Ahead(AsGet(j, true).rest, n);
    TellsOn(w, s, cs, n);
  }

  // ----- every run can be brought to its end, and no run goes on for ever -----

  function Busy(cs: seq<Choice>): nat {
    if cs == [] then 0 else (if cs[0].Scribble? then 0 else 1) + Busy(cs[1..])
  }

  /** The steps of the implementation in any run are bounded by the work there was at the start. */
  lemma {:induction false} RunsAreBounded(w: World, s: State, cs: seq<Choice>)
    requires Possible(w, s, cs)
    ensures Busy(cs) + Work(Reached(w, s, cs).tasks, |w.data|) <= Work(s.tasks, |w.data|)
    decreases cs
  {
    if cs != [] {
      if !cs[0].Scribble? { StepWorks(w, s, cs[0]); }
      RunsAreBounded(w, Step(w, s, cs[0]), cs[1..]);
    }
  }

  /** From every state there is a way to rest. */
  lemma {:induction false} ComesToRest(w: World, s: State) returns (cs: seq<Choice>)
    ensures Possible(w, s, cs) && Quiescent(Reached(w, s, cs))
    decreases Work(s.tasks, |w.data|)
  {
    hide Step, Enabled, Work, Quiescent;
    if Quiescent(s) {
      cs := [];
    } else {
      var c := NoDeadlock(w, s);
      StepWorks(w, s, c);
      var rest := ComesToRest(w, Step(w, s, c));
      cs := [c] + rest;
      assert cs[1..] == rest;
    }
  }

  // ----- the exception -----

  lemma {:induction false} Concat(w: World, s: State, cs: seq<Choice>, ds: seq<Choice>)
    requires Possible(w, s, cs) && Possible(w, Reached(w, s, cs), ds)
    ensures Possible(w, s, cs + ds) && Reached(w, s, cs + ds) == Reached(w, Reached(w, s, cs), ds)
    decreases cs
  {
    hide Step, Enabled;
    if cs == [] {
      assert cs + ds == ds;
    } else {
      Concat(w, Step(w, s, cs[0]), cs[1..], ds);
      assert (cs + ds)[1..] == cs[1..] + ds;
    }
  }

  /** A transfer in flight can be run to its end while nothing else moves. */
  lemma {:induction false} FinishTransfer(w: World, s: State, i: nat) returns (cs: seq<Choice>)
    requires i < |s.tasks| && s.tasks[i].progress.Moving?
    ensures Possible(w, s, cs)
    ensures var s' := Reached(w, s, cs);
            && s'.m.objs == s.m.objs && i < |s'.tasks| && s'.tasks[i].progress == Ready
            && s'.tasks[i].prog == s.tasks[i].prog && s'.tasks[i].rank == s.tasks[i].rank
    decreases Missing(s.tasks[i].progress.copied, |w.data|)
  {
    var copied := s.tasks[i].progress.copied;
    if forall k: nat :: k < |w.data| ==> k in copied {
      cs := [Complete(i)];
      assert Possible(w, Step(w, s, Complete(i)), []);
      assert cs[1..] == [];
    } else {
      var k: nat :| k < |w.data| && k !in copied;
      MissingOneLess(copied, k, |w.data|);
      var rest := FinishTransfer(w, Step(w, s, Byte(i, k)), i);
      cs := [Byte(i, k)] + rest;
      assert cs[1..] == rest;
    }
  }

  /** The initiator of the excepted put runs to its end while the device copy is still in flight. */
  lemma InitiatorFirst(w: World, j: Job, s: State) returns (cs: seq<Choice>)
    requires WellPosed(j) && Excepted(j) && Begins(w, j, General(j), Charges(j), s)
    ensures Possible(w, s, cs)
    ensures var s' := Reached(w, s, cs);
            && |s'.tasks| == 2 && s'.tasks[1].progress.Moving? && s'.m.objs(HereCx) == Dead
            && s'.tasks[1].prog.Do? && s'.tasks[1].prog.a == Call(SourceNote)
  {
    hide Only, Minus, After;
    var run := Run(0);
    assert s.tasks[0].prog == RefPut(j);
    var s1 := Step(w, s, run);
    var s2 := Step(w, s1, run);
    var s3 := Step(w, s2, run);
    var s4 := Step(w, s3, run);
    assert s4.tasks[0].prog == Do(Delete(HereCx), Halt);
    var s5 := Step(w, s4, run);
    assert s5.tasks[1].prog == RefPutSend(j, Stage(AtSource), Halt) && s5.tasks[1].progress.Moving?;
    assert Possible(w, s, [run]) && Reached(w, s, [run]) == s1 by { Extend(w, s, [], run); assert [] + [run] == [run]; }
    Extend(w, s, [run], run);
    Extend(w, s, [run] + [run], run);
    Extend(w, s, [run] + [run] + [run], run);
    Extend(w, s, [run] + [run] + [run] + [run], run);
    cs := [run] + [run] + [run] + [run] + [run];
  }

  /** In every excepted case some run reports source completion on a completion state already deleted. */
  lemma EarlyDeleteFails(w: World, j: Job, s: State) returns (cs: seq<Choice>)
    requires WellPosed(j) && Excepted(j) && Begins(w, j, General(j), Charges(j), s)
    ensures Possible(w, s, cs) && !Safe(w, Reached(w, s, cs))
  {
    hide General, Step, Enabled;
    var first := InitiatorFirst(w, j, s);
    var s1 := Reached(w, s, first);
    var second := FinishTransfer(w, s1, 1);
    Concat(w, s, first, second);
    cs := first + second;
    var s2 := Reached(w, s, cs);
    assert !TaskLegal(s2.m, s2.tasks[1]);
  }

  ghost predicate AlwaysSafe(j: Job)
    requires WellPosed(j)
  {
    forall w: World, s: State, cs: seq<Choice> :: Begins(w, j, General(j), Charges(j), s) && Possible(w, s, cs) ==>
      Safe(w, Reached(w, s, cs))
  }

  /** A copy is safe in all its runs exactly when it is not the excepted put. */
  lemma SafeExactlyWhen(j: Job)
    requires WellPosed(j)
    ensures AlwaysSafe(j) <==> !Excepted(j)
  {
    hide General, Begins, Possible, Safe, Reached;
    if Excepted(j) {
      var w, s := Somewhere(j);
      var cs := EarlyDeleteFails(w, j, s);
      assert !AlwaysSafe(j);
    } else {
      forall w: World, s: State, cs: seq<Choice> | Begins(w, j, General(j), Charges(j), s) && Possible(w, s, cs)
        ensures Safe(w, Reached(w, s, cs))
      {
        CopyIsSafe(w, j, s, cs);
      }
    }
  }

  lemma Somewhere(j: Job) returns (w: World, s: State)
    requires WellPosed(j)
    ensures Begins(w, j, General(j), Charges(j), s)
  {
    w := World([], TermsOf(j, Charges(j)), 0);
    s := State(Shared(l => [], o => Unborn, n => 0, n => 0, 0, false, false),
               [Task(j.me, General(j), Ready, StartPerm(j))]);
  }
}
