/**
 Every path of upcxx::copy passes the check of CopySoundness, one lemma for each continuation, with
 one exception: the reference put from device memory that reports source completion but not
 operation completion.
 */
module CopyChecks {
  import opened CopyMachine
  import opened CopySoundness
  import opened CopyPaths

  const ARRIVED := Facts(true, true)
  const NOTHING := Facts(false, false)

  function Due(yes: bool): Status { if yes then Fresh else No }

  /** Where the resources of a job belong, and what can reach its buffers. */
  predicate Placed(j: Job, cx: Cx, w: Terms) {
    && w.home(ReadSrc) == w.home(Own(Bounce(AtSource))) == j.rankS
    && w.home(WriteDst) == w.home(Own(Bounce(AtDest))) == j.rankD
    && w.kind(SrcBuf) == j.kindS && w.kind(DstBuf) == j.kindD
      && w.kind(Stage(AtSource)) == w.kind(Stage(AtDest)) == Host
    && w.native(Host) && (j.mk ==> w.native(j.kindS) && w.native(j.kindD))
    && (j.heapS != PRIVATE_HEAP ==> w.open(SrcBuf)) && (j.heapD != PRIVATE_HEAP ==> w.open(DstBuf))
    && w.open(Stage(AtSource)) && w.open(Stage(AtDest))
    && if cx.Outer? then
         && w.home(Owe(SourceNote)) == w.home(Owe(OpNote)) == w.home(Own(HereCx)) == j.me
         && w.home(Own(AmBuf)) == w.home(Charge) == j.me && w.home(Owe(RemoteNote)) == w.home(Own(RemoteCx)) == j.rankD
       else
         w.home(Own(InnerCx)) == w.home(Owe(InnerNote)) == j.me && !w.charged
  }

  /** The remote completion of the caller is counted while bytes move. */
  predicate Counting(j: Job, cx: Cx, w: Terms) { cx.Outer? ==> (w.charged <==> j.want.remote) }

  /** The completions a job asks for are those the machine delivers. */
  predicate Agrees(j: Job, cx: Cx, w: Terms) {
    && Placed(j, cx, w)
    && if cx.Outer? then
      (SourceNote in w.wants <==> j.want.source) && (OpNote in w.wants <==> j.want.op)
        && (RemoteNote in w.wants <==> j.want.remote)
    else InnerNote in w.wants && j.want == Want(false, true, false)
  }

  /** The caller's completions are still owed, each exactly if it was asked for. */
  predicate Owes(j: Job, q: Perm) {
    q.oweSource == Due(j.want.source) && q.oweOp == Due(j.want.op) && q.oweRemote == Due(j.want.remote)
  }

  /** What a task owns just before it touches the buffers. */
  ghost predicate Entry(j: Job, cx: Cx, w: Terms, q: Perm) {
    && Agrees(j, cx, w) && q.src == Fresh && q.dst == Fresh
    && Done(q.am) && q.bounceS == Fresh && q.bounceD == Fresh && q.charge == Fresh && q.am == Fresh
    && if cx.Outer? then Owes(j, q) && q.oweInner == No && q.here == Fresh && q.inner == Fresh && q.remote == Fresh
       else q.inner == Fresh && q.oweInner == Fresh && Check(w, cx.k, j.me, Only(q, FORWARDED), ARRIVED)
  }

  /** What remains of it once the copy itself is over and the completion state is live. */
  ghost predicate Ending(j: Job, cx: Cx, w: Terms, q: Perm) {
    && Agrees(j, cx, w) && q.src == No && q.dst == No
    && Done(q.am) && Done(q.bounceS) && Done(q.bounceD)
    && if cx.Outer? then
         && q.oweOp == Due(j.want.op) && q.oweRemote == Due(j.want.remote) && q.oweInner == No
         && q.here == Live(j.me) && Done(q.inner)
       else
         && q.inner == Live(j.me) && q.oweInner == Fresh && Done(q.charge)
         && Check(w, cx.k, j.me, Only(q, FORWARDED), ARRIVED)
  }

  // ----- the shared pieces -----

  lemma DoOk(w: Terms, a: Act, rest: Prog, r: Rank, q: Perm, q': Perm, f: Facts)
    requires CanDo(w, a, r, q, f) && q' == After(w, a, r, q)
    requires Check(w, rest, r, q', if a.Move? then Learned(f, a.d, a.s) else f)
    ensures Check(w, Do(a, rest), r, q, f)
  {}

  lemma HaltOk(w: Terms, r: Rank, q: Perm, f: Facts)
    requires Idle(q)
    ensures Check(w, Halt, r, q, f)
  {}

  lemma HandRemoteOk(w: Terms, r: Rank, rest: Prog, q: Perm)
    requires RemoteNote in w.wants && q.oweRemote == Fresh && q.remote == Live(r) && r == w.home(Owe(RemoteNote))
    requires Check(w, rest, r, q.(oweRemote := No, remote := No), ARRIVED)
    ensures Check(w, HandRemote(r, rest), r, q, ARRIVED)
  {
    RemoteShare(q);
    hide Only, Minus, Get, Put;
    var mine := Only(q, {Owe(RemoteNote)});
    assert Check(w, Do(Delete(RemoteCx), rest), r, Minus(q, {Owe(RemoteNote)}), ARRIVED);
    assert Check(w, Do(RunRemote, Halt), r, mine, ARRIVED) by {
      assert Check(w, Halt, r, After(w, RunRemote, r, mine), ARRIVED);
    }
    assert Check(w, Send(r, {Owe(RemoteNote)}, Do(RunRemote, Halt), Do(Delete(RemoteCx), rest)), r, q, ARRIVED);
    assert After(w, Use(RemoteCx), r, q) == q;
  }

  lemma RemoteShare(q: Perm)
    ensures Minus(q, {Owe(RemoteNote)}) == q.(oweRemote := No)
    ensures Only(q, {Owe(RemoteNote)}).oweRemote == q.oweRemote
    ensures Idle(Put(Only(q, {Owe(RemoteNote)}), Owe(RemoteNote), No))
    ensures Put(q.(oweRemote := No), Own(RemoteCx), No) == q.(oweRemote := No, remote := No)
    ensures forall p: Perm :: Get(p, Own(RemoteCx)) == p.remote
  {}

  function AfterSource(cx: Cx, w: Terms, q: Perm): Perm {
    if cx.Outer? && SourceNote in w.wants then q.(oweSource := No) else q
  }

  lemma FireSourceOk(w: Terms, cx: Cx, r: Rank, rest: Prog, q: Perm, f: Facts)
    requires if cx.Outer? then
               q.here == Live(r) && (SourceNote in w.wants ==>
                                     q.oweSource == Fresh && f.read && r == w.home(Owe(SourceNote)))
             else q.inner == Live(r)
    requires Check(w, rest, r, AfterSource(cx, w, q), f)
    ensures Check(w, FireSource(cx, rest), r, q, f)
  {}

  function AfterOp(cx: Cx, w: Terms, q: Perm): Perm {
    if cx.Outer? then (if OpNote in w.wants then q.(oweOp := No) else q) else Minus(q.(oweInner := No), FORWARDED)
  }

  lemma FireOpOk(w: Terms, cx: Cx, r: Rank, rest: Prog, q: Perm)
    requires if cx.Outer? then q.here == Live(r) && (OpNote in w.wants ==> q.oweOp == Fresh && r == w.home(Owe(OpNote)))
             else
               && q.inner == Live(r) && InnerNote in w.wants && q.oweInner == Fresh && r == w.home(Owe(InnerNote))
               && Check(w, cx.k, r, Only(q, FORWARDED), ARRIVED)
    requires Check(w, rest, r, AfterOp(cx, w, q), ARRIVED)
    ensures Check(w, FireOp(cx, r, rest), r, q, ARRIVED)
  {
    hide Only, Minus, AfterMove, CanMove;
    if cx.Inner? {
      ForwardShare(q);
      var q' := q.(oweInner := No);
      assert Check(w, Send(r, FORWARDED, cx.k, rest), r, q', ARRIVED);
    }
  }

  lemma ForwardShare(q: Perm)
    ensures Only(q.(oweInner := No), FORWARDED) == Only(q, FORWARDED)
  {}

  lemma LocalOk(w: Terms, kd: Kind, ks: Kind, d: Loc, s: Loc, r: Rank, next: Prog, q: Perm, f: Facts)
    requires kd == ks || kd == Host || ks == Host
    requires CanMove(d, s, q) && Check(w, next, r, AfterMove(d, s, q), Learned(f, d, s))
    requires Reaches(w, r, d, s) && Counted(w, q) && kd == w.kind(d) && ks == w.kind(s)
    ensures Check(w, Local(kd, ks, d, s, next), r, q, f)
  {
    hide Only, Minus, AfterMove, CanMove, Get, Put;
    GiveAll(w, d, s, r, next, q, f);
  }

  lemma AllOf(q: Perm)
    ensures Only(q, ALL) == q && Idle(Minus(q, ALL))
  {}

  lemma GiveAll(w: Terms, d: Loc, s: Loc, r: Rank, next: Prog, q: Perm, f: Facts)
    requires CanMove(d, s, q) && Check(w, next, r, AfterMove(d, s, q), Learned(f, d, s))
    requires Reaches(w, r, d, s) && Counted(w, q)
    ensures Check(w, Start(ALL, d, s, next, Halt), r, q, f)
  {
    AllOf(q);
  }

  lemma SendAll(w: Terms, r: Rank, to: Rank, body: Prog, q: Perm, f: Facts)
    requires Check(w, body, to, q, f)
    ensures Check(w, Send(to, ALL, body, Halt), r, q, f)
  {
    AllOf(q);
  }

  /** Handing the continuation of a forwarded copy what it needs leaves what the copy itself still uses. */
  lemma ForwardKeeps(w: Terms, cx: Cx, q: Perm)
    ensures cx.Inner? ==> var q' := AfterOp(cx, w, q);
              q' == Perm(q.src, q.dst, No, No, No, No, No, q.inner, No, q.am, q.bounceS, q.bounceD, q.charge)
  {}

  // ----- loopback -----

  lemma LoopbackDoneOk(j: Job, cx: Cx, w: Terms, q: Perm)
    requires Ending(j, cx, w, q) && (cx.Outer? ==> q.oweSource == Due(j.want.source))
    requires cx.Outer? ==> if j.want.remote then q.remote == Live(j.me) && q.charge == Live(j.me)
             else Done(q.remote) && Done(q.charge)
    requires cx.Outer? && j.want.remote ==> j.rankD == j.me
    ensures Check(w, LoopbackDone(j, cx), j.me, q, ARRIVED)
  {
    ForwardKeeps(w, cx, q);
    hide Only, Minus;
    var r := j.me;
    var q2 := AfterSource(cx, w, q);
    var q3 := AfterOp(cx, w, q2);
    var q4 := After(w, Delete(HereOf(cx)), r, q3);
    var end := if j.want.remote then Do(Dec, HandRemote(r, Halt)) else Halt;
    if j.want.remote {
      var q5 := q4.(charge := No);
      HandRemoteOk(w, r, Halt, q5);
      assert Check(w, end, r, q4, ARRIVED);
    } else {
      assert Check(w, end, r, q4, ARRIVED);
    }
    var p3 := Do(Delete(HereOf(cx)), end);
    assert Check(w, p3, r, q3, ARRIVED);
    FireOpOk(w, cx, r, p3, q2);
    FireSourceOk(w, cx, r, FireOp(cx, r, p3), q, ARRIVED);
  }

  lemma ForwardSame(q: Perm, q': Perm)
    requires q'.oweSource == q.oweSource && q'.oweOp == q.oweOp && q'.oweRemote == q.oweRemote && q'.here == q.here
    requires q'.remote == q.remote
    ensures Only(q', FORWARDED) == Only(q, FORWARDED)
  {}

  /** A task that has made its completion state, and for a remote completion the other two things that go with it. */
  function Opened(j: Job, cx: Cx, q: Perm): Perm {
    if cx.Inner? then q.(inner := Live(j.me))
    else if j.want.remote then q.(here := Live(j.me), remote := Live(j.me), charge := Live(j.me))
    else q.(here := Live(j.me))
  }

  lemma LoopbackOk(j: Job, cx: Cx, w: Terms, q: Perm)
    requires j.rankD == j.me && j.rankS == j.me && Entry(j, cx, w, q)
    requires Counting(j, cx, w)
    ensures Check(w, Loopback(j, cx), j.me, q, NOTHING)
  {
    hide Only, Minus, Check;
    var q3 := Opened(j, cx, q);
    if DualKind(j) {
      DualOk(j, cx, w, q3, q);
      OpenOk(j, cx, w, Do(New(Bounce(AtSource)), Local(Host, j.kindS, Stage(AtSource), SrcBuf, LoopbackStaged(j, cx))),
             q);
    } else {
      var end := q3.(src := No, dst := No);
      if cx.Inner? { ForwardSame(q, end); }
      LoopbackDoneOk(j, cx, w, end);
      LocalOk(w, j.kindD, j.kindS, DstBuf, SrcBuf, j.me, LoopbackDone(j, cx), q3, NOTHING);
      OpenOk(j, cx, w, Local(j.kindD, j.kindS, DstBuf, SrcBuf, LoopbackDone(j, cx)), q);
    }
  }

  lemma DualOk(j: Job, cx: Cx, w: Terms, q3: Perm, q: Perm)
    requires DualKind(j) && Entry(j, cx, w, q) && q3 == Opened(j, cx, q)
    requires Counting(j, cx, w) && j.rankD == j.me && j.rankS == j.me
    ensures Check(w, Do(New(Bounce(AtSource)), Local(Host, j.kindS, Stage(AtSource), SrcBuf, LoopbackStaged(j, cx))),
                  j.me, q3, NOTHING)
  {
    hide Only, Minus, Check;
    var r := j.me;
    var q4 := q3.(bounceS := Live(r));
    var q5 := q4.(bounceS := Full(r), src := No);
    var q6 := q5.(bounceS := No, dst := No);
    if cx.Inner? { ForwardSame(q, q6); }
    LoopbackDoneOk(j, cx, w, q6);
    var p5 := Do(Delete(Bounce(AtSource)), LoopbackDone(j, cx));
    DoOk(w, Delete(Bounce(AtSource)), LoopbackDone(j, cx), r, q5.(dst := No), q6, ARRIVED);
    LocalOk(w, j.kindD, Host, DstBuf, Stage(AtSource), r, p5, q5, Facts(true, false));
    LocalOk(w, Host, j.kindS, Stage(AtSource), SrcBuf, r, LoopbackStaged(j, cx), q4, NOTHING);
    DoOk(w, New(Bounce(AtSource)), Local(Host, j.kindS, Stage(AtSource), SrcBuf, LoopbackStaged(j, cx)), r, q3, q4,
         NOTHING);
  }

  lemma OpenOk(j: Job, cx: Cx, w: Terms, go: Prog, q: Perm)
    requires Entry(j, cx, w, q) && Check(w, go, j.me, Opened(j, cx, q), NOTHING)
    requires Counting(j, cx, w) && (j.want.remote ==> j.rankD == j.me)
    ensures Check(w, Do(New(HereOf(cx)), DoIf(j.want.remote, New(RemoteCx), DoIf(j.want.remote, Inc, go))), j.me, q,
                  NOTHING)
  {
    hide Only, Minus, Check;
    var r := j.me;
    if j.want.remote {
      var q1 := q.(here := Live(r));
      var q2 := q1.(remote := Live(r));
      DoOk(w, Inc, go, r, q2, Opened(j, cx, q), NOTHING);
      DoOk(w, New(RemoteCx), Do(Inc, go), r, q1, q2, NOTHING);
      DoOk(w, New(HereCx), Do(New(RemoteCx), Do(Inc, go)), r, q, q1, NOTHING);
    } else {
      DoOk(w, New(HereOf(cx)), go, r, q, Opened(j, cx, q), NOTHING);
    }
  }

  // ----- native transfer -----

  lemma NativeDoneOk(j: Job, cx: Cx, w: Terms, q: Perm)
    requires Ending(j, cx, w, q.(am := Fresh)) && (cx.Outer? ==> q.oweSource == Due(j.want.source))
    requires cx.Inner? ==> Done(q.am)
    requires cx.Outer? ==> if !j.want.remote then Done(q.remote) && Done(q.am) && Done(q.charge)
                           else q.charge == Live(j.me) && if j.rankD == j.me then q.remote == Live(j.me) && Done(q.am)
                             else q.am == Live(j.me) && Done(q.remote)
    ensures Check(w, NativeDone(j, cx), j.me, q, ARRIVED)
  {
    hide Only, Minus, Check;
    if cx.Inner? { ForwardSame(q, q.(am := Fresh)); }
    if j.rankD == j.me || !j.want.remote {
      LoopbackDoneOk(j, cx, w, q);
      assert NativeDone(j, cx) == LoopbackDone(j, cx);
    } else {
      var r := j.me;
      var q2 := AfterSource(cx, w, q);
      var q3 := AfterOp(cx, w, q2);
      var q4 := q3.(here := No);
      var q5 := q4.(charge := No);
      var hand := Do(Use(AmBuf), Send(j.rankD, {Owe(RemoteNote)}, Do(RunRemote, Halt), Do(Delete(AmBuf), Halt)));
      HandAmOk(w, r, j.rankD, q5);
      DoOk(w, Dec, hand, r, q4, q5, ARRIVED);
      DoOk(w, Delete(HereCx), Do(Dec, hand), r, q3, q4, ARRIVED);
      var p3 := Do(Delete(HereCx), Do(Dec, hand));
      FireOpOk(w, cx, r, p3, q2);
      FireSourceOk(w, cx, r, FireOp(cx, r, p3), q, ARRIVED);
    }
  }

  lemma HandAmOk(w: Terms, r: Rank, to: Rank, q: Perm)
    requires RemoteNote in w.wants && q.oweRemote == Fresh && q.am == Live(r) && Idle(q.(oweRemote := No, am := No))
    requires to == w.home(Owe(RemoteNote))
    ensures Check(w, Do(Use(AmBuf), Send(to, {Owe(RemoteNote)}, Do(RunRemote, Halt), Do(Delete(AmBuf), Halt))), r, q,
                  ARRIVED)
  {
    RemoteShare(q);
    hide Only, Minus;
    var q1 := q.(oweRemote := No);
    HaltOk(w, r, q1.(am := No), ARRIVED);
    DoOk(w, Delete(AmBuf), Halt, r, q1, q1.(am := No), ARRIVED);
    var mine := Only(q, {Owe(RemoteNote)});
    HaltOk(w, to, mine.(oweRemote := No), ARRIVED);
    DoOk(w, RunRemote, Halt, to, mine, mine.(oweRemote := No), ARRIVED);
    var send := Send(to, {Owe(RemoteNote)}, Do(RunRemote, Halt), Do(Delete(AmBuf), Halt));
    assert Check(w, send, r, q, ARRIVED);
    hide Check;
    DoOk(w, Use(AmBuf), send, r, q, q, ARRIVED);
  }

  lemma NativeOk(j: Job, cx: Cx, w: Terms, q: Perm)
    requires Entry(j, cx, w, q)
    requires WellPosed(j) && j.mk && j.rankS != j.rankD && (j.me == j.rankS || j.me == j.rankD) && Counting(j, cx, w)
    ensures Check(w, Native(j, cx), j.me, q, NOTHING)
  {
    hide Only, Minus, Check;
    var r := j.me;
    var away := j.want.remote && j.rankD != j.me;
    var q3 := if away then Opened(j, cx, q).(remote := q.remote, am := Live(r)) else Opened(j, cx, q);
    var end := q3.(src := No, dst := No);
    if cx.Inner? {
      ForwardSame(q, end);
      ForwardSame(q, end.(am := Fresh));
    }
    NativeDoneOk(j, cx, w, end);
    GiveAll(w, DstBuf, SrcBuf, r, NativeDone(j, cx), q3, NOTHING);
    var go := Start(ALL, DstBuf, SrcBuf, NativeDone(j, cx), Halt);
    if j.want.remote {
      var o := if j.rankD == j.me then RemoteCx else AmBuf;
      var q1 := q.(here := Live(r));
      var q2 := After(w, New(o), r, q1);
      DoOk(w, Inc, go, r, q2, q3, NOTHING);
      DoOk(w, New(o), Do(Inc, go), r, q1, q2, NOTHING);
      DoOk(w, New(HereCx), Do(New(o), Do(Inc, go)), r, q, q1, NOTHING);
    } else {
      DoOk(w, New(HereOf(cx)), go, r, q, q3, NOTHING);
    }
  }

  // ----- reference get -----

  lemma RefGetDoneOk(j: Job, cx: Cx, w: Terms, q: Perm)
    requires j.rankD == j.me && Ending(j, cx, w, q.(bounceD := Fresh))
    requires if j.heapD != HOST_HEAP then q.bounceD == Full(j.me) else Done(q.bounceD)
    requires cx.Outer? ==> q.oweSource == No && if j.want.remote then q.remote == Live(j.me) && q.charge == Live(j.me)
             else Done(q.remote) && Done(q.charge)
    requires WellPosed(j) && Counting(j, cx, w)
    ensures Check(w, RefGetDone(j, cx), j.me, q, ARRIVED)
  {
    ForwardKeeps(w, cx, if j.heapD != HOST_HEAP then q.(bounceD := No) else q);
    hide Only, Minus, Check;
    var r := j.me;
    var q1 := if j.heapD != HOST_HEAP then q.(bounceD := No) else q;
    var q2 := if j.want.remote then q1.(charge := No, oweRemote := No, remote := No) else q1;
    if cx.Inner? { ForwardSame(q.(bounceD := Fresh), q1); }
    var q3 := AfterOp(cx, w, q2);
    var p3 := Do(Delete(HereOf(cx)), Halt);
    var q4 := After(w, Delete(HereOf(cx)), r, q3);
    HaltOk(w, r, q4, ARRIVED);
    DoOk(w, Delete(HereOf(cx)), Halt, r, q3, q4, ARRIVED);
    FireOpOk(w, cx, r, p3, q2);
    var tail := FireOp(cx, r, p3);
    if j.want.remote {
      HandRemoteOk(w, r, tail, q1.(charge := No));
      DoOk(w, Dec, HandRemote(r, tail), r, q1, q1.(charge := No), ARRIVED);
    }
    if j.heapD != HOST_HEAP {
      DoOk(w, Delete(Bounce(AtDest)), if j.want.remote then Do(Dec, HandRemote(j.me, tail))
           else tail, r, q, q1, ARRIVED);
    }
  }

  lemma RefGetArrivedOk(j: Job, cx: Cx, w: Terms, q: Perm)
    requires j.rankD == j.me && Ending(j, cx, w, q.(bounceD := Fresh, dst := No))
    requires cx.Outer? ==> q.oweSource == Due(j.want.source)
    requires if j.heapD != HOST_HEAP then q.bounceD == Full(j.me) && q.dst == Fresh else Done(q.bounceD) && q.dst == No
    requires cx.Outer? ==> if j.want.remote then q.remote == Live(j.me) && q.charge == Live(j.me)
             else Done(q.remote) && Done(q.charge)
    requires WellPosed(j) && Counting(j, cx, w)
    ensures Check(w, RefGetArrived(j, cx), j.me, q, Facts(true, j.heapD == HOST_HEAP))
  {
    hide Only, Minus, Check;
    var r := j.me;
    var q2 := AfterSource(cx, w, q);
    var q3 := q2.(dst := No);
    if cx.Inner? {
      ForwardSame(q, q3.(bounceD := Fresh));
      ForwardSame(q, q.(bounceD := Fresh, dst := No));
    }
    RefGetDoneOk(j, cx, w, q3);
    var next := if j.heapD == HOST_HEAP then RefGetDone(j, cx)
      else Local(j.kindD, Host, DstBuf, Stage(AtDest), RefGetDone(j, cx));
    if j.heapD != HOST_HEAP {
      LocalOk(w, j.kindD, Host, DstBuf, Stage(AtDest), r, RefGetDone(j, cx), q2, Facts(true, false));
    }
    FireSourceOk(w, cx, r, next, q, Facts(true, j.heapD == HOST_HEAP));
  }

  lemma RefGetPutOk(j: Job, cx: Cx, w: Terms, q: Perm, from: Loc)
    requires j.rankD == j.me && j.rankS != j.me
    requires Ending(j, cx, w, q.(bounceD := Fresh, bounceS := Fresh, dst := No, src := No))
    requires cx.Outer? ==> q.oweSource == Due(j.want.source)
    requires q.dst == Fresh && if j.heapD != HOST_HEAP then q.bounceD == Live(j.me) else Done(q.bounceD)
    requires if j.heapS == HOST_HEAP then from == SrcBuf && q.src == Fresh && Done(q.bounceS)
             else from == Stage(AtSource) && q.bounceS == Full(j.rankS) && q.src == No
    requires cx.Outer? ==> if j.want.remote then q.remote == Live(j.me) && q.charge == Live(j.me)
             else Done(q.remote) && Done(q.charge)
    requires WellPosed(j) && Counting(j, cx, w)
    ensures Check(w, RefGetPut(j, cx, from), j.rankS, q, Facts(from != SrcBuf, false))
  {
    hide Only, Minus, Check;
    var q1 := AfterMove(LandingD(j), from, q);
    var q2 := if j.heapS != HOST_HEAP then q1.(bounceS := No) else q1;
    if cx.Inner? {
      ForwardSame(q.(bounceD := Fresh, bounceS := Fresh, dst := No, src := No), q2.(bounceD := Fresh, dst := No));
    }
    RefGetArrivedOk(j, cx, w, q2);
    var f := Facts(true, j.heapD == HOST_HEAP);
    var send := Send(j.rankD, ALL, RefGetArrived(j, cx), Halt);
    SendAll(w, j.rankS, j.rankD, RefGetArrived(j, cx), q2, f);
    if j.heapS != HOST_HEAP { DoOk(w, Delete(Bounce(AtSource)), send, j.rankS, q1, q2, f); }
    GiveAll(w, LandingD(j), from, j.rankS, DoIf(j.heapS != HOST_HEAP, Delete(Bounce(AtSource)), send), q,
            Facts(from != SrcBuf, false));
  }

  lemma RefGetSourceOk(j: Job, cx: Cx, w: Terms, q: Perm)
    requires j.rankD == j.me && j.rankS != j.me && Ending(j, cx, w, q.(bounceD := Fresh, dst := No, src := No))
    requires cx.Outer? ==> q.oweSource == Due(j.want.source)
    requires q.dst == Fresh && q.src == Fresh && q.bounceS == Fresh
    requires if j.heapD != HOST_HEAP then q.bounceD == Live(j.me) else Done(q.bounceD)
    requires cx.Outer? ==> if j.want.remote then q.remote == Live(j.me) && q.charge == Live(j.me)
             else Done(q.remote) && Done(q.charge)
    requires WellPosed(j) && Counting(j, cx, w)
    ensures Check(w, RefGetSource(j, cx), j.rankS, q, NOTHING)
  {
    hide Only, Minus, Check;
    var base := q.(bounceD := Fresh, dst := No, src := No);
    if j.heapS == HOST_HEAP {
      if cx.Inner? { ForwardSame(base, q.(bounceD := Fresh, bounceS := Fresh, dst := No, src := No)); }
      RefGetPutOk(j, cx, w, q, SrcBuf);
    } else {
      var r := j.rankS;
      var q1 := q.(bounceS := Live(r));
      var q2 := q1.(bounceS := Full(r), src := No);
      if cx.Inner? { ForwardSame(base, q2.(bounceD := Fresh, bounceS := Fresh, dst := No, src := No)); }
      RefGetPutOk(j, cx, w, q2, Stage(AtSource));
      LocalOk(w, Host, j.kindS, Stage(AtSource), SrcBuf, r, RefGetPut(j, cx, Stage(AtSource)), q1, NOTHING);
      DoOk(w, New(Bounce(AtSource)), Local(Host, j.kindS, Stage(AtSource), SrcBuf, RefGetPut(j, cx, Stage(AtSource))),
           r, q, q1, NOTHING);
    }
  }

  lemma RefGetOk(j: Job, cx: Cx, w: Terms, q: Perm)
    requires j.rankD == j.me && j.rankS != j.me && j.heapS != PRIVATE_HEAP && Entry(j, cx, w, q)
    requires WellPosed(j) && Counting(j, cx, w)
    ensures Check(w, RefGet(j, cx), j.me, q, NOTHING)
  {
    hide Only, Minus, Check;
    var r := j.me;
    var q4 := if j.heapD != HOST_HEAP then Opened(j, cx, q).(bounceD := Live(r)) else Opened(j, cx, q);
    if cx.Inner? { ForwardSame(q, q4.(bounceD := Fresh, dst := No, src := No)); }
    RefGetSourceOk(j, cx, w, q4);
    var send := Send(j.rankS, ALL, RefGetSource(j, cx), Halt);
    SendAll(w, r, j.rankS, RefGetSource(j, cx), q4, NOTHING);
    var q3 := if j.want.remote then q4.(charge := Fresh) else q4;
    var p3 := DoIf(j.want.remote, Inc, send);
    if j.want.remote { DoOk(w, Inc, send, r, q3, q4, NOTHING); }
    var q2 := q3.(bounceD := Fresh);
    var p2 := DoIf(j.heapD != HOST_HEAP, New(Bounce(AtDest)), p3);
    if j.heapD != HOST_HEAP { DoOk(w, New(Bounce(AtDest)), p3, r, q2, q3, NOTHING); }
    var q1 := if j.want.remote then q2.(remote := Fresh) else q2;
    var p1 := DoIf(j.want.remote, New(RemoteCx), p2);
    if j.want.remote { DoOk(w, New(RemoteCx), p2, r, q1, q2, NOTHING); }
    DoOk(w, New(HereOf(cx)), p1, r, q, q1, NOTHING);
  }

  // ----- native put turned into a get -----

  /** The caller's part at the end of a put: what the acknowledgement still has to do. */
  lemma AckTailOk(j: Job, w: Terms, r: Rank, q: Perm)
    requires Agrees(j, Outer, w) && q.oweOp == Due(j.want.op) && q.here == Live(r) && Idle(q.(oweOp := No, here := No))
    requires r == j.me
    ensures Check(w, FireOp(Outer, r, Do(Delete(HereCx), Halt)), r, q, ARRIVED)
  {
    hide Only, Minus, Check;
    var q1 := AfterOp(Outer, w, q);
    HaltOk(w, r, q1.(here := No), ARRIVED);
    DoOk(w, Delete(HereCx), Halt, r, q1, q1.(here := No), ARRIVED);
    FireOpOk(w, Outer, r, Do(Delete(HereCx), Halt), q);
  }

  lemma FreeBounceOk(w: Terms, r: Rank, q: Perm)
    requires q.bounceS == Full(r) && Idle(q.(bounceS := No))
    ensures Check(w, Do(Delete(Bounce(AtSource)), Halt), r, q, ARRIVED)
  {
    HaltOk(w, r, q.(bounceS := No), ARRIVED);
    DoOk(w, Delete(Bounce(AtSource)), Halt, r, q, q.(bounceS := No), ARRIVED);
  }

  /** What the target has in hand for a put when the bytes have landed. */
  predicate AtTarget(j: Job, w: Terms, q: Perm, ack: bool, staged: bool) {
    && Agrees(j, Outer, w) && q.src == No && q.dst == No && q.oweInner == No && Done(q.inner) && Done(q.am)
      && Done(q.charge)
    && (if staged then q.bounceS == Full(j.rankS) else Done(q.bounceS))
    && q.oweRemote == Due(j.want.remote) && (if j.want.remote then q.remote == Live(j.rankD) else Done(q.remote))
    && (if ack then q.here == Live(j.rankS) && q.oweOp == Due(j.want.op) else q.here == No && q.oweOp == No)
    && q.oweSource == Due(j.want.source && ack && !staged)
  }

  lemma PutAsGetDoneOk(j: Job, w: Terms, q: Perm)
    requires j.rankS == j.me && j.want.remote && !j.want.op && Done(q.bounceD)
    requires AtTarget(j, w, q, GetMustAck(j), j.heapS == PRIVATE_HEAP)
    ensures Check(w, PutAsGetDone(j), j.rankD, q, ARRIVED)
  {
    hide Only, Minus, Check;
    var q1 := q.(oweRemote := No, remote := No);
    var r, d := j.rankS, j.rankD;
    if GetMustAck(j) {
      var q2 := AfterSource(Outer, w, q1);
      AckTailOk(j, w, r, q2);
      FireSourceOk(w, Outer, r, FireOp(Outer, r, Do(Delete(HereCx), Halt)), q1, ARRIVED);
      SendAll(w, d, r, PutAsGetAck(j), q1, ARRIVED);
      HandRemoteOk(w, d, Send(r, ALL, PutAsGetAck(j), Halt), q);
    } else if j.heapS == PRIVATE_HEAP {
      FreeBounceOk(w, r, q1);
      SendAll(w, d, r, Do(Delete(Bounce(AtSource)), Halt), q1, ARRIVED);
      HandRemoteOk(w, d, Send(r, ALL, Do(Delete(Bounce(AtSource)), Halt), Halt), q);
    } else {
      HaltOk(w, d, q1, ARRIVED);
      HandRemoteOk(w, d, Halt, q);
    }
  }

  lemma ButHere(q: Perm)
    ensures Only(q, BUT_HERE) == q.(here := No)
    ensures var rest := Minus(q, BUT_HERE); rest.here == q.here && Idle(rest.(here := No))
  {}

  /** The initiator keeps its completion state exactly when no acknowledgement will delete it. */
  lemma SendAndDropOk(w: Terms, r: Rank, to: Rank, ack: bool, body: Prog, q: Perm, f: Facts)
    requires q.here == Live(r) && Check(w, body, to, if ack then q else q.(here := No), f)
    ensures Check(w, Send(to, if ack then ALL else BUT_HERE, body, DoIf(!ack, Delete(HereCx), Halt)), r, q, f)
  {
    AllOf(q);
    ButHere(q);
    hide Only, Minus;
    if !ack {
      var rest := Minus(q, BUT_HERE);
      HaltOk(w, r, rest.(here := No), f);
      DoOk(w, Delete(HereCx), Halt, r, rest, rest.(here := No), f);
    }
  }

  lemma PutAsGetOk(j: Job, w: Terms, q: Perm)
    requires j.rankS == j.me && j.rankD != j.me && j.heapD != PRIVATE_HEAP && j.want.remote && !j.want.op
    requires Entry(j, Outer, w, q)
    requires WellPosed(j) && j.mk && !w.charged
    ensures Check(w, PutAsGet(j), j.me, q, NOTHING)
  {
    hide Only, Minus, Check;
    var r, d, ack, staged := j.me, j.rankD, GetMustAck(j), j.heapS == PRIVATE_HEAP;
    var from := if staged then Stage(AtSource) else SrcBuf;
    var q1 := q.(here := Live(r));
    var q2 := if staged then AfterSource(Outer, w, q1.(bounceS := Full(r), src := No)) else q1;
    var sent := if ack then q2 else q2.(here := No);
    var t1 := sent.(remote := Live(d));
    PutAsGetDoneOk(j, w, t1.(src := No, dst := No));
    var f := Facts(staged, false);
    GiveAll(w, DstBuf, from, d, PutAsGetDone(j), t1, f);
    DoOk(w, New(RemoteCx), Start(ALL, DstBuf, from, PutAsGetDone(j), Halt), d, sent, t1, f);
    SendAndDropOk(w, r, d, ack, PutAsGetTarget(j), q2, f);
    var send := Send(d, if ack then ALL else BUT_HERE, PutAsGetTarget(j), DoIf(!ack, Delete(HereCx), Halt));
    if staged {
      var qa := q1.(bounceS := Live(r));
      var qb := q1.(bounceS := Full(r), src := No);
      FireSourceOk(w, Outer, r, send, qb, f);
      DoOk(w, Move(Stage(AtSource), SrcBuf), FireSource(Outer, send), r, qa, qb, NOTHING);
      DoOk(w, New(Bounce(AtSource)), Do(Move(Stage(AtSource), SrcBuf), FireSource(Outer, send)), r, q1, qa, NOTHING);
      DoOk(w, New(HereCx), Do(New(Bounce(AtSource)), Do(Move(Stage(AtSource), SrcBuf), FireSource(Outer, send))), r, q,
           q1, NOTHING);
    } else {
      DoOk(w, New(HereCx), send, r, q, q1, NOTHING);
    }
  }

  // ----- reference put -----

  /** The put whose initiator may delete the completion state before the device copy reports source completion. */
  predicate EarlyDelete(j: Job) { j.kindS != Host && j.want.source && !j.want.op }

  lemma RefPutLandedOk(j: Job, w: Terms, q: Perm)
    requires j.rankS == j.me && AtTarget(j, w, q, PutMustAck(j), j.heapS != HOST_HEAP)
    requires if j.heapD != HOST_HEAP then q.bounceD == Full(j.rankD) else Done(q.bounceD)
    requires WellPosed(j) && !w.charged && j.rankD != j.me
    ensures Check(w, RefPutLanded(j), j.rankD, q, ARRIVED)
  {
    hide Only, Minus, Check;
    var q0 := if j.heapD != HOST_HEAP then q.(bounceD := No) else q;
    var q1 := if j.want.remote then q0.(oweRemote := No, remote := No) else q0;
    var r, d := j.rankS, j.rankD;
    var back := if PutMustAck(j) then Send(r, ALL, RefPutAck(j), Halt)
                else if j.heapS != HOST_HEAP then Send(r, ALL, Do(Delete(Bounce(AtSource)), Halt), Halt)
                else Halt;
    if PutMustAck(j) {
      RefPutAckOk(j, w, q1);
      SendAll(w, d, r, RefPutAck(j), q1, ARRIVED);
    } else if j.heapS != HOST_HEAP {
      FreeBounceOk(w, r, q1);
      SendAll(w, d, r, Do(Delete(Bounce(AtSource)), Halt), q1, ARRIVED);
    } else {
      HaltOk(w, d, q1, ARRIVED);
    }
    if j.want.remote { HandRemoteOk(w, d, back, q0); }
    if j.heapD != HOST_HEAP {
      DoOk(w, Delete(Bounce(AtDest)), if j.want.remote then HandRemote(d, back) else back, d, q, q0, ARRIVED);
    }
  }

  lemma RefPutAckOk(j: Job, w: Terms, q: Perm)
    requires Agrees(j, Outer, w) && PutMustAck(j) && q.here == Live(j.rankS) && q.oweOp == Due(j.want.op)
    requires q.oweSource == Due(j.want.source && j.heapS == HOST_HEAP)
    requires if j.heapS != HOST_HEAP then q.bounceS == Full(j.rankS) else Done(q.bounceS)
    requires Idle(q.(here := No, oweOp := No, oweSource := No, bounceS := No))
    requires j.rankS == j.me
    ensures Check(w, RefPutAck(j), j.rankS, q, ARRIVED)
  {
    hide Only, Minus, Check;
    var r := j.rankS;
    var tail := FireOp(Outer, r, Do(Delete(HereCx), Halt));
    if j.heapS != HOST_HEAP {
      AckTailOk(j, w, r, q.(bounceS := No));
      DoOk(w, Delete(Bounce(AtSource)), tail, r, q, q.(bounceS := No), ARRIVED);
    } else {
      AckTailOk(j, w, r, AfterSource(Outer, w, q));
      FireSourceOk(w, Outer, r, tail, q, ARRIVED);
    }
  }

  lemma RefPutTargetOk(j: Job, w: Terms, q: Perm, from: Loc)
    requires j.rankS == j.me && j.heapD != PRIVATE_HEAP && q.dst == Fresh && q.bounceD == Fresh && q.remote == Fresh
    requires AtTarget(j, w, q.(src := No, dst := No, remote := if j.want.remote then Live(j.rankD) else Fresh),
                      PutMustAck(j), j.heapS != HOST_HEAP)
    requires if j.heapS == HOST_HEAP then from == SrcBuf && q.src == Fresh else from == Stage(AtSource) && q.src == No
    requires WellPosed(j) && !w.charged && j.rankD != j.me
    ensures Check(w, RefPutTarget(j, from), j.rankD, q, Facts(from != SrcBuf, false))
  {
    hide Only, Minus, Check;
    var d, f := j.rankD, Facts(from != SrcBuf, false);
    var q1 := if j.heapD != HOST_HEAP then q.(bounceD := Live(d)) else q;
    var q2 := if j.want.remote then q1.(remote := Live(d)) else q1;
    var q3 := AfterMove(LandingD(j), from, q2);
    RefPutLandedOk(j, w, q3.(dst := No));
    if j.heapD != HOST_HEAP {
      LocalOk(w, j.kindD, Host, DstBuf, Stage(AtDest), d, RefPutLanded(j), q3, Facts(true, false));
    }
    GiveAll(w, LandingD(j), from, d, RefPutGot(j), q2, f);
    var go := Start(ALL, LandingD(j), from, RefPutGot(j), Halt);
    if j.want.remote { DoOk(w, New(RemoteCx), go, d, q1, q2, f); }
    if j.heapD != HOST_HEAP { DoOk(w, New(Bounce(AtDest)), DoIf(j.want.remote, New(RemoteCx), go), d, q, q1, f); }
  }

  lemma PutShare(j: Job, q: Perm)
    ensures Only(q, PutGives(j) - {Own(AmBuf)}) == if PutMustAck(j) then q.(am := No) else q.(am := No, here := No)
    ensures var rest := Minus(q, PutGives(j) - {Own(AmBuf)});
            && rest.am == q.am && rest.here == (if PutMustAck(j) then No else q.here)
              && Idle(rest.(am := No, here := No))
  {}

  /** The message to the target; rest is what the initiator still does in the same breath. */
  lemma RefPutSendOk(j: Job, w: Terms, q: Perm, from: Loc, inline: bool)
    requires j.rankS == j.me && j.heapD != PRIVATE_HEAP
    requires Entry(j, Outer, w, q.(src := Fresh, here := Fresh, am := Fresh, bounceS := Fresh))
    requires q.am == Live(j.me) && (if PutMustAck(j) || inline then q.here == Live(j.me) else q.here == No)
    requires if j.heapS == HOST_HEAP then from == SrcBuf && q.src == Fresh && q.bounceS == Fresh && inline
             else from == Stage(AtSource) && q.src == No && q.bounceS == Full(j.me)
    requires !inline ==> !(j.want.source && !j.want.op)
    requires WellPosed(j) && !w.charged && j.rankD != j.me
    ensures Check(w, RefPutSend(j, from, DoIf(inline && !PutMustAck(j), Delete(HereCx), Halt)), j.me, q,
                  Facts(from != SrcBuf, false))
  {
    hide Only, Minus, Check;
    var r, f := j.me, Facts(from != SrcBuf, false);
    var rest := DoIf(inline && !PutMustAck(j), Delete(HereCx), Halt);
    var early := j.want.source && j.heapS != HOST_HEAP;
    var q1 := if early then q.(oweSource := No) else q;
    RefPutMessageOk(j, w, q1, from, rest, f);
    if early {
      DoOk(w, Call(SourceNote), Do(Use(AmBuf), Send(j.rankD, PutGives(j) - {Own(AmBuf)}, RefPutTarget(j, from),
                                                    Do(Delete(AmBuf), rest))), r, q, q1, f);
    }
  }

  lemma RefPutMessageOk(j: Job, w: Terms, q: Perm, from: Loc, rest: Prog, f: Facts)
    requires j.rankS == j.me && j.heapD != PRIVATE_HEAP && f == Facts(from != SrcBuf, false) && q.am == Live(j.me)
    requires Agrees(j, Outer, w) && q.dst == Fresh && q.bounceD == Fresh && q.remote == Fresh && q.inner == Fresh
    requires q.charge == Fresh
    requires q.oweInner == No && q.oweOp == Due(j.want.op) && q.oweRemote == Due(j.want.remote)
    requires q.oweSource == Due(j.want.source && j.heapS == HOST_HEAP)
    requires if j.heapS == HOST_HEAP then from == SrcBuf && q.src == Fresh && q.bounceS == Fresh
             else from == Stage(AtSource) && q.src == No && q.bounceS == Full(j.me)
    requires rest == DoIf(!PutMustAck(j) && q.here != No, Delete(HereCx), Halt)
    requires q.here == Live(j.me) || (q.here == No && !PutMustAck(j))
    requires WellPosed(j) && !w.charged && j.rankD != j.me
    ensures Check(w, Do(Use(AmBuf), Send(j.rankD, PutGives(j) - {Own(AmBuf)}, RefPutTarget(j, from),
                                         Do(Delete(AmBuf), rest))), j.me, q, f)
  {
    PutShare(j, q);
    hide Only, Minus;
    var r, ack := j.me, PutMustAck(j);
    var left := Minus(q, PutGives(j) - {Own(AmBuf)});
    HaltOk(w, r, left.(am := No, here := No), f);
    if !ack && q.here != No { DoOk(w, Delete(HereCx), Halt, r, left.(am := No), left.(am := No, here := No), f); }
    else { assert left.(am := No) == left.(am := No, here := No); }
    DoOk(w, Delete(AmBuf), rest, r, left, left.(am := No), f);
    var given := Only(q, PutGives(j) - {Own(AmBuf)});
    RefPutTargetOk(j, w, given, from);
    var send := Send(j.rankD, PutGives(j) - {Own(AmBuf)}, RefPutTarget(j, from), Do(Delete(AmBuf), rest));
    assert Check(w, send, r, q, f);
    hide Check;
    DoOk(w, Use(AmBuf), send, r, q, q, f);
  }

  lemma PutStartShare(j: Job, q: Perm)
    ensures Only(q, PutGives(j)) == if PutMustAck(j) then q else q.(here := No)
    ensures var rest := Minus(q, PutGives(j));
            rest.here == (if PutMustAck(j) then No else q.here) && Idle(rest.(here := No))
  {}

  lemma RefPutOk(j: Job, w: Terms, q: Perm)
    requires j.rankS == j.me && j.rankD != j.me && j.heapD != PRIVATE_HEAP && WellPosed(j) && Entry(j, Outer, w, q)
    requires !EarlyDelete(j)
    requires !w.charged
    ensures Check(w, RefPut(j), j.me, q, NOTHING)
  {
    hide Only, Minus, Check;
    var r := j.me;
    var tail := DoIf(!PutMustAck(j), Delete(HereCx), Halt);
    var q1 := q.(here := Live(r));
    if j.heapS == HOST_HEAP {
      var q2 := q1.(am := Live(r));
      RefPutSendOk(j, w, q2, SrcBuf, true);
      DoOk(w, New(AmBuf), RefPutSend(j, SrcBuf, tail), r, q1, q2, NOTHING);
      DoOk(w, New(HereCx), Do(New(AmBuf), RefPutSend(j, SrcBuf, tail)), r, q, q1, NOTHING);
    } else {
      var q2 := q1.(bounceS := Live(r));
      var q3 := q2.(am := Live(r));
      var go := if j.kindS == Host then Do(Move(Stage(AtSource), SrcBuf), RefPutSend(j, Stage(AtSource), tail))
                else Start(PutGives(j), Stage(AtSource), SrcBuf, RefPutSend(j, Stage(AtSource), Halt), tail);
      if j.kindS == Host {
        var q4 := q3.(bounceS := Full(r), src := No);
        RefPutSendOk(j, w, q4, Stage(AtSource), true);
        DoOk(w, Move(Stage(AtSource), SrcBuf), RefPutSend(j, Stage(AtSource), tail), r, q3, q4, NOTHING);
      } else {
        RefPutStartOk(j, w, q3);
      }
      DoOk(w, New(AmBuf), go, r, q2, q3, NOTHING);
      DoOk(w, New(Bounce(AtSource)), Do(New(AmBuf), go), r, q1, q2, NOTHING);
      DoOk(w, New(HereCx), Do(New(Bounce(AtSource)), Do(New(AmBuf), go)), r, q, q1, NOTHING);
    }
  }

  lemma RefPutStartOk(j: Job, w: Terms, q: Perm)
    requires j.rankS == j.me && j.heapD != PRIVATE_HEAP
    requires Entry(j, Outer, w, q.(here := Fresh, am := Fresh, bounceS := Fresh))
    requires j.heapS != HOST_HEAP && q.here == Live(j.me) && q.am == Live(j.me) && q.bounceS == Live(j.me)
    requires !(j.want.source && !j.want.op)
    requires WellPosed(j) && !w.charged && j.rankD != j.me
    ensures Check(w, Start(PutGives(j), Stage(AtSource), SrcBuf, RefPutSend(j, Stage(AtSource), Halt),
                           DoIf(!PutMustAck(j), Delete(HereCx), Halt)), j.me, q, NOTHING)
  {
    PutStartShare(j, q);
    hide Only, Minus;
    var r, ack := j.me, PutMustAck(j);
    var given := if ack then q else q.(here := No);
    var q4 := given.(bounceS := Full(r), src := No);
    RefPutSendOk(j, w, q4, Stage(AtSource), false);
    var left := Minus(q, PutGives(j));
    HaltOk(w, r, left.(here := No), NOTHING);
    if !ack { DoOk(w, Delete(HereCx), Halt, r, left, left.(here := No), NOTHING); }
    else { assert left == left.(here := No); }
  }

  // ----- third party -----

  lemma ThirdPartyThenOk(j: Job, w: Terms, q: Perm)
    requires Agrees(j, Outer, w) && Owes(j, q) && q.src == No && q.dst == No && q.oweInner == No
    requires Done(q.inner) && Done(q.am) && Done(q.bounceS) && Done(q.bounceD) && Done(q.charge)
    requires if InitEvent(j) then q.here == Live(j.me) else q.here == No
    requires if j.want.remote then q.remote == Live(j.rankD) else Done(q.remote)
    ensures Check(w, ThirdPartyThen(j), j.rankD, q, ARRIVED)
  {
    hide Only, Minus, Check;
    var q1 := if j.want.remote then q.(oweRemote := No, remote := No) else q;
    var back := if InitEvent(j) then Send(j.me, ALL, ThirdPartyAck(j), Halt) else Halt;
    if InitEvent(j) {
      AckTailOk(j, w, j.me, AfterSource(Outer, w, q1));
      FireSourceOk(w, Outer, j.me, FireOp(Outer, j.me, Do(Delete(HereCx), Halt)), q1, ARRIVED);
      SendAll(w, j.rankD, j.me, ThirdPartyAck(j), q1, ARRIVED);
    } else {
      HaltOk(w, j.rankD, q1, ARRIVED);
    }
    if j.want.remote { HandRemoteOk(w, j.rankD, back, q); }
  }

  lemma ForwardedOnly(q: Perm)
    ensures Only(q, FORWARDED) == Perm(No, No, q.oweSource, q.oweOp, q.oweRemote, No, q.here, No, q.remote, No, No, No,
                                       No)
  {}

  lemma ThirdPartyOk(j: Job, w: Terms, q: Perm)
    requires WellPosed(j) && j.me != j.rankD && j.me != j.rankS && Entry(j, Outer, w, q.(oweInner := No))
    requires if HostOnly(j) then q.oweInner == No else q.oweInner == Fresh && InnerNote in w.wants
    requires !w.charged && (!HostOnly(j) ==> w.home(Own(InnerCx)) == w.home(Owe(InnerNote)) == j.rankD)
    ensures Check(w, ThirdParty(j), j.me, q, NOTHING)
  {
    hide Only, Minus, Check;
    var r, d, ack := j.me, j.rankD, InitEvent(j);
    var q1 := q.(here := Live(r));
    var given := if ack then q1 else q1.(here := No);
    var t := if j.want.remote then given.(remote := Live(d)) else given;
    var go := if HostOnly(j) then Start(ALL, DstBuf, SrcBuf, ThirdPartyThen(j), Halt)
      else AtEnd(Forwarded(j), Inner(ThirdPartyThen(j)));
    if HostOnly(j) {
      ThirdPartyThenOk(j, w, t.(src := No, dst := No));
      GiveAll(w, DstBuf, SrcBuf, d, ThirdPartyThen(j), t, NOTHING);
    } else {
      ForwardedOnly(t);
      ThirdPartyThenOk(j, w, Only(t, FORWARDED));
      ForwardedOk(Forwarded(j), Inner(ThirdPartyThen(j)), w, t);
    }
    if j.want.remote { DoOk(w, New(RemoteCx), go, d, given, t, NOTHING); }
    SendAndDropOk(w, r, d, ack, ThirdPartyTarget(j), q1, NOTHING);
    DoOk(w, New(HereCx), Send(d, if ack then ALL else BUT_HERE, ThirdPartyTarget(j), DoIf(!ack, Delete(HereCx), Halt)),
         r, q, q1, NOTHING);
  }

  /** The copy a target makes for a third party. */
  lemma ForwardedOk(j: Job, cx: Cx, w: Terms, q: Perm)
    requires WellPosed(j) && j.me == j.rankD && cx.Inner? && Entry(j, cx, w, q)
    ensures Check(w, AtEnd(j, cx), j.me, q, NOTHING)
  {
    hide Only, Minus, Check;
    if j.rankD == j.rankS { LoopbackOk(j, cx, w, q); }
    else if j.mk { NativeOk(j, cx, w, q); }
    else { RefGetOk(j, cx, w, q); }
  }

  // ----- host to host get -----

  lemma AsGetOk(j: Job, shared: bool, w: Terms, q: Perm)
    requires Entry(j, Outer, w, q)
    requires HostOnly(j) && j.heapS != PRIVATE_HEAP && j.rankD == j.me && (w.charged <==> j.want.remote && !shared)
    ensures Check(w, AsGet(j, shared), j.me, q, NOTHING)
  {
    hide Only, Minus, Check;
    var r := j.me;
    if shared {
      var q1 := q.(src := No, dst := No);
      var q2 := q1.(here := Live(r));
      var q3 := AfterSource(Outer, w, q2);
      var q4 := AfterOp(Outer, w, q3);
      var end := q4.(here := No, oweRemote := No, remote := if j.want.remote then No else q4.remote);
      HaltOk(w, r, end, ARRIVED);
      DoOk(w, Delete(HereCx), Halt, r, end.(here := Live(r)), end, ARRIVED);
      var last := if j.want.remote then Do(New(RemoteCx), HandRemote(r, Do(Delete(HereCx), Halt)))
        else Do(Delete(HereCx), Halt);
      if j.want.remote {
        HandRemoteOk(w, r, Do(Delete(HereCx), Halt), q4.(remote := Live(r)));
        DoOk(w, New(RemoteCx), HandRemote(r, Do(Delete(HereCx), Halt)), r, q4, q4.(remote := Live(r)), ARRIVED);
      }
      FireOpOk(w, Outer, r, last, q3);
      FireSourceOk(w, Outer, r, FireOp(Outer, r, last), q2, ARRIVED);
      DoOk(w, New(HereCx), FireSource(Outer, FireOp(Outer, r, last)), r, q1, q2, ARRIVED);
      DoOk(w, Move(DstBuf, SrcBuf), Do(New(HereCx), FireSource(Outer, FireOp(Outer, r, last))), r, q, q1, NOTHING);
    } else {
      var q3 := Opened(j, Outer, q);
      LoopbackDoneOk(j, Outer, w, q3.(src := No, dst := No));
      GiveAll(w, DstBuf, SrcBuf, r, LoopbackDone(j, Outer), q3, NOTHING);
      OpenOk(j, Outer, w, Start(ALL, DstBuf, SrcBuf, LoopbackDone(j, Outer), Halt), q);
    }
  }
}
