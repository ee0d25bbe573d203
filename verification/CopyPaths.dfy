/**
 The paths of upcxx::copy as programs of the copy machine, continuation by continuation
 (src/copy.hpp:161-229, 245-314, 318-689).
 */
module CopyPaths {
  import opened CopyMachine

  const HOST_HEAP := 0
  const PRIVATE_HEAP := -1

  datatype Want = Want(source: bool, op: bool, remote: bool)

  /** A call of copy_general; mk says that both kinds are native to the network. */
  datatype Job = Job(
    me: Rank,
    rankS: Rank, heapS: int, kindS: Kind,
    rankD: Rank, heapD: int, kindD: Kind,
    mk: bool, want: Want)

  /** The completions belong to the caller, or are the internal future of a forwarded copy that goes on with k. */
  datatype Cx = Outer | Inner(k: Prog)

  predicate HostSide(heap: int, kind: Kind) { (kind == Host) == (heap == HOST_HEAP || heap == PRIVATE_HEAP) }

  /** What every caller of copy_general meets: heaps match kinds, and private memory is the initiator's own. */
  predicate WellPosed(j: Job) {
    && HostSide(j.heapS, j.kindS) && HostSide(j.heapD, j.kindD)
    && (j.heapS == PRIVATE_HEAP ==> j.rankS == j.me) && (j.heapD == PRIVATE_HEAP ==> j.rankD == j.me)
  }

  const ALL: set<Res> := {
    ReadSrc, WriteDst, Owe(SourceNote), Owe(OpNote), Owe(RemoteNote), Owe(InnerNote), Own(HereCx), Own(InnerCx),
    Own(RemoteCx), Own(AmBuf), Own(Bounce(AtSource)), Own(Bounce(AtDest)), Charge }

  const BUT_HERE: set<Res> := ALL - {Own(HereCx)}

  const FORWARDED: set<Res> := {Owe(SourceNote), Owe(OpNote), Owe(RemoteNote), Own(HereCx), Own(RemoteCx)}

  // ----- pieces shared by the paths -----

  function HereOf(cx: Cx): Obj { if cx.Outer? then HereCx else InnerCx }

  function DoIf(yes: bool, a: Act, rest: Prog): Prog { if yes then Do(a, rest) else rest }

  function FireSource(cx: Cx, rest: Prog): Prog {
    Do(if cx.Outer? then Call(SourceNote) else Use(InnerCx), rest)
  }

  /** Operation completion; for a forwarded copy the continuation of its future becomes runnable. */
  function FireOp(cx: Cx, r: Rank, rest: Prog): Prog {
    if cx.Outer? then Do(Call(OpNote), rest) else Do(Call(InnerNote), Send(r, FORWARDED, cx.k, rest))
  }

  /** during(master, user, *cxs_remote), then delete cxs_remote. */
  function HandRemote(r: Rank, rest: Prog): Prog {
    Do(Use(RemoteCx), Send(r, {Owe(RemoteNote)}, Do(RunRemote, Halt), Do(Delete(RemoteCx), rest)))
  }

  /** rma_copy_local with nothing left to do after it. */
  function Local(kd: Kind, ks: Kind, d: Loc, s: Loc, next: Prog): Prog
    requires kd == ks || kd == Host || ks == Host
  {
    if kd == Host && ks == Host then Do(Move(d, s), next) else Start(ALL, d, s, next, Halt)
  }

  // ----- loopback, lines 351-400 -----

  predicate DualKind(j: Job) { j.kindS != j.kindD && j.kindS != Host && j.kindD != Host }

  function Loopback(j: Job, cx: Cx): Prog
    requires j.rankD == j.me && j.rankS == j.me
  {
    var go := if DualKind(j) then
                Do(New(Bounce(AtSource)), Local(Host, j.kindS, Stage(AtSource), SrcBuf, LoopbackStaged(j, cx)))
              else
                Local(j.kindD, j.kindS, DstBuf, SrcBuf, LoopbackDone(j, cx));
    Do(New(HereOf(cx)), DoIf(j.want.remote, New(RemoteCx), DoIf(j.want.remote, Inc, go)))
  }

  function LoopbackStaged(j: Job, cx: Cx): Prog {
    Local(j.kindD, Host, DstBuf, Stage(AtSource), Do(Delete(Bounce(AtSource)), LoopbackDone(j, cx)))
  }

  function LoopbackDone(j: Job, cx: Cx): Prog {
    FireSource(cx, FireOp(cx, j.me, Do(Delete(HereOf(cx)),
      if j.want.remote then Do(Dec, HandRemote(j.me, Halt)) else Halt)))
  }

  // ----- native put turned into a get, lines 408-467 -----

  predicate GetMustAck(j: Job) { j.want.op || (j.heapS != PRIVATE_HEAP && j.want.source) }

  function PutAsGet(j: Job): Prog
    requires j.rankS == j.me && j.rankD != j.me && j.heapD != PRIVATE_HEAP && j.want.remote && !j.want.op
  {
    var send := Send(j.rankD, if GetMustAck(j) then ALL else BUT_HERE, PutAsGetTarget(j),
                     DoIf(!GetMustAck(j), Delete(HereCx), Halt));
    Do(New(HereCx),
      if j.heapS == PRIVATE_HEAP then
        Do(New(Bounce(AtSource)), Do(Move(Stage(AtSource), SrcBuf), FireSource(Outer, send)))
      else send)
  }

  function PutAsGetTarget(j: Job): Prog {
    DoIf(j.want.remote, New(RemoteCx),
      Start(ALL, DstBuf, if j.heapS == PRIVATE_HEAP then Stage(AtSource) else SrcBuf, PutAsGetDone(j), Halt))
  }

  function PutAsGetDone(j: Job): Prog {
    var back := if j.want.op || GetMustAck(j) then Send(j.rankS, ALL, PutAsGetAck(j), Halt)
                else if j.heapS == PRIVATE_HEAP then Send(j.rankS, ALL, Do(Delete(Bounce(AtSource)), Halt), Halt)
                else Halt;
    if j.want.remote then HandRemote(j.rankD, back) else back
  }

  function PutAsGetAck(j: Job): Prog {
    var tail := FireOp(Outer, j.rankS, Do(Delete(HereCx), Halt));
    if j.heapS == PRIVATE_HEAP then Do(Delete(Bounce(AtSource)), tail) else FireSource(Outer, tail)
  }

  // ----- native transfer, lines 468-509 -----

  function Native(j: Job, cx: Cx): Prog {
    var go := Start(ALL, DstBuf, SrcBuf, NativeDone(j, cx), Halt);
    Do(New(HereOf(cx)),
      if j.want.remote then Do(New(if j.rankD == j.me then RemoteCx else AmBuf), Do(Inc, go)) else go)
  }

  function NativeDone(j: Job, cx: Cx): Prog {
    FireSource(cx, FireOp(cx, j.me, Do(Delete(HereOf(cx)),
      if !j.want.remote then Halt
      else Do(Dec, if j.rankD == j.me then HandRemote(j.me, Halt)
                   else Do(Use(AmBuf), Send(j.rankD, {Owe(RemoteNote)}, Do(RunRemote, Halt),
                                            Do(Delete(AmBuf), Halt)))))))
  }

  // ----- reference get, lines 511-588 -----

  function LandingD(j: Job): Loc { if j.heapD == HOST_HEAP then DstBuf else Stage(AtDest) }

  function RefGet(j: Job, cx: Cx): Prog
    requires j.rankD == j.me && j.rankS != j.me && j.heapS != PRIVATE_HEAP
  {
    Do(New(HereOf(cx)), DoIf(j.want.remote, New(RemoteCx), DoIf(j.heapD != HOST_HEAP, New(Bounce(AtDest)),
      DoIf(j.want.remote, Inc, Send(j.rankS, ALL, RefGetSource(j, cx), Halt)))))
  }

  function RefGetSource(j: Job, cx: Cx): Prog {
    if j.heapS == HOST_HEAP then RefGetPut(j, cx, SrcBuf)
    else Do(New(Bounce(AtSource)), Local(Host, j.kindS, Stage(AtSource), SrcBuf, RefGetPut(j, cx, Stage(AtSource))))
  }

  function RefGetPut(j: Job, cx: Cx, from: Loc): Prog {
    Start(ALL, LandingD(j), from,
      DoIf(j.heapS != HOST_HEAP, Delete(Bounce(AtSource)), Send(j.rankD, ALL, RefGetArrived(j, cx), Halt)), Halt)
  }

  function RefGetArrived(j: Job, cx: Cx): Prog {
    FireSource(cx,
      if j.heapD == HOST_HEAP then RefGetDone(j, cx)
      else Local(j.kindD, Host, DstBuf, Stage(AtDest), RefGetDone(j, cx)))
  }

  function RefGetDone(j: Job, cx: Cx): Prog {
    var tail := FireOp(cx, j.me, Do(Delete(HereOf(cx)), Halt));
    DoIf(j.heapD != HOST_HEAP, Delete(Bounce(AtDest)), if j.want.remote then Do(Dec, HandRemote(j.me, tail)) else tail)
  }

  // ----- reference put, lines 590-686 -----

  predicate PutMustAck(j: Job) { j.want.op || (j.want.source && j.heapS == HOST_HEAP) }

  function RefPut(j: Job): Prog
    requires j.rankS == j.me && j.rankD != j.me && j.heapD != PRIVATE_HEAP
  {
    var tail := DoIf(!PutMustAck(j), Delete(HereCx), Halt);
    Do(New(HereCx),
      if j.heapS == HOST_HEAP then Do(New(AmBuf), RefPutSend(j, SrcBuf, tail))
      else Do(New(Bounce(AtSource)), Do(New(AmBuf),
        if j.kindS == Host then Do(Move(Stage(AtSource), SrcBuf), RefPutSend(j, Stage(AtSource), tail))
        else Start(PutGives(j), Stage(AtSource), SrcBuf, RefPutSend(j, Stage(AtSource), Halt), tail))))
  }

  /** With no acknowledgement to come, the initiator keeps the completion state and deletes it. */
  function PutGives(j: Job): set<Res> { if PutMustAck(j) then ALL else BUT_HERE }

  function RefPutSend(j: Job, from: Loc, rest: Prog): Prog {
    DoIf(j.want.source && j.heapS != HOST_HEAP, Call(SourceNote),
      Do(Use(AmBuf), Send(j.rankD, PutGives(j) - {Own(AmBuf)}, RefPutTarget(j, from), Do(Delete(AmBuf), rest))))
  }

  function RefPutTarget(j: Job, from: Loc): Prog {
    DoIf(j.heapD != HOST_HEAP, New(Bounce(AtDest)), DoIf(j.want.remote, New(RemoteCx),
      Start(ALL, LandingD(j), from, RefPutGot(j), Halt)))
  }

  function RefPutGot(j: Job): Prog {
    if j.heapD == HOST_HEAP then RefPutLanded(j) else Local(j.kindD, Host, DstBuf, Stage(AtDest), RefPutLanded(j))
  }

  function RefPutLanded(j: Job): Prog {
    var back := if PutMustAck(j) then Send(j.rankS, ALL, RefPutAck(j), Halt)
                else if j.heapS != HOST_HEAP then Send(j.rankS, ALL, Do(Delete(Bounce(AtSource)), Halt), Halt)
                else Halt;
    DoIf(j.heapD != HOST_HEAP, Delete(Bounce(AtDest)), if j.want.remote then HandRemote(j.rankD, back) else back)
  }

  function RefPutAck(j: Job): Prog {
    var tail := FireOp(Outer, j.rankS, Do(Delete(HereCx), Halt));
    if j.heapS != HOST_HEAP then Do(Delete(Bounce(AtSource)), tail) else FireSource(Outer, tail)
  }

  // ----- third party, lines 161-229 -----

  predicate InitEvent(j: Job) { j.want.op || j.want.source }

  /** A copy between two host segments is a plain get at the target. */
  predicate HostOnly(j: Job) { j.kindS == Host && j.kindD == Host }

  /** The copy the target starts on its own behalf. */
  function Forwarded(j: Job): Job { j.(me := j.rankD, want := Want(false, true, false)) }

  function ThirdParty(j: Job): Prog
    requires WellPosed(j) && j.me != j.rankD && j.me != j.rankS
  {
    Do(New(HereCx), Send(j.rankD, if InitEvent(j) then ALL else BUT_HERE, ThirdPartyTarget(j),
                         DoIf(!InitEvent(j), Delete(HereCx), Halt)))
  }

  function ThirdPartyTarget(j: Job): Prog
    requires WellPosed(j) && j.me != j.rankD && j.me != j.rankS
  {
    DoIf(j.want.remote, New(RemoteCx),
      if HostOnly(j) then Start(ALL, DstBuf, SrcBuf, ThirdPartyThen(j), Halt)
      else AtEnd(Forwarded(j), Inner(ThirdPartyThen(j))))
  }

  function ThirdPartyThen(j: Job): Prog {
    var back := if InitEvent(j) then Send(j.me, ALL, ThirdPartyAck(j), Halt) else Halt;
    if j.want.remote then HandRemote(j.rankD, back) else back
  }

  function ThirdPartyAck(j: Job): Prog {
    FireSource(Outer, FireOp(Outer, j.me, Do(Delete(HereCx), Halt)))
  }

  // ----- copy_general, lines 318-689 -----

  /** The case distinction for an initiator that holds one end. */
  function AtEnd(j: Job, cx: Cx): Prog
    requires WellPosed(j) && (j.me == j.rankD || j.me == j.rankS)
    requires cx.Inner? ==> j.me == j.rankD && j.want == Want(false, true, false)
  {
    if j.rankD == j.rankS then Loopback(j, cx)
    else if j.mk && j.rankS == j.me && j.want.remote && !j.want.op then PutAsGet(j)
    else if j.mk then Native(j, cx)
    else if j.rankD == j.me then RefGet(j, cx)
    else RefPut(j)
  }

  function General(j: Job): Prog
    requires WellPosed(j)
  {
    if j.me != j.rankD && j.me != j.rankS then ThirdParty(j) else AtEnd(j, Outer)
  }

  // ----- copy_as_rget, lines 245-314 -----

  /** Host to host into own memory; shared says that the source is in shared memory of this node. */
  function AsGet(j: Job, shared: bool): Prog {
    if shared then
      Do(Move(DstBuf, SrcBuf), Do(New(HereCx), FireSource(Outer, FireOp(Outer, j.me,
        if j.want.remote then Do(New(RemoteCx), HandRemote(j.me, Do(Delete(HereCx), Halt)))
        else Do(Delete(HereCx), Halt)))))
    else
      Do(New(HereCx), DoIf(j.want.remote, New(RemoteCx), DoIf(j.want.remote, Inc,
        Start(ALL, DstBuf, SrcBuf, LoopbackDone(j, Outer), Halt))))
  }
}
