/**
 The machine on which the continuations of upcxx::copy run. A lambda of the source becomes a
 program; an active message or a queued callback becomes a task on some rank; a device or RMA
 transfer moves its bytes one by one, in any order, and resumes its continuation when all of
 them have moved. Tasks, transfers and a user who reuses buffers as soon as a completion lets
 him interleave arbitrarily.
 */
module CopyMachine {
  type Rank = int

  /** Buffers: the user's two, and the two bounce buffers a copy may stage through. */
  datatype Side = AtSource | AtDest
  datatype Loc = SrcBuf | DstBuf | Stage(at: Side)

  /** Heap objects: the completion states, the deserialized remote completion, a prepared message, bounce buffers. */
  datatype Obj = HereCx | InnerCx | RemoteCx | AmBuf | Bounce(at: Side)

  /** Completions that are delivered: those of the caller, and the internal future of a forwarded copy. */
  datatype Note = SourceNote | OpNote | RemoteNote | InnerNote

  datatype Act =
    | New(o: Obj)
    | Use(o: Obj)
    | Delete(o: Obj)
    | Call(n: Note)
    | RunRemote
    | Inc
    | Dec
    | Move(d: Loc, s: Loc)

  /** What a task may own. */
  datatype Res = Owe(n: Note) | ReadSrc | WriteDst | Own(o: Obj) | Charge

  /**
   A continuation. Start begins an asynchronous transfer whose callback is next; Send posts body to a
   rank. give names what the callback or message takes along; it plays no part in how programs run.
   */
  datatype Prog =
    | Halt
    | Do(a: Act, rest: Prog)
    | Start(give: set<Res>, d: Loc, s: Loc, next: Prog, rest: Prog)
    | Send(to: Rank, give: set<Res>, body: Prog, rest: Prog)

  /** Memory kinds. */
  datatype Kind = Host | Device(id: nat)

  /**
   What a copy is asked to do and where things belong: the completions requested, the rank of each resource, the kind of
   memory behind each buffer, which kinds the network reaches, which buffers other ranks may access, and whether the
   remote completion counts as undischarged while bytes move.
   */
  datatype Terms = Terms(wants: set<Note>, home: Res -> Rank, kind: Loc -> Kind, native: Kind -> bool,
                         open: Loc -> bool,
                         charged: bool)

  function PlaceOf(t: Terms, l: Loc): Rank {
    t.home(match l case SrcBuf => ReadSrc case DstBuf => WriteDst case Stage(b) => Own(Bounce(b)))
  }

  /** Rank r may move bytes from s to d: within its own memory, from it or into it. */
  predicate Reaches(t: Terms, r: Rank, d: Loc, s: Loc) {
    if PlaceOf(t, d) == PlaceOf(t, s) then
      PlaceOf(t, d) == r && (t.kind(d) == t.kind(s) || t.kind(d) == Host || t.kind(s) == Host)
    else
      && t.native(t.kind(d)) && t.native(t.kind(s))
      && ((PlaceOf(t, d) == r && t.open(s)) || (PlaceOf(t, s) == r && t.open(d)))
  }

  // ----- the shared state -----

  type Bytes = seq<int>

  datatype ObjState = Unborn | Alive(rank: Rank) | Dead

  datatype Shared = Shared(
    mem: Loc -> Bytes,
    objs: Obj -> ObjState,
    fired: Note -> int,
    firedOn: Note -> Rank,
    undischarged: int,
    read: bool,
    landed: bool)

  /** What is copied, on what terms, and undischarged_n_ at the start. */
  datatype World = World(data: Bytes, terms: Terms, undischarged0: int)

  predicate Told(m: Shared) { m.fired(OpNote) > 0 || m.fired(RemoteNote) > 0 }

  /** The user may reuse the source after source, operation or remote completion, the destination after the last two. */
  predicate UserMayWrite(m: Shared, l: Loc) {
    match l
    case SrcBuf => m.fired(SourceNote) > 0 || Told(m)
    case DstBuf => Told(m)
    case Stage(b) => !m.objs(Bounce(b)).Alive?
  }

  function Poke(m: Shared, l: Loc, v: Bytes): Shared { m.(mem := x => if x == l then v else m.mem(x)) }

  function SetObj(m: Shared, o: Obj, st: ObjState): Shared { m.(objs := x => if x == o then st else m.objs(x)) }

  function Deliver(w: World, m: Shared, n: Note, r: Rank): Shared {
    if n in w.terms.wants then
      m.(fired := x => if x == n then m.fired(x) + 1 else m.fired(x),
         firedOn := x => if x == n then r else m.firedOn(x))
    else m
  }

  /** A transfer from s to d is complete. */
  function Moved(m: Shared, d: Loc, s: Loc): Shared {
    m.(read := m.read || s == SrcBuf, landed := m.landed || d == DstBuf)
  }

  function Perform(w: World, m: Shared, a: Act, r: Rank): Shared {
    match a
    case New(o) => SetObj(m, o, Alive(r))
    case Use(o) => m
    case Delete(o) => SetObj(m, o, Dead)
    case Call(n) => Deliver(w, m, n, r)
    case RunRemote => Deliver(w, m, RemoteNote, r)
    case Inc => m.(undischarged := m.undischarged + 1)
    case Dec => m.(undischarged := m.undischarged - 1)
    case Move(d, s) => Moved(Poke(m, d, m.mem(s)), d, s)
  }

  // ----- tasks and steps -----

  datatype Progress = Ready | Moving(d: Loc, s: Loc, copied: set<nat>)

  datatype Task = Task(rank: Rank, prog: Prog, progress: Progress, perm: Perm)

  datatype State = State(m: Shared, tasks: seq<Task>)

  datatype Choice = Run(i: nat) | Byte(i: nat, k: nat) | Complete(i: nat) | Scribble(l: Loc, v: Bytes)

  predicate Enabled(w: World, s: State, c: Choice) {
    match c
    case Run(i) => i < |s.tasks| && s.tasks[i].progress.Ready? && s.tasks[i].prog != Halt
    case Byte(i, k) =>
      i < |s.tasks| && s.tasks[i].progress.Moving? && k < |w.data| && k !in s.tasks[i].progress.copied
    case Complete(i) =>
      i < |s.tasks| && s.tasks[i].progress.Moving? && forall k: nat :: k < |w.data| ==> k in s.tasks[i].progress.copied
    case Scribble(l, v) => UserMayWrite(s.m, l) && |v| == |w.data|
  }

  function RunTask(w: World, s: State, i: nat): State
    requires i < |s.tasks|
  {
    var t := s.tasks[i];
    match t.prog
    case Halt => s
    case Do(a, rest) =>
      State(Perform(w, s.m, a, t.rank), s.tasks[i := t.(prog := rest, perm := After(w.terms, a, t.rank, t.perm))])
    case Start(give, d, src, next, rest) =>
      State(s.m, s.tasks[i := t.(prog := rest, perm := Minus(t.perm, give))]
                 + [Task(t.rank, next, Moving(d, src, {}), Only(t.perm, give))])
    case Send(to, give, body, rest) =>
      State(s.m, s.tasks[i := t.(prog := rest, perm := Minus(t.perm, give))]
            + [Task(to, body, Ready, Only(t.perm, give))])
  }

  function CopyByte(w: World, m: Shared, d: Loc, s: Loc, k: nat): Shared {
    if k < |m.mem(d)| && k < |m.mem(s)| then Poke(m, d, m.mem(d)[k := m.mem(s)[k]]) else m
  }

  function Step(w: World, s: State, c: Choice): State
    requires Enabled(w, s, c)
  {
    match c
    case Run(i) => RunTask(w, s, i)
    case Byte(i, k) =>
      var t := s.tasks[i];
      State(CopyByte(w, s.m, t.progress.d, t.progress.s, k),
            s.tasks[i := t.(progress := t.progress.(copied := t.progress.copied + {k}))])
    case Complete(i) =>
      var t := s.tasks[i];
      State(Moved(s.m, t.progress.d, t.progress.s),
            s.tasks[i := t.(progress := Ready, perm := AfterMove(t.progress.d, t.progress.s, t.perm))])
    case Scribble(l, v) => s.(m := Poke(s.m, l, v))
  }

  /** The choices can be taken one after the other. */
  ghost predicate Possible(w: World, s: State, cs: seq<Choice>)
    decreases cs
  {
    cs == [] || (Enabled(w, s, cs[0]) && Possible(w, Step(w, s, cs[0]), cs[1..]))
  }

  ghost function Reached(w: World, s: State, cs: seq<Choice>): State
    requires Possible(w, s, cs)
    decreases cs
  {
    if cs == [] then s else Reached(w, Step(w, s, cs[0]), cs[1..])
  }

  predicate Quiescent(s: State) {
    forall i :: 0 <= i < |s.tasks| ==> s.tasks[i].progress.Ready? && s.tasks[i].prog == Halt
  }

  // ----- what must hold -----

  /** An action touches only live objects, on the rank they belong to, and creates an object only once. */
  predicate Legal(m: Shared, a: Act, r: Rank) {
    match a
    case New(o) => m.objs(o) == Unborn
    case Use(o) => m.objs(o) == Alive(r)
    case Delete(o) => m.objs(o) == Alive(r)
    case Call(n) => m.objs(if n == InnerNote then InnerCx else HereCx) == Alive(r)
    case RunRemote => true
    case Inc => true
    case Dec => true
    case Move(d, s) => Usable(m, d) && Usable(m, s)
  }

  /** A bounce buffer that is allocated, a source not yet read, a destination not yet written. */
  predicate Usable(m: Shared, l: Loc) {
    match l
    case SrcBuf => !m.read
    case DstBuf => !m.landed
    case Stage(b) => m.objs(Bounce(b)).Alive?
  }

  ghost predicate TaskLegal(m: Shared, t: Task) {
    match t.progress
    case Ready => t.prog.Do? ==> Legal(m, t.prog.a, t.rank)
    case Moving(d, s, copied) => Usable(m, d) && Usable(m, s)
  }

  /**
   Requested completions are delivered at most once, on the rank they belong to; source completion only after the source
   has been read; operation and remote completion only after the destination was written; the destination holds the
   source bytes from then on until the user is told; nothing touches an object that is not alive, and objects live on
   the rank they belong to; bytes are moved by a rank that can reach both ends, while the remote completion is counted.
   */
  ghost predicate Safe(w: World, s: State) {
    && (forall n :: s.m.fired(n) <= 1)
    && (forall n :: s.m.fired(n) > 0 ==> n in w.terms.wants && s.m.firedOn(n) == w.terms.home(Owe(n)))
    && (forall o :: s.m.objs(o).Alive? ==> s.m.objs(o).rank == w.terms.home(Own(o)))
    && (s.m.fired(SourceNote) > 0 || Told(s.m) ==> s.m.read)
    && (Told(s.m) ==> s.m.landed)
    && (s.m.landed && !Told(s.m) ==> s.m.mem(DstBuf) == w.data)
    && (!s.m.read ==> s.m.mem(SrcBuf) == w.data)
    && (forall i :: 0 <= i < |s.tasks| ==> TaskLegal(s.m, s.tasks[i]) && TaskReaches(w, s.m, s.tasks[i]))
    && (s.m.undischarged == w.undischarged0 || (w.terms.charged && s.m.undischarged == w.undischarged0 + 1))
  }

  /** What moves bytes can reach them, and for the time being a remote completion to come keeps the count up. */
  predicate TaskReaches(w: World, m: Shared, t: Task) {
    match t.progress
    case Ready =>
      t.prog.Do? && t.prog.a.Move? ==>
        && Reaches(w.terms, t.rank, t.prog.a.d, t.prog.a.s)
          && w.terms.kind(t.prog.a.d) == w.terms.kind(t.prog.a.s) == Host
        && (w.terms.charged ==> m.undischarged == w.undischarged0 + 1)
    case Moving(d, s, _) =>
      Reaches(w.terms, t.rank, d, s) && (w.terms.charged ==> m.undischarged == w.undischarged0 + 1)
  }

  /** Everything requested was delivered once, every object is gone, and undischarged_n_ is back. */
  ghost predicate Finished(w: World, s: State) {
    && (forall n :: s.m.fired(n) == if n in w.terms.wants then 1 else 0)
    && (forall o :: !s.m.objs(o).Alive?)
    && s.m.undischarged == w.undischarged0
    && s.m.read && s.m.landed
  }

  // ----- permissions -----

  datatype Status = No | Fresh | Live(rank: Rank) | Full(rank: Rank)

  /** How a task stands to each resource: No when it does not own it. */
  datatype Perm = Perm(
    src: Status, dst: Status, oweSource: Status, oweOp: Status, oweRemote: Status, oweInner: Status,
    here: Status, inner: Status, remote: Status, am: Status, bounceS: Status, bounceD: Status, charge: Status)

  function Get(p: Perm, x: Res): Status {
    match x
    case ReadSrc => p.src
    case WriteDst => p.dst
    case Owe(SourceNote) => p.oweSource
    case Owe(OpNote) => p.oweOp
    case Owe(RemoteNote) => p.oweRemote
    case Owe(InnerNote) => p.oweInner
    case Own(HereCx) => p.here
    case Own(InnerCx) => p.inner
    case Own(RemoteCx) => p.remote
    case Own(AmBuf) => p.am
    case Own(Bounce(AtSource)) => p.bounceS
    case Own(Bounce(AtDest)) => p.bounceD
    case Charge => p.charge
  }

  function Put(p: Perm, x: Res, st: Status): (p': Perm)
    ensures forall y :: Get(p', y) == if y == x then st else Get(p, y)
  {
    match x
    case ReadSrc => p.(src := st)
    case WriteDst => p.(dst := st)
    case Owe(SourceNote) => p.(oweSource := st)
    case Owe(OpNote) => p.(oweOp := st)
    case Owe(RemoteNote) => p.(oweRemote := st)
    case Owe(InnerNote) => p.(oweInner := st)
    case Own(HereCx) => p.(here := st)
    case Own(InnerCx) => p.(inner := st)
    case Own(RemoteCx) => p.(remote := st)
    case Own(AmBuf) => p.(am := st)
    case Own(Bounce(AtSource)) => p.(bounceS := st)
    case Own(Bounce(AtDest)) => p.(bounceD := st)
    case Charge => p.(charge := st)
  }

  function Inside(p: Perm, x: Res, give: set<Res>): Status { if x in give then Get(p, x) else No }

  function Outside(p: Perm, x: Res, give: set<Res>): Status { if x in give then No else Get(p, x) }

  /** The permissions named in give. */
  function Only(p: Perm, give: set<Res>): (p': Perm)
    ensures forall y :: Get(p', y) == Inside(p, y, give)
  {
    Perm(Inside(p, ReadSrc, give), Inside(p, WriteDst, give), Inside(p, Owe(SourceNote), give),
         Inside(p, Owe(OpNote), give), Inside(p, Owe(RemoteNote), give), Inside(p, Owe(InnerNote), give),
         Inside(p, Own(HereCx), give), Inside(p, Own(InnerCx), give), Inside(p, Own(RemoteCx), give),
         Inside(p, Own(AmBuf), give), Inside(p, Own(Bounce(AtSource)), give), Inside(p, Own(Bounce(AtDest)), give),
         Inside(p, Charge, give))
  }

  /** The permissions not named in give. */
  function Minus(p: Perm, give: set<Res>): (p': Perm)
    ensures forall y :: Get(p', y) == Outside(p, y, give)
  {
    Perm(Outside(p, ReadSrc, give), Outside(p, WriteDst, give), Outside(p, Owe(SourceNote), give),
         Outside(p, Owe(OpNote), give), Outside(p, Owe(RemoteNote), give), Outside(p, Owe(InnerNote), give),
         Outside(p, Own(HereCx), give), Outside(p, Own(InnerCx), give), Outside(p, Own(RemoteCx), give),
         Outside(p, Own(AmBuf), give), Outside(p, Own(Bounce(AtSource)), give), Outside(p, Own(Bounce(AtDest)), give),
         Outside(p, Charge, give))
  }

  function After(terms: Terms, a: Act, r: Rank, p: Perm): Perm {
    match a
    case New(o) => Put(p, Own(o), Live(r))
    case Use(o) => p
    case Delete(o) => Put(p, Own(o), No)
    case Call(n) => if n in terms.wants then Put(p, Owe(n), No) else p
    case RunRemote => Put(p, Owe(RemoteNote), No)
    case Inc => Put(p, Charge, Live(r))
    case Dec => Put(p, Charge, No)
    case Move(d, s) => AfterMove(d, s, p)
  }

  function AfterMove(d: Loc, s: Loc, p: Perm): Perm {
    var p1 := if s == SrcBuf then Put(p, ReadSrc, No) else p;
    match d
    case SrcBuf => p1
    case DstBuf => Put(p1, WriteDst, No)
    case Stage(b) => if Get(p, Own(Bounce(b))).Live? then Put(p1, Own(Bounce(b)), Full(Get(p, Own(Bounce(b))).rank))
      else p1
  }
}
