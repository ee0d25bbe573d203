/**
 The three public upcxx::copy functions as dispatchers (src/copy.hpp:695-877): each picks a path whose
 assertions hold, so that the guarantees of CopyTheorems apply to whatever a user can call.
 */
module CopyEntry {
  import opened CopyMachine
  import opened CopyPaths
  import opened CopyTheorems

  datatype GPtr = GPtr(rank: Rank, heap: int, kind: Kind)

  /** A global pointer never points into private memory. */
  predicate ValidPtr(p: GPtr) { p.heap >= 0 && (p.kind == Host <==> p.heap == HOST_HEAP) }

  /** The calling process: which ranks share its memory, which kinds the network handles natively. */
  datatype Process = Process(me: Rank, isLocal: Rank -> bool, native: Kind -> bool)

  predicate ValidProcess(e: Process) { e.isLocal(e.me) && e.native(Host) }

  /** globalize_memory: the rank whose shared segment holds a local address, if any. */
  datatype Owner = Unshared | Segment(rank: Rank)

  datatype Route = AsRput | AsRget(j: Job, shared: bool) | AsThirdParty(j: Job) | AsGeneral(j: Job)

  function Mk(e: Process, ks: Kind, kd: Kind): bool { e.native(kd) && e.native(ks) }

  /** copy(global_ptr src, T *dest). */
  function FromGlobal(e: Process, src: GPtr, dest: Owner, want: Want): Route {
    if src.kind == Host then
      AsRget(Job(e.me, src.rank, HOST_HEAP, Host, e.me, PRIVATE_HEAP, Host, true, want), e.isLocal(src.rank))
    else
      var heapD := if src.rank != e.me && dest == Segment(e.me) then HOST_HEAP else PRIVATE_HEAP;
      AsGeneral(Job(e.me, src.rank, src.heap, src.kind, e.me, heapD, Host, Mk(e, src.kind, Host), want))
  }

  /** copy(T const *src, global_ptr dest). */
  function ToGlobal(e: Process, src: Owner, dest: GPtr, want: Want): Route {
    if dest.kind == Host then AsRput
    else
      var shift := dest.rank != e.me && src.Segment?;
      var self := shift && src.rank == e.me;
      var peer := shift && src.rank != e.me && e.native(dest.kind);
      AsGeneral(Job(e.me, if peer then src.rank else e.me, if self || peer then HOST_HEAP else PRIVATE_HEAP, Host,
                    dest.rank, dest.heap, dest.kind, Mk(e, Host, dest.kind), want))
  }

  /** copy(global_ptr src, global_ptr dest). */
  function BetweenGlobals(e: Process, src: GPtr, dest: GPtr, want: Want): Route {
    if src.kind == Host && dest.kind == Host then
      if e.isLocal(src.rank) then AsRput
      else if (!want.remote && e.isLocal(dest.rank)) || (want.remote && dest.rank == e.me) then
        AsRget(Job(e.me, src.rank, HOST_HEAP, Host, e.me, HOST_HEAP, Host, true, want), e.isLocal(src.rank))
      else
        AsThirdParty(Job(e.me, src.rank, src.heap, src.kind, dest.rank, dest.heap, dest.kind, true, want))
    else
      AsGeneral(Job(e.me, src.rank, src.heap, src.kind, dest.rank, dest.heap, dest.kind, Mk(e, src.kind, dest.kind),
                    want))
  }

  /** What the chosen function asserts of its arguments. */
  predicate Admitted(r: Route) {
    match r
    case AsRput => true
    case AsRget(j, shared) => j.me == j.rankD && HostOnly(j) && j.heapS == HOST_HEAP
    case AsThirdParty(j) => WellPosed(j) && HostOnly(j) && j.me != j.rankD && j.me != j.rankS && j.heapS == HOST_HEAP
      && j.heapD == HOST_HEAP
    case AsGeneral(j) => WellPosed(j) && (j.heapS > 0 || j.heapD > 0) && !HostOnly(j)
  }

  lemma EntriesAdmitted(e: Process, src: GPtr, dest: GPtr, local: Owner, want: Want)
    requires ValidProcess(e) && ValidPtr(src) && ValidPtr(dest)
    ensures Admitted(FromGlobal(e, src, local, want)) && Admitted(ToGlobal(e, local, dest, want))
    ensures Admitted(BetweenGlobals(e, src, dest, want))
  {}

  /** A put from a raw host pointer, and a get into one, are never the excepted case. */
  lemma RawPointersNeverExcepted(e: Process, src: GPtr, dest: GPtr, local: Owner, want: Want)
    requires ValidProcess(e) && ValidPtr(src) && ValidPtr(dest)
    ensures var r := FromGlobal(e, src, local, want); r.AsGeneral? ==> !Excepted(r.j)
    ensures var r := ToGlobal(e, local, dest, want); r.AsGeneral? ==> !Excepted(r.j)
  {}

  function Program(r: Route): Prog
    requires Admitted(r)
  {
    match r
    case AsRput => Halt
    case AsRget(j, shared) => AsGet(j, shared)
    case AsThirdParty(j) => ThirdParty(j)
    case AsGeneral(j) => General(j)
  }

  predicate Counts(r: Route)
    requires !r.AsRput?
  {
    if r.AsRget? then r.j.want.remote && !r.shared else Charges(r.j)
  }

  /** A call of one of the three functions, with raw pointers by the segment that owns them. */
  datatype Entry =
    | Get(source: GPtr, to: Owner)
    | Put(from: Owner, target: GPtr)
    | Between(source: GPtr, target: GPtr)

  predicate ValidEntry(c: Entry) {
    match c
    case Get(src, _) => ValidPtr(src)
    case Put(_, dest) => ValidPtr(dest)
    case Between(src, dest) => ValidPtr(src) && ValidPtr(dest)
  }

  function RouteOf(e: Process, c: Entry, want: Want): Route {
    match c
    case Get(src, dest) => FromGlobal(e, src, dest, want)
    case Put(src, dest) => ToGlobal(e, src, dest, want)
    case Between(src, dest) => BetweenGlobals(e, src, dest, want)
  }

  predicate SourceIs(j: Job, p: GPtr) { j.rankS == p.rank && j.heapS == p.heap && j.kindS == p.kind }

  predicate TargetIs(j: Job, p: GPtr) { j.rankD == p.rank && j.heapD == p.heap && j.kindD == p.kind }

  /** A raw pointer into the segment of rank r is as good as a global pointer; any other is private to the caller. */
  predicate RawAt(rank: Rank, heap: int, shared: bool, r: Rank, me: Rank) {
    if shared then rank == r && heap == HOST_HEAP else rank == me && heap == PRIVATE_HEAP
  }

  /** A get: host memory by rget, anything else into the caller's own memory. */
  ghost predicate GetEnds(e: Process, src: GPtr, to: Owner, r: Route) {
    && (r.AsRget? <==> src.kind == Host) && (r.AsGeneral? <==> src.kind != Host)
    && SourceIs(r.j, src) && r.j.rankD == e.me && r.j.kindD == Host
    && (r.AsRget? ==> (r.shared <==> e.isLocal(src.rank)))
    && (r.AsGeneral? ==> RawAt(r.j.rankD, r.j.heapD, to == Segment(e.me) && src.rank != e.me, e.me, e.me))
  }

  /** A put: to host memory by rput; to a device from where the bytes are, in shared memory if that helps. */
  ghost predicate PutEnds(e: Process, from: Owner, target: GPtr, r: Route) {
    && (r.AsRput? <==> target.kind == Host) && (r.AsGeneral? <==> target.kind != Host)
    && (r.AsGeneral? ==>
          && TargetIs(r.j, target) && r.j.kindS == Host
          && match from
             case Unshared => RawAt(r.j.rankS, r.j.heapS, false, e.me, e.me)
             case Segment(q) =>
               RawAt(r.j.rankS, r.j.heapS, target.rank != e.me && (q == e.me || e.native(target.kind)), q, e.me))
  }

  /**
   Between global pointers: host to host by rput from memory at hand, by rget into memory at hand, and otherwise by
   the target; anything else from exactly the one pointer to the other.
   */
  ghost predicate BetweenEnds(e: Process, src: GPtr, dest: GPtr, want: Want, r: Route) {
    && (r.AsGeneral? <==> src.kind != Host || dest.kind != Host)
    && (r.AsRput? <==> src.kind == Host && dest.kind == Host && e.isLocal(src.rank))
    && (r.AsRget? <==>
          && src.kind == Host && dest.kind == Host && !e.isLocal(src.rank)
          && e.isLocal(dest.rank) && (want.remote ==> dest.rank == e.me))
    && (!r.AsRput? ==> SourceIs(r.j, src))
    && (r.AsGeneral? || r.AsThirdParty? ==> TargetIs(r.j, dest))
    && (r.AsRget? ==> !r.shared && r.j.rankD == e.me && r.j.kindD == Host)
  }

  /**
   Whatever path is taken, it is the caller's copy between the two ends he named, with the completions he
   asked for.
   */
  lemma RouteEnds(e: Process, c: Entry, want: Want)
    requires ValidProcess(e) && ValidEntry(c)
    ensures var r := RouteOf(e, c, want);
            && (!r.AsRput? ==> r.j.me == e.me && r.j.want == want)
            && (r.AsGeneral? ==> (r.j.mk <==> e.native(r.j.kindS) && e.native(r.j.kindD)))
            && match c
               case Get(src, to) => GetEnds(e, src, to, r)
               case Put(from, target) => PutEnds(e, from, target, r)
               case Between(src, dest) => BetweenEnds(e, src, dest, want, r)
  {}

  lemma RouteAdmitted(e: Process, c: Entry, want: Want)
    requires ValidProcess(e) && ValidEntry(c)
    ensures Admitted(RouteOf(e, c, want))
    ensures !c.Between? && RouteOf(e, c, want).AsGeneral? ==> !Excepted(RouteOf(e, c, want).j)
  {
    var host := GPtr(e.me, HOST_HEAP, Host);
    match c
    case Get(src, dest) =>
      EntriesAdmitted(e, src, host, dest, want);
      RawPointersNeverExcepted(e, src, host, dest, want);
    case Put(src, dest) =>
      EntriesAdmitted(e, host, dest, src, want);
      RawPointersNeverExcepted(e, host, dest, src, want);
    case Between(src, dest) =>
      EntriesAdmitted(e, src, dest, Unshared, want);
  }

  /** The one kind of call that can fail: between two global pointers, as the excepted put. */
  predicate ExceptedEntry(e: Process, c: Entry, want: Want) {
    var r := RouteOf(e, c, want);
    c.Between? && r.AsGeneral? && Excepted(r.j)
  }

  /** Whatever function is called, on whatever pointers, every run is safe and complete, save for the excepted put. */
  lemma EveryEntryIsSafe(e: Process, c: Entry, want: Want, w: World, s: State, cs: seq<Choice>)
    requires ValidProcess(e) && ValidEntry(c) && !ExceptedEntry(e, c, want)
    requires var r := RouteOf(e, c, want);
             !r.AsRput? && Admitted(r) && Begins(w, r.j, Program(r), Counts(r), s) && Possible(w, s, cs)
    ensures Safe(w, Reached(w, s, cs))
    ensures Quiescent(Reached(w, s, cs)) ==> Finished(w, Reached(w, s, cs))
  {
    hide Safe, Finished, Quiescent, Possible, Begins, AsGet, ThirdParty, RouteOf;
    RouteAdmitted(e, c, want);
    match RouteOf(e, c, want)
    case AsRput =>
    case AsRget(j, shared) => AsGetIsSafe(w, j, shared, s, cs);
    case AsThirdParty(j) => CopyIsSafe(w, j, s, cs);
    case AsGeneral(j) => CopyIsSafe(w, j, s, cs);
  }

  ghost predicate EntrySafe(r: Route)
    requires Admitted(r) && !r.AsRput?
  {
    forall w: World, s: State, cs: seq<Choice> :: Begins(w, r.j, Program(r), Counts(r), s) && Possible(w, s, cs) ==>
      Safe(w, Reached(w, s, cs))
  }

  /** A call is safe in all its runs exactly when it is not the excepted put. */
  lemma EntrySafeExactlyWhen(e: Process, c: Entry, want: Want)
    requires ValidProcess(e) && ValidEntry(c) && !RouteOf(e, c, want).AsRput?
    ensures Admitted(RouteOf(e, c, want))
    ensures EntrySafe(RouteOf(e, c, want)) <==> !ExceptedEntry(e, c, want)
  {
    hide Safe, Possible, Begins, General, Reached;
    RouteAdmitted(e, c, want);
    var r := RouteOf(e, c, want);
    if ExceptedEntry(e, c, want) {
      SafeExactlyWhen(r.j);
      assert !AlwaysSafe(r.j);
    } else {
      forall w: World, s: State, cs: seq<Choice> | Begins(w, r.j, Program(r), Counts(r), s) && Possible(w, s, cs)
        ensures Safe(w, Reached(w, s, cs))
      {
        EveryEntryIsSafe(e, c, want, w, s, cs);
      }
    }
  }
}
