/**
 A check on programs under which every interleaving is safe. Each resource is owned by one task at
 a time: the duty to deliver a completion, the right to read the source or write the destination,
 each heap object, the undischarged count. A program passes when every action finds what it needs
 among what its task owns and nothing owed is left at the end.
 */
module CopySoundness {
  import opened CopyMachine

  /** What is known to have happened: the source was read, the destination written. */
  datatype Facts = Facts(read: bool, landed: bool)

  function Learned(f: Facts, d: Loc, s: Loc): Facts { Facts(f.read || s == SrcBuf, f.landed || d == DstBuf) }

  function CxOf(n: Note): Obj { if n == InnerNote then InnerCx else HereCx }

  predicate CanMove(d: Loc, s: Loc, p: Perm) {
    && (match d case SrcBuf => false case DstBuf => p.dst == Fresh case Stage(b) => Get(p, Own(Bounce(b))).Live?)
    && (match s case SrcBuf => p.src == Fresh case DstBuf => false case Stage(b) => Get(p, Own(Bounce(b))).Full?)
  }

  /** The remote completion counts as undischarged. */
  predicate Counted(terms: Terms, p: Perm) { terms.charged ==> p.charge.Live? }

  predicate CanDo(terms: Terms, a: Act, r: Rank, p: Perm, f: Facts) {
    match a
    case New(o) => Get(p, Own(o)) == Fresh && r == terms.home(Own(o))
    case Use(o) => Get(p, Own(o)) == Live(r)
    case Delete(o) => Get(p, Own(o)) == Live(r) || Get(p, Own(o)) == Full(r)
    case Call(n) =>
      && n != RemoteNote && Get(p, Own(CxOf(n))) == Live(r)
      && (n in terms.wants ==>
            Get(p, Owe(n)) == Fresh && f.read && (n == SourceNote || f.landed) && r == terms.home(Owe(n)))
    case RunRemote =>
      RemoteNote in terms.wants && p.oweRemote == Fresh && f.read && f.landed && r == terms.home(Owe(RemoteNote))
    case Inc => p.charge == Fresh && terms.charged && r == terms.home(Charge)
    case Dec => p.charge == Live(r)
    case Move(d, s) =>
      CanMove(d, s, p) && Reaches(terms, r, d, s) && terms.kind(d) == terms.kind(s) == Host && Counted(terms, p)
  }

  /** Nothing is owed and every object created is gone. */
  predicate Idle(p: Perm) {
    && p.src == No && p.dst == No && p.oweSource == No && p.oweOp == No && p.oweRemote == No && p.oweInner == No
    && Done(p.here) && Done(p.inner) && Done(p.remote) && Done(p.am) && Done(p.bounceS) && Done(p.bounceD)
      && Done(p.charge)
  }

  predicate Done(st: Status) { st == No || st == Fresh }

  ghost predicate Check(terms: Terms, p: Prog, r: Rank, q: Perm, f: Facts)
    decreases p
  {
    match p
    case Halt => Idle(q)
    case Do(a, rest) =>
      CanDo(terms, a, r, q, f)
      && Check(terms, rest, r, After(terms, a, r, q), if a.Move? then Learned(f, a.d, a.s) else f)
    case Start(give, d, s, next, rest) =>
      && CanMove(d, s, Only(q, give)) && Reaches(terms, r, d, s) && Counted(terms, Only(q, give))
      && Check(terms, next, r, AfterMove(d, s, Only(q, give)), Learned(f, d, s))
      && Check(terms, rest, r, Minus(q, give), f)
    case Send(to, give, body, rest) =>
      Check(terms, body, to, Only(q, give), f) && Check(terms, rest, r, Minus(q, give), f)
  }

  predicate Weaker(f: Facts, g: Facts) { (f.read ==> g.read) && (f.landed ==> g.landed) }

  lemma {:induction false} CheckMonotone(terms: Terms, p: Prog, r: Rank, q: Perm, f: Facts, g: Facts)
    requires Check(terms, p, r, q, f) && Weaker(f, g)
    ensures Check(terms, p, r, q, g)
    decreases p
  {
    match p
    case Halt =>
    case Do(a, rest) =>
      CheckMonotone(terms, rest, r, After(terms, a, r, q), if a.Move? then Learned(f, a.d, a.s) else f,
                    if a.Move? then Learned(g, a.d, a.s) else g);
    case Start(give, d, s, next, rest) =>
      CheckMonotone(terms, next, r, AfterMove(d, s, Only(q, give)), Learned(f, d, s), Learned(g, d, s));
      CheckMonotone(terms, rest, r, Minus(q, give), f, g);
    case Send(to, give, body, rest) =>
      CheckMonotone(terms, body, to, Only(q, give), f, g);
      CheckMonotone(terms, rest, r, Minus(q, give), f, g);
  }

  // ----- what owning a resource means -----

  ghost predicate Means(w: World, m: Shared, x: Res, st: Status) {
    st != No ==>
      match x
      case ReadSrc => st == Fresh && !m.read && m.mem(SrcBuf) == w.data
      case WriteDst => st == Fresh && !m.landed
      case Owe(n) => st == Fresh && n in w.terms.wants && m.fired(n) == 0
      case Own(o) =>
        (match st
         case Fresh => m.objs(o) == Unborn
         case Live(r) => m.objs(o) == Alive(r)
         case Full(r) => m.objs(o) == Alive(r) && o.Bounce? && m.mem(Stage(o.at)) == w.data
         case No => true)
      case Charge =>
        (match st
         case Fresh => m.undischarged == w.undischarged0
         case Live(r) => m.undischarged == w.undischarged0 + 1
         case Full(r) => false
         case No => true)
  }

  /** A resource nobody owns is used up, or was never there. */
  ghost predicate Settled(w: World, m: Shared, x: Res) {
    match x
    case ReadSrc => m.read
    case WriteDst => m.landed
    case Owe(n) => m.fired(n) == if n in w.terms.wants then 1 else 0
    case Own(o) => !m.objs(o).Alive?
    case Charge => m.undischarged == w.undischarged0
  }

  /** The part of the state that concerns a resource did not change. */
  ghost predicate Same(m: Shared, m': Shared, x: Res) {
    match x
    case ReadSrc => m'.read == m.read && m'.mem(SrcBuf) == m.mem(SrcBuf)
    case WriteDst => m'.landed == m.landed && m'.mem(DstBuf) == m.mem(DstBuf)
    case Owe(n) => m'.fired(n) == m.fired(n)
    case Own(o) => m'.objs(o) == m.objs(o) && (o.Bounce? ==> m'.mem(Stage(o.at)) == m.mem(Stage(o.at)))
    case Charge => m'.undischarged == m.undischarged
  }

  ghost predicate Owned(w: World, m: Shared, q: Perm) { forall x :: Means(w, m, x, Get(q, x)) }

  /** What holds of the shared state whatever is run. */
  ghost predicate Global(w: World, m: Shared) {
    && (forall l :: |m.mem(l)| == |w.data|)
    && (forall n :: 0 <= m.fired(n) <= 1)
    && (forall n :: m.fired(n) > 0 ==> n in w.terms.wants && m.firedOn(n) == w.terms.home(Owe(n)))
    && (forall o :: m.objs(o).Alive? ==> m.objs(o).rank == w.terms.home(Own(o)))
    && (m.undischarged == w.undischarged0 || (w.terms.charged && m.undischarged == w.undischarged0 + 1))
    && (m.fired(SourceNote) > 0 || Told(m) ==> m.read)
    && (Told(m) ==> m.landed)
    && (m.landed && !Told(m) ==> m.mem(DstBuf) == w.data)
    && (!m.read ==> m.mem(SrcBuf) == w.data)
  }

  function FactsOf(m: Shared): Facts { Facts(m.read, m.landed) }

  /** A task moved the state from m to m', and its permissions from q to q'. */
  ghost predicate Moves(w: World, m: Shared, q: Perm, m': Shared, q': Perm) {
    && Global(w, m') && Weaker(FactsOf(m), FactsOf(m'))
    && (forall x :: Get(q, x) == No ==> Same(m, m', x) && Get(q', x) == No)
    && (forall x :: Means(w, m', x, Get(q', x)))
    && (forall x :: Get(q, x) != No && Get(q', x) == No ==> Settled(w, m', x))
  }

  /** One action that passes the check does what its permissions say, and no more. */
  lemma ActSound(w: World, m: Shared, a: Act, r: Rank, q: Perm)
    requires Global(w, m) && Owned(w, m, q) && CanDo(w.terms, a, r, q, FactsOf(m))
    ensures Moves(w, m, q, Perform(w, m, a, r), After(w.terms, a, r, q))
    ensures Legal(m, a, r)
    ensures FactsOf(Perform(w, m, a, r)) == if a.Move? then Learned(FactsOf(m), a.d, a.s) else FactsOf(m)
  {
    hide Moves, Global, Owned;
    match a
    case New(o) => ObjSound(w, m, a, o, r, q);
    case Use(o) => ObjSound(w, m, a, o, r, q);
    case Delete(o) => ObjSound(w, m, a, o, r, q);
    case Call(n) => CallSound(w, m, n, r, q);
    case RunRemote => DeliverSound(w, m, RemoteNote, r, q);
    case Inc => ChargeSound(w, m, a, r, q);
    case Dec => ChargeSound(w, m, a, r, q);
    case Move(d, s) => CopySound(w, m, d, s, q);
  }

  lemma ObjSound(w: World, m: Shared, a: Act, o: Obj, r: Rank, q: Perm)
    requires Global(w, m) && Owned(w, m, q) && CanDo(w.terms, a, r, q, FactsOf(m)) && a in {New(o), Use(o), Delete(o)}
    ensures Moves(w, m, q, Perform(w, m, a, r), After(w.terms, a, r, q)) && Legal(m, a, r)
  {
    hide Put, Get;
    assert Means(w, m, Own(o), Get(q, Own(o)));
  }

  lemma CallSound(w: World, m: Shared, n: Note, r: Rank, q: Perm)
    requires Global(w, m) && Owned(w, m, q) && CanDo(w.terms, Call(n), r, q, FactsOf(m))
    ensures Moves(w, m, q, Perform(w, m, Call(n), r), After(w.terms, Call(n), r, q)) && Legal(m, Call(n), r)
  {
    hide Put, Get;
    assert Means(w, m, Own(CxOf(n)), Get(q, Own(CxOf(n))));
    if n in w.terms.wants { DeliverSound(w, m, n, r, q); }
  }

  lemma DeliverSound(w: World, m: Shared, n: Note, r: Rank, q: Perm)
    requires Global(w, m) && Owned(w, m, q) && n in w.terms.wants && Get(q, Owe(n)) == Fresh && m.read
    requires (n == SourceNote || m.landed) && r == w.terms.home(Owe(n))
    ensures Moves(w, m, q, Deliver(w, m, n, r), Put(q, Owe(n), No))
  {
    hide Put, Get;
    assert Means(w, m, Owe(n), Get(q, Owe(n)));
  }

  lemma ChargeSound(w: World, m: Shared, a: Act, r: Rank, q: Perm)
    requires Global(w, m) && Owned(w, m, q) && CanDo(w.terms, a, r, q, FactsOf(m)) && (a == Inc || a == Dec)
    ensures Moves(w, m, q, Perform(w, m, a, r), After(w.terms, a, r, q))
  {
    assert Means(w, m, Charge, Get(q, Charge));
  }

  lemma MoveBasics(w: World, m: Shared, d: Loc, s: Loc, q: Perm)
    requires Global(w, m) && Owned(w, m, q) && CanMove(d, s, q)
    ensures m.mem(s) == w.data && Usable(m, d) && Usable(m, s) && d != s && d != SrcBuf
    ensures d == DstBuf ==> !Told(m)
  {
    assert Means(w, m, ReadSrc, Get(q, ReadSrc)) && Means(w, m, WriteDst, Get(q, WriteDst));
    if d.Stage? { assert Means(w, m, Own(Bounce(d.at)), Get(q, Own(Bounce(d.at)))); }
    if s.Stage? { assert Means(w, m, Own(Bounce(s.at)), Get(q, Own(Bounce(s.at)))); }
  }

  lemma CopySound(w: World, m: Shared, d: Loc, s: Loc, q: Perm)
    requires Global(w, m) && Owned(w, m, q) && CanMove(d, s, q)
    ensures Moves(w, m, q, Moved(Poke(m, d, m.mem(s)), d, s), AfterMove(d, s, q))
    ensures Usable(m, d) && Usable(m, s)
  {
    MoveBasics(w, m, d, s, q);
    var m1 := Poke(m, d, m.mem(s));
    forall x
      ensures Means(w, m1, x, Get(q, x))
    {
      assert Means(w, m, x, Get(q, x));
    }
    FinishSound(w, m, m1, d, s, q);
  }

  ghost predicate OnlyAt(m: Shared, m1: Shared, d: Loc) {
    && m1.objs == m.objs && m1.fired == m.fired && m1.firedOn == m.firedOn && m1.undischarged == m.undischarged
      && m1.read == m.read
      && m1.landed == m.landed
    && forall l :: l != d ==> m1.mem(l) == m.mem(l)
  }

  /** The last byte has arrived. */
  lemma FinishSound(w: World, m: Shared, m1: Shared, d: Loc, s: Loc, q: Perm)
    requires Global(w, m) && Owned(w, m, q) && Owned(w, m1, q) && CanMove(d, s, q)
    requires OnlyAt(m, m1, d) && m1.mem(d) == w.data
    ensures Moves(w, m, q, Moved(m1, d, s), AfterMove(d, s, q))
  {
    MoveBasics(w, m, d, s, q);
  }

  // ----- the invariant of every run -----

  ghost predicate TaskOk(w: World, m: Shared, t: Task) {
    && Owned(w, m, t.perm)
    && match t.progress
       case Ready => Check(w.terms, t.prog, t.rank, t.perm, FactsOf(m))
       case Moving(d, s, copied) =>
         && CanMove(d, s, t.perm) && Reaches(w.terms, t.rank, d, s) && Counted(w.terms, t.perm)
         && Check(w.terms, t.prog, t.rank, AfterMove(d, s, t.perm), Learned(FactsOf(m), d, s))
         && forall k: nat :: k in copied && k < |w.data| && k < |m.mem(d)| ==> m.mem(d)[k] == w.data[k]
  }

  ghost predicate Apart(q: Perm, q': Perm) { forall x :: Get(q, x) == No || Get(q', x) == No }

  ghost predicate Held(ts: seq<Task>, x: Res) { exists i :: 0 <= i < |ts| && Get(ts[i].perm, x) != No }

  ghost predicate Inv(w: World, s: State) {
    && Global(w, s.m)
    && (forall i :: 0 <= i < |s.tasks| ==> TaskOk(w, s.m, s.tasks[i]))
    && (forall i, j :: 0 <= i < j < |s.tasks| ==> Apart(s.tasks[i].perm, s.tasks[j].perm))
    && (forall x :: Held(s.tasks, x) || Settled(w, s.m, x))
  }

  /** What one task does leaves the others in order. */
  lemma OtherTask(w: World, m: Shared, m': Shared, t: Task)
    requires Global(w, m) && TaskOk(w, m, t) && Weaker(FactsOf(m), FactsOf(m'))
    requires forall x :: Get(t.perm, x) != No ==> Same(m, m', x)
    ensures TaskOk(w, m', t)
  {
    hide Check;
    forall x
      ensures Means(w, m', x, Get(t.perm, x))
    {
      assert Means(w, m, x, Get(t.perm, x));
      if Get(t.perm, x) != No { assert Same(m, m', x); }
    }
    match t.progress
    case Ready => CheckMonotone(w.terms, t.prog, t.rank, t.perm, FactsOf(m), FactsOf(m'));
    case Moving(d, s, copied) =>
      CheckMonotone(w.terms, t.prog, t.rank, AfterMove(d, s, t.perm), Learned(FactsOf(m), d, s),
                    Learned(FactsOf(m'), d, s));
      match d {
        case SrcBuf =>
        case DstBuf => assert Get(t.perm, WriteDst) != No && Same(m, m', WriteDst);
        case Stage(b) => assert Get(t.perm, Own(Bounce(b))) != No && Same(m, m', Own(Bounce(b)));
      }
  }

  lemma Advance(w: World, s: State, i: nat, m': Shared, t': Task)
    requires Inv(w, s) && i < |s.tasks| && Moves(w, s.m, s.tasks[i].perm, m', t'.perm) && TaskOk(w, m', t')
    ensures Inv(w, State(m', s.tasks[i := t']))
  {
    hide TaskOk, Means, Settled, Same, Get;
    var q, ts := s.tasks[i].perm, s.tasks[i := t'];
    forall j | 0 <= j < |ts| && j != i
      ensures TaskOk(w, m', ts[j]) && Apart(t'.perm, ts[j].perm)
    {
      assert Apart(q, ts[j].perm) by {
        assert Apart(s.tasks[if i < j then i else j].perm, s.tasks[if i < j then j else i].perm);
      }
      OtherTask(w, s.m, m', ts[j]);
    }
    forall x
      ensures Held(ts, x) || Settled(w, m', x)
    {
      if Get(t'.perm, x) != No {
        assert Get(ts[i].perm, x) != No;
      } else if Get(q, x) == No {
        Unmoved(w, s, i, m', x);
        if Held(s.tasks, x) {
          var j :| 0 <= j < |s.tasks| && Get(s.tasks[j].perm, x) != No;
          assert Get(ts[j].perm, x) != No;
        }
      }
    }
    forall j, k | 0 <= j < k < |ts|
      ensures Apart(ts[j].perm, ts[k].perm)
    {
      if j != i && k != i { assert Apart(s.tasks[j].perm, s.tasks[k].perm); }
    }
  }

  lemma Unmoved(w: World, s: State, i: nat, m': Shared, x: Res)
    requires i < |s.tasks| && Same(s.m, m', x) && Global(w, s.m)
    requires Held(s.tasks, x) || Settled(w, s.m, x)
    ensures Held(s.tasks, x) || Settled(w, m', x)
  {}

  /** A message or a callback takes its share along. */
  lemma Forks(w: World, s: State, i: nat, give: set<Res>, t': Task, u: Task)
    requires Inv(w, s) && i < |s.tasks| && t'.perm == Minus(s.tasks[i].perm, give)
    requires u.perm == Only(s.tasks[i].perm, give)
    requires TaskOk(w, s.m, t') && TaskOk(w, s.m, u)
    ensures Inv(w, State(s.m, s.tasks[i := t'] + [u]))
  {
    hide TaskOk, Means, Settled, Get, Only, Minus;
    var q, ts := s.tasks[i].perm, s.tasks[i := t'] + [u];
    forall j | 0 <= j < |s.tasks| && j != i
      ensures Apart(t'.perm, s.tasks[j].perm) && Apart(u.perm, s.tasks[j].perm)
    {
      assert Apart(q, s.tasks[j].perm) by {
        assert Apart(s.tasks[if i < j then i else j].perm, s.tasks[if i < j then j else i].perm);
      }
    }
    forall x
      ensures Held(ts, x) || Settled(w, s.m, x)
    {
      if Held(s.tasks, x) {
        var j :| 0 <= j < |s.tasks| && Get(s.tasks[j].perm, x) != No;
        if j == i {
          assert Get(ts[i].perm, x) != No || Get(ts[|s.tasks|].perm, x) != No;
        } else {
          assert Get(ts[j].perm, x) != No;
        }
      }
    }
    forall j, k | 0 <= j < k < |ts|
      ensures Apart(ts[j].perm, ts[k].perm)
    {
      if j != i && k != i && k < |s.tasks| { assert Apart(s.tasks[j].perm, s.tasks[k].perm); }
    }
  }

  lemma SplitOwned(w: World, m: Shared, q: Perm, give: set<Res>)
    requires Owned(w, m, q)
    ensures Owned(w, m, Only(q, give)) && Owned(w, m, Minus(q, give))
  {
    hide Only, Minus, Get;
    forall x
      ensures Means(w, m, x, Get(Only(q, give), x)) && Means(w, m, x, Get(Minus(q, give), x))
    {
      assert Means(w, m, x, Get(q, x));
    }
  }

  lemma RunKeeps(w: World, s: State, i: nat)
    requires Inv(w, s) && Enabled(w, s, Run(i))
    ensures Inv(w, RunTask(w, s, i))
  {
    hide Owned, Global, Moves, Only, Minus, After, Perform, CanDo, AfterMove, CanMove, Apart, Settled;
    var t := s.tasks[i];
    assert TaskOk(w, s.m, t);
    match t.prog
    case Do(a, rest) =>
      ActSound(w, s.m, a, t.rank, t.perm);
      var m', t' := Perform(w, s.m, a, t.rank), t.(prog := rest, perm := After(w.terms, a, t.rank, t.perm));
      OwnedAfter(w, s.m, t.perm, m', t'.perm);
      Advance(w, s, i, m', t');
    case Start(give, d, src, next, rest) =>
      SplitOwned(w, s.m, t.perm, give);
      Forks(w, s, i, give, t.(prog := rest, perm := Minus(t.perm, give)),
            Task(t.rank, next, Moving(d, src, {}), Only(t.perm, give)));
    case Send(to, give, body, rest) =>
      SplitOwned(w, s.m, t.perm, give);
      Forks(w, s, i, give, t.(prog := rest, perm := Minus(t.perm, give)), Task(to, body, Ready, Only(t.perm, give)));
  }

  lemma OwnedAfter(w: World, m: Shared, q: Perm, m': Shared, q': Perm)
    requires Moves(w, m, q, m', q')
    ensures Owned(w, m', q') && Global(w, m')
  {}

  lemma ByteKeeps(w: World, s: State, i: nat, k: nat)
    requires Inv(w, s) && Enabled(w, s, Byte(i, k))
    ensures Inv(w, Step(w, s, Byte(i, k)))
  {
    hide Check, AfterMove, Inv, Apart, Settled;
    var t := s.tasks[i];
    InvTask(w, s, i);
    var d, src := t.progress.d, t.progress.s;
    MoveBasics(w, s.m, d, src, t.perm);
    var m' := CopyByte(w, s.m, d, src, k);
    ByteMoves(w, s.m, d, src, k, t.perm);
    Advance(w, s, i, m', t.(progress := t.progress.(copied := t.progress.copied + {k})));
  }

  lemma InvTask(w: World, s: State, i: nat)
    requires Inv(w, s) && i < |s.tasks|
    ensures Global(w, s.m) && TaskOk(w, s.m, s.tasks[i])
  {}

  lemma ByteMoves(w: World, m: Shared, d: Loc, s: Loc, k: nat, q: Perm)
    requires Global(w, m) && Owned(w, m, q) && CanMove(d, s, q) && k < |w.data|
    ensures Moves(w, m, q, CopyByte(w, m, d, s, k), q) && Owned(w, CopyByte(w, m, d, s, k), q)
  {
    MoveBasics(w, m, d, s, q);
    var m' := CopyByte(w, m, d, s, k);
    forall x
      ensures Means(w, m', x, Get(q, x))
    {
      assert Means(w, m, x, Get(q, x));
    }
  }

  lemma CompleteKeeps(w: World, s: State, i: nat)
    requires Inv(w, s) && Enabled(w, s, Complete(i))
    ensures Inv(w, Step(w, s, Complete(i)))
  {
    hide Check, Inv, Apart, Settled, AfterMove, Owned, Means, CanMove;
    var t := s.tasks[i];
    InvTask(w, s, i);
    var d, src := t.progress.d, t.progress.s;
    assert s.m.mem(d) == w.data;
    FinishSound(w, s.m, s.m, d, src, t.perm);
    var m', q' := Moved(s.m, d, src), AfterMove(d, src, t.perm);
    OwnedAfter(w, s.m, t.perm, m', q');
    Advance(w, s, i, m', t.(progress := Ready, perm := q'));
  }

  lemma ScribbleKeeps(w: World, s: State, l: Loc, v: Bytes)
    requires Inv(w, s) && Enabled(w, s, Scribble(l, v))
    ensures Inv(w, Step(w, s, Scribble(l, v)))
  {
    hide Check, Apart;
    var m' := Poke(s.m, l, v);
    forall i | 0 <= i < |s.tasks|
      ensures TaskOk(w, m', s.tasks[i])
    {
      ScribbleTask(w, s.m, l, v, s.tasks[i]);
    }
    forall x
      ensures Held(s.tasks, x) || Settled(w, m', x)
    {
      assert Held(s.tasks, x) || Settled(w, s.m, x);
    }
  }

  lemma ScribbleTask(w: World, m: Shared, l: Loc, v: Bytes, t: Task)
    requires Global(w, m) && TaskOk(w, m, t) && UserMayWrite(m, l)
    ensures TaskOk(w, Poke(m, l, v), t)
  {
    hide Check;
    forall x
      ensures Means(w, Poke(m, l, v), x, Get(t.perm, x))
    {
      assert Means(w, m, x, Get(t.perm, x));
    }
    if t.progress.Moving? { MoveBasics(w, m, t.progress.d, t.progress.s, t.perm); }
  }

  lemma StepKeeps(w: World, s: State, c: Choice)
    requires Inv(w, s) && Enabled(w, s, c)
    ensures Inv(w, Step(w, s, c))
  {
    hide Inv;
    match c
    case Run(i) => RunKeeps(w, s, i);
    case Byte(i, k) => ByteKeeps(w, s, i, k);
    case Complete(i) => CompleteKeeps(w, s, i);
    case Scribble(l, v) => ScribbleKeeps(w, s, l, v);
  }

  lemma {:induction false} RunsKeep(w: World, s: State, cs: seq<Choice>)
    requires Inv(w, s) && Possible(w, s, cs)
    ensures Inv(w, Reached(w, s, cs))
    decreases cs
  {
    hide Inv;
    if cs != [] {
      StepKeeps(w, s, cs[0]);
      RunsKeep(w, Step(w, s, cs[0]), cs[1..]);
    }
  }

  // ----- consequences -----

  lemma InvSafe(w: World, s: State)
    requires Inv(w, s)
    ensures Safe(w, s)
  {
    hide Apart, Settled;
    forall i | 0 <= i < |s.tasks|
      ensures TaskLegal(s.m, s.tasks[i]) && TaskReaches(w, s.m, s.tasks[i])
    {
      var t := s.tasks[i];
      assert TaskOk(w, s.m, t);
      assert Means(w, s.m, Charge, Get(t.perm, Charge));
      match t.progress
      case Ready => if t.prog.Do? { ActSound(w, s.m, t.prog.a, t.rank, t.perm); }
      case Moving(d, src, copied) => MoveBasics(w, s.m, d, src, t.perm);
    }
  }

  lemma InvFinished(w: World, s: State)
    requires Inv(w, s) && Quiescent(s)
    ensures Finished(w, s)
  {
    hide Apart;
    forall x
      ensures Settled(w, s.m, x)
    {
      if Held(s.tasks, x) {
        var i :| 0 <= i < |s.tasks| && Get(s.tasks[i].perm, x) != No;
        assert TaskOk(w, s.m, s.tasks[i]) && Idle(s.tasks[i].perm);
        assert Means(w, s.m, x, Get(s.tasks[i].perm, x));
      }
    }
    forall n ensures s.m.fired(n) == if n in w.terms.wants then 1 else 0 { assert Settled(w, s.m, Owe(n)); }
    forall o ensures !s.m.objs(o).Alive? { assert Settled(w, s.m, Own(o)); }
    assert Settled(w, s.m, Charge) && Settled(w, s.m, ReadSrc) && Settled(w, s.m, WriteDst);
  }

  // ----- every run ends -----

  function Length(p: Prog): nat {
    match p
    case Halt => 0
    case Do(a, rest) => 1 + Length(rest)
    case Start(give, d, s, next, rest) => 2 + Length(next) + Length(rest)
    case Send(to, give, body, rest) => 1 + Length(body) + Length(rest)
  }

  /** Bytes still to move: those of transfers in flight and of transfers not yet started. */
  function Volume(p: Prog, n: nat): nat {
    match p
    case Halt => 0
    case Do(a, rest) => Volume(rest, n)
    case Start(give, d, s, next, rest) => n + Volume(next, n) + Volume(rest, n)
    case Send(to, give, body, rest) => Volume(body, n) + Volume(rest, n)
  }

  function Missing(copied: set<nat>, n: nat): nat {
    if n == 0 then 0 else Missing(copied, n - 1) + if n - 1 in copied then 0 else 1
  }

  function TaskWork(t: Task, n: nat): nat {
    Length(t.prog) + Volume(t.prog, n) + match t.progress case Ready => 0 case Moving(d, s, copied) =>
      1 + Missing(copied, n)
  }

  function Work(ts: seq<Task>, n: nat): nat {
    if ts == [] then 0 else TaskWork(ts[0], n) + Work(ts[1..], n)
  }

  lemma {:induction false} WorkUpdate(ts: seq<Task>, i: nat, t: Task, n: nat)
    requires i < |ts|
    ensures Work(ts[i := t], n) == Work(ts, n) - TaskWork(ts[i], n) + TaskWork(t, n)
  {
    hide TaskWork;
    if i == 0 {
      assert ts[i := t][1..] == ts[1..];
    } else {
      WorkUpdate(ts[1..], i - 1, t, n);
      assert ts[i := t][1..] == ts[1..][i - 1 := t];
    }
  }

  lemma {:induction false} WorkAppend(ts: seq<Task>, u: Task, n: nat)
    ensures Work(ts + [u], n) == Work(ts, n) + TaskWork(u, n)
  {
    hide TaskWork;
    if ts != [] {
      WorkAppend(ts[1..], u, n);
      assert (ts + [u])[1..] == ts[1..] + [u];
    } else {
      assert ts + [u] == [u] && [u][1..] == [];
    }
  }

  lemma {:induction false} MissingNone(n: nat)
    ensures Missing({}, n) == n
  {
    if n > 0 { MissingNone(n - 1); }
  }

  lemma {:induction false} MissingOneLess(copied: set<nat>, k: nat, n: nat)
    requires k !in copied
    ensures Missing(copied + {k}, n) == Missing(copied, n) - if k < n then 1 else 0
  {
    if n > 0 { MissingOneLess(copied, k, n - 1); }
  }

  /** Every step but the user's brings the run nearer to its end. */
  lemma StepWorks(w: World, s: State, c: Choice)
    requires Enabled(w, s, c) && !c.Scribble?
    ensures Work(Step(w, s, c).tasks, |w.data|) < Work(s.tasks, |w.data|)
  {
    var n := |w.data|;
    var t := s.tasks[c.i];
    match c
    case Run(i) =>
      match t.prog {
        case Do(a, rest) => WorkUpdate(s.tasks, i, t.(prog := rest, perm := After(w.terms, a, t.rank, t.perm)), n);
        case Start(give, d, src, next, rest) =>
          var t', u := t.(prog := rest, perm := Minus(t.perm, give)),
            Task(t.rank, next, Moving(d, src, {}), Only(t.perm, give));
          WorkUpdate(s.tasks, i, t', n);
          WorkAppend(s.tasks[i := t'], u, n);
          MissingNone(n);
        case Send(to, give, body, rest) =>
          var t', u := t.(prog := rest, perm := Minus(t.perm, give)), Task(to, body, Ready, Only(t.perm, give));
          WorkUpdate(s.tasks, i, t', n);
          WorkAppend(s.tasks[i := t'], u, n);
      }
    case Byte(i, k) =>
      MissingOneLess(t.progress.copied, k, n);
      WorkUpdate(s.tasks, i, t.(progress := t.progress.(copied := t.progress.copied + {k})), n);
    case Complete(i) =>
      WorkUpdate(s.tasks, i, t.(progress := Ready, perm := AfterMove(t.progress.d, t.progress.s, t.perm)), n);
  }

  /** A run that is not over can go on. */
  lemma NoDeadlock(w: World, s: State) returns (c: Choice)
    requires !Quiescent(s)
    ensures Enabled(w, s, c) && !c.Scribble?
  {
    var i :| 0 <= i < |s.tasks| && !(s.tasks[i].progress.Ready? && s.tasks[i].prog == Halt);
    match s.tasks[i].progress
    case Ready => c := Run(i);
    case Moving(d, src, copied) =>
      if forall k: nat :: k < |w.data| ==> k in copied {
        c := Complete(i);
      } else {
        var k: nat :| k < |w.data| && k !in copied;
        c := Byte(i, k);
      }
  }
}
