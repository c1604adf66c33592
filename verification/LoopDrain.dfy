/** Inside the running loop every stream is its own drain machine: the operations counted are those
    really in the kernel or in the completion queue, and the drain theorems hold of them. */
module LoopDrain {
  import opened LoopSystem
  import opened LoopRouting
  import Q = TaskQueues
  import S = StreamSpec
  import A = AcceptorLinux
  import Tags

  function OpOf(objs: seq<Obj>, o: nat, ev: nat): Op
    requires o < |objs|
  {
    Op(Tags.Pack(objs[o].rid, ev), Of(o, ev))
  }

  /** Operations of object `o` and event `ev` in the kernel or completed and not yet reaped. */
  function InFlight(s: Sys, o: nat, ev: nat): nat
    requires o < |s.objs|
  {
    s.ring.flying[OpOf(s.objs, o, ev)] + multiset(s.ring.cq)[OpOf(s.objs, o, ev)]
  }

  function CtxOf(pc: Pc, o: nat): S.Context {
    if pc == InAlloc(o) then S.InAlloc
    else if pc == InEvent(o, 0) then S.InRead
    else if pc == InEvent(o, 1) then S.InWrite
    else S.Idle
  }

  /** The machine `m` is what stream `o` looks like in `s`. */
  ghost predicate Shows(s: Sys, o: nat, m: S.Machine) {
    && o < |s.objs| && s.objs[o].StreamObj?
    && m.f == s.objs[o].s && m.ctx == CtxOf(s.pc, o)
    && m.readOps == InFlight(s, o, 0) && m.writeOps == InFlight(s, o, 1)
  }

  /** What a step of the system is for stream `o`. */
  ghost function Project(s: Sys, st: Step, o: nat): seq<S.Step>
    requires Enabled(s, st)
  {
    match st
    case F(_) => []
    case K(_) => []
    case L(l) =>
      if l.LReap? && s.ring.cq[0].owner == Of(o, 0) then [S.ReadDone(l.alloc)]
      else if l.LReap? && s.ring.cq[0].owner == Of(o, 1) then [S.WriteDone]
      else if l.LEndAlloc? && s.pc.obj == o then [S.AllocReturn]
      else if l.LEndEvent? && s.pc.obj == o then [S.Return]
      else []
    case U(u) =>
      if u == URead(o) then [S.ReadCall]
      else if u == UWrite(o) then [S.WriteCall]
      else if u == UStop(o) then [S.StopCall]
      else []
  }

  lemma One(m: S.Machine, st: S.Step)
    requires S.Enabled(m, st)
    ensures S.Legal(m, [st]) && S.Exec(m, [st]) == S.Next(m, st)
  {
    assert [st][1..] == [];
  }

  /** All operations in the kernel, or completed and not yet reaped. */
  function Ops(s: Sys): multiset<Op> {
    s.ring.flying + multiset(s.ring.cq)
  }

  lemma InOps(s: Sys, o: nat, ev: nat)
    requires o < |s.objs|
    ensures InFlight(s, o, ev) == Ops(s)[OpOf(s.objs, o, ev)]
  {
  }

  /** The head of the completion queue leaves it. */
  lemma HeadLeaves(s: Sys)
    requires s.ring.cq != []
    ensures Ops(s) == Ops(s.(ring := s.ring.(cq := s.ring.cq[1..]))) + multiset{s.ring.cq[0]}
  {
    assert s.ring.cq == [s.ring.cq[0]] + s.ring.cq[1..];
  }

  // ---------- A call on a stream ----------

  /** What concerns others: the operations that came are not the stream's. */
  lemma Kept(s: Sys, s': Sys, o: nat, m: S.Machine, came: multiset<Op>)
    requires Shows(s, o, m) && o < |s'.objs| && s'.objs[o] == s.objs[o]
    requires CtxOf(s'.pc, o) == CtxOf(s.pc, o)
    requires Ops(s') == Ops(s) + came
    requires came[OpOf(s.objs, o, 0)] == 0 && came[OpOf(s.objs, o, 1)] == 0
    ensures Shows(s', o, m)
  {
    InOps(s, o, 0);
    InOps(s, o, 1);
    InOps(s', o, 0);
    InOps(s', o, 1);
  }

  /** The operations a call of stream `p` hands to the ring. */
  function Submitted(objs: seq<Obj>, p: nat, e: S.Effect): multiset<Op>
    requires p < |objs|
  {
    match e
    case SubmitRead => multiset{OpOf(objs, p, 0)}
    case SubmitWrite => multiset{OpOf(objs, p, 1)}
    case CancelRead => multiset{Op(0, CancelReq)}
    case _ => multiset{}
  }

  lemma SubmitOps(r: Ring, op: Op)
    ensures Submit(r, op).flying + multiset(r.cq) == r.flying + multiset(r.cq) + multiset{op}
  {
  }

  lemma EffectOps(s: Sys, p: nat, r: (S.Flags, S.Effect))
    requires p < |s.objs| && s.objs[p].StreamObj?
    ensures var s' := StreamEffect(s, p, r);
      && Ops(s') == Ops(s) + Submitted(s.objs, p, r.1)
      && s'.objs == s.objs[p := s.objs[p].(s := r.0)] && s'.pc == s.pc
  {
    match r.1 {
      case SubmitRead => SubmitOps(s.ring, OpOf(s.objs, p, 0));
      case SubmitWrite => SubmitOps(s.ring, OpOf(s.objs, p, 1));
      case CancelRead => SubmitOps(s.ring, Op(0, CancelReq));
      case _ =>
    }
  }

  lemma EffectCounts(s: Sys, o: nat, r: (S.Flags, S.Effect), ev: nat)
    requires o < |s.objs| && s.objs[o].StreamObj?
    ensures o < |StreamEffect(s, o, r).objs|
    ensures InFlight(StreamEffect(s, o, r), o, ev)
         == InFlight(s, o, ev) + Submitted(s.objs, o, r.1)[OpOf(s.objs, o, ev)]
  {
    EffectOps(s, o, r);
    InOps(s, o, ev);
    InOps(StreamEffect(s, o, r), o, ev);
  }

  /** The stream called upon moves as its machine does; everybody else stays. */
  lemma EffectShows(s: Sys, o: nat, r: (S.Flags, S.Effect), m: S.Machine)
    requires Shows(s, o, m)
    ensures Shows(StreamEffect(s, o, r), o, S.Do(m, r))
  {
    EffectOps(s, o, r);
    EffectCounts(s, o, r, 0);
    EffectCounts(s, o, r, 1);
    CountsShow(s, StreamEffect(s, o, r), o, r, m);
  }

  lemma CountsShow(s: Sys, s': Sys, o: nat, r: (S.Flags, S.Effect), m: S.Machine)
    requires Shows(s, o, m) && s'.objs == s.objs[o := s.objs[o].(s := r.0)] && s'.pc == s.pc
    requires forall ev :: 0 <= ev <= 1 ==>
               InFlight(s', o, ev) == InFlight(s, o, ev) + Submitted(s.objs, o, r.1)[OpOf(s.objs, o, ev)]
    ensures Shows(s', o, S.Do(m, r))
  {
    assert OpOf(s.objs, o, 0) != OpOf(s.objs, o, 1);
    assert InFlight(s', o, 0) == InFlight(s, o, 0) + Submitted(s.objs, o, r.1)[OpOf(s.objs, o, 0)];
    assert InFlight(s', o, 1) == InFlight(s, o, 1) + Submitted(s.objs, o, r.1)[OpOf(s.objs, o, 1)];
  }

  lemma EffectElsewhere(s: Sys, p: nat, r: (S.Flags, S.Effect), o: nat, m: S.Machine)
    requires Shows(s, o, m) && p < |s.objs| && s.objs[p].StreamObj? && p != o
    ensures Shows(StreamEffect(s, p, r), o, m)
  {
    EffectOps(s, p, r);
    Kept(s, StreamEffect(s, p, r), o, m, Submitted(s.objs, p, r.1));
  }

  lemma AcceptorElsewhere(s: Sys, p: nat, r: (A.Flags, A.Effect), o: nat, m: S.Machine)
    requires Shows(s, o, m) && p < |s.objs| && s.objs[p].AcceptorObj?
    ensures Shows(AcceptorEffect(s, p, r), o, m)
  {
    var came := match r.1
      case SubmitAccept => multiset{OpOf(s.objs, p, 0)}
      case CancelAccept => multiset{Op(0, CancelReq)}
      case _ => multiset{};
    Kept(s, AcceptorEffect(s, p, r), o, m, came);
  }

  lemma StreamCallProjects(s: Sys, u: User, o: nat, m: S.Machine)
    requires Shows(s, o, m) && UserEnabled(s, u) && (u.URead? || u.UWrite? || u.UStop?)
    ensures S.Legal(m, Project(s, U(u), o)) && Shows(UserStep(s, u), o, S.Exec(m, Project(s, U(u), o)))
  {
    var p := u.o;
    var f := s.objs[p].s;
    var r := if u.URead? then S.PostRead(f) else if u.UWrite? then S.PostWrite(f) else S.Stop(f);
    if p == o {
      EffectShows(s, o, r, m);
      One(m, if u.URead? then S.ReadCall else if u.UWrite? then S.WriteCall else S.StopCall);
    } else {
      EffectElsewhere(s, p, r, o, m);
    }
  }

  lemma UserProjects(s: Sys, u: User, o: nat, m: S.Machine)
    requires Shows(s, o, m) && UserEnabled(s, u)
    ensures S.Legal(m, Project(s, U(u), o)) && Shows(UserStep(s, u), o, S.Exec(m, Project(s, U(u), o)))
  {
    match u {
      case UStopLoop => Kept(s, UserStep(s, u), o, m, multiset{STOP_OP});
      case UAcceptor(h) =>
        Kept(s, UserStep(s, u), o, m, multiset{Op(Tags.Pack(s.ring.next + 1, 0), Of(|s.objs|, 0))});
      case UStopAcceptor(p) => AcceptorElsewhere(s, p, A.Stop(s.objs[p].a), o, m);
      case URead(_) => StreamCallProjects(s, u, o, m);
      case UWrite(_) => StreamCallProjects(s, u, o, m);
      case UStop(_) => StreamCallProjects(s, u, o, m);
      case _ => Kept(s, UserStep(s, u), o, m, multiset{});
    }
  }

  lemma KernelKeeps(s: Sys, k: Kernel, o: nat, m: S.Machine)
    requires Shows(s, o, m) && KernelEnabled(s, k)
    ensures Shows(KernelStep(s, k), o, m)
  {
    var came := match k
      case KPoll => multiset{EFD_OP}
      case KComplete(op) => multiset{}
      case KTimeout => multiset{Op(Tags.TIMEOUT_TAG, TimeoutReq)};
    Kept(s, KernelStep(s, k), o, m, came);
  }

  // ---------- Reaping ----------

  /** A completion leaves the queue and, if it is an open object's, changes that object alone. */
  lemma ReapLeaves(s: Sys, alloc: bool)
    requires RingOk(s) && LoopEnabled(s, LReap(alloc))
    ensures var s', op := LoopStep(s, LReap(alloc)), s.ring.cq[0];
      && OpOk(s.objs, op) && s'.ring == s.ring.(cq := s.ring.cq[1..]) && |s'.objs| == |s.objs|
      && (forall p :: 0 <= p < |s.objs| && (op.owner.Of? ==> op.owner.obj != p) ==>
            s'.objs[p] == s.objs[p] && s'.pc != InAlloc(p) && forall ev :: s'.pc != InEvent(p, ev))
  {
    RoutesAsIntended(s, s.ring.cq[0]);
  }

  /** What an open stream is handed, and a closed one not. */
  lemma ReapHands(s: Sys, alloc: bool, o: nat, ev: nat)
    requires RingOk(s) && LoopEnabled(s, LReap(alloc))
    requires o < |s.objs| && s.objs[o].StreamObj? && s.ring.cq[0].owner == Of(o, ev)
    ensures var s', f := LoopStep(s, LReap(alloc)), s.objs[o].s;
      && |s'.objs| == |s.objs| && ev <= 1
      && s'.objs[o] == (if f.close then s.objs[o]
                        else s.objs[o].(s := if ev == 0 then S.ReadBegin(f) else S.WriteBegin(f)))
      && CtxOf(s'.pc, o) == (if f.close then S.Idle
                             else if ev == 1 then S.InWrite else if alloc then S.InAlloc else S.InRead)
  {
    RoutesAsIntended(s, s.ring.cq[0]);
  }

  lemma InFlightAfter(s: Sys, s': Sys, o: nat, ev: nat)
    requires s.ring.cq != [] && s'.ring == s.ring.(cq := s.ring.cq[1..])
    requires o < |s.objs| && o < |s'.objs| && s'.objs[o].rid == s.objs[o].rid
    ensures InFlight(s, o, ev) == InFlight(s', o, ev) + S.Bit(s.ring.cq[0] == OpOf(s.objs, o, ev))
  {
    HeadLeaves(s);
    InOps(s, o, ev);
    InOps(s', o, ev);
    assert Ops(s) == Ops(s') + multiset{s.ring.cq[0]};
  }

  /** The stream's own completion: taken off its count, and handed to it unless it has closed. */
  lemma ReapOwn(s: Sys, alloc: bool, o: nat, ev: nat, m: S.Machine)
    requires RingOk(s) && Shows(s, o, m) && LoopEnabled(s, LReap(alloc)) && ev <= 1
    requires s.ring.cq[0].owner == Of(o, ev)
    ensures var st := if ev == 0 then S.ReadDone(alloc) else S.WriteDone;
      S.Enabled(m, st) && Shows(LoopStep(s, LReap(alloc)), o, S.Next(m, st))
  {
    var s' := LoopStep(s, LReap(alloc));
    ReapLeaves(s, alloc);
    ReapHands(s, alloc, o, ev);
    assert s.ring.cq[0] == OpOf(s.objs, o, ev) != OpOf(s.objs, o, 1 - ev);
    InFlightAfter(s, s', o, 0);
    InFlightAfter(s, s', o, 1);
  }

  lemma ReapOther(s: Sys, alloc: bool, o: nat, m: S.Machine)
    requires RingOk(s) && Shows(s, o, m) && LoopEnabled(s, LReap(alloc))
    requires forall ev :: ev <= 1 ==> s.ring.cq[0].owner != Of(o, ev)
    ensures Shows(LoopStep(s, LReap(alloc)), o, m)
  {
    ReapLeaves(s, alloc);
    assert s.ring.cq[0].owner.Of? ==> s.ring.cq[0].owner.obj != o;
    InFlightAfter(s, LoopStep(s, LReap(alloc)), o, 0);
    InFlightAfter(s, LoopStep(s, LReap(alloc)), o, 1);
  }

  lemma ReapProjects(s: Sys, alloc: bool, o: nat, m: S.Machine)
    requires RingOk(s) && Shows(s, o, m) && LoopEnabled(s, LReap(alloc))
    ensures S.Legal(m, Project(s, L(LReap(alloc)), o))
    ensures Shows(LoopStep(s, LReap(alloc)), o, S.Exec(m, Project(s, L(LReap(alloc)), o)))
  {
    if s.ring.cq[0].owner == Of(o, 0) {
      ReapOwn(s, alloc, o, 0, m);
      One(m, S.ReadDone(alloc));
    } else if s.ring.cq[0].owner == Of(o, 1) {
      ReapOwn(s, alloc, o, 1, m);
      One(m, S.WriteDone);
    } else {
      ReapOther(s, alloc, o, m);
    }
  }

  /** The alloc callback returns: of this stream or of another. */
  lemma AllocProjects(s: Sys, o: nat, m: S.Machine)
    requires Shows(s, o, m) && LoopEnabled(s, LEndAlloc)
    ensures S.Legal(m, Project(s, L(LEndAlloc), o))
    ensures Shows(LoopStep(s, LEndAlloc), o, S.Exec(m, Project(s, L(LEndAlloc), o)))
  {
    if s.pc.obj == o {
      One(m, S.AllocReturn);
    }
  }

  lemma EndOwn(s: Sys, o: nat, m: S.Machine)
    requires RingOk(s) && Shows(s, o, m) && LoopEnabled(s, LEndEvent) && s.pc.obj == o
    ensures S.Enabled(m, S.Return) && Shows(LoopStep(s, LEndEvent), o, S.Next(m, S.Return))
  {
    var f := s.objs[o].s;
    EffectShows(s, o, if s.pc.ev == 0 then S.ReadEnd(f) else S.WriteEnd(f), m);
  }

  lemma EndOther(s: Sys, o: nat, m: S.Machine)
    requires Shows(s, o, m) && LoopEnabled(s, LEndEvent) && s.pc.obj != o
    ensures Shows(LoopStep(s, LEndEvent), o, m)
  {
    var p := s.pc.obj;
    match s.objs[p] {
      case StreamObj(_, _, f) => EffectElsewhere(s, p, if s.pc.ev == 0 then S.ReadEnd(f) else S.WriteEnd(f), o, m);
      case AcceptorObj(_, _, f) => AcceptorElsewhere(s, p, A.AcceptEnd(f), o, m);
    }
  }

  lemma EndProjects(s: Sys, o: nat, m: S.Machine)
    requires RingOk(s) && Shows(s, o, m) && LoopEnabled(s, LEndEvent)
    ensures S.Legal(m, Project(s, L(LEndEvent), o))
    ensures Shows(LoopStep(s, LEndEvent), o, S.Exec(m, Project(s, L(LEndEvent), o)))
  {
    if s.pc.obj == o {
      EndOwn(s, o, m);
      One(m, S.Return);
    } else {
      EndOther(s, o, m);
    }
  }

  lemma BodyKeeps(s: Sys, b: Q.Body, from: From, o: nat, m: S.Machine)
    requires Shows(s, o, m) && !Calling(s.pc)
    ensures Shows(RunBody(s, b, from), o, m)
  {
    Kept(s, RunBody(s, b, from), o, m, if b.StopLoop? then multiset{STOP_OP} else multiset{});
  }

  lemma OtherKeeps(s: Sys, l: Loop, o: nat, m: S.Machine)
    requires Shows(s, o, m) && LoopEnabled(s, l) && (Quiet(l) || l.LTake? || l.LTakeN?)
    ensures Shows(LoopStep(s, l), o, m)
  {
    if l.LTake? {
      BodyKeeps(s.(q := Q.Take(s.q)), s.q.pend[0].body, Thread(s.q.pend[0].from), o, m);
    } else if l.LTakeN? {
      BodyKeeps(s.(q := Q.TakeN(s.q)), s.q.pendN[0], Own, o, m);
    } else {
      QuietFrames(s, l);
      Kept(s, LoopStep(s, l), o, m, multiset{});
    }
  }

  lemma LoopProjects(s: Sys, l: Loop, o: nat, m: S.Machine)
    requires RingOk(s) && Shows(s, o, m) && LoopEnabled(s, l)
    ensures S.Legal(m, Project(s, L(l), o))
    ensures Shows(LoopStep(s, l), o, S.Exec(m, Project(s, L(l), o)))
  {
    match l {
      case LReap(alloc) => ReapProjects(s, alloc, o, m);
      case LEndAlloc => AllocProjects(s, o, m);
      case LEndEvent => EndProjects(s, o, m);
      case _ => OtherKeeps(s, l, o, m);
    }
  }

  lemma NextProjects(s: Sys, st: Step, o: nat, m: S.Machine)
    requires RingOk(s) && Shows(s, o, m) && Enabled(s, st)
    ensures S.Legal(m, Project(s, st, o)) && Shows(Next(s, st), o, S.Exec(m, Project(s, st, o)))
  {
    NextOkRing(s, st);
    match st {
      case F(f) => Kept(s, ForeignStep(s, f), o, m, multiset{});
      case K(k) => KernelKeeps(s, k, o, m);
      case L(l) => LoopProjects(s, l, o, m);
      case U(u) => UserProjects(s, u, o, m);
    }
  }

  // ---------- Whole runs ----------

  ghost function ProjectRun(s: Sys, run: seq<Step>, o: nat): seq<S.Step>
    requires Legal(s, run)
    decreases |run|
  {
    if run == [] then [] else Project(s, run[0], o) + ProjectRun(Next(s, run[0]), run[1..], o)
  }

  /** Every run of the system is, for each stream, a run of its drain machine. */
  lemma {:induction false} SystemRunsStreams(s: Sys, run: seq<Step>, o: nat, m: S.Machine)
    requires RingOk(s) && Shows(s, o, m) && Legal(s, run)
    ensures S.Legal(m, ProjectRun(s, run, o)) && Shows(Exec(s, run), o, S.Exec(m, ProjectRun(s, run, o)))
    decreases |run|
  {
    if run != [] {
      NextOkRing(s, run[0]);
      NextProjects(s, run[0], o, m);
      SystemRunsStreams(Next(s, run[0]), run[1..], o, S.Exec(m, Project(s, run[0], o)));
      S.ExecAppend(m, Project(s, run[0], o), ProjectRun(Next(s, run[0]), run[1..], o));
    }
  }

  /** start() in any reachable state: no operation of the new stream is anywhere. */
  lemma StartShows(s: Sys, h: bool)
    requires RingOk(s) && UserEnabled(s, UStream(h))
    ensures Shows(UserStep(s, UStream(h)), |s.objs|, S.STARTED) && RingOk(UserStep(s, UStream(h)))
    ensures |UserStep(s, UStream(h)).objs| == |s.objs| + 1 && UserStep(s, UStream(h)).objs[|s.objs|].hasClose == h
  {
    var s' := UserStep(s, UStream(h));
    UserOkRing(s, UStream(h));
    assert s'.ring.flying == s.ring.flying && s'.ring.cq == s.ring.cq;
    assert !OpOk(s.objs, OpOf(s'.objs, |s.objs|, 0)) && !OpOk(s.objs, OpOf(s'.objs, |s.objs|, 1));
  }

  /** The first stop() of a stream hands one cancel request to the ring exactly when a read is flagged and
      no write, and nothing else; later calls hand over nothing. */
  lemma StopHandsCancel(s: Sys, o: nat)
    requires UserEnabled(s, UStop(o))
    ensures var f := s.objs[o].s;
      && UserStep(s, UStop(o)).objs[o].s.stop
      && Ops(UserStep(s, UStop(o)))
         == Ops(s) + (if !f.stop && f.reading && !f.writing then multiset{Op(0, CancelReq)} else multiset{})
  {
    EffectOps(s, o, S.Stop(s.objs[o].s));
  }

  // ---------- The harms, seen in the running loop ----------

  predicate Harmed(s: Sys, o: nat, h: S.Harm) {
    && o < |s.objs|
    && match h
       case TwoReads => InFlight(s, o, 0) >= 2
       case ReadAtClose => Closed(s.objs[o]) && InFlight(s, o, 0) > 0
       case WriteAtClose => Closed(s.objs[o]) && InFlight(s, o, 1) > 0
  }

  /** The branches run_read and run_write take after the user's callback. */
  predicate Causes(s: Sys, st: Step, o: nat, h: S.Harm) {
    && st == L(LEndEvent) && o < |s.objs| && s.objs[o].StreamObj?
    && var f := s.objs[o].s;
       match h
       case TwoReads => s.pc == InEvent(o, 0) && f.reading && !f.stop
       case ReadAtClose => s.pc == InEvent(o, 0) && f.reading && f.stop && !f.writing
       case WriteAtClose => s.pc == InEvent(o, 1) && f.stop && !f.reading && f.writing
  }

  ghost predicate EverHarmed(s: Sys, run: seq<Step>, o: nat, h: S.Harm)
    requires Legal(s, run)
    decreases |run|
  {
    Harmed(s, o, h) || (run != [] && EverHarmed(Next(s, run[0]), run[1..], o, h))
  }

  ghost predicate EverCauses(s: Sys, run: seq<Step>, o: nat, h: S.Harm)
    requires Legal(s, run)
    decreases |run|
  {
    run != [] && (Causes(s, run[0], o, h) || EverCauses(Next(s, run[0]), run[1..], o, h))
  }

  lemma HarmShows(s: Sys, o: nat, m: S.Machine, h: S.Harm)
    requires Shows(s, o, m)
    ensures Harmed(s, o, h) <==> S.Harmed(m, h)
  {
  }

  lemma CauseShows(s: Sys, st: Step, o: nat, m: S.Machine, h: S.Harm)
    requires Shows(s, o, m) && Enabled(s, st)
    ensures Causes(s, st, o, h) ==> Project(s, st, o) == [S.Return] && S.Causes(m, S.Return, h)
    ensures Project(s, st, o) != [] && S.Causes(m, Project(s, st, o)[0], h) ==> Causes(s, st, o, h)
    ensures |Project(s, st, o)| <= 1
  {
  }

  /** The first step of a machine's run, if there is one, and the rest. */
  lemma HarmSplits(m: S.Machine, here: seq<S.Step>, rest: seq<S.Step>, h: S.Harm)
    requires |here| <= 1 && S.Legal(m, here) && S.Legal(S.Exec(m, here), rest)
    ensures S.Legal(m, here + rest)
    ensures S.EverHarmed(m, here + rest, h) <==> S.Harmed(m, h) || S.EverHarmed(S.Exec(m, here), rest, h)
    ensures S.EverCauses(m, here + rest, h)
       <==> (here != [] && S.Causes(m, here[0], h)) || S.EverCauses(S.Exec(m, here), rest, h)
  {
    if here == [] {
      assert here + rest == rest;
    } else {
      assert here == [here[0]] && [here[0]][1..] == [];
      assert S.Exec(m, here) == S.Exec(S.Next(m, here[0]), []) == S.Next(m, here[0]);
      S.Chain(m, here[0], rest);
      assert (here + rest)[1..] == rest;
    }
  }

  /** What the machine of a stream goes through is what the system does. */
  lemma {:induction false} HarmsProject(s: Sys, run: seq<Step>, o: nat, m: S.Machine, h: S.Harm)
    requires RingOk(s) && Shows(s, o, m) && Legal(s, run)
    ensures S.Legal(m, ProjectRun(s, run, o))
    ensures EverHarmed(s, run, o, h) <==> S.EverHarmed(m, ProjectRun(s, run, o), h)
    ensures EverCauses(s, run, o, h) <==> S.EverCauses(m, ProjectRun(s, run, o), h)
    decreases |run|
  {
    HarmShows(s, o, m, h);
    if run != [] {
      var s', here := Next(s, run[0]), Project(s, run[0], o);
      NextOkRing(s, run[0]);
      NextProjects(s, run[0], o, m);
      CauseShows(s, run[0], o, m, h);
      HarmsProject(s', run[1..], o, S.Exec(m, here), h);
      HarmSplits(m, here, ProjectRun(s', run[1..], o), h);
    }
  }

  lemma StartedProjects(pre: seq<Step>, h: bool, run: seq<Step>)
    requires Legal(INIT, pre) && UserEnabled(Exec(INIT, pre), UStream(h))
    requires Legal(UserStep(Exec(INIT, pre), UStream(h)), run)
    ensures var s, o := UserStep(Exec(INIT, pre), UStream(h)), |Exec(INIT, pre).objs|;
      && Shows(s, o, S.STARTED) && RingOk(s)
      && S.Legal(S.STARTED, ProjectRun(s, run, o))
      && Shows(Exec(s, run), o, S.Exec(S.STARTED, ProjectRun(s, run, o)))
  {
    RunOkRing(INIT, pre);
    StartShows(Exec(INIT, pre), h);
    SystemRunsStreams(UserStep(Exec(INIT, pre), UStream(h)), run, |Exec(INIT, pre).objs|, S.STARTED);
  }

  /** The exact conditions, in the running loop: a stream is started in any reachable state, and then
      anything happens. Two reads of it are in the kernel or the completion queue at some point
      exactly when run_read at some point reads again over a read of its callback; reads overlap or
      outlive the close exactly when it ends with a read flagged, other than stopped with a write
      out; and the close finds a write there exactly when run_write closes on a flagged write. */
  lemma StreamHarmsExactly(pre: seq<Step>, h: bool, run: seq<Step>)
    requires Legal(INIT, pre) && UserEnabled(Exec(INIT, pre), UStream(h))
    requires Legal(UserStep(Exec(INIT, pre), UStream(h)), run)
    ensures var s, o := UserStep(Exec(INIT, pre), UStream(h)), |Exec(INIT, pre).objs|;
      && (EverHarmed(s, run, o, S.TwoReads) <==> EverCauses(s, run, o, S.TwoReads))
      && (EverHarmed(s, run, o, S.TwoReads) || EverHarmed(s, run, o, S.ReadAtClose)
          <==> EverCauses(s, run, o, S.TwoReads) || EverCauses(s, run, o, S.ReadAtClose))
      && (EverHarmed(s, run, o, S.WriteAtClose) <==> EverCauses(s, run, o, S.WriteAtClose))
  {
    StartedProjects(pre, h, run);
    var s, o := UserStep(Exec(INIT, pre), UStream(h)), |Exec(INIT, pre).objs|;
    var steps := ProjectRun(s, run, o);
    HarmsProject(s, run, o, S.STARTED, S.TwoReads);
    HarmsProject(s, run, o, S.STARTED, S.ReadAtClose);
    HarmsProject(s, run, o, S.STARTED, S.WriteAtClose);
    S.SecondRead(steps);
    S.ReadsDrain(steps);
    S.WritesDrain(steps);
  }

  /** Drain safety in the running loop, over every run from start(): the stream is closed only after a
      stop; stopped, open and outside its callbacks it has an operation in the kernel or the completion
      queue; and as long as none of the branches above was taken, the close leaves none there. */
  lemma StreamsDrainInTheLoop(pre: seq<Step>, h: bool, run: seq<Step>)
    requires Legal(INIT, pre) && UserEnabled(Exec(INIT, pre), UStream(h))
    requires Legal(UserStep(Exec(INIT, pre), UStream(h)), run)
    ensures var s, o := UserStep(Exec(INIT, pre), UStream(h)), |Exec(INIT, pre).objs|;
      var s' := Exec(s, run);
      && o < |s'.objs| && s'.objs[o].StreamObj?
      && (Closed(s'.objs[o]) ==> s'.objs[o].s.stop)
      && (CtxOf(s'.pc, o) == S.Idle && s'.objs[o].s.stop && !Closed(s'.objs[o]) ==>
            InFlight(s', o, 0) + InFlight(s', o, 1) >= 1)
      && (Closed(s'.objs[o]) && !EverCauses(s, run, o, S.TwoReads) && !EverCauses(s, run, o, S.ReadAtClose) ==>
            InFlight(s', o, 0) == 0)
      && (Closed(s'.objs[o]) && !EverCauses(s, run, o, S.WriteAtClose) ==> InFlight(s', o, 1) == 0)
  {
    StartedProjects(pre, h, run);
    var s, o := UserStep(Exec(INIT, pre), UStream(h)), |Exec(INIT, pre).objs|;
    HarmsProject(s, run, o, S.STARTED, S.TwoReads);
    HarmsProject(s, run, o, S.STARTED, S.ReadAtClose);
    HarmsProject(s, run, o, S.STARTED, S.WriteAtClose);
    S.DrainSafety(ProjectRun(s, run, o));
  }

  ghost predicate Harmless(s: Sys, run: seq<Step>, o: nat)
    requires Legal(s, run)
  {
    && !EverCauses(s, run, o, S.TwoReads)
    && !EverCauses(s, run, o, S.ReadAtClose)
    && !EverCauses(s, run, o, S.WriteAtClose)
  }

  lemma HarmlessProjects(s: Sys, run: seq<Step>, o: nat, m: S.Machine)
    requires RingOk(s) && Shows(s, o, m) && Legal(s, run)
    ensures S.Legal(m, ProjectRun(s, run, o))
    ensures Harmless(s, run, o) <==> S.Harmless(m, ProjectRun(s, run, o))
  {
    HarmsProject(s, run, o, m, S.TwoReads);
    HarmsProject(s, run, o, m, S.ReadAtClose);
    HarmsProject(s, run, o, m, S.WriteAtClose);
  }

  /** Drain progress in the running loop: take any point after start() at which the stream is stopped
      and go on in any way. The library submits nothing for it any more, so its operations in the
      kernel and the completion queue and its completions make up what was there and what its calls
      submit; and unless one of the branches above is taken, outside its callbacks it is closed
      exactly when all of that has come back. */
  lemma StoppedStreamsClose(pre: seq<Step>, h: bool, run: seq<Step>, more: seq<Step>)
    requires Legal(INIT, pre) && UserEnabled(Exec(INIT, pre), UStream(h))
    requires Legal(UserStep(Exec(INIT, pre), UStream(h)), run)
    requires Legal(Exec(UserStep(Exec(INIT, pre), UStream(h)), run), more)
    requires var s, o := Exec(UserStep(Exec(INIT, pre), UStream(h)), run), |Exec(INIT, pre).objs|;
      o < |s.objs| && s.objs[o].StreamObj? && s.objs[o].s.stop
    ensures var s0, o := UserStep(Exec(INIT, pre), UStream(h)), |Exec(INIT, pre).objs|;
      var s, steps := Exec(s0, run), ProjectRun(Exec(s0, run), more, o);
      var s' := Exec(s, more);
      && o < |s'.objs| && s'.objs[o].StreamObj?
      && S.Legal(S.STARTED, ProjectRun(s0, run, o))
      && var m := S.Exec(S.STARTED, ProjectRun(s0, run, o));
      && S.Legal(m, steps)
      && InFlight(s', o, 0) + InFlight(s', o, 1) + S.Completions(steps)
         == InFlight(s, o, 0) + InFlight(s, o, 1) + S.Accepted(m, steps)
      && (Harmless(s0, run, o) && Harmless(s, more, o) && CtxOf(s'.pc, o) == S.Idle ==>
            (Closed(s'.objs[o]) <==>
              S.Completions(steps) == InFlight(s, o, 0) + InFlight(s, o, 1) + S.Accepted(m, steps)))
  {
    StartedProjects(pre, h, run);
    var s0, o := UserStep(Exec(INIT, pre), UStream(h)), |Exec(INIT, pre).objs|;
    var s := Exec(s0, run);
    var m := S.Exec(S.STARTED, ProjectRun(s0, run, o));
    RunOkRing(s0, run);
    SystemRunsStreams(s, more, o, m);
    HarmlessProjects(s0, run, o, S.STARTED);
    HarmlessProjects(s, more, o, m);
    S.DrainCompletes(ProjectRun(s0, run, o), ProjectRun(s, more, o));
  }
}
