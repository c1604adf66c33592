/** Inside the running loop every acceptor is its own drain machine, from the call of start() on: the
    accepts counted are those really in the kernel or in the completion queue. */
module LoopAcceptors {
  import opened LoopSystem
  import opened LoopRouting
  import D = LoopDrain
  import Q = TaskQueues
  import S = StreamSpec
  import A = AcceptorLinux
  import Tags

  predicate InConn(s: Sys, o: nat) {
    s.pc.InEvent? && s.pc.obj == o
  }

  /** The machine `m` is what acceptor `o` looks like in `s`. */
  ghost predicate Shows(s: Sys, o: nat, m: A.Machine) {
    && o < |s.objs| && s.objs[o].AcceptorObj?
    && m.f == s.objs[o].a && m.inConn == InConn(s, o)
    && m.ops == D.InFlight(s, o, 0)
  }

  /** What a step of the system is for acceptor `o`. */
  ghost function Project(s: Sys, st: Step, o: nat): seq<A.Step>
    requires Enabled(s, st)
  {
    if st.L? && st.l.LReap? && s.ring.cq[0].owner == Of(o, 0) then [A.AcceptDone]
    else if st == L(LEndEvent) && s.pc.obj == o then [A.Return]
    else if st == U(UStopAcceptor(o)) then [A.StopCall]
    else []
  }

  /** `s'` is for acceptor `o` what `m` and the calls of the step make of it. */
  ghost predicate Follows(s: Sys, st: Step, s': Sys, o: nat, m: A.Machine)
    requires Enabled(s, st)
  {
    A.Legal(m, Project(s, st, o)) && Shows(s', o, A.Exec(m, Project(s, st, o)))
  }

  lemma One(m: A.Machine, st: A.Step)
    requires A.Enabled(m, st)
    ensures A.Legal(m, [st]) && A.Exec(m, [st]) == A.Next(m, st)
  {
    assert [st][1..] == [];
  }

  /** What concerns others: the operations that came are not the acceptor's. */
  lemma Kept(s: Sys, s': Sys, o: nat, m: A.Machine, came: multiset<Op>)
    requires Shows(s, o, m) && o < |s'.objs| && s'.objs[o] == s.objs[o]
    requires InConn(s', o) == InConn(s, o)
    requires D.Ops(s') == D.Ops(s) + came && came[D.OpOf(s.objs, o, 0)] == 0
    ensures Shows(s', o, m)
  {
    D.InOps(s, o, 0);
    D.InOps(s', o, 0);
  }

  // ---------- Calls ----------

  lemma OwnEffect(s: Sys, o: nat, r: (A.Flags, A.Effect), m: A.Machine)
    requires Shows(s, o, m)
    ensures Shows(AcceptorEffect(s, o, r), o, A.Do(m, r))
  {
    var s' := AcceptorEffect(s, o, r);
    assert D.OpOf(s'.objs, o, 0) == D.OpOf(s.objs, o, 0);
  }

  lemma AcceptorElsewhere(s: Sys, p: nat, r: (A.Flags, A.Effect), o: nat, m: A.Machine)
    requires Shows(s, o, m) && p < |s.objs| && s.objs[p].AcceptorObj? && p != o
    ensures Shows(AcceptorEffect(s, p, r), o, m)
  {
    var came := match r.1
      case SubmitAccept => multiset{Op(Tags.Pack(s.objs[p].rid, 0), Of(p, 0))}
      case CancelAccept => multiset{Op(0, CancelReq)}
      case _ => multiset{};
    Kept(s, AcceptorEffect(s, p, r), o, m, came);
  }

  lemma StreamElsewhere(s: Sys, p: nat, r: (S.Flags, S.Effect), o: nat, m: A.Machine)
    requires Shows(s, o, m) && p < |s.objs| && s.objs[p].StreamObj?
    ensures Shows(StreamEffect(s, p, r), o, m)
  {
    var came := match r.1
      case SubmitRead => multiset{Op(Tags.Pack(s.objs[p].rid, 0), Of(p, 0))}
      case SubmitWrite => multiset{Op(Tags.Pack(s.objs[p].rid, 1), Of(p, 1))}
      case CancelRead => multiset{Op(0, CancelReq)}
      case _ => multiset{};
    Kept(s, StreamEffect(s, p, r), o, m, came);
  }

  lemma UserProjects(s: Sys, u: User, o: nat, m: A.Machine)
    requires Shows(s, o, m) && UserEnabled(s, u)
    ensures Follows(s, U(u), UserStep(s, u), o, m)
  {
    match u {
      case UStopAcceptor(p) =>
        if p == o {
          OwnEffect(s, o, A.Stop(s.objs[o].a), m);
          One(m, A.StopCall);
        } else {
          AcceptorElsewhere(s, p, A.Stop(s.objs[p].a), o, m);
        }
      case URead(p) => StreamElsewhere(s, p, S.PostRead(s.objs[p].s), o, m);
      case UWrite(p) => StreamElsewhere(s, p, S.PostWrite(s.objs[p].s), o, m);
      case UStop(p) => StreamElsewhere(s, p, S.Stop(s.objs[p].s), o, m);
      case UStopLoop => Kept(s, UserStep(s, u), o, m, multiset{STOP_OP});
      case UAcceptor(_) =>
        Kept(s, UserStep(s, u), o, m, multiset{Op(Tags.Pack(s.ring.next + 1, 0), Of(|s.objs|, 0))});
      case _ => Kept(s, UserStep(s, u), o, m, multiset{});
    }
  }

  /** start() finds no accept of the new acceptor anywhere and leaves exactly one. */
  lemma StartShows(s: Sys, h: bool)
    requires RingOk(s)
    ensures Shows(StartAcceptor(s, h), |s.objs|, A.ACCEPTING)
    ensures StartAcceptor(s, h).objs[|s.objs|].hasClose == h
  {
    var s', o := StartAcceptor(s, h), |s.objs|;
    var op := D.OpOf(s'.objs, o, 0);
    assert !OpOk(s.objs, op);
    assert op !in s.ring.flying && op !in s.ring.cq;
    assert s'.ring.flying == s.ring.flying + multiset{op};
  }

  // ---------- Kernel and loop ----------

  lemma KernelKeeps(s: Sys, k: Kernel, o: nat, m: A.Machine)
    requires Shows(s, o, m) && KernelEnabled(s, k)
    ensures Shows(KernelStep(s, k), o, m)
  {
    var came := match k
      case KPoll => multiset{EFD_OP}
      case KComplete(op) => multiset{}
      case KTimeout => multiset{Op(Tags.TIMEOUT_TAG, TimeoutReq)};
    Kept(s, KernelStep(s, k), o, m, came);
  }

  /** The acceptor's own completion: taken off its count, and handed to it unless it has closed. */
  lemma ReapOwn(s: Sys, alloc: bool, o: nat, m: A.Machine)
    requires RingOk(s) && Shows(s, o, m) && LoopEnabled(s, LReap(alloc))
    requires s.ring.cq[0].owner == Of(o, 0)
    ensures A.Enabled(m, A.AcceptDone) && Shows(LoopStep(s, LReap(alloc)), o, A.Next(m, A.AcceptDone))
  {
    RoutesAsIntended(s, s.ring.cq[0]);
    D.ReapLeaves(s, alloc);
    D.InFlightAfter(s, LoopStep(s, LReap(alloc)), o, 0);
  }

  lemma ReapOther(s: Sys, alloc: bool, o: nat, m: A.Machine)
    requires RingOk(s) && Shows(s, o, m) && LoopEnabled(s, LReap(alloc))
    requires s.ring.cq[0].owner != Of(o, 0)
    ensures Shows(LoopStep(s, LReap(alloc)), o, m)
  {
    D.ReapLeaves(s, alloc);
    assert s.ring.cq[0].owner.Of? ==> s.ring.cq[0].owner.obj != o;
    assert !InConn(LoopStep(s, LReap(alloc)), o);
    D.InFlightAfter(s, LoopStep(s, LReap(alloc)), o, 0);
  }

  lemma ReapProjects(s: Sys, alloc: bool, o: nat, m: A.Machine)
    requires RingOk(s) && Shows(s, o, m) && LoopEnabled(s, LReap(alloc))
    ensures Follows(s, L(LReap(alloc)), LoopStep(s, LReap(alloc)), o, m)
  {
    if s.ring.cq[0].owner == Of(o, 0) {
      ReapOwn(s, alloc, o, m);
      One(m, A.AcceptDone);
    } else {
      ReapOther(s, alloc, o, m);
    }
  }

  lemma EndProjects(s: Sys, o: nat, m: A.Machine)
    requires Shows(s, o, m) && LoopEnabled(s, LEndEvent)
    ensures Follows(s, L(LEndEvent), LoopStep(s, LEndEvent), o, m)
  {
    var p := s.pc.obj;
    match s.objs[p] {
      case StreamObj(_, _, f) =>
        StreamElsewhere(s, p, if s.pc.ev == 0 then S.ReadEnd(f) else S.WriteEnd(f), o, m);
      case AcceptorObj(_, _, f) =>
        if p == o {
          OwnEffect(s, o, A.AcceptEnd(f), m);
          One(m, A.Return);
        } else {
          AcceptorElsewhere(s, p, A.AcceptEnd(f), o, m);
        }
    }
  }

  lemma BodyKeeps(s: Sys, b: Q.Body, from: From, o: nat, m: A.Machine)
    requires Shows(s, o, m) && !Calling(s.pc)
    ensures Shows(RunBody(s, b, from), o, m)
  {
    Kept(s, RunBody(s, b, from), o, m, if b.StopLoop? then multiset{STOP_OP} else multiset{});
  }

  lemma OtherKeeps(s: Sys, l: Loop, o: nat, m: A.Machine)
    requires Shows(s, o, m) && LoopEnabled(s, l) && (Quiet(l) || l.LTake? || l.LTakeN?)
    ensures Shows(LoopStep(s, l), o, m)
  {
    if l.LTake? {
      BodyKeeps(s.(q := Q.Take(s.q)), s.q.pend[0].body, Thread(s.q.pend[0].from), o, m);
    } else if l.LTakeN? {
      BodyKeeps(s.(q := Q.TakeN(s.q)), s.q.pendN[0], Own, o, m);
    } else {
      QuietFrames(s, l);
      Kept(s, LoopStep(s, l), o, m, multiset{});
    }
  }

  /** The alloc callback of some stream returns. */
  lemma AllocKeeps(s: Sys, o: nat, m: A.Machine)
    requires RingOk(s) && Shows(s, o, m) && LoopEnabled(s, LEndAlloc)
    ensures Shows(LoopStep(s, LEndAlloc), o, m)
  {
  }

  lemma LoopProjects(s: Sys, l: Loop, o: nat, m: A.Machine)
    requires RingOk(s) && Shows(s, o, m) && LoopEnabled(s, l)
    ensures Follows(s, L(l), LoopStep(s, l), o, m)
  {
    match l {
      case LReap(alloc) => ReapProjects(s, alloc, o, m);
      case LEndAlloc => AllocKeeps(s, o, m);
      case LEndEvent => EndProjects(s, o, m);
      case _ => OtherKeeps(s, l, o, m);
    }
  }

  lemma NextProjects(s: Sys, st: Step, o: nat, m: A.Machine)
    requires RingOk(s) && Shows(s, o, m) && Enabled(s, st)
    ensures Follows(s, st, Next(s, st), o, m)
  {
    match st {
      case F(f) => Kept(s, ForeignStep(s, f), o, m, multiset{});
      case K(k) => KernelKeeps(s, k, o, m);
      case L(l) => LoopProjects(s, l, o, m);
      case U(u) => UserProjects(s, u, o, m);
    }
  }

  // ---------- Whole runs ----------

  ghost function ProjectRun(s: Sys, run: seq<Step>, o: nat): seq<A.Step>
    requires Legal(s, run)
    decreases |run|
  {
    if run == [] then [] else Project(s, run[0], o) + ProjectRun(Next(s, run[0]), run[1..], o)
  }

  lemma {:induction false} RunAppend(m: A.Machine, a: seq<A.Step>, b: seq<A.Step>)
    requires A.Legal(m, a) && A.Legal(A.Exec(m, a), b)
    ensures A.Legal(m, a + b) && A.Exec(m, a + b) == A.Exec(A.Exec(m, a), b)
    decreases |a|
  {
    if a == [] {
      assert a + b == b;
    } else {
      assert (a + b)[1..] == a[1..] + b;
      RunAppend(A.Next(m, a[0]), a[1..], b);
    }
  }

  /** Every run of the system is, for each acceptor, a run of its drain machine. */
  lemma {:induction false} SystemRunsAcceptors(s: Sys, run: seq<Step>, o: nat, m: A.Machine)
    requires RingOk(s) && Shows(s, o, m) && Legal(s, run)
    ensures A.Legal(m, ProjectRun(s, run, o)) && Shows(Exec(s, run), o, A.Exec(m, ProjectRun(s, run, o)))
    decreases |run|
  {
    if run != [] {
      NextOkRing(s, run[0]);
      NextProjects(s, run[0], o, m);
      var m' := A.Exec(m, Project(s, run[0], o));
      SystemRunsAcceptors(Next(s, run[0]), run[1..], o, m');
      RunAppend(m, Project(s, run[0], o), ProjectRun(Next(s, run[0]), run[1..], o));
    }
  }

  /** Every acceptor there is shows a machine within the drain invariant. */
  ghost predicate AcceptorsOk(s: Sys) {
    && RingOk(s)
    && forall o :: 0 <= o < |s.objs| && s.objs[o].AcceptorObj? ==> AcceptorOk(s, o)
  }

  ghost predicate AcceptorOk(s: Sys, o: nat) {
    exists m :: Shows(s, o, m) && A.Inv(m)
  }

  lemma StepKeeps(s: Sys, st: Step, o: nat)
    requires RingOk(s) && Enabled(s, st) && AcceptorOk(s, o)
    ensures AcceptorOk(Next(s, st), o)
  {
    var m :| Shows(s, o, m) && A.Inv(m);
    NextProjects(s, st, o, m);
    A.RunKeepsInv(m, Project(s, st, o));
  }

  /** Only start() brings a new acceptor, as the last object. */
  lemma OnlyStartAdds(s: Sys, st: Step, o: nat)
    requires Enabled(s, st) && !(st.U? && st.u.UAcceptor?)
    requires o < |Next(s, st).objs| && Next(s, st).objs[o].AcceptorObj?
    ensures o < |s.objs|
  {
    match st {
      case F(f) => assert ForeignStep(s, f).objs == s.objs;
      case K(k) => assert KernelStep(s, k).objs == s.objs;
      case L(l) => assert |LoopStep(s, l).objs| == |s.objs|;
      case U(u) => assert u.UStream? || |UserStep(s, u).objs| == |s.objs|;
    }
  }

  lemma NewAcceptor(s: Sys, st: Step, o: nat)
    requires AcceptorsOk(s) && Enabled(s, st)
    requires |s.objs| <= o < |Next(s, st).objs| && Next(s, st).objs[o].AcceptorObj?
    ensures AcceptorOk(Next(s, st), o)
  {
    if st.U? && st.u.UAcceptor? {
      StartShows(s, st.u.hasClose);
      assert A.Inv(A.ACCEPTING);
    } else {
      OnlyStartAdds(s, st, o);
    }
  }

  lemma NextKeeps(s: Sys, st: Step)
    requires AcceptorsOk(s) && Enabled(s, st)
    ensures AcceptorsOk(Next(s, st))
  {
    NextOkRing(s, st);
    forall o | 0 <= o < |Next(s, st).objs| && Next(s, st).objs[o].AcceptorObj?
      ensures AcceptorOk(Next(s, st), o)
    {
      if o < |s.objs| {
        StepKeeps(s, st, o);
      } else {
        NewAcceptor(s, st, o);
      }
    }
  }

  lemma {:induction false} RunKeeps(s: Sys, run: seq<Step>)
    requires AcceptorsOk(s) && Legal(s, run)
    ensures AcceptorsOk(Exec(s, run))
    decreases |run|
  {
    if run != [] {
      NextKeeps(s, run[0]);
      RunKeeps(Next(s, run[0]), run[1..]);
    }
  }

  /** In every reachable state and for every acceptor: at most one accept of it is in the kernel or
      the completion queue; it has closed only after a stop and with none there; and unless its
      evConn is running it is closed exactly when none is there. */
  lemma AcceptorsDrainInTheLoop(run: seq<Step>)
    requires Legal(INIT, run)
    ensures var s := Exec(INIT, run);
      forall o :: 0 <= o < |s.objs| && s.objs[o].AcceptorObj? ==>
        && D.InFlight(s, o, 0) <= 1
        && (Closed(s.objs[o]) ==> s.objs[o].a.stop && D.InFlight(s, o, 0) == 0)
        && (!InConn(s, o) ==> (Closed(s.objs[o]) <==> D.InFlight(s, o, 0) == 0))
  {
    RunKeeps(INIT, run);
    var s := Exec(INIT, run);
    assert forall o :: 0 <= o < |s.objs| && s.objs[o].AcceptorObj? ==> AcceptorOk(s, o);
  }

  /** From any reachable state in which the acceptor has been stopped, whatever else the system
      does: no accept of it is submitted again, each of its completions takes one off, and outside
      evConn it is closed exactly when the one that was out has come back. */
  lemma StoppedAcceptorsClose(pre: seq<Step>, run: seq<Step>, o: nat)
    requires Legal(INIT, pre) && Legal(Exec(INIT, pre), run)
    requires o < |Exec(INIT, pre).objs| && Exec(INIT, pre).objs[o].AcceptorObj? && Exec(INIT, pre).objs[o].a.stop
    ensures var s, s' := Exec(INIT, pre), Exec(Exec(INIT, pre), run);
      && o < |s'.objs| && s'.objs[o].AcceptorObj?
      && D.InFlight(s', o, 0) + A.Completions(ProjectRun(s, run, o)) == D.InFlight(s, o, 0)
      && (!InConn(s', o) ==> (Closed(s'.objs[o]) <==> A.Completions(ProjectRun(s, run, o)) == D.InFlight(s, o, 0)))
  {
    RunKeeps(INIT, pre);
    var s := Exec(INIT, pre);
    assert AcceptorOk(s, o);
    var m :| Shows(s, o, m) && A.Inv(m);
    SystemRunsAcceptors(s, run, o, m);
    A.DrainCompletes(m, ProjectRun(s, run, o));
  }

  /** In every reachable state: the first stop() of an acceptor hands one cancel request to the ring exactly
      when an accept of it is in the kernel or the completion queue, and nothing else; later calls hand
      over nothing. */
  lemma StopHandsCancel(run: seq<Step>, o: nat)
    requires Legal(INIT, run) && UserEnabled(Exec(INIT, run), UStopAcceptor(o))
    ensures var s, s' := Exec(INIT, run), UserStep(Exec(INIT, run), UStopAcceptor(o));
      && s'.objs[o].a.stop
      && D.Ops(s') == D.Ops(s) + (if !s.objs[o].a.stop && D.InFlight(s, o, 0) == 1 then multiset{Op(0, CancelReq)}
                                  else multiset{})
  {
    RunKeeps(INIT, run);
    var s := Exec(INIT, run);
    assert AcceptorOk(s, o);
    D.SubmitOps(s.ring, Op(0, CancelReq));
  }
}
