/** stop(): from any thread it ends the loop, nothing else does, and the round that sees it is the last. */
module LoopStop {
  import opened LoopSystem
  import opened LoopRouting
  import opened LoopShutdown
  import A = AcceptorLinux
  import Q = TaskQueues
  import S = StreamSpec
  import Tags

  /** The stop operation is with the kernel or in the completion queue, has been seen, or has ended the
      loop. */
  ghost predicate OnTheWay(s: Sys) {
    STOP_OP in s.ring.flying || STOP_OP in s.ring.cq || s.hasStop || !s.w.open
  }

  /** A step that asks. */
  ghost predicate Asks(s: Sys, st: Step)
    requires Enabled(s, st)
  {
    st == U(UStopLoop) || (st == L(LTake) && s.q.pend[0].body.StopLoop?)
  }

  /** Only the loop's own lambda from another thread asks in a task. */
  ghost predicate OwnTasksDoNotAsk(q: Q.Queues) {
    forall b :: b in q.nmux || b in q.pendN ==> !b.StopLoop?
  }

  lemma SubmitsStop(r: Ring, op: Op)
    ensures STOP_OP in Submit(r, op).flying <==> op == STOP_OP || STOP_OP in r.flying
  {
  }

  lemma ObjOpsAreNot(objs: seq<Obj>, o: nat, ev: nat)
    requires o < |objs|
    ensures Op(Tags.Pack(objs[o].rid, ev), Of(o, ev)) != STOP_OP && Op(0, CancelReq) != STOP_OP
  {
  }

  /** A call on an object brings no stop. */
  ghost predicate StopFrames(s: Sys, s': Sys) {
    && (STOP_OP in s'.ring.flying <==> STOP_OP in s.ring.flying)
    && s'.ring.cq == s.ring.cq && s'.hasStop == s.hasStop && s'.w == s.w && s'.q.muxDone == s.q.muxDone
    && s'.q.pendN == s.q.pendN
    && (s'.q.nmux == s.q.nmux || exists o :: s'.q.nmux == s.q.nmux + [Q.EvClose(o)])
  }

  lemma StreamStopFrames(s: Sys, o: nat, r: (S.Flags, S.Effect))
    requires o < |s.objs| && s.objs[o].StreamObj?
    ensures StopFrames(s, StreamEffect(s, o, r))
  {
    match r.1 {
      case SubmitRead => SubmitsStop(s.ring, Op(Tags.Pack(s.objs[o].rid, 0), Of(o, 0)));
      case SubmitWrite => SubmitsStop(s.ring, Op(Tags.Pack(s.objs[o].rid, 1), Of(o, 1)));
      case CancelRead => SubmitsStop(s.ring, Op(0, CancelReq));
      case _ =>
    }
  }

  lemma AcceptorStopFrames(s: Sys, o: nat, r: (A.Flags, A.Effect))
    requires o < |s.objs| && s.objs[o].AcceptorObj?
    ensures StopFrames(s, AcceptorEffect(s, o, r))
  {
    match r.1 {
      case SubmitAccept => SubmitsStop(s.ring, Op(Tags.Pack(s.objs[o].rid, 0), Of(o, 0)));
      case CancelAccept => SubmitsStop(s.ring, Op(0, CancelReq));
      case _ =>
    }
  }

  lemma FramesKeep(s: Sys, s': Sys)
    requires OwnTasksDoNotAsk(s.q) && StopFrames(s, s')
    ensures OwnTasksDoNotAsk(s'.q) && (OnTheWay(s') <==> OnTheWay(s))
  {
  }

  lemma UserStops(s: Sys, u: User)
    requires UserEnabled(s, u) && OwnTasksDoNotAsk(s.q)
    ensures var s' := UserStep(s, u);
      && OwnTasksDoNotAsk(s'.q) && s'.q.muxDone == s.q.muxDone
      && (OnTheWay(s') <==> OnTheWay(s) || u == UStopLoop)
  {
    var s' := UserStep(s, u);
    match u {
      case UStopLoop => SubmitsStop(s.ring, STOP_OP);
      case UAcceptor(_) => SubmitsStop(s.ring, Op(Tags.Pack(s.ring.next + 1, 0), Of(|s.objs|, 0)));
      case URead(o) => StreamStopFrames(s, o, S.PostRead(s.objs[o].s)); FramesKeep(s, s');
      case UWrite(o) => StreamStopFrames(s, o, S.PostWrite(s.objs[o].s)); FramesKeep(s, s');
      case UStop(o) => StreamStopFrames(s, o, S.Stop(s.objs[o].s)); FramesKeep(s, s');
      case UStopAcceptor(o) => AcceptorStopFrames(s, o, A.Stop(s.objs[o].a)); FramesKeep(s, s');
      case _ =>
    }
  }

  lemma KernelStops(s: Sys, k: Kernel)
    requires KernelEnabled(s, k)
    ensures OnTheWay(KernelStep(s, k)) <==> OnTheWay(s)
  {
    match k {
      case KPoll => assert EFD_OP != STOP_OP;
      case KComplete(op) =>
        assert STOP_OP in s.ring.flying <==> op == STOP_OP || STOP_OP in s.ring.flying - multiset{op} by {
          if STOP_OP in s.ring.flying && op != STOP_OP {
            assert (s.ring.flying - multiset{op})[STOP_OP] == s.ring.flying[STOP_OP];
          }
        }
      case KTimeout =>
    }
  }

  lemma ReapStops(s: Sys, alloc: bool)
    requires RingOk(s) && LoopEnabled(s, LReap(alloc))
    ensures OnTheWay(LoopStep(s, LReap(alloc))) <==> OnTheWay(s)
    ensures LoopStep(s, LReap(alloc)).q == s.q
  {
    var op := s.ring.cq[0];
    assert s.ring.cq == [op] + s.ring.cq[1..];
    RoutesAsIntended(s, op);
    assert op.owner.LoopStop? <==> op == STOP_OP;
  }

  lemma EndEventStops(s: Sys)
    requires s.pc.InEvent? && EndEventOk(s) && OwnTasksDoNotAsk(s.q)
    ensures var s' := EndEvent(s);
      OwnTasksDoNotAsk(s'.q) && s'.q.muxDone == s.q.muxDone && (OnTheWay(s') <==> OnTheWay(s))
  {
    var o := s.pc.obj;
    match s.objs[o] {
      case StreamObj(_, _, f) => StreamStopFrames(s, o, if s.pc.ev == 0 then S.ReadEnd(f) else S.WriteEnd(f));
      case AcceptorObj(_, _, f) => AcceptorStopFrames(s, o, A.AcceptEnd(f));
    }
    FramesKeep(s, EndEvent(s));
  }

  lemma BodyStops(s: Sys, b: Q.Body, from: From)
    ensures var s' := RunBody(s, b, from);
      s'.q == s.q && (OnTheWay(s') <==> OnTheWay(s) || b.StopLoop?)
  {
    if b.StopLoop? {
      SubmitsStop(s.ring, STOP_OP);
    }
  }

  lemma TakeStops(s: Sys)
    requires LoopEnabled(s, LTake) && OwnTasksDoNotAsk(s.q)
    ensures var s' := LoopStep(s, LTake);
      && OwnTasksDoNotAsk(s'.q) && s'.q.muxDone == s.q.muxDone + [s.q.pend[0]]
      && (OnTheWay(s') <==> OnTheWay(s) || s.q.pend[0].body.StopLoop?)
  {
    BodyStops(s.(q := Q.Take(s.q)), s.q.pend[0].body, Thread(s.q.pend[0].from));
  }

  lemma TakeNStops(s: Sys)
    requires LoopEnabled(s, LTakeN) && OwnTasksDoNotAsk(s.q)
    ensures var s' := LoopStep(s, LTakeN);
      && OwnTasksDoNotAsk(s'.q) && s'.q.muxDone == s.q.muxDone && (OnTheWay(s') <==> OnTheWay(s))
  {
    BodyStops(s.(q := Q.TakeN(s.q)), s.q.pendN[0], Own);
    assert s.q.pendN[0] in s.q.pendN && forall b :: b in s.q.pendN[1..] ==> b in s.q.pendN;
  }

  lemma QuietStops(s: Sys, l: Loop)
    requires LoopEnabled(s, l) && Quiet(l) && OwnTasksDoNotAsk(s.q)
    ensures var s' := LoopStep(s, l);
      && OwnTasksDoNotAsk(s'.q) && s'.q.muxDone == s.q.muxDone && (OnTheWay(s') <==> OnTheWay(s))
  {
    QuietFrames(s, l);
  }

  lemma LoopStops(s: Sys, l: Loop)
    requires RingOk(s) && LoopEnabled(s, l) && OwnTasksDoNotAsk(s.q)
    ensures var s' := LoopStep(s, l);
      && OwnTasksDoNotAsk(s'.q)
      && s'.q.muxDone == (if l.LTake? then s.q.muxDone + [s.q.pend[0]] else s.q.muxDone)
      && (OnTheWay(s') <==> OnTheWay(s) || Asks(s, L(l)))
  {
    if l.LReap? {
      ReapStops(s, l.alloc);
    } else if l.LEndAlloc? {
    } else if l.LEndEvent? {
      EndEventStops(s);
    } else if l.LTake? {
      TakeStops(s);
    } else if l.LTakeN? {
      TakeNStops(s);
    } else {
      QuietStops(s, l);
    }
  }

  lemma NextStops(s: Sys, st: Step)
    requires RingOk(s) && Enabled(s, st) && OwnTasksDoNotAsk(s.q)
    ensures var s' := Next(s, st);
      && OwnTasksDoNotAsk(s'.q)
      && s'.q.muxDone == (if st == L(LTake) then s.q.muxDone + [s.q.pend[0]] else s.q.muxDone)
      && (OnTheWay(s') <==> OnTheWay(s) || Asks(s, st))
  {
    match st {
      case F(f) =>
      case K(k) => KernelStops(s, k);
      case L(l) => LoopStops(s, l);
      case U(u) => UserStops(s, u);
    }
  }

  ghost predicate AskedIn(q: Q.Queues) {
    exists t :: t in q.muxDone && t.body.StopLoop?
  }

  lemma AskedGrows(q: Q.Queues, q': Q.Queues)
    requires q'.muxDone == q.muxDone || exists t :: q'.muxDone == q.muxDone + [t]
    ensures AskedIn(q) ==> AskedIn(q')
  {
    if AskedIn(q) {
      var t :| t in q.muxDone && t.body.StopLoop?;
      assert t in q'.muxDone;
    }
  }

  lemma {:induction false} RunStops(s: Sys, run: seq<Step>, before: bool)
    requires RingOk(s) && OwnTasksDoNotAsk(s.q) && Legal(s, run)
    requires OnTheWay(s) <==> before || AskedIn(s.q)
    ensures OnTheWay(Exec(s, run)) <==> before || U(UStopLoop) in run || AskedIn(Exec(s, run).q)
    decreases |run|
  {
    if run != [] {
      NextOkRing(s, run[0]);
      StepStops(s, run[0], before);
      RunStops(Next(s, run[0]), run[1..], before || run[0] == U(UStopLoop));
      assert U(UStopLoop) in run <==> run[0] == U(UStopLoop) || U(UStopLoop) in run[1..];
    }
  }

  lemma StepStops(s: Sys, st: Step, before: bool)
    requires RingOk(s) && OwnTasksDoNotAsk(s.q) && Enabled(s, st)
    requires OnTheWay(s) <==> before || AskedIn(s.q)
    ensures var s' := Next(s, st);
      OwnTasksDoNotAsk(s'.q) && (OnTheWay(s') <==> before || st == U(UStopLoop) || AskedIn(s'.q))
  {
    NextStops(s, st);
    var s' := Next(s, st);
    AskedGrows(s.q, s'.q);
    if st == L(LTake) && s.q.pend[0].body.StopLoop? {
      assert s.q.pend[0] in s'.q.muxDone;
    } else if AskedIn(s'.q) {
      var t :| t in s'.q.muxDone && t.body.StopLoop?;
      assert t in s.q.muxDone;
    }
  }

  /** Over every run: the stop operation is with the kernel or in the completion queue, or has been seen, or
      has ended the loop, exactly when stop() was called on the loop thread or the loop has taken the task
      of a stop() called on another. */
  lemma StopArrives(run: seq<Step>)
    requires Legal(INIT, run)
    ensures OnTheWay(Exec(INIT, run)) <==> U(UStopLoop) in run || AskedIn(Exec(INIT, run).q)
  {
    RunStops(INIT, run, false);
  }

  // ---------- The last round ----------

  /** A round that has seen the stop does not go back to the wait, and what follows it is the final
      on_tasks, without timers. */
  ghost predicate EndLaw(s: Sys) {
    && (s.hasStop && s.w.open ==> !s.pc.Boot? && !s.pc.ReadSize? && !s.pc.ReadCount? && !s.pc.Wait?)
    && (!s.w.open ==> s.hasStop && (s.pc.SwapMux? || LastBatches(s.pc)) && s.tm.t.nodes == {} && s.tm.t.slots == {})
  }

  lemma UserKeepsEnd(s: Sys, u: User)
    requires UserEnabled(s, u) && EndLaw(s)
    ensures EndLaw(UserStep(s, u))
  {
    var s' := UserStep(s, u);
    assert s'.pc == s.pc && s'.hasStop == s.hasStop && s'.w.open == s.w.open;
    assert !s.w.open ==> s'.tm == s.tm;
  }

  lemma ReapKeepsEnd(s: Sys, alloc: bool)
    requires RingOk(s) && LoopEnabled(s, LReap(alloc)) && EndLaw(s)
    ensures EndLaw(LoopStep(s, LReap(alloc)))
  {
    RoutesAsIntended(s, s.ring.cq[0]);
  }

  lemma EndEventKeepsEnd(s: Sys)
    requires s.pc.InEvent? && EndEventOk(s) && EndLaw(s)
    ensures EndLaw(EndEvent(s))
  {
    var s' := EndEvent(s);
    assert s'.hasStop == s.hasStop && s'.w == s.w && s'.pc == Reap;
  }

  lemma BodyKeepsEnd(s: Sys, b: Q.Body, from: From)
    requires EndLaw(s) && BodyOk(s, b) && (s.pc.RunMux? || s.pc.RunNmux?)
    ensures EndLaw(RunBody(s, b, from))
  {
  }

  lemma LoopKeepsEnd(s: Sys, l: Loop)
    requires RingOk(s) && LoopEnabled(s, l) && EndLaw(s)
    ensures EndLaw(LoopStep(s, l))
  {
    if l.LReap? {
      ReapKeepsEnd(s, l.alloc);
    } else if l.LEndEvent? {
      EndEventKeepsEnd(s);
    } else if l.LTake? {
      BodyKeepsEnd(s.(q := Q.Take(s.q)), s.q.pend[0].body, Thread(s.q.pend[0].from));
    } else if l.LTakeN? {
      BodyKeepsEnd(s.(q := Q.TakeN(s.q)), s.q.pendN[0], Own);
    }
  }

  lemma {:induction false} RunKeepsEnd(s: Sys, run: seq<Step>)
    requires RingOk(s) && EndLaw(s) && Legal(s, run)
    ensures EndLaw(Exec(s, run))
    decreases |run|
  {
    if run != [] {
      NextOkRing(s, run[0]);
      match run[0] {
        case F(f) =>
        case K(k) =>
        case L(l) => LoopKeepsEnd(s, l);
        case U(u) => UserKeepsEnd(s, u);
      }
      RunKeepsEnd(Next(s, run[0]), run[1..]);
    }
  }

  lemma {:induction false} SeenStays(s: Sys, run: seq<Step>)
    requires Legal(s, run)
    ensures s.hasStop ==> Exec(s, run).hasStop
    ensures s.hasStop && L(LPrune) in run ==> !Exec(s, run).w.open
    ensures !s.w.open ==> !Exec(s, run).w.open
    decreases |run|
  {
    if run != [] {
      SeenStep(s, run[0]);
      SeenStays(Next(s, run[0]), run[1..]);
      assert L(LPrune) in run ==> run[0] == L(LPrune) || L(LPrune) in run[1..];
    }
  }

  lemma SeenStep(s: Sys, st: Step)
    requires Enabled(s, st)
    ensures s.hasStop ==> Next(s, st).hasStop && (st == L(LPrune) ==> !Next(s, st).w.open)
    ensures !s.w.open ==> !Next(s, st).w.open
  {
    match st {
      case F(f) =>
      case K(k) =>
      case L(l) =>
        if l.LEndEvent? {
          assert EndEvent(s).w == s.w && EndEvent(s).hasStop == s.hasStop;
        }
      case U(u) => assert UserStep(s, u).hasStop == s.hasStop && UserStep(s, u).w.open == s.w.open;
    }
  }

  /** Over every run: once the loop has seen the stop it never waits again; the round ends, at its prune,
      with ring and eventfd closed and no timer left; and ring and eventfd are closed in no other way. */
  lemma StopEndsTheRound(pre: seq<Step>, run: seq<Step>)
    requires Legal(INIT, pre) && Exec(INIT, pre).hasStop && Legal(Exec(INIT, pre), run)
    ensures var f := Exec(Exec(INIT, pre), run);
      && !f.pc.Wait? && !f.pc.ReadSize?
      && (L(LPrune) in run ==> !f.w.open)
      && (!f.w.open ==> f.tm.t.nodes == {} && f.tm.t.slots == {})
  {
    RunOkRing(INIT, pre);
    RunKeepsEnd(INIT, pre);
    RunOkRing(Exec(INIT, pre), run);
    RunKeepsEnd(Exec(INIT, pre), run);
    SeenStays(Exec(INIT, pre), run);
  }

  /** Nothing but stop() ends the loop. */
  lemma EndsOnlyWhenAsked(run: seq<Step>)
    requires Legal(INIT, run) && !Exec(INIT, run).w.open
    ensures U(UStopLoop) in run || AskedIn(Exec(INIT, run).q)
  {
    StopArrives(run);
  }
}
