/** Eventfd, poll and wait in every run: the loop never sleeps on a task nobody will wake it for,
    and reading the eventfd never fails. */
module LoopWakeup {
  import opened LoopSystem
  import opened LoopRouting
  import Q = TaskQueues
  import S = StreamSpec
  import A = AcceptorLinux
  import Tags

  /** The eventfd completions waiting in the queue. */
  function Fires(r: Ring): nat {
    multiset(r.cq)[EFD_OP]
  }

  ghost predicate NoEfdFlying(r: Ring) {
    forall op :: op in r.flying ==> !op.owner.LoopEfd?
  }

  /** One poll, counted once: waiting in the kernel, in the completion queue, or in the hands of the
      loop between completion and re-arming. A completion means the eventfd is readable. */
  ghost predicate PollLaw(s: Sys) {
    match s.w.poll
    case Armed => Fires(s.ring) == 0 && !s.pc.EfdRead? && !s.pc.EfdArm? && !s.pc.Boot?
    case Fired => Fires(s.ring) == 1 && s.w.efd > 0 && !s.pc.EfdRead? && !s.pc.EfdArm? && !s.pc.Boot?
    case Off => Fires(s.ring) == 0 && (s.pc.Boot? || s.pc.EfdArm? || (s.pc.EfdRead? && s.w.efd > 0))
  }

  /** A queued task has its wake-up pending: a write still to come, an eventfd to read, or a swap
      later in this round. */
  ghost predicate TaskLaw(s: Sys) {
    && (s.q.mux != [] ==> s.q.queued != {} || s.w.efd > 0 || s.w.drained)
    && (s.w.drained ==>
          s.pc.EfdArm? || s.pc.EfdRead? || s.pc.Reap? || s.pc.InAlloc? || s.pc.InEvent? || s.pc.SwapMux?)
  }

  ghost predicate WakeOk(s: Sys) {
    s.w.open ==> NoEfdFlying(s.ring) && PollLaw(s) && TaskLaw(s)
  }

  /** The loop decided to wait and has not woken up. */
  predicate Sleeping(pc: Pc) {
    pc.Wait? && pc.sleep.Until?
  }

  lemma ForeignKeepsWake(s: Sys, f: Foreign)
    requires WakeOk(s) && ForeignEnabled(s, f)
    ensures WakeOk(ForeignStep(s, f))
  {
    match f {
      case FEnqueue(p) => assert p in ForeignStep(s, f).q.queued;
      case _ =>
    }
  }

  lemma KernelKeepsWake(s: Sys, k: Kernel)
    requires WakeOk(s) && KernelEnabled(s, k)
    ensures WakeOk(KernelStep(s, k))
  {
    match k {
      case KPoll =>
      case KComplete(op) =>
        assert op != EFD_OP;
        assert forall x :: x in s.ring.flying - multiset{op} ==> x in s.ring.flying;
      case KTimeout =>
        assert Op(Tags.TIMEOUT_TAG, TimeoutReq) != EFD_OP;
    }
  }

  /** Same wake state, queues, completion queue, and nothing of the loop's submitted. */
  ghost predicate Frames(s: Sys, s': Sys) {
    && s'.w == s.w && s'.q.mux == s.q.mux && s'.q.queued == s.q.queued && s'.ring.cq == s.ring.cq
    && (NoEfdFlying(s.ring) ==> NoEfdFlying(s'.ring))
  }

  lemma SubmitsOther(r: Ring, op: Op)
    requires NoEfdFlying(r) && !op.owner.LoopEfd?
    ensures NoEfdFlying(Submit(r, op))
  {
    assert forall x :: x in Submit(r, op).flying ==> x in r.flying || x == op;
  }

  lemma StreamEffectFrames(s: Sys, o: nat, r: (S.Flags, S.Effect))
    requires o < |s.objs| && s.objs[o].StreamObj? && NoEfdFlying(s.ring)
    ensures Frames(s, StreamEffect(s, o, r)) && StreamEffect(s, o, r).pc == s.pc
  {
    match r.1 {
      case SubmitRead => SubmitsOther(s.ring, Op(Tags.Pack(s.objs[o].rid, 0), Of(o, 0)));
      case SubmitWrite => SubmitsOther(s.ring, Op(Tags.Pack(s.objs[o].rid, 1), Of(o, 1)));
      case CancelRead => SubmitsOther(s.ring, Op(0, CancelReq));
      case _ =>
    }
  }

  lemma AcceptorEffectFrames(s: Sys, o: nat, r: (A.Flags, A.Effect))
    requires o < |s.objs| && s.objs[o].AcceptorObj? && NoEfdFlying(s.ring)
    ensures Frames(s, AcceptorEffect(s, o, r)) && AcceptorEffect(s, o, r).pc == s.pc
  {
    match r.1 {
      case SubmitAccept => SubmitsOther(s.ring, Op(Tags.Pack(s.objs[o].rid, 0), Of(o, 0)));
      case CancelAccept => SubmitsOther(s.ring, Op(0, CancelReq));
      case _ =>
    }
  }

  lemma UserKeepsWake(s: Sys, u: User)
    requires WakeOk(s) && UserEnabled(s, u)
    ensures WakeOk(UserStep(s, u))
  {
    if s.w.open {
      match u {
        case UStopLoop => SubmitsOther(s.ring, STOP_OP);
        case URead(o) => StreamEffectFrames(s, o, S.PostRead(s.objs[o].s));
        case UWrite(o) => StreamEffectFrames(s, o, S.PostWrite(s.objs[o].s));
        case UStop(o) => StreamEffectFrames(s, o, S.Stop(s.objs[o].s));
        case UAcceptor(h) => SubmitsOther(s.ring, Op(Tags.Pack(s.ring.next + 1, 0), Of(|s.objs|, 0)));
        case UStopAcceptor(o) => AcceptorEffectFrames(s, o, A.Stop(s.objs[o].a));
        case _ =>
      }
    }
  }

  lemma HeadFires(r: Ring)
    requires r.cq != []
    ensures Fires(r) == Fires(r.(cq := r.cq[1..])) + (if r.cq[0] == EFD_OP then 1 else 0)
  {
    assert r.cq == [r.cq[0]] + r.cq[1..];
  }

  lemma ReapKeepsWake(s: Sys, alloc: bool)
    requires RingOk(s) && WakeOk(s) && LoopEnabled(s, LReap(alloc))
    ensures WakeOk(LoopStep(s, LReap(alloc)))
  {
    var op := s.ring.cq[0];
    RoutesAsIntended(s, op);
    HeadFires(s.ring);
    assert op.owner.LoopEfd? <==> op == EFD_OP;
    var s' := LoopStep(s, LReap(alloc));
    assert s'.ring == s.ring.(cq := s.ring.cq[1..]) && s'.q == s.q;
    assert s'.w == (if op == EFD_OP then s.w.(poll := Off) else s.w);
  }

  lemma EndEventKeepsWake(s: Sys)
    requires WakeOk(s) && s.pc.InEvent? && EndEventOk(s)
    ensures WakeOk(EndEvent(s))
  {
    var o := s.pc.obj;
    if s.w.open {
      match s.objs[o] {
        case StreamObj(_, _, f) => StreamEffectFrames(s, o, if s.pc.ev == 0 then S.ReadEnd(f) else S.WriteEnd(f));
        case AcceptorObj(_, _, f) => AcceptorEffectFrames(s, o, A.AcceptEnd(f));
      }
    } else {
      assert EndEvent(s).w == s.w;
    }
  }

  lemma BodyKeepsWake(s: Sys, b: Q.Body, from: From)
    requires WakeOk(s) && (s.pc.RunMux? || s.pc.RunNmux?)
    ensures WakeOk(RunBody(s, b, from))
  {
    if s.w.open && b.StopLoop? {
      SubmitsOther(s.ring, STOP_OP);
    }
  }

  lemma LoopKeepsWake(s: Sys, l: Loop)
    requires RingOk(s) && WakeOk(s) && LoopEnabled(s, l)
    ensures WakeOk(LoopStep(s, l))
  {
    match l {
      case LReap(alloc) => ReapKeepsWake(s, alloc);
      case LEndEvent => EndEventKeepsWake(s);
      case LTake => BodyKeepsWake(s.(q := Q.Take(s.q)), s.q.pend[0].body, Thread(s.q.pend[0].from));
      case LTakeN => BodyKeepsWake(s.(q := Q.TakeN(s.q)), s.q.pendN[0], Own);
      case _ =>
    }
  }

  lemma NextKeepsWake(s: Sys, st: Step)
    requires RingOk(s) && WakeOk(s) && Enabled(s, st)
    ensures WakeOk(Next(s, st))
  {
    match st {
      case F(f) => ForeignKeepsWake(s, f);
      case K(k) => KernelKeepsWake(s, k);
      case L(l) => LoopKeepsWake(s, l);
      case U(u) => UserKeepsWake(s, u);
    }
  }

  lemma {:induction false} RunKeepsWake(s: Sys, run: seq<Step>)
    requires RingOk(s) && WakeOk(s) && Legal(s, run)
    ensures WakeOk(Exec(s, run))
    decreases |run|
  {
    if run != [] {
      NextOkRing(s, run[0]);
      NextKeepsWake(s, run[0]);
      RunKeepsWake(Next(s, run[0]), run[1..]);
    }
  }

  /** No lost wake-up, in every interleaving: while the loop is blocked in the wait with a task in
      the locked queue, either the eventfd is readable and its poll armed or completed, or some
      thread is still between its enqueue and its write. */
  lemma NoLostWakeup(run: seq<Step>)
    requires Legal(INIT, run)
    ensures var s := Exec(INIT, run);
      s.w.open && Sleeping(s.pc) && s.q.mux != [] ==>
        (s.w.efd > 0 && (s.w.poll.Armed? || s.w.poll.Fired?)) || s.q.queued != {}
  {
    RunKeepsWake(INIT, run);
  }

  /** Reading the eventfd never panics: whenever the loop is about to read it, the counter is
      positive; and exactly one poll is armed, completed or being handled. */
  lemma EfdReadSucceeds(run: seq<Step>)
    requires Legal(INIT, run)
    ensures var s := Exec(INIT, run);
      s.w.open && !s.pc.Boot? ==>
        && (s.pc.EfdRead? ==> s.w.efd > 0 && LoopEnabled(s, LEfdRead))
        && (if s.w.poll.Armed? then 1 else 0) + Fires(s.ring)
           + (if s.pc.EfdRead? || s.pc.EfdArm? then 1 else 0) == 1
  {
    RunKeepsWake(INIT, run);
  }

  /** ... and so the sleep ends without waiting for a timeout: at most one write and one poll
      completion, both already due, put a completion into the queue the loop is waiting on. */
  lemma BlockedLoopWakes(run: seq<Step>, now: int)
    requires Legal(INIT, run)
    requires Exec(INIT, run).w.open && Sleeping(Exec(INIT, run).pc) && Exec(INIT, run).q.mux != []
    ensures var s := Exec(INIT, run);
      exists due: seq<Step> :: |due| <= 2 && Legal(s, due) && LoopEnabled(Exec(s, due), LWake(now))
        && forall st :: st in due ==> st == K(KPoll) || st.F?
  {
    RunKeepsWake(INIT, run);
    var s := Exec(INIT, run);
    if s.w.poll.Fired? {
      assert EFD_OP in multiset(s.ring.cq);
      assert Legal(s, []) && LoopEnabled(Exec(s, []), LWake(now));
    } else if s.w.efd > 0 {
      PollWakes(s, now);
    } else {
      var p :| p in s.q.queued;
      WriteWakes(s, p, now);
    }
  }

  lemma WriteWakes(s: Sys, p: nat, now: int)
    requires s.w.open && s.w.poll.Armed? && p in s.q.queued && Sleeping(s.pc)
    ensures var due := [F(FWrite(p)), K(KPoll)]; Legal(s, due) && LoopEnabled(Exec(s, due), LWake(now))
  {
    var s1 := Next(s, F(FWrite(p)));
    PollWakes(s1, now);
    assert [F(FWrite(p)), K(KPoll)][1..] == [K(KPoll)];
  }

  lemma PollWakes(s: Sys, now: int)
    requires s.w.open && s.w.poll.Armed? && s.w.efd > 0 && Sleeping(s.pc)
    ensures Legal(s, [K(KPoll)]) && LoopEnabled(Exec(s, [K(KPoll)]), LWake(now))
  {
    assert [K(KPoll)][1..] == [];
    assert Exec(s, [K(KPoll)]) == Exec(Next(s, K(KPoll)), []);
  }
}
