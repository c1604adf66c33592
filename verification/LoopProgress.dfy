/** While ring and eventfd are open the loop thread never comes to a panic, nor to a state it cannot
    leave; and stop() of an object never panics. */
module LoopProgress {
  import opened LoopSystem
  import opened LoopRouting
  import opened LoopTimers
  import opened LoopWakeup
  import A = AcceptorLinux
  import Q = TaskQueues
  import S = StreamSpec
  import Tags

  /** An object closes only after its stop, and what it has submitted has an id that can be packed. */
  predicate ObjOk(x: Obj) {
    match x
    case StreamObj(rid, _, s) => (s.close ==> s.stop) && (s.reading || s.writing ==> rid <= Tags.MAX_ID)
    case AcceptorObj(rid, _, a) => (a.close ==> a.stop) && rid <= Tags.MAX_ID
  }

  ghost predicate CallsOk(s: Sys) {
    && (forall o :: 0 <= o < |s.objs| ==> ObjOk(s.objs[o]))
    && (Calling(s.pc) && s.pc.obj < |s.objs| ==> s.objs[s.pc.obj].rid <= Tags.MAX_ID)
    && (s.pc.Done? ==> !s.w.open)
  }

  /** Only object `o` changes, to `x`, and keeps its id; the loop thread stays or leaves the callback. */
  lemma OneObj(s: Sys, s': Sys, o: nat, x: Obj)
    requires CallsOk(s) && o < |s.objs| && s'.objs == s.objs[o := x] && ObjOk(x) && x.rid == s.objs[o].rid
    requires s'.pc == s.pc || s'.pc == Reap
    requires s'.w == s.w
    ensures CallsOk(s')
  {
  }

  lemma StreamCallOk(s: Sys, o: nat, r: (S.Flags, S.Effect))
    requires CallsOk(s) && o < |s.objs| && s.objs[o].StreamObj? && StreamEffectOk(s, o, r.1)
    requires r.0.close ==> r.0.stop
    requires (r.0.reading && !s.objs[o].s.reading) || (r.0.writing && !s.objs[o].s.writing) ==>
               r.1.SubmitRead? || r.1.SubmitWrite?
    ensures CallsOk(StreamEffect(s, o, r))
  {
    OneObj(s, StreamEffect(s, o, r), o, s.objs[o].(s := r.0));
  }

  lemma AcceptorCallOk(s: Sys, o: nat, r: (A.Flags, A.Effect))
    requires CallsOk(s) && o < |s.objs| && s.objs[o].AcceptorObj? && (r.0.close ==> r.0.stop)
    ensures CallsOk(AcceptorEffect(s, o, r))
  {
    OneObj(s, AcceptorEffect(s, o, r), o, s.objs[o].(a := r.0));
  }

  lemma UserOk(s: Sys, u: User)
    requires RingOk(s) && CallsOk(s) && UserEnabled(s, u)
    ensures CallsOk(UserStep(s, u))
  {
    match u {
      case URead(o) => StreamCallOk(s, o, S.PostRead(s.objs[o].s));
      case UWrite(o) => StreamCallOk(s, o, S.PostWrite(s.objs[o].s));
      case UStop(o) => StreamCallOk(s, o, S.Stop(s.objs[o].s));
      case UStopAcceptor(o) => AcceptorCallOk(s, o, A.Stop(s.objs[o].a));
      case UStream(_) => assert forall o :: 0 <= o < |s.objs| ==> UserStep(s, u).objs[o] == s.objs[o];
      case UAcceptor(_) => assert forall o :: 0 <= o < |s.objs| ==> UserStep(s, u).objs[o] == s.objs[o];
      case _ =>
    }
  }

  lemma ReapOk(s: Sys, alloc: bool)
    requires RingOk(s) && CallsOk(s) && LoopEnabled(s, LReap(alloc))
    ensures CallsOk(LoopStep(s, LReap(alloc)))
  {
    var op := s.ring.cq[0];
    RoutesAsIntended(s, op);
    assert OpOk(s.objs, op);
  }

  lemma EndEventIsOk(s: Sys)
    requires CallsOk(s) && LoopEnabled(s, LEndEvent)
    ensures CallsOk(LoopStep(s, LEndEvent))
  {
    var o := s.pc.obj;
    match s.objs[o] {
      case StreamObj(_, _, f) =>
        var r := if s.pc.ev == 0 then S.ReadEnd(f) else S.WriteEnd(f);
        StreamCallOk(s, o, r);
      case AcceptorObj(_, _, f) => AcceptorCallOk(s, o, A.AcceptEnd(f));
    }
  }

  lemma LoopOk(s: Sys, l: Loop)
    requires RingOk(s) && CallsOk(s) && LoopEnabled(s, l)
    ensures CallsOk(LoopStep(s, l))
  {
    if l.LReap? {
      ReapOk(s, l.alloc);
    } else if l.LEndEvent? {
      EndEventIsOk(s);
    } else if l.LEndAlloc? {
      assert LoopStep(s, l).objs == s.objs;
    } else if l.LTake? {
      BodyOkRing(s.(q := Q.Take(s.q)), s.q.pend[0].body, Thread(s.q.pend[0].from));
      assert !Calling(LoopStep(s, l).pc);
    } else if l.LTakeN? {
      BodyOkRing(s.(q := Q.TakeN(s.q)), s.q.pendN[0], Own);
      assert !Calling(LoopStep(s, l).pc);
    } else {
      QuietFrames(s, l);
    }
  }

  lemma NextOk(s: Sys, st: Step)
    requires RingOk(s) && CallsOk(s) && Enabled(s, st)
    ensures CallsOk(Next(s, st))
  {
    match st {
      case F(f) => assert ForeignStep(s, f).objs == s.objs && ForeignStep(s, f).pc == s.pc;
      case K(k) => assert KernelStep(s, k).objs == s.objs && KernelStep(s, k).pc == s.pc;
      case L(l) => LoopOk(s, l);
      case U(u) => UserOk(s, u);
    }
  }

  lemma {:induction false} RunOk(s: Sys, run: seq<Step>)
    requires RingOk(s) && CallsOk(s) && Legal(s, run)
    ensures RingOk(Exec(s, run)) && CallsOk(Exec(s, run))
    decreases |run|
  {
    if run != [] {
      NextOkRing(s, run[0]);
      NextOk(s, run[0]);
      RunOk(Next(s, run[0]), run[1..]);
    }
  }

  /** The step the loop thread takes next; a wait ends at the latest when its time is over. */
  ghost function NextMove(s: Sys): Loop {
    match s.pc
    case Boot => LStart
    case ReadSize => LReadSize
    case ReadCount => LReadCount(0)
    case Wait(sleep) => LWake(if sleep.Until? then sleep.until else 0)
    case Reap => if s.ring.cq == [] then LReapEnd else LReap(false)
    case EfdRead => LEfdRead
    case EfdArm => LEfdArm
    case InAlloc(_) => LEndAlloc
    case InEvent(_, _) => LEndEvent
    case SwapMux => LSwap
    case RunMux => if s.q.pend == [] then LSubtract else LTake
    case InMux => LEndTask
    case RunNmux => if s.q.pendN == [] then LCollect(0) else LTakeN
    case InNmux => LEndTaskN
    case Fire => if s.tm.runs == [] then LPrune else LFire
    case InTimer => LEndTimer
    case Done => LStart
  }

  lemma CallbackEnds(s: Sys)
    requires RingOk(s) && CallsOk(s) && s.w.open && s.pc.InEvent?
    ensures LoopEnabled(s, LEndEvent)
  {
    var o := s.pc.obj;
    assert o < |s.objs| && ObjOk(s.objs[o]);
  }

  /** Over every run: while ring and eventfd are open, the loop thread can go on from wherever it is. No
      completion finds an event it does not know or an object that is gone, no read of the eventfd finds
      it empty, no read or accept is submitted again for a closed object, and no task of the loop itself
      finds eventfd or ring closed. */
  lemma LoopGoesOn(run: seq<Step>)
    requires Legal(INIT, run) && Exec(INIT, run).w.open
    ensures LoopEnabled(Exec(INIT, run), NextMove(Exec(INIT, run)))
  {
    RunOk(INIT, run);
    RunKeepsWake(INIT, run);
    RunKeepsFromStart(run);
    Moves(Exec(INIT, run));
  }

  lemma Moves(s: Sys)
    requires RingOk(s) && CallsOk(s) && WakeOk(s) && HeapOk(s.tm) && s.w.open
    ensures LoopEnabled(s, NextMove(s))
  {
    if s.pc.InEvent? {
      CallbackEnds(s);
    } else if s.pc.Reap? && s.ring.cq != [] {
      RoutesAsIntended(s, s.ring.cq[0]);
    }
  }

  /** stop() of a stream or an acceptor never panics, in whatever state, as long as the loop is open. */
  lemma StopNeverPanics(run: seq<Step>, o: nat)
    requires Legal(INIT, run) && UserCode(Exec(INIT, run).pc) && Exec(INIT, run).w.open
    requires o < |Exec(INIT, run).objs|
    ensures UserEnabled(Exec(INIT, run), if Exec(INIT, run).objs[o].StreamObj? then UStop(o) else UStopAcceptor(o))
  {
    RunOk(INIT, run);
    assert ObjOk(Exec(INIT, run).objs[o]);
  }
}
