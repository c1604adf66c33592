/** Completions find their way by tag alone, in every run: to the object they were submitted for
    while it is registered, and nowhere once it has closed. */
module LoopRouting {
  import opened LoopSystem
  import Q = TaskQueues
  import S = StreamSpec
  import A = AcceptorLinux
  import Tags

  /** The tag of an operation is the one its owner packs. */
  ghost predicate OpOk(objs: seq<Obj>, op: Op) {
    match op.owner
    case LoopEfd => op == EFD_OP
    case LoopStop => op == STOP_OP
    case CancelReq => op.tag == 0
    case TimeoutReq => op.tag == Tags.TIMEOUT_TAG
    case Of(o, ev) =>
      && o < |objs| && ev <= 1 && (objs[o].AcceptorObj? ==> ev == 0)
      && objs[o].rid <= Tags.MAX_ID && op.tag == Tags.Pack(objs[o].rid, ev)
  }

  /** Register ids are never reused, and the callback map holds exactly the objects not closed. */
  ghost predicate RegOk(objs: seq<Obj>, r: Ring) {
    && LOOP_ID <= r.next
    && (forall x :: x in r.ever ==> LOOP_ID < x <= r.next)
    && (forall o :: 0 <= o < |objs| ==> objs[o].rid in r.ever && r.ever[objs[o].rid] == o)
    && (forall o :: 0 <= o < |objs| && !Closed(objs[o]) ==> objs[o].rid in r.reg)
    && (forall x :: x in r.reg ==>
          && x in r.ever && r.reg[x] == r.ever[x] < |objs|
          && objs[r.reg[x]].rid == x && !Closed(objs[r.reg[x]]))
  }

  ghost predicate OpsOk(objs: seq<Obj>, r: Ring) {
    && (forall op :: op in r.flying ==> OpOk(objs, op))
    && (forall i :: 0 <= i < |r.cq| ==> OpOk(objs, r.cq[i]))
  }

  /** A callback runs for an object there is: the alloc callback for a stream, and a stream's others
      for a read or a write. */
  ghost predicate PcOk(objs: seq<Obj>, pc: Pc) {
    && (pc.InAlloc? ==> pc.obj < |objs| && objs[pc.obj].StreamObj?)
    && (pc.InEvent? ==> pc.obj < |objs| && (objs[pc.obj].StreamObj? ==> pc.ev <= 1))
  }

  ghost predicate RingOk(s: Sys) {
    RegOk(s.objs, s.ring) && OpsOk(s.objs, s.ring) && PcOk(s.objs, s.pc)
  }

  /** Objects keep their kind, register id and evClose, and never reopen; new ones come last. */
  ghost predicate Grown(old_: seq<Obj>, new_: seq<Obj>) {
    && |old_| <= |new_|
    && forall o :: 0 <= o < |old_| ==>
         && new_[o].rid == old_[o].rid && new_[o].hasClose == old_[o].hasClose
         && (new_[o].StreamObj? <==> old_[o].StreamObj?)
         && (Closed(old_[o]) ==> Closed(new_[o]))
  }

  lemma OpsStay(objs: seq<Obj>, objs': seq<Obj>, r: Ring)
    requires OpsOk(objs, r) && Grown(objs, objs')
    ensures OpsOk(objs', r)
  {
  }

  /** One object changes and its closedness does not. */
  lemma ObjStays(objs: seq<Obj>, o: nat, x: Obj, r: Ring)
    requires RegOk(objs, r) && o < |objs|
    requires x.rid == objs[o].rid && (Closed(x) <==> Closed(objs[o]))
    ensures RegOk(objs[o := x], r)
  {
  }

  /** One object closes and leaves the map. */
  lemma ObjCloses(objs: seq<Obj>, o: nat, x: Obj, r: Ring)
    requires RegOk(objs, r) && o < |objs|
    requires x.rid == objs[o].rid && Closed(x) && !Closed(objs[o])
    ensures RegOk(objs[o := x], r.(reg := r.reg - {x.rid}))
  {
  }

  lemma SubmitOk(objs: seq<Obj>, r: Ring, op: Op)
    requires OpsOk(objs, r) && OpOk(objs, op)
    ensures OpsOk(objs, Submit(r, op))
  {
    assert forall x :: x in Submit(r, op).flying ==> x in r.flying || x == op;
  }

  lemma RingSubmits(s: Sys, op: Op)
    requires RingOk(s) && OpOk(s.objs, op)
    ensures RingOk(s.(ring := Submit(s.ring, op)))
  {
    SubmitOk(s.objs, s.ring, op);
  }

  // ---------- Object calls ----------

  /** A close comes with its CloseDown and only then. */
  predicate Fits(before: bool, after: bool, down: bool) {
    (down <==> !before && after) && (before ==> after)
  }

  lemma StreamEffectOkRing(s: Sys, o: nat, r: (S.Flags, S.Effect))
    requires RingOk(s) && o < |s.objs| && s.objs[o].StreamObj?
    requires Fits(s.objs[o].s.close, r.0.close, r.1.CloseDown?) && StreamEffectOk(s, o, r.1)
    ensures RingOk(StreamEffect(s, o, r)) && Grown(s.objs, StreamEffect(s, o, r).objs)
  {
    var x := s.objs[o].(s := r.0);
    var objs' := s.objs[o := x];
    OpsStay(s.objs, objs', s.ring);
    if r.1.CloseDown? {
      ObjCloses(s.objs, o, x, s.ring);
    } else {
      ObjStays(s.objs, o, x, s.ring);
      match r.1 {
        case SubmitRead => SubmitOk(objs', s.ring, Op(Tags.Pack(x.rid, 0), Of(o, 0)));
        case SubmitWrite => SubmitOk(objs', s.ring, Op(Tags.Pack(x.rid, 1), Of(o, 1)));
        case CancelRead => SubmitOk(objs', s.ring, Op(0, CancelReq));
        case _ =>
      }
    }
  }

  lemma AcceptorEffectOkRing(s: Sys, o: nat, r: (A.Flags, A.Effect))
    requires RingOk(s) && o < |s.objs| && s.objs[o].AcceptorObj?
    requires Fits(s.objs[o].a.close, r.0.close, r.1.CloseDown?) && AcceptorEffectOk(s, o, r.1)
    ensures RingOk(AcceptorEffect(s, o, r)) && Grown(s.objs, AcceptorEffect(s, o, r).objs)
  {
    var x := s.objs[o].(a := r.0);
    var objs' := s.objs[o := x];
    OpsStay(s.objs, objs', s.ring);
    if r.1.CloseDown? {
      ObjCloses(s.objs, o, x, s.ring);
    } else {
      ObjStays(s.objs, o, x, s.ring);
      match r.1 {
        case SubmitAccept => SubmitOk(objs', s.ring, Op(Tags.Pack(x.rid, 0), Of(o, 0)));
        case CancelAccept => SubmitOk(objs', s.ring, Op(0, CancelReq));
        case _ =>
      }
    }
  }

  lemma RegisterOk(s: Sys, x: Obj)
    requires RingOk(s) && x.rid == s.ring.next + 1 && !Closed(x)
    ensures RingOk(Register(s, x)) && Grown(s.objs, Register(s, x).objs)
  {
    OpsStay(s.objs, s.objs + [x], s.ring);
  }

  lemma EndEventOkRing(s: Sys)
    requires RingOk(s) && s.pc.InEvent? && EndEventOk(s)
    ensures RingOk(EndEvent(s)) && Grown(s.objs, EndEvent(s).objs)
  {
    var o := s.pc.obj;
    match s.objs[o] {
      case StreamObj(_, _, f) => StreamEffectOkRing(s, o, if s.pc.ev == 0 then S.ReadEnd(f) else S.WriteEnd(f));
      case AcceptorObj(_, _, f) => AcceptorEffectOkRing(s, o, A.AcceptEnd(f));
    }
  }

  lemma AcceptorStartsOkRing(s: Sys, h: bool)
    requires RingOk(s) && s.ring.next + 1 <= Tags.MAX_ID
    ensures RingOk(StartAcceptor(s, h)) && Grown(s.objs, StartAcceptor(s, h).objs)
  {
    var x := AcceptorObj(s.ring.next + 1, h, A.PostAccept(A.Flags(false, false, false)).0);
    RegisterOk(s, x);
    var s' := Register(s, x);
    var op := Op(Tags.Pack(x.rid, 0), Of(|s.objs|, 0));
    assert OpOk(s'.objs, op);
    RingSubmits(s', op);
    assert StartAcceptor(s, h) == s'.(ring := Submit(s'.ring, op));
  }

  lemma StreamCallsOkRing(s: Sys, u: User)
    requires RingOk(s) && UserEnabled(s, u) && (u.URead? || u.UWrite? || u.UStop?)
    ensures RingOk(UserStep(s, u)) && Grown(s.objs, UserStep(s, u).objs)
  {
    match u {
      case URead(o) => StreamEffectOkRing(s, o, S.PostRead(s.objs[o].s));
      case UWrite(o) => StreamEffectOkRing(s, o, S.PostWrite(s.objs[o].s));
      case UStop(o) => StreamEffectOkRing(s, o, S.Stop(s.objs[o].s));
    }
  }

  lemma UserOkRing(s: Sys, u: User)
    requires RingOk(s) && UserEnabled(s, u)
    ensures RingOk(UserStep(s, u)) && Grown(s.objs, UserStep(s, u).objs)
  {
    match u {
      case UStopLoop => SubmitOk(s.objs, s.ring, STOP_OP);
      case UStream(h) => RegisterOk(s, StreamObj(s.ring.next + 1, h, S.Flags(false, false, false, false)));
      case URead(_) => StreamCallsOkRing(s, u);
      case UWrite(_) => StreamCallsOkRing(s, u);
      case UStop(_) => StreamCallsOkRing(s, u);
      case UAcceptor(h) => AcceptorStartsOkRing(s, h);
      case UStopAcceptor(o) => AcceptorEffectOkRing(s, o, A.Stop(s.objs[o].a));
      case _ =>
    }
  }

  // ---------- Routing ----------

  /** Where the completion of an operation must go. */
  function Intended(objs: seq<Obj>, op: Op): Target
    requires op.owner.Of? ==> op.owner.obj < |objs|
  {
    match op.owner
    case LoopEfd => ToEfd
    case LoopStop => ToStop
    case CancelReq => Skip
    case TimeoutReq => Skip
    case Of(o, ev) => if Closed(objs[o]) then Skip else ToObj(o, ev)
  }

  /** The tag decides exactly as the owner would. */
  lemma RoutesAsIntended(s: Sys, op: Op)
    requires RingOk(s) && OpOk(s.objs, op)
    ensures Route(s.ring, op.tag) == Intended(s.objs, op)
    ensures Dispatchable(s, Route(s.ring, op.tag))
  {
    match op.owner {
      case Of(o, ev) =>
        var rid := s.objs[o].rid;
        Tags.ParseOfPack(rid, ev);
        assert op.tag == 8 * rid + ev && 0 < op.tag < Tags.TIMEOUT_TAG;
        assert Closed(s.objs[o]) ==> rid !in s.ring.reg;
      case LoopEfd => Tags.ParseOfPack(LOOP_ID, EV_EFD);
      case LoopStop => Tags.ParseOfPack(LOOP_ID, EV_STOP);
      case _ =>
    }
  }

  lemma DispatchOkRing(s: Sys, t: Target, alloc: bool)
    requires RingOk(s) && Dispatchable(s, t)
    ensures RingOk(Dispatch(s, t, alloc)) && Grown(s.objs, Dispatch(s, t, alloc).objs)
  {
    if t.ToObj? {
      var o := t.obj;
      var x := match s.objs[o]
        case StreamObj(_, _, f) => s.objs[o].(s := if t.ev == 0 then S.ReadBegin(f) else S.WriteBegin(f))
        case AcceptorObj(_, _, f) => s.objs[o].(a := A.AcceptBegin(f));
      ObjStays(s.objs, o, x, s.ring);
      OpsStay(s.objs, s.objs[o := x], s.ring);
    }
  }

  lemma BodyOkRing(s: Sys, b: Q.Body, from: From)
    requires RingOk(s)
    ensures RingOk(RunBody(s, b, from)) && RunBody(s, b, from).objs == s.objs
  {
    if b.StopLoop? {
      SubmitOk(s.objs, s.ring, STOP_OP);
    }
  }

  /** Steps that neither reap, nor end a callback of an object, nor run a task. */
  predicate Quiet(l: Loop) {
    !l.LReap? && !l.LEndAlloc? && !l.LEndEvent? && !l.LTake? && !l.LTakeN?
  }

  /** The loop thread is in a callback of an object. */
  predicate Calling(pc: Pc) {
    pc.InAlloc? || pc.InEvent?
  }

  lemma QuietFrames(s: Sys, l: Loop)
    requires LoopEnabled(s, l) && Quiet(l)
    ensures var s' := LoopStep(s, l); s'.objs == s.objs && s'.ring == s.ring && !Calling(s.pc) && !Calling(s'.pc)
  {
  }

  lemma ReapOkRing(s: Sys, alloc: bool)
    requires RingOk(s) && LoopEnabled(s, LReap(alloc))
    ensures RingOk(LoopStep(s, LReap(alloc))) && Grown(s.objs, LoopStep(s, LReap(alloc)).objs)
  {
    var s1 := s.(ring := s.ring.(cq := s.ring.cq[1..]));
    assert RingOk(s1);
    DispatchOkRing(s1, Route(s.ring, s.ring.cq[0].tag), alloc);
  }

  lemma LoopOkRing(s: Sys, l: Loop)
    requires RingOk(s) && LoopEnabled(s, l)
    ensures RingOk(LoopStep(s, l)) && Grown(s.objs, LoopStep(s, l).objs)
  {
    if l.LReap? {
      ReapOkRing(s, l.alloc);
    } else if l.LEndAlloc? {
      assert LoopStep(s, l).objs == s.objs && LoopStep(s, l).ring == s.ring;
    } else if l.LEndEvent? {
      EndEventOkRing(s);
    } else if l.LTake? {
      BodyOkRing(s.(q := Q.Take(s.q)), s.q.pend[0].body, Thread(s.q.pend[0].from));
    } else if l.LTakeN? {
      BodyOkRing(s.(q := Q.TakeN(s.q)), s.q.pendN[0], Own);
    } else {
      QuietFrames(s, l);
    }
  }

  /** An operation the kernel completes moves to the queue. */
  lemma Completes(objs: seq<Obj>, r: Ring, op: Op, flying: multiset<Op>)
    requires OpsOk(objs, r) && OpOk(objs, op) && flying <= r.flying
    ensures OpsOk(objs, r.(flying := flying, cq := r.cq + [op]))
  {
    assert forall x :: x in flying ==> x in r.flying;
  }

  lemma KernelOkRing(s: Sys, k: Kernel)
    requires RingOk(s) && KernelEnabled(s, k)
    ensures RingOk(KernelStep(s, k)) && Grown(s.objs, KernelStep(s, k).objs)
  {
    match k {
      case KPoll => Completes(s.objs, s.ring, EFD_OP, s.ring.flying);
      case KComplete(op) => Completes(s.objs, s.ring, op, s.ring.flying - multiset{op});
      case KTimeout => Completes(s.objs, s.ring, Op(Tags.TIMEOUT_TAG, TimeoutReq), s.ring.flying);
    }
  }

  lemma ForeignOkRing(s: Sys, f: Foreign)
    requires RingOk(s) && ForeignEnabled(s, f)
    ensures RingOk(ForeignStep(s, f)) && Grown(s.objs, ForeignStep(s, f).objs)
  {
    assert ForeignStep(s, f).ring == s.ring && ForeignStep(s, f).objs == s.objs;
  }

  lemma NextOkRing(s: Sys, st: Step)
    requires RingOk(s) && Enabled(s, st)
    ensures RingOk(Next(s, st)) && Grown(s.objs, Next(s, st).objs)
  {
    match st {
      case F(f) => ForeignOkRing(s, f);
      case K(k) => KernelOkRing(s, k);
      case L(l) => LoopOkRing(s, l);
      case U(u) => UserOkRing(s, u);
    }
  }

  lemma {:induction false} RunOkRing(s: Sys, run: seq<Step>)
    requires RingOk(s) && Legal(s, run)
    ensures RingOk(Exec(s, run)) && Grown(s.objs, Exec(s, run).objs)
    decreases |run|
  {
    if run != [] {
      NextOkRing(s, run[0]);
      RunOkRing(Next(s, run[0]), run[1..]);
    }
  }

  /** Completion routing, over every history of registrations, submissions, closes and completions:
      the completion at the head of the queue goes to the object it was submitted for, with its
      event, or nowhere if that object has closed since; the loop's own events and the tags it skips
      are never mistaken for one, and the callback never panics on an unknown event. */
  lemma CompletionRouting(run: seq<Step>)
    requires Legal(INIT, run)
    ensures var s := Exec(INIT, run);
      forall i :: 0 <= i < |s.ring.cq| ==>
        && (s.ring.cq[i].owner.Of? ==> s.ring.cq[i].owner.obj < |s.objs|)
        && Route(s.ring, s.ring.cq[i].tag) == Intended(s.objs, s.ring.cq[i])
        && Dispatchable(s, Route(s.ring, s.ring.cq[i].tag))
  {
    RunOkRing(INIT, run);
    var s := Exec(INIT, run);
    forall i | 0 <= i < |s.ring.cq|
      ensures Route(s.ring, s.ring.cq[i].tag) == Intended(s.objs, s.ring.cq[i])
      ensures Dispatchable(s, Route(s.ring, s.ring.cq[i].tag))
    {
      RoutesAsIntended(s, s.ring.cq[i]);
    }
  }
}
