/** Close is final, system-wide: queue, routing and lifecycles together. One callback may still follow
    a close: the read callback of the run_read whose alloc callback closed. */
module LoopClose {
  import opened LoopSystem
  import opened LoopRouting
  import opened LoopTasks
  import Q = TaskQueues
  import S = StreamSpec
  import A = AcceptorLinux

  /** The objects of the evClose calls in a log, and of the evClose tasks in a queue. */
  function ClosesIn(log: seq<Event>): seq<nat> {
    if log == [] then [] else
      ClosesIn(log[..|log| - 1]) + (if log[|log| - 1].CloseCb? then [log[|log| - 1].obj] else [])
  }

  function ClosesOf(tasks: seq<Q.Body>): seq<nat> {
    if tasks == [] then [] else
      ClosesOf(tasks[..|tasks| - 1]) + (if tasks[|tasks| - 1].EvClose? then [tasks[|tasks| - 1].obj] else [])
  }

  /** An evClose task was posted for exactly the objects that closed and have an evClose, once. */
  ghost predicate PostsOk(objs: seq<Obj>, hist: seq<Q.Body>) {
    && (forall i :: 0 <= i < |hist| && hist[i].EvClose? ==>
          hist[i].obj < |objs| && Closed(objs[hist[i].obj]) && objs[hist[i].obj].hasClose)
    && (forall o :: 0 <= o < |objs| && Closed(objs[o]) && objs[o].hasClose ==> Q.EvClose(o) in hist)
    && (forall i, j :: 0 <= i < j < |hist| && hist[i].EvClose? ==> hist[i] != hist[j])
  }

  ghost predicate NoForeignClose(q: Q.Queues) {
    && (forall t :: t in q.pend || t in q.mux ==> !t.body.EvClose?)
    && (forall p :: p in q.counted ==> !q.counted[p].EvClose?)
  }

  ghost predicate CloseLaw(s: Sys) {
    && PostsOk(s.objs, s.q.nmuxHist)
    && NoForeignClose(s.q)
    && ClosesIn(s.log) == ClosesOf(s.q.nmuxDone)
  }

  ghost predicate CloseOk(s: Sys) {
    RingOk(s) && TasksOk(s) && CloseLaw(s)
  }

  // ---------- The pieces ----------

  lemma LogAppend(log: seq<Event>, e: Event)
    ensures ClosesIn(log + [e]) == ClosesIn(log) + (if e.CloseCb? then [e.obj] else [])
  {
    assert (log + [e])[..|log|] == log;
  }

  lemma TasksAppend(ts: seq<Q.Body>, b: Q.Body)
    ensures ClosesOf(ts + [b]) == ClosesOf(ts) + (if b.EvClose? then [b.obj] else [])
  {
    assert (ts + [b])[..|ts|] == ts;
  }

  /** Nothing closes and nothing but plain tasks is posted. */
  lemma PostsStay(objs: seq<Obj>, objs': seq<Obj>, hist: seq<Q.Body>)
    requires PostsOk(objs, hist) && Grown(objs, objs')
    requires forall o :: 0 <= o < |objs'| && Closed(objs'[o]) ==> o < |objs| && Closed(objs[o])
    ensures PostsOk(objs', hist)
  {
  }

  lemma PostsPlain(objs: seq<Obj>, hist: seq<Q.Body>, b: Q.Body)
    requires PostsOk(objs, hist) && !b.EvClose?
    ensures PostsOk(objs, hist + [b])
  {
  }

  lemma PostsClose(objs: seq<Obj>, o: nat, x: Obj, hist: seq<Q.Body>)
    requires PostsOk(objs, hist) && o < |objs|
    requires !Closed(objs[o]) && Closed(x) && x.hasClose == objs[o].hasClose
    ensures PostsOk(objs[o := x], if x.hasClose then hist + [Q.EvClose(o)] else hist)
  {
    var hist' := if x.hasClose then hist + [Q.EvClose(o)] else hist;
    assert forall i :: 0 <= i < |hist| && hist[i].EvClose? ==> hist[i].obj != o;
    forall p | 0 <= p < |objs[o := x]| && Closed(objs[o := x][p]) && objs[o := x][p].hasClose
      ensures Q.EvClose(p) in hist'
    {
      if p == o {
        assert hist'[|hist|] == Q.EvClose(o);
      }
    }
  }

  /** The queue part of an object call: nothing, or the one post of its evClose. */
  ghost predicate PostsAtMost(s: Sys, s': Sys, o: nat, down: bool)
    requires o < |s.objs|
  {
    && s'.q == (if down && s.objs[o].hasClose then Q.PostIn(s.q, Q.EvClose(o)) else s.q)
    && s'.log == s.log
  }

  lemma StreamEffectCloses(s: Sys, o: nat, r: (S.Flags, S.Effect))
    requires CloseLaw(s) && o < |s.objs| && s.objs[o].StreamObj?
    requires Fits(s.objs[o].s.close, r.0.close, r.1.CloseDown?)
    ensures CloseLaw(StreamEffect(s, o, r)) && PostsAtMost(s, StreamEffect(s, o, r), o, r.1.CloseDown?)
  {
    var x := s.objs[o].(s := r.0);
    if r.1.CloseDown? {
      PostsClose(s.objs, o, x, s.q.nmuxHist);
    } else {
      PostsStay(s.objs, s.objs[o := x], s.q.nmuxHist);
    }
  }

  lemma AcceptorEffectCloses(s: Sys, o: nat, r: (A.Flags, A.Effect))
    requires CloseLaw(s) && o < |s.objs| && s.objs[o].AcceptorObj?
    requires Fits(s.objs[o].a.close, r.0.close, r.1.CloseDown?)
    ensures CloseLaw(AcceptorEffect(s, o, r)) && PostsAtMost(s, AcceptorEffect(s, o, r), o, r.1.CloseDown?)
  {
    var x := s.objs[o].(a := r.0);
    if r.1.CloseDown? {
      PostsClose(s.objs, o, x, s.q.nmuxHist);
    } else {
      PostsStay(s.objs, s.objs[o := x], s.q.nmuxHist);
    }
  }

  /** What one step may add to the log: at most one event; an I/O callback only of an object that is
      still open, or the read callback run_read calls when its alloc callback has returned; an evClose
      only as the next task of the loop's own queue; and nothing else where user code is running. */
  ghost predicate LogStep(s: Sys, s': Sys) {
    || s'.log == s.log
    || (exists e :: s'.log == s.log + [e] && AllowedEvent(s, e))
  }

  ghost predicate AllowedEvent(s: Sys, e: Event) {
    if UserCode(s.pc) then s.pc.InAlloc? && e == ReadCb(s.pc.obj)
    else match e
    case AllocCb(o) => o < |s.objs| && !Closed(s.objs[o])
    case ReadCb(o) => o < |s.objs| && !Closed(s.objs[o])
    case WriteCb(o) => o < |s.objs| && !Closed(s.objs[o])
    case ConnCb(o) => o < |s.objs| && !Closed(s.objs[o])
    case CloseCb(o) => s.pc.RunNmux? && s.q.pendN != [] && s.q.pendN[0] == Q.EvClose(o)
    case TimerCb(_) => true
    case TaskCb(_, _) => true
  }

  // ---------- Every step ----------

  lemma ForeignCloses(s: Sys, f: Foreign)
    requires CloseLaw(s) && ForeignEnabled(s, f)
    ensures CloseLaw(ForeignStep(s, f)) && ForeignStep(s, f).log == s.log
  {
  }

  lemma ReapCloses(s: Sys, alloc: bool)
    requires RingOk(s) && CloseLaw(s) && LoopEnabled(s, LReap(alloc))
    ensures CloseLaw(LoopStep(s, LReap(alloc))) && LogStep(s, LoopStep(s, LReap(alloc)))
  {
    var t := Route(s.ring, s.ring.cq[0].tag);
    RoutesAsIntended(s, s.ring.cq[0]);
    DispatchCloses(s.(ring := s.ring.(cq := s.ring.cq[1..])), t, alloc);
    if t.ToObj? {
      assert AllowedEvent(s, EventOf(s, t, alloc));
    }
  }

  function EventOf(s: Sys, t: Target, alloc: bool): Event
    requires t.ToObj? && Dispatchable(s, t)
  {
    if s.objs[t.obj].AcceptorObj? then ConnCb(t.obj)
    else if t.ev != 0 then WriteCb(t.obj)
    else if alloc then AllocCb(t.obj) else ReadCb(t.obj)
  }

  lemma DispatchFrames(s: Sys, t: Target, alloc: bool)
    requires Dispatchable(s, t)
    ensures var s' := Dispatch(s, t, alloc);
      && s'.q == s.q && s'.log == s.log + (if t.ToObj? then [EventOf(s, t, alloc)] else [])
      && |s'.objs| == |s.objs|
      && forall o :: 0 <= o < |s.objs| ==>
           && s'.objs[o].rid == s.objs[o].rid && s'.objs[o].hasClose == s.objs[o].hasClose
           && (s'.objs[o].StreamObj? <==> s.objs[o].StreamObj?) && Closed(s'.objs[o]) == Closed(s.objs[o])
  {
  }

  lemma DispatchCloses(s: Sys, t: Target, alloc: bool)
    requires CloseLaw(s) && Dispatchable(s, t)
    ensures CloseLaw(Dispatch(s, t, alloc))
    ensures Dispatch(s, t, alloc).log == s.log + (if t.ToObj? then [EventOf(s, t, alloc)] else [])
  {
    DispatchFrames(s, t, alloc);
    if t.ToObj? {
      LogAppend(s.log, EventOf(s, t, alloc));
      PostsStay(s.objs, Dispatch(s, t, alloc).objs, s.q.nmuxHist);
    }
  }

  lemma EndEventCloses(s: Sys)
    requires CloseLaw(s) && s.pc.InEvent? && EndEventOk(s)
    ensures CloseLaw(EndEvent(s)) && EndEvent(s).log == s.log
  {
    var o := s.pc.obj;
    match s.objs[o] {
      case StreamObj(_, _, f) => StreamEffectCloses(s, o, if s.pc.ev == 0 then S.ReadEnd(f) else S.WriteEnd(f));
      case AcceptorObj(_, _, f) => AcceptorEffectCloses(s, o, A.AcceptEnd(f));
    }
  }

  /** The user callback a task is, if it is one. */
  function BodyEvents(b: Q.Body, from: From): seq<Event> {
    if b.Plain? then [TaskCb(from, b.n)] else if b.EvClose? then [CloseCb(b.obj)] else []
  }

  lemma BodyCloses(s: Sys, b: Q.Body, from: From)
    ensures RunBody(s, b, from).log == s.log + BodyEvents(b, from)
    ensures RunBody(s, b, from).q == s.q && RunBody(s, b, from).objs == s.objs
    ensures ClosesIn(s.log + BodyEvents(b, from)) == ClosesIn(s.log) + (if b.EvClose? then [b.obj] else [])
  {
    if BodyEvents(b, from) != [] {
      LogAppend(s.log, BodyEvents(b, from)[0]);
    } else {
      assert s.log + [] == s.log;
    }
  }

  lemma TakeCloses(s: Sys)
    requires CloseLaw(s) && LoopEnabled(s, LTake)
    ensures CloseLaw(LoopStep(s, LTake)) && LogStep(s, LoopStep(s, LTake))
  {
    var t := s.q.pend[0];
    BodyCloses(s.(q := Q.Take(s.q)), t.body, Thread(t.from));
    assert t in s.q.pend && forall x :: x in s.q.pend[1..] ==> x in s.q.pend;
    assert t.body.Plain? ==> AllowedEvent(s, TaskCb(Thread(t.from), t.body.n));
  }

  lemma TakeNCloses(s: Sys)
    requires CloseLaw(s) && LoopEnabled(s, LTakeN)
    ensures CloseLaw(LoopStep(s, LTakeN)) && LogStep(s, LoopStep(s, LTakeN))
  {
    var b := s.q.pendN[0];
    BodyCloses(s.(q := Q.TakeN(s.q)), b, Own);
    TasksAppend(s.q.nmuxDone, b);
    assert b.Plain? ==> AllowedEvent(s, TaskCb(Own, b.n));
    assert b.EvClose? ==> AllowedEvent(s, CloseCb(b.obj));
  }

  lemma LoopCloses(s: Sys, l: Loop)
    requires RingOk(s) && CloseLaw(s) && LoopEnabled(s, l)
    ensures CloseLaw(LoopStep(s, l)) && LogStep(s, LoopStep(s, l))
  {
    match l {
      case LReap(alloc) => ReapCloses(s, alloc);
      case LEndAlloc =>
        LogAppend(s.log, ReadCb(s.pc.obj));
        assert AllowedEvent(s, ReadCb(s.pc.obj));
      case LEndEvent => EndEventCloses(s);
      case LTake => TakeCloses(s);
      case LTakeN => TakeNCloses(s);
      case LFire =>
        var e := TimerCb(s.tm.runs[0]);
        LogAppend(s.log, e);
        assert AllowedEvent(s, e);
      case _ =>
    }
  }

  lemma UserCloses(s: Sys, u: User)
    requires CloseLaw(s) && UserEnabled(s, u)
    ensures CloseLaw(UserStep(s, u)) && UserStep(s, u).log == s.log
    ensures s.q.nmuxHist <= UserStep(s, u).q.nmuxHist && UserStep(s, u).q.nmuxDone == s.q.nmuxDone
    ensures UserStep(s, u).pc == s.pc
  {
    match u {
      case UPost(n) => PostsPlain(s.objs, s.q.nmuxHist, Q.Plain(n));
      case UStream(_) => PostsStay(s.objs, UserStep(s, u).objs, s.q.nmuxHist);
      case UAcceptor(_) => PostsStay(s.objs, UserStep(s, u).objs, s.q.nmuxHist);
      case URead(o) => StreamEffectCloses(s, o, S.PostRead(s.objs[o].s));
      case UWrite(o) => StreamEffectCloses(s, o, S.PostWrite(s.objs[o].s));
      case UStop(o) => StreamEffectCloses(s, o, S.Stop(s.objs[o].s));
      case UStopAcceptor(o) => AcceptorEffectCloses(s, o, A.Stop(s.objs[o].a));
      case _ =>
    }
  }

  lemma NextCloses(s: Sys, st: Step)
    requires CloseOk(s) && Enabled(s, st)
    ensures CloseOk(Next(s, st)) && LogStep(s, Next(s, st))
  {
    NextOkRing(s, st);
    NextKeepsTasks(s, st);
    match st {
      case F(f) => ForeignCloses(s, f);
      case K(k) =>
      case L(l) => LoopCloses(s, l);
      case U(u) => UserCloses(s, u);
    }
  }

  lemma {:induction false} RunCloses(s: Sys, run: seq<Step>)
    requires CloseOk(s) && Legal(s, run)
    ensures CloseOk(Exec(s, run))
    decreases |run|
  {
    if run != [] {
      NextCloses(s, run[0]);
      RunCloses(Next(s, run[0]), run[1..]);
    }
  }

  lemma InitCloses()
    ensures CloseOk(INIT)
  {
    InitTasks();
  }

  // ---------- The theorems ----------

  predicate IsIo(e: Event, o: nat) {
    e == AllocCb(o) || e == ReadCb(o) || e == WriteCb(o) || e == ConnCb(o)
  }

  /** The only I/O callback a closed object can still get: the read callback that run_read calls when
      the alloc callback that is running returns. */
  predicate MayFollow(pc: Pc, o: nat, e: Event) {
    pc == InAlloc(o) && e == ReadCb(o)
  }

  /** Stays within the callback that runs in `s`: user calls, other threads and the kernel. */
  predicate WithinCallback(run: seq<Step>) {
    forall st :: st in run ==> !st.L?
  }

  lemma ClosedStep(s: Sys, st: Step, o: nat)
    requires CloseOk(s) && Enabled(s, st) && o < |s.objs| && Closed(s.objs[o])
    ensures CloseOk(Next(s, st)) && o < |Next(s, st).objs| && Closed(Next(s, st).objs[o])
    ensures s.pc == InAlloc(o) && st.L? ==> Next(s, st).log == s.log + [ReadCb(o)]
    ensures s.pc == InAlloc(o) && !st.L? ==> Next(s, st).log == s.log && Next(s, st).pc == s.pc
    ensures s.pc != InAlloc(o) || st.L? ==> Next(s, st).pc != InAlloc(o)
    ensures s.pc != InAlloc(o) ==>
              || Next(s, st).log == s.log
              || exists e :: Next(s, st).log == s.log + [e] && !IsIo(e, o)
  {
    NextCloses(s, st);
    NextOkRing(s, st);
    match st {
      case F(f) => assert ForeignStep(s, f).pc == s.pc && ForeignStep(s, f).log == s.log;
      case K(k) => assert KernelStep(s, k).pc == s.pc && KernelStep(s, k).log == s.log;
      case L(l) => ClosedLoopStep(s, l, o);
      case U(u) => UserCloses(s, u);
    }
  }

  lemma ClosedLoopStep(s: Sys, l: Loop, o: nat)
    requires RingOk(s) && CloseLaw(s) && LoopEnabled(s, l) && o < |s.objs| && Closed(s.objs[o])
    ensures s.pc == InAlloc(o) ==> LoopStep(s, l).log == s.log + [ReadCb(o)]
    ensures LoopStep(s, l).pc != InAlloc(o)
  {
    if l.LReap? {
      RoutesAsIntended(s, s.ring.cq[0]);
    }
  }

  lemma TailLeaves(run: seq<Step>)
    requires run != [] && !WithinCallback(run) && !run[0].L?
    ensures !WithinCallback(run[1..])
  {
    var st :| st in run && st.L?;
    assert st in run[1..];
  }

  /** One step of a closed object earlier, on logs alone. */
  lemma FinalBefore(before: seq<Event>, after: seq<Event>, log: seq<Event>, pc: Pc, pc': Pc, o: nat)
    requires after <= log
    requires forall i :: |after| <= i < |log| && IsIo(log[i], o) ==> i == |after| && MayFollow(pc', o, log[i])
    requires pc' == InAlloc(o) ==> after == before && pc == pc'
    requires after == before || exists e :: after == before + [e] && (IsIo(e, o) ==> MayFollow(pc, o, e))
    ensures before <= log
    ensures forall i :: |before| <= i < |log| && IsIo(log[i], o) ==> i == |before| && MayFollow(pc, o, log[i])
  {
    if after != before {
      assert log[|before|] == after[|before|];
    }
  }

  /** Once an object has closed, no alloc, read, write or connection callback of it is ever run again,
      whatever is still in the kernel, in the completion queue or in the task queues; with the one
      exception that an alloc callback which is still running is followed by its read callback, next
      and once. */
  lemma {:induction false} CloseIsFinal(s: Sys, run: seq<Step>, o: nat)
    requires CloseOk(s) && Legal(s, run) && o < |s.objs| && Closed(s.objs[o])
    ensures s.log <= Exec(s, run).log
    ensures forall i :: |s.log| <= i < |Exec(s, run).log| && IsIo(Exec(s, run).log[i], o) ==>
              i == |s.log| && MayFollow(s.pc, o, Exec(s, run).log[i])
    ensures s.pc == InAlloc(o) && !WithinCallback(run) ==>
              |s.log| < |Exec(s, run).log| && Exec(s, run).log[|s.log|] == ReadCb(o)
    ensures o < |Exec(s, run).objs| && Closed(Exec(s, run).objs[o])
    decreases |run|
  {
    if run != [] {
      var s' := Next(s, run[0]);
      ClosedStep(s, run[0], o);
      CloseIsFinal(s', run[1..], o);
      FinalBefore(s.log, s'.log, Exec(s, run).log, s.pc, s'.pc, o);
      if s.pc == InAlloc(o) && !WithinCallback(run) && !run[0].L? {
        TailLeaves(run);
      }
    }
  }

  /** The same from the start, at whatever point of whatever run an object has closed: nothing later
      calls it back, unless at that point its own alloc callback is running. */
  lemma ClosedMeansSilent(pre: seq<Step>, post: seq<Step>, o: nat)
    requires Legal(INIT, pre) && Legal(Exec(INIT, pre), post)
    requires o < |Exec(INIT, pre).objs| && Closed(Exec(INIT, pre).objs[o])
    ensures var s, after := Exec(INIT, pre), Exec(Exec(INIT, pre), post).log;
      && s.log <= after
      && forall i :: |s.log| <= i < |after| && IsIo(after[i], o) ==> i == |s.log| && MayFollow(s.pc, o, after[i])
  {
    InitCloses();
    RunCloses(INIT, pre);
    CloseIsFinal(Exec(INIT, pre), post, o);
  }

  // ---------- Exactly when a read callback follows a close ----------

  /** A first stop() that finds no write out and no read flagged, so that it closes at once. */
  ghost predicate ClosingStop(s: Sys, st: Step, o: nat) {
    && st == U(UStop(o)) && o < |s.objs| && s.objs[o].StreamObj?
    && !s.objs[o].s.stop && !s.objs[o].s.writing && !s.objs[o].s.reading
  }

  ghost predicate EverStopsClosing(s: Sys, run: seq<Step>, o: nat)
    requires Legal(s, run)
    decreases |run|
  {
    run != [] && (ClosingStop(s, run[0], o) || EverStopsClosing(Next(s, run[0]), run[1..], o))
  }

  lemma UserClosesExactly(s: Sys, u: User, o: nat)
    requires UserEnabled(s, u) && o < |s.objs| && s.objs[o].StreamObj? && !Closed(s.objs[o])
    ensures var s' := UserStep(s, u);
      && o < |s'.objs| && s'.objs[o].StreamObj?
      && (Closed(s'.objs[o]) <==> ClosingStop(s, U(u), o))
  {
  }

  lemma {:induction false} CallsCloseExactly(s: Sys, run: seq<Step>, o: nat)
    requires CloseOk(s) && UserCode(s.pc) && Legal(s, run) && WithinCallback(run)
    requires o < |s.objs| && s.objs[o].StreamObj? && !Closed(s.objs[o])
    ensures o < |Exec(s, run).objs| && (Closed(Exec(s, run).objs[o]) <==> EverStopsClosing(s, run, o))
    decreases |run|
  {
    if run != [] {
      var s' := Next(s, run[0]);
      assert run[0] in run && forall st :: st in run[1..] ==> st in run;
      NextCloses(s, run[0]);
      CallbackStep(s, run[0]);
      match run[0] {
        case F(f) => assert ForeignStep(s, f).objs == s.objs;
        case K(k) => assert KernelStep(s, k).objs == s.objs;
        case U(u) => UserClosesExactly(s, u, o);
      }
      if Closed(s'.objs[o]) {
        CloseIsFinal(s', run[1..], o);
      } else {
        CallsCloseExactly(s', run[1..], o);
      }
    }
  }

  lemma CallbackStep(s: Sys, st: Step)
    requires CloseOk(s) && Enabled(s, st) && !st.L?
    ensures Next(s, st).log == s.log && Next(s, st).pc == s.pc
    ensures s.q.nmuxHist <= Next(s, st).q.nmuxHist && Next(s, st).q.nmuxDone == s.q.nmuxDone
  {
    if st.U? {
      UserCloses(s, st.u);
    }
  }

  /** The loop hands a completion to an alloc callback only of an open stream, and with the read
      flag down. */
  lemma AllocStarts(s: Sys, o: nat)
    requires RingOk(s) && LoopEnabled(s, LReap(true)) && LoopStep(s, LReap(true)).pc == InAlloc(o)
    ensures var s' := LoopStep(s, LReap(true));
      && o < |s'.objs| && s'.objs[o].StreamObj? && !Closed(s'.objs[o]) && !s'.objs[o].s.reading
      && s'.log == s.log + [AllocCb(o)]
  {
    RoutesAsIntended(s, s.ring.cq[0]);
  }

  /** Over every run: the alloc callback of a stream starts, makes any calls and returns. The read
      callback is then called in any case; and it is called on a closed stream exactly when one of the
      calls was the first stop(), with no write out and no read() of the callback before it. */
  lemma ReadCallbackAfterClose(pre: seq<Step>, calls: seq<Step>, o: nat)
    requires Legal(INIT, pre) && LoopEnabled(Exec(INIT, pre), LReap(true))
    requires LoopStep(Exec(INIT, pre), LReap(true)).pc == InAlloc(o)
    requires Legal(LoopStep(Exec(INIT, pre), LReap(true)), calls) && WithinCallback(calls)
    ensures var begun := LoopStep(Exec(INIT, pre), LReap(true));
      var s := Exec(begun, calls);
      && o < |begun.objs| && begun.objs[o].StreamObj? && !Closed(begun.objs[o]) && !begun.objs[o].s.reading
      && LoopEnabled(s, LEndAlloc) && LoopStep(s, LEndAlloc).log == begun.log + [ReadCb(o)]
      && o < |s.objs| && (Closed(s.objs[o]) <==> EverStopsClosing(begun, calls, o))
  {
    InitCloses();
    RunCloses(INIT, pre);
    NextCloses(Exec(INIT, pre), L(LReap(true)));
    AllocStarts(Exec(INIT, pre), o);
    var begun := LoopStep(Exec(INIT, pre), LReap(true));
    CallbackIsAlone(begun, calls);
    CallsCloseExactly(begun, calls, o);
  }

  // ---------- evClose ----------

  lemma {:induction false} ClosesDistinct(ts: seq<Q.Body>, o: nat)
    requires forall i, j :: 0 <= i < j < |ts| && ts[i].EvClose? ==> ts[i] != ts[j]
    ensures o in ClosesOf(ts) <==> Q.EvClose(o) in ts
    ensures multiset(ClosesOf(ts))[o] <= 1
    decreases |ts|
  {
    if ts != [] {
      var n := |ts| - 1;
      ClosesDistinct(ts[..n], o);
      assert ts == ts[..n] + [ts[n]];
      if ts[n] == Q.EvClose(o) {
        assert Q.EvClose(o) !in ts[..n];
      }
    }
  }

  /** evClose runs at most once, only for an object that has closed, and only as the task its close
      posted to the loop's own queue; until then the task is in that queue or its running batch. */
  lemma EvCloseOnce(run: seq<Step>, o: nat)
    requires Legal(INIT, run)
    ensures var s := Exec(INIT, run);
      && multiset(ClosesIn(s.log))[o] <= 1
      && (o in ClosesIn(s.log) <==> Q.EvClose(o) in s.q.nmuxDone)
      && (o in ClosesIn(s.log) ==> o < |s.objs| && Closed(s.objs[o]) && s.objs[o].hasClose)
      && (o < |s.objs| && Closed(s.objs[o]) && s.objs[o].hasClose ==>
            Q.EvClose(o) in s.q.nmuxDone || Q.EvClose(o) in s.q.pendN || Q.EvClose(o) in s.q.nmux)
  {
    InitCloses();
    RunCloses(INIT, run);
    EvCloseFacts(Exec(INIT, run), o);
  }

  lemma EvCloseFacts(s: Sys, o: nat)
    requires CloseLaw(s) && Q.Conserved(s.q)
    ensures multiset(ClosesIn(s.log))[o] <= 1
    ensures o in ClosesIn(s.log) <==> Q.EvClose(o) in s.q.nmuxDone
    ensures o in ClosesIn(s.log) ==> o < |s.objs| && Closed(s.objs[o]) && s.objs[o].hasClose
    ensures o < |s.objs| && Closed(s.objs[o]) && s.objs[o].hasClose ==>
              Q.EvClose(o) in s.q.nmuxDone || Q.EvClose(o) in s.q.pendN || Q.EvClose(o) in s.q.nmux
  {
    var hist, done := s.q.nmuxHist, s.q.nmuxDone;
    assert forall i :: 0 <= i < |done| ==> hist[i] == done[i];
    ClosesDistinct(done, o);
    if Q.EvClose(o) in done {
      var i :| 0 <= i < |done| && done[i] == Q.EvClose(o);
      assert hist[i] == Q.EvClose(o);
    }
  }

  ghost predicate ClosedWithCallback(s: Sys, o: nat) {
    o < |s.objs| && Closed(s.objs[o]) && s.objs[o].hasClose
  }

  /** When exactly the own tasks posted before `s` have run, so have the evClose of the objects closed
      by then, and no others. */
  lemma RanByThen(s: Sys, f: Sys, o: nat)
    requires CloseLaw(s) && CloseLaw(f) && Q.Conserved(f.q) && f.q.nmuxDone == s.q.nmuxHist
    ensures o in ClosesIn(f.log) <==> ClosedWithCallback(s, o)
  {
    EvCloseFacts(f, o);
    if Q.EvClose(o) in s.q.nmuxHist {
      var i :| 0 <= i < |s.q.nmuxHist| && s.q.nmuxHist[i] == Q.EvClose(o);
    }
  }

  /** While a callback runs, nothing else is called back: in particular the evClose of an object it
      stops never runs inside it. Closing posts the task behind everything already queued. */
  lemma NeverInsideTheCallback(s: Sys, run: seq<Step>, o: nat)
    requires CloseOk(s) && UserCode(s.pc) && Legal(s, run) && WithinCallback(run)
    ensures Exec(s, run).log == s.log && Exec(s, run).pc == s.pc
    ensures s.q.nmuxHist <= Exec(s, run).q.nmuxHist && Exec(s, run).q.nmuxDone == s.q.nmuxDone
    ensures (o < |s.objs| <= |Exec(s, run).objs| && !Closed(s.objs[o]) && s.objs[o].hasClose
             && Closed(Exec(s, run).objs[o]))
            ==> Q.EvClose(o) in Exec(s, run).q.nmuxHist[|s.q.nmuxHist|..]
  {
    CallbackIsAlone(s, run);
    RunCloses(s, run);
    RunOkRing(s, run);
    if o < |s.objs| && !Closed(s.objs[o]) && s.objs[o].hasClose && Closed(Exec(s, run).objs[o]) {
      PostedBehind(s.objs, o, s.q.nmuxHist, Exec(s, run).q.nmuxHist);
    }
  }

  lemma PostedBehind(objs: seq<Obj>, o: nat, hist: seq<Q.Body>, hist': seq<Q.Body>)
    requires PostsOk(objs, hist) && o < |objs| && !Closed(objs[o])
    requires hist <= hist' && Q.EvClose(o) in hist'
    ensures Q.EvClose(o) in hist'[|hist|..]
  {
    assert hist' == hist + hist'[|hist|..];
    assert Q.EvClose(o) !in hist;
  }

  lemma {:induction false} CallbackIsAlone(s: Sys, run: seq<Step>)
    requires CloseOk(s) && UserCode(s.pc) && Legal(s, run) && WithinCallback(run)
    ensures Exec(s, run).log == s.log && Exec(s, run).pc == s.pc
    ensures s.q.nmuxHist <= Exec(s, run).q.nmuxHist && Exec(s, run).q.nmuxDone == s.q.nmuxDone
    decreases |run|
  {
    if run != [] {
      assert run[0] in run && forall st :: st in run[1..] ==> st in run;
      NextCloses(s, run[0]);
      CallbackStep(s, run[0]);
      CallbackIsAlone(Next(s, run[0]), run[1..]);
    }
  }
}
