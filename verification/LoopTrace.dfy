/** What a run of the loop calls back, from end to end: the tasks that were posted, each thread's in its
    order; the completions of open objects; and what the eventfd counts. */
module LoopTrace {
  import opened TimerHeap
  import opened LoopSystem
  import opened LoopRouting
  import opened LoopTasks
  import A = AcceptorLinux
  import Q = TaskQueues
  import S = StreamSpec

  // ---------- Tasks ----------

  /** The user tasks of one origin that a log shows. */
  function TasksBy(log: seq<Event>, from: From): seq<nat> {
    if log == [] then [] else
      var e := log[|log| - 1];
      TasksBy(log[..|log| - 1], from) + (if e.TaskCb? && e.from == from then [e.n] else [])
  }

  function Plains(bodies: seq<Q.Body>): seq<nat> {
    if bodies == [] then [] else
      var b := bodies[|bodies| - 1];
      Plains(bodies[..|bodies| - 1]) + (if b.Plain? then [b.n] else [])
  }

  /** post() of user code on thread `p`, and on the loop thread, as a run makes them. */
  function PostsBy(run: seq<Step>, p: nat): seq<nat> {
    if run == [] then [] else
      var st := run[0];
      (if st.F? && st.f.FPost? && st.f.p == p && st.f.b.Plain? then [st.f.b.n] else []) + PostsBy(run[1..], p)
  }

  function OwnPosts(run: seq<Step>): seq<nat> {
    if run == [] then [] else
      (if run[0].U? && run[0].u.UPost? then [run[0].u.n] else []) + OwnPosts(run[1..])
  }

  lemma TasksAppend(log: seq<Event>, e: Event, from: From)
    ensures TasksBy(log + [e], from) == TasksBy(log, from) + (if e.TaskCb? && e.from == from then [e.n] else [])
  {
    assert (log + [e])[..|log|] == log;
  }

  lemma PlainsAppend(bodies: seq<Q.Body>, b: Q.Body)
    ensures Plains(bodies + [b]) == Plains(bodies) + (if b.Plain? then [b.n] else [])
  {
    assert (bodies + [b])[..|bodies|] == bodies;
  }

  lemma {:induction false} PlainsPrefix(p: seq<Q.Body>, q: seq<Q.Body>)
    requires p <= q
    ensures Plains(p) <= Plains(q)
    decreases |q|
  {
    if p == q {
    } else {
      PlainsPrefix(p, q[..|q| - 1]);
    }
  }

  lemma OfAppend(ts: seq<Q.Task>, t: Q.Task, p: nat)
    ensures Q.Of(ts + [t], p) == Q.Of(ts, p) + (if t.from == p then [t.body] else [])
  {
    assert (ts + [t])[..|ts|] == ts;
  }

  /** The log shows the tasks the queues say have run. */
  ghost predicate LogLaw(s: Sys) {
    && (forall p: nat :: TasksBy(s.log, Thread(p)) == Plains(Q.Of(s.q.muxDone, p)))
    && TasksBy(s.log, Own) == Plains(s.q.nmuxDone)
  }

  /** No task is run or shown. */
  ghost predicate NoTask(s: Sys, s': Sys) {
    && s'.q.muxDone == s.q.muxDone && s'.q.nmuxDone == s.q.nmuxDone
    && (s'.log == s.log || exists e: Event :: !e.TaskCb? && s'.log == s.log + [e])
  }

  lemma NoTaskKeeps(s: Sys, s': Sys)
    requires LogLaw(s) && NoTask(s, s')
    ensures LogLaw(s')
  {
    if s'.log != s.log {
      var e: Event :| !e.TaskCb? && s'.log == s.log + [e];
      forall from: From
        ensures TasksBy(s'.log, from) == TasksBy(s.log, from)
      {
        TasksAppend(s.log, e, from);
      }
    }
  }

  lemma ReapShows(s: Sys, alloc: bool)
    requires LoopEnabled(s, LReap(alloc))
    ensures NoTask(s, LoopStep(s, LReap(alloc)))
  {
    var s' := LoopStep(s, LReap(alloc));
    if s'.log != s.log {
      var e := s'.log[|s.log|];
      assert !e.TaskCb? && s'.log == s.log + [e];
    }
  }

  lemma EndEventShows(s: Sys)
    requires s.pc.InEvent? && EndEventOk(s)
    ensures NoTask(s, EndEvent(s)) && EndEvent(s).log == s.log
  {
  }

  lemma OtherShows(s: Sys, l: Loop)
    requires LoopEnabled(s, l) && !l.LReap? && !l.LEndEvent? && !l.LTake? && !l.LTakeN?
    ensures NoTask(s, LoopStep(s, l))
  {
    if l.LFire? {
      assert !TimerCb(s.tm.runs[0]).TaskCb?;
    } else if l.LEndAlloc? {
      assert !ReadCb(s.pc.obj).TaskCb?;
    } else {
      assert LoopStep(s, l).log == s.log;
    }
  }

  lemma BodyShows(s: Sys, b: Q.Body, from: From)
    ensures RunBody(s, b, from).q == s.q
    ensures forall f: From :: TasksBy(RunBody(s, b, from).log, f)
                           == TasksBy(s.log, f) + (if b.Plain? && f == from then [b.n] else [])
  {
    forall f: From
      ensures TasksBy(RunBody(s, b, from).log, f)
           == TasksBy(s.log, f) + (if b.Plain? && f == from then [b.n] else [])
    {
      match b {
        case Plain(n) => TasksAppend(s.log, TaskCb(from, n), f);
        case EvClose(o) => TasksAppend(s.log, CloseCb(o), f);
        case _ =>
      }
    }
  }

  lemma TakeShows(s: Sys)
    requires LogLaw(s) && LoopEnabled(s, LTake)
    ensures LogLaw(LoopStep(s, LTake))
  {
    var t := s.q.pend[0];
    BodyShows(s.(q := Q.Take(s.q)), t.body, Thread(t.from));
    forall p: nat
      ensures TasksBy(LoopStep(s, LTake).log, Thread(p)) == Plains(Q.Of(s.q.muxDone + [t], p))
    {
      OfAppend(s.q.muxDone, t, p);
      if t.from == p {
        PlainsAppend(Q.Of(s.q.muxDone, p), t.body);
      } else {
        assert Q.Of(s.q.muxDone, p) + [] == Q.Of(s.q.muxDone, p);
        assert TasksBy(s.log, Thread(p)) + [] == TasksBy(s.log, Thread(p));
      }
    }
  }

  lemma TakeNShows(s: Sys)
    requires LogLaw(s) && LoopEnabled(s, LTakeN)
    ensures LogLaw(LoopStep(s, LTakeN))
  {
    BodyShows(s.(q := Q.TakeN(s.q)), s.q.pendN[0], Own);
    PlainsAppend(s.q.nmuxDone, s.q.pendN[0]);
  }

  lemma UserShows(s: Sys, u: User)
    requires UserEnabled(s, u)
    ensures NoTask(s, UserStep(s, u)) && UserStep(s, u).log == s.log
  {
  }

  lemma NextShows(s: Sys, st: Step)
    requires LogLaw(s) && Enabled(s, st)
    ensures LogLaw(Next(s, st))
  {
    if st.L? && st.l.LTake? {
      TakeShows(s);
    } else if st.L? && st.l.LTakeN? {
      TakeNShows(s);
    } else {
      match st {
        case F(f) => assert NoTask(s, ForeignStep(s, f));
        case K(k) => assert NoTask(s, KernelStep(s, k));
        case L(l) =>
          if l.LReap? {
            ReapShows(s, l.alloc);
          } else if l.LEndEvent? {
            EndEventShows(s);
          } else {
            OtherShows(s, l);
          }
        case U(u) => UserShows(s, u);
      }
      NoTaskKeeps(s, Next(s, st));
    }
  }

  /** The histories hold the posts of the run. */
  ghost predicate PostsFrom(s: Sys, s': Sys, run: seq<Step>) {
    && (forall p :: Plains(Q.CallsOf(s'.q, p)) == Plains(Q.CallsOf(s.q, p)) + PostsBy(run, p))
    && Plains(s'.q.nmuxHist) == Plains(s.q.nmuxHist) + OwnPosts(run)
  }

  lemma PostsOne(st: Step)
    ensures forall p :: PostsBy([st], p)
              == if st.F? && st.f.FPost? && st.f.p == p && st.f.b.Plain? then [st.f.b.n] else []
    ensures OwnPosts([st]) == if st.U? && st.u.UPost? then [st.u.n] else []
  {
    assert [st][1..] == [];
  }

  /** Only posts on the loop thread and closes grow its history. */
  lemma EffectPosts(q: Q.Queues, o: nat)
    ensures Plains(Q.PostIn(q, Q.EvClose(o)).nmuxHist) == Plains(q.nmuxHist)
  {
    PlainsAppend(q.nmuxHist, Q.EvClose(o));
  }

  lemma StreamPosts(s: Sys, o: nat, r: (S.Flags, S.Effect))
    requires o < |s.objs| && s.objs[o].StreamObj?
    ensures var q := StreamEffect(s, o, r).q; Plains(q.nmuxHist) == Plains(s.q.nmuxHist) && q.calls == s.q.calls
  {
    EffectPosts(s.q, o);
  }

  lemma AcceptorPosts(s: Sys, o: nat, r: (A.Flags, A.Effect))
    requires o < |s.objs| && s.objs[o].AcceptorObj?
    ensures var q := AcceptorEffect(s, o, r).q; Plains(q.nmuxHist) == Plains(s.q.nmuxHist) && q.calls == s.q.calls
  {
    EffectPosts(s.q, o);
  }

  lemma UserPosts(s: Sys, u: User)
    requires UserEnabled(s, u)
    ensures var q := UserStep(s, u).q;
      Plains(q.nmuxHist) == Plains(s.q.nmuxHist) + OwnPosts([U(u)]) && q.calls == s.q.calls
  {
    PostsOne(U(u));
    match u {
      case UPost(n) => PlainsAppend(s.q.nmuxHist, Q.Plain(n));
      case URead(o) => StreamPosts(s, o, S.PostRead(s.objs[o].s));
      case UWrite(o) => StreamPosts(s, o, S.PostWrite(s.objs[o].s));
      case UStop(o) => StreamPosts(s, o, S.Stop(s.objs[o].s));
      case UStopAcceptor(o) => AcceptorPosts(s, o, A.Stop(s.objs[o].a));
      case _ =>
    }
  }

  lemma LoopPosts(s: Sys, l: Loop)
    requires LoopEnabled(s, l)
    ensures var q := LoopStep(s, l).q; Plains(q.nmuxHist) == Plains(s.q.nmuxHist) && q.calls == s.q.calls
  {
    if l.LEndEvent? {
      var o := s.pc.obj;
      match s.objs[o] {
        case StreamObj(_, _, f) => StreamPosts(s, o, if s.pc.ev == 0 then S.ReadEnd(f) else S.WriteEnd(f));
        case AcceptorObj(_, _, f) => AcceptorPosts(s, o, A.AcceptEnd(f));
      }
    } else if l.LReap? {
      assert LoopStep(s, l).q == s.q;
    } else if l.LTake? {
      assert LoopStep(s, l).q == Q.Take(s.q);
    } else if l.LTakeN? {
      assert LoopStep(s, l).q == Q.TakeN(s.q);
    }
  }

  lemma ForeignPosts(s: Sys, f: Foreign)
    requires ForeignEnabled(s, f)
    ensures PostsFrom(s, ForeignStep(s, f), [F(f)])
  {
    PostsOne(F(f));
    forall p
      ensures Plains(Q.CallsOf(ForeignStep(s, f).q, p)) == Plains(Q.CallsOf(s.q, p)) + PostsBy([F(f)], p)
    {
      match f {
        case FPost(p', b) => PlainsAppend(Q.CallsOf(s.q, p), b);
        case FAddTimer(p', e, c) =>
          PlainsAppend(Q.CallsOf(s.q, p), Q.AddTimer(TimerNode(TimerId(e, s.tm.t.next), c)));
        case _ =>
      }
    }
  }

  lemma NextPosts(s: Sys, st: Step)
    requires Enabled(s, st)
    ensures PostsFrom(s, Next(s, st), [st])
  {
    PostsOne(st);
    match st {
      case F(f) => ForeignPosts(s, f);
      case K(k) => assert KernelStep(s, k).q == s.q;
      case L(l) => LoopPosts(s, l);
      case U(u) => UserPosts(s, u);
    }
  }

  lemma {:induction false} RunPosts(s: Sys, run: seq<Step>)
    requires LogLaw(s) && Legal(s, run)
    ensures LogLaw(Exec(s, run)) && PostsFrom(s, Exec(s, run), run)
    decreases |run|
  {
    if run != [] {
      var s' := Next(s, run[0]);
      NextShows(s, run[0]);
      NextPosts(s, run[0]);
      RunPosts(s', run[1..]);
      PostsJoin(s, s', Exec(s, run), run);
    }
  }

  lemma PostsJoin(s: Sys, s': Sys, f: Sys, run: seq<Step>)
    requires run != [] && PostsFrom(s, s', [run[0]]) && PostsFrom(s', f, run[1..])
    ensures PostsFrom(s, f, run)
  {
    PostsCompose(run);
    forall p
      ensures Plains(Q.CallsOf(f.q, p)) == Plains(Q.CallsOf(s.q, p)) + PostsBy(run, p)
    {
      var a, b, c := Plains(Q.CallsOf(s.q, p)), PostsBy([run[0]], p), PostsBy(run[1..], p);
      assert (a + b) + c == a + (b + c);
    }
    var a, b, c := Plains(s.q.nmuxHist), OwnPosts([run[0]]), OwnPosts(run[1..]);
    assert (a + b) + c == a + (b + c);
  }

  lemma PostsCompose(run: seq<Step>)
    requires run != []
    ensures forall p :: PostsBy(run, p) == PostsBy([run[0]], p) + PostsBy(run[1..], p)
    ensures OwnPosts(run) == OwnPosts([run[0]]) + OwnPosts(run[1..])
  {
    PostsOne(run[0]);
  }

  /** Over every run, from the post() calls to the callbacks: the user tasks called back for a thread are a
      first part of what it posted, in its order, and so for the loop thread; and each task that was
      taken out of a queue was called back. */
  lemma TasksRunAsPosted(run: seq<Step>)
    requires Legal(INIT, run)
    ensures var s := Exec(INIT, run);
      && (forall p: nat :: TasksBy(s.log, Thread(p)) <= PostsBy(run, p))
      && TasksBy(s.log, Own) <= OwnPosts(run)
      && (forall p: nat :: s.q.pend == [] && s.q.mux == [] && p !in s.q.counted ==>
            TasksBy(s.log, Thread(p)) == PostsBy(run, p))
      && (s.q.pendN == [] && s.q.nmux == [] ==> TasksBy(s.log, Own) == OwnPosts(run))
  {
    InitTasks();
    RunKeepsTasks(INIT, run);
    RunPosts(INIT, run);
    var s := Exec(INIT, run);
    forall p: nat
      ensures TasksBy(s.log, Thread(p)) <= PostsBy(run, p)
      ensures s.q.pend == [] && s.q.mux == [] && p !in s.q.counted ==>
                TasksBy(s.log, Thread(p)) == PostsBy(run, p)
    {
      ThreadTasks(s, run, p);
    }
    OwnTasks(s, run);
  }

  lemma ThreadTasks(s: Sys, run: seq<Step>, p: nat)
    requires Q.Inv(s.q) && LogLaw(s) && PostsFrom(INIT, s, run)
    ensures TasksBy(s.log, Thread(p)) <= PostsBy(run, p)
    ensures s.q.pend == [] && s.q.mux == [] && p !in s.q.counted ==> TasksBy(s.log, Thread(p)) == PostsBy(run, p)
  {
    ThreadPosts(s, run, p);
    CallsBound(s.q, p);
  }

  lemma ThreadPosts(s: Sys, run: seq<Step>, p: nat)
    requires PostsFrom(INIT, s, run)
    ensures Plains(Q.CallsOf(s.q, p)) == PostsBy(run, p)
  {
    assert Q.CallsOf(INIT.q, p) == [];
    assert Plains(Q.CallsOf(s.q, p)) == Plains(Q.CallsOf(INIT.q, p)) + PostsBy(run, p);
  }

  lemma CallsBound(q: Q.Queues, p: nat)
    requires Q.Inv(q)
    ensures Plains(Q.Of(q.muxDone, p)) <= Plains(Q.CallsOf(q, p))
    ensures q.pend == [] && q.mux == [] && p !in q.counted ==> Plains(Q.Of(q.muxDone, p)) == Plains(Q.CallsOf(q, p))
  {
    Q.RunInCallOrder(q, p);
    PlainsPrefix(Q.Of(q.muxDone, p), Q.CallsOf(q, p));
    if q.pend == [] && q.mux == [] && p !in q.counted {
      AllCallsRan(q, p);
    }
  }

  lemma AllCallsRan(q: Q.Queues, p: nat)
    requires Q.Conserved(q) && Q.InOrder(q) && q.pend == [] && q.mux == [] && p !in q.counted
    ensures Q.Of(q.muxDone, p) == Q.CallsOf(q, p)
  {
    assert q.muxHist == q.muxDone;
    assert Q.Of(q.muxHist, p) + Q.InHand(q, p) == Q.CallsOf(q, p);
  }

  lemma OwnTasks(s: Sys, run: seq<Step>)
    requires Q.Inv(s.q) && LogLaw(s) && PostsFrom(INIT, s, run)
    ensures TasksBy(s.log, Own) <= OwnPosts(run)
    ensures s.q.pendN == [] && s.q.nmux == [] ==> TasksBy(s.log, Own) == OwnPosts(run)
  {
    assert s.q.nmuxDone <= s.q.nmuxHist;
    PlainsPrefix(s.q.nmuxDone, s.q.nmuxHist);
    if s.q.pendN == [] && s.q.nmux == [] {
      assert s.q.nmuxHist == s.q.nmuxDone;
    }
  }

  /** What thread `p` posts in a step, the loop's own lambdas included: a timer with the deadline and the
      callback it was added with. */
  function CallMade(s: Sys, st: Step, p: nat): seq<Q.Body> {
    if st.F? && st.f.FPost? && st.f.p == p then [st.f.b]
    else if st.F? && st.f.FAddTimer? && st.f.p == p then
      [Q.AddTimer(TimerNode(TimerId(st.f.expire, s.tm.t.next), st.f.cb))]
    else []
  }

  ghost function CallsMade(s: Sys, run: seq<Step>, p: nat): seq<Q.Body>
    requires Legal(s, run)
    decreases |run|
  {
    if run == [] then [] else CallMade(s, run[0], p) + CallsMade(Next(s, run[0]), run[1..], p)
  }

  lemma StepCalls(s: Sys, st: Step, p: nat)
    requires Enabled(s, st)
    ensures Q.CallsOf(Next(s, st).q, p) == Q.CallsOf(s.q, p) + CallMade(s, st, p)
  {
    match st {
      case F(f) =>
      case K(k) => assert KernelStep(s, k).q == s.q;
      case L(l) => LoopPosts(s, l);
      case U(u) => UserPosts(s, u);
    }
  }

  /** Over every run: the calls of a thread, as the laws about its order speak of them, are those it made. */
  lemma {:induction false} CallsRecorded(s: Sys, run: seq<Step>, p: nat)
    requires Legal(s, run)
    ensures Q.CallsOf(Exec(s, run).q, p) == Q.CallsOf(s.q, p) + CallsMade(s, run, p)
    decreases |run|
  {
    if run == [] {
      assert Q.CallsOf(s.q, p) + [] == Q.CallsOf(s.q, p);
    } else {
      var s' := Next(s, run[0]);
      StepCalls(s, run[0], p);
      CallsRecorded(s', run[1..], p);
      Joins(Q.CallsOf(s.q, p), CallMade(s, run[0], p), CallsMade(s', run[1..], p));
    }
  }

  lemma Joins(a: seq<Q.Body>, b: seq<Q.Body>, c: seq<Q.Body>)
    ensures (a + b) + c == a + (b + c)
  {
  }

  // ---------- Completions ----------

  /** What a completion must call: by who it was submitted for, not by its tag. */
  function Completion(s: Sys, op: Op, alloc: bool): seq<Event>
    requires op.owner.Of? ==> op.owner.obj < |s.objs|
  {
    if !op.owner.Of? || Closed(s.objs[op.owner.obj]) then []
    else if s.objs[op.owner.obj].AcceptorObj? then [ConnCb(op.owner.obj)]
    else if op.owner.ev == 1 then [WriteCb(op.owner.obj)]
    else if alloc then [AllocCb(op.owner.obj)] else [ReadCb(op.owner.obj)]
  }

  /** Over every run: each completion the loop takes calls back the open object it was submitted for, once
      and for the right event, and leaves the loop in that callback; one of a closed object, of the loop
      itself, of a cancel request or of a timeout calls nobody. */
  lemma CompletionsCallBack(run: seq<Step>, alloc: bool)
    requires Legal(INIT, run) && LoopEnabled(Exec(INIT, run), LReap(alloc))
    ensures var s := Exec(INIT, run); var op, s' := s.ring.cq[0], LoopStep(s, LReap(alloc));
      && (op.owner.Of? ==> op.owner.obj < |s.objs|)
      && s'.log == s.log + Completion(s, op, alloc)
      && (Completion(s, op, alloc) == [] ==> s'.objs == s.objs && !Calling(s'.pc))
      && (Completion(s, op, alloc) != [] ==> Calling(s'.pc) && s'.pc.obj == op.owner.obj)
  {
    RunOkRing(INIT, run);
    RoutesAsIntended(Exec(INIT, run), Exec(INIT, run).ring.cq[0]);
  }

  // ---------- The eventfd ----------

  /** A step that calls wakeup(): the end of a post on another thread, and every change of the timers. */
  ghost predicate Wakes(s: Sys, st: Step)
    requires Enabled(s, st)
  {
    || (st.F? && st.f.FWrite?)
    || (st.U? && (st.u.UAddTimer? || st.u.UCancelTimer?))
    || (st == L(LTake) && (s.q.pend[0].body.AddTimer? || s.q.pend[0].body.CancelTimer?))
    || (st == L(LTakeN) && (s.q.pendN[0].AddTimer? || s.q.pendN[0].CancelTimer?))
  }

  /** Wake-ups since the last read of the eventfd. */
  ghost function Unread(s: Sys, run: seq<Step>, before: nat): nat
    requires Legal(s, run)
    decreases |run|
  {
    if run == [] then before
    else Unread(Next(s, run[0]), run[1..],
                if run[0] == L(LEfdRead) then 0 else if Wakes(s, run[0]) then before + 1 else before)
  }

  lemma EfdStep(s: Sys, st: Step)
    requires Enabled(s, st)
    ensures Next(s, st).w.efd
         == if st == L(LEfdRead) then 0 else if Wakes(s, st) then s.w.efd + 1 else s.w.efd
  {
    match st {
      case F(f) =>
      case K(k) =>
      case L(l) => EfdLoopStep(s, l);
      case U(u) =>
    }
  }

  lemma EfdLoopStep(s: Sys, l: Loop)
    requires LoopEnabled(s, l)
    ensures LoopStep(s, l).w.efd
         == if l.LEfdRead? then 0 else if Wakes(s, L(l)) then s.w.efd + 1 else s.w.efd
  {
    if l.LEndEvent? {
      assert EndEvent(s).w == s.w;
    }
  }

  /** Over every run: the eventfd counts the wake-ups since the loop last read it. A timer added or
      cancelled thereby ends the next wait just as a post does. */
  lemma {:induction false} EfdCountsWakeups(s: Sys, run: seq<Step>)
    requires Legal(s, run)
    ensures Exec(s, run).w.efd == Unread(s, run, s.w.efd)
    decreases |run|
  {
    if run != [] {
      EfdStep(s, run[0]);
      EfdCountsWakeups(Next(s, run[0]), run[1..]);
    }
  }
}
