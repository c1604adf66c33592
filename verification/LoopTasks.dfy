/** Tasks in every run of the loop: conserved, first in first out per queue and per thread, counted
    exactly, and never left waiting by a sleeping loop. */
module LoopTasks {
  import opened TimerHeap
  import opened LoopSystem
  import opened Words
  import Q = TaskQueues
  import S = StreamSpec
  import A = AcceptorLinux

  /** The queue laws, and a batch exists only while it runs. */
  ghost predicate TasksOk(s: Sys) {
    && Q.Inv(s.q)
    && (s.pc.RunMux? || s.pc.InMux? || (s.q.pend == [] && s.q.taken == 0))
    && (s.pc.RunNmux? || s.pc.InNmux? || s.q.pendN == [])
  }

  lemma ForeignKeepsTasks(s: Sys, f: Foreign)
    requires TasksOk(s) && ForeignEnabled(s, f)
    ensures TasksOk(ForeignStep(s, f))
  {
    match f {
      case FPost(p, b) => Q.CountKeeps(s.q, p, b);
      case FAddTimer(p, e, c) => Q.CountKeeps(s.q, p, Q.AddTimer(TimerNode(TimerId(e, s.tm.t.next), c)));
      case FEnqueue(p) => Q.EnqueueKeeps(s.q, p);
      case FWrite(p) => Q.WrittenKeeps(s.q, p);
    }
  }

  lemma CloseDownKeepsTasks(s: Sys, o: nat)
    requires TasksOk(s) && o < |s.objs|
    ensures TasksOk(CloseDown(s, o))
  {
    Q.PostInKeeps(s.q, Q.EvClose(o));
  }

  lemma StreamEffectKeepsTasks(s: Sys, o: nat, r: (S.Flags, S.Effect))
    requires TasksOk(s) && o < |s.objs| && s.objs[o].StreamObj?
    ensures TasksOk(StreamEffect(s, o, r)) && StreamEffect(s, o, r).pc == s.pc
  {
    if r.1.CloseDown? {
      CloseDownKeepsTasks(s.(objs := s.objs[o := s.objs[o].(s := r.0)]), o);
    }
  }

  lemma AcceptorEffectKeepsTasks(s: Sys, o: nat, r: (A.Flags, A.Effect))
    requires TasksOk(s) && o < |s.objs| && s.objs[o].AcceptorObj?
    ensures TasksOk(AcceptorEffect(s, o, r)) && AcceptorEffect(s, o, r).pc == s.pc
  {
    if r.1.CloseDown? {
      CloseDownKeepsTasks(s.(objs := s.objs[o := s.objs[o].(a := r.0)]), o);
    }
  }

  lemma EndEventKeepsTasks(s: Sys)
    requires TasksOk(s) && s.pc.InEvent? && EndEventOk(s)
    ensures TasksOk(EndEvent(s))
  {
    var o := s.pc.obj;
    match s.objs[o] {
      case StreamObj(_, _, f) => StreamEffectKeepsTasks(s, o, if s.pc.ev == 0 then S.ReadEnd(f) else S.WriteEnd(f));
      case AcceptorObj(_, _, f) => AcceptorEffectKeepsTasks(s, o, A.AcceptEnd(f));
    }
  }

  lemma LoopKeepsTasks(s: Sys, l: Loop)
    requires TasksOk(s) && LoopEnabled(s, l)
    ensures TasksOk(LoopStep(s, l))
  {
    match l {
      case LEndEvent => EndEventKeepsTasks(s);
      case LSwap => Q.SwapKeeps(s.q);
      case LTake => Q.TakeKeeps(s.q);
      case LSubtract => Q.SubtractKeeps(s.q); Q.SwapNKeeps(Q.Subtract(s.q));
      case LTakeN => Q.TakeNKeeps(s.q);
      case _ =>
    }
  }

  lemma UserKeepsTasks(s: Sys, u: User)
    requires TasksOk(s) && UserEnabled(s, u)
    ensures TasksOk(UserStep(s, u))
  {
    match u {
      case UPost(n) => Q.PostInKeeps(s.q, Q.Plain(n));
      case URead(o) => StreamEffectKeepsTasks(s, o, S.PostRead(s.objs[o].s));
      case UWrite(o) => StreamEffectKeepsTasks(s, o, S.PostWrite(s.objs[o].s));
      case UStop(o) => StreamEffectKeepsTasks(s, o, S.Stop(s.objs[o].s));
      case UStopAcceptor(o) => AcceptorEffectKeepsTasks(s, o, A.Stop(s.objs[o].a));
      case _ =>
    }
  }

  lemma NextKeepsTasks(s: Sys, st: Step)
    requires TasksOk(s) && Enabled(s, st)
    ensures TasksOk(Next(s, st))
  {
    match st {
      case F(f) => ForeignKeepsTasks(s, f);
      case K(k) =>
      case L(l) => LoopKeepsTasks(s, l);
      case U(u) => UserKeepsTasks(s, u);
    }
  }

  lemma {:induction false} RunKeepsTasks(s: Sys, run: seq<Step>)
    requires TasksOk(s) && Legal(s, run)
    ensures TasksOk(Exec(s, run))
    decreases |run|
  {
    if run != [] {
      NextKeepsTasks(s, run[0]);
      RunKeepsTasks(Next(s, run[0]), run[1..]);
    }
  }

  lemma InitTasks()
    ensures TasksOk(INIT)
  {
    forall p
      ensures Q.Of(INIT.q.muxHist, p) + Q.InHand(INIT.q, p) == Q.CallsOf(INIT.q, p)
    {
    }
  }

  /** In every reachable state: executed, running and queued tasks together are the enqueue history
      of each queue; what ran of a thread's tasks is a prefix of that thread's calls; and the
      counter follows its law modulo 2^32. */
  lemma TasksConserved(run: seq<Step>)
    requires Legal(INIT, run)
    ensures var q := Exec(INIT, run).q;
      && q.muxHist == q.muxDone + q.pend + q.mux
      && q.nmuxHist == q.nmuxDone + q.pendN + q.nmux
      && (forall p :: Q.Of(q.muxDone, p) <= Q.CallsOf(q, p))
      && q.count == Q.Law(q) % TWO32
  {
    InitTasks();
    RunKeepsTasks(INIT, run);
    var q := Exec(INIT, run).q;
    forall p
      ensures Q.Of(q.muxDone, p) <= Q.CallsOf(q, p)
    {
      Q.RunInCallOrder(q, p);
    }
  }

  /** Absent a wrap: the subtraction of on_tasks never underflows, and the loop decides to wait only
      when both queues are empty, no thread is between increment and enqueue and no task was ever
      posted on the loop thread. After the first such post it never waits again. */
  lemma DecisionIsSafe(run: seq<Step>, now: int)
    requires Legal(INIT, run)
    ensures var s := Exec(INIT, run);
      && (Q.Law(s.q) < TWO32 ==> s.q.taken <= s.q.count)
      && (s.pc.ReadCount? && Q.Law(s.q) < TWO32 ==>
            (LoopStep(s, LReadCount(now)).pc != Wait(NoWait) <==>
              s.q.mux == [] && s.q.counted == map[] && s.q.nmuxHist == []))
      && (s.pc.ReadCount? ==>
            (LoopStep(s, LReadCount(now)).pc != Wait(NoWait) <==> Q.Law(s.q) % TWO32 == 0))
      && (s.pc.ReadSize? ==> (LoopStep(s, LReadSize).pc == Wait(NoWait) <==> s.q.mux != []))
  {
    InitTasks();
    RunKeepsTasks(INIT, run);
    var s := Exec(INIT, run);
    Q.WaitDecision(s.q);
    Q.SubtractKeeps(s.q);
    if s.pc.ReadCount? && s.q.counted == map[] {
      assert |s.q.counted| == 0;
    }
  }

  /** The histories only grow. */
  lemma {:induction false} PostsAreForever(s: Sys, run: seq<Step>)
    requires Legal(s, run) && s.q.nmuxHist != []
    ensures Exec(s, run).q.nmuxHist != []
    decreases |run|
  {
    if run != [] {
      StepKeepsPosts(s, run[0]);
      PostsAreForever(Next(s, run[0]), run[1..]);
    }
  }

  lemma StepKeepsPosts(s: Sys, st: Step)
    requires Enabled(s, st)
    ensures |s.q.nmuxHist| <= |Next(s, st).q.nmuxHist|
  {
    match st {
      case F(_) =>
      case K(_) =>
      case L(l) => LoopKeepsPosts(s, l);
      case U(u) => UserKeepsPosts(s, u);
    }
  }

  lemma LoopKeepsPosts(s: Sys, l: Loop)
    requires LoopEnabled(s, l)
    ensures |s.q.nmuxHist| <= |LoopStep(s, l).q.nmuxHist|
  {
    match l {
      case LEndEvent => EndKeepsPosts(s);
      case LReap(_) => assert LoopStep(s, l).q == s.q;
      case LTake => assert LoopStep(s, l).q == Q.Take(s.q);
      case LTakeN => assert LoopStep(s, l).q == Q.TakeN(s.q);
      case LCollect(_) => assert LoopStep(s, l).q == s.q;
      case _ =>
    }
  }

  lemma EndKeepsPosts(s: Sys)
    requires s.pc.InEvent? && EndEventOk(s)
    ensures |s.q.nmuxHist| <= |EndEvent(s).q.nmuxHist|
  {
  }

  lemma UserKeepsPosts(s: Sys, u: User)
    requires UserEnabled(s, u)
    ensures |s.q.nmuxHist| <= |UserStep(s, u).q.nmuxHist|
  {
  }

  /** One post on the loop thread, the evClose of a stream for instance, and no later decision of the
      loop is to wait, until 2^32 such posts: it polls without sleeping from then on. */
  lemma NeverSleepsAgain(pre: seq<Step>, post: seq<Step>, now: int)
    requires Legal(INIT, pre) && Exec(INIT, pre).q.nmuxHist != []
    requires Legal(Exec(INIT, pre), post)
    ensures var s := Exec(Exec(INIT, pre), post);
      s.pc.ReadCount? && Q.Law(s.q) < TWO32 ==> LoopStep(s, LReadCount(now)).pc == Wait(NoWait)
  {
    InitTasks();
    RunKeepsTasks(INIT, pre);
    RunKeepsTasks(Exec(INIT, pre), post);
    PostsAreForever(Exec(INIT, pre), post);
    Q.WaitDecision(Exec(Exec(INIT, pre), post).q);
  }
}
