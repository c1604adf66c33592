/** Timers inside the loop, with other threads drawing numbers at any time: each collected timer runs
    once, and a cancelled one never, unless the batch that collects it came first. */
module LoopTimers {
  import opened TimerHeap
  import opened LoopSystem
  import opened LoopTasks
  import T = TimerSpec
  import Q = TaskQueues
  import S = StreamSpec
  import A = AcceptorLinux

  ghost predicate HeapOk(tm: TimerState) {
    && T.WellFormed(tm.t)
    && T.Ids(tm.t.nodes) <= tm.known
    && tm.collected <= tm.known
    && (forall x :: x in tm.known ==> x.id < tm.t.next)
    && (forall n :: n in tm.t.nodes ==> n.id !in tm.collected)
  }

  /** Each drawn id travels in one add task: still carried, queued and not run, or run and known. */
  ghost predicate AddsOk(q: Q.Queues, known: set<TimerId>, next: nat) {
    && (forall i :: 0 <= i < |q.muxHist| && q.muxHist[i].body.AddTimer? ==>
          && q.muxHist[i].body.node.id.id < next
          && (q.muxHist[i].body.node.id in known <==> i < |q.muxDone|))
    && (forall i, j :: 0 <= i < j < |q.muxHist| && q.muxHist[i].body.AddTimer? && q.muxHist[j].body.AddTimer? ==>
          q.muxHist[i].body.node.id != q.muxHist[j].body.node.id)
    && (forall p :: p in q.counted && q.counted[p].AddTimer? ==>
          && q.counted[p].node.id.id < next && q.counted[p].node.id !in known
          && forall i :: 0 <= i < |q.muxHist| && q.muxHist[i].body.AddTimer? ==>
               q.muxHist[i].body.node.id != q.counted[p].node.id)
    && (forall p, r :: p in q.counted && r in q.counted && p != r && q.counted[p].AddTimer? && q.counted[r].AddTimer?
          ==> q.counted[p].node.id != q.counted[r].node.id)
    && (forall b :: b in q.nmux || b in q.pendN ==> !b.AddTimer?)
  }

  ghost predicate TimersOk(s: Sys) {
    TasksOk(s) && HeapOk(s.tm) && AddsOk(s.q, s.tm.known, s.tm.t.next)
  }

  /** Ids the timers may hold or have held only grow, by ids just drawn or just added. */
  lemma AddKeepsHeap(tm: TimerState, n: TimerNode)
    requires HeapOk(tm) && n.id !in tm.known && n.id.id < tm.t.next
    ensures HeapOk(AddTimerTo(tm, n))
  {
    assert forall m :: m in tm.t.nodes ==> m.id in T.Ids(tm.t.nodes);
    assert T.Ids(tm.t.nodes + {n}) == T.Ids(tm.t.nodes) + {n.id};
  }

  lemma CollectKeepsHeap(s: Sys, now: int)
    requires HeapOk(s.tm)
    ensures HeapOk(Collect(s, now).tm) && Collect(s, now).tm.known == s.tm.known
    ensures forall x :: x in Collect(s, now).tm.collected - s.tm.collected ==>
              x in T.Ids(s.tm.t.nodes) && x !in s.tm.t.slots
  {
    var (t', runs) := T.Collect(s.tm.t, now);
    var due := T.Due(s.tm.t.nodes, now);
    assert forall n :: n in runs ==> n in due && n in s.tm.t.nodes && n.id in T.Ids(s.tm.t.nodes);
    forall n | n in t'.nodes
      ensures n.id !in Collect(s, now).tm.collected
    {
      assert n in s.tm.t.nodes && n !in due;
    }
    assert T.Ids(t'.nodes) <= T.Ids(s.tm.t.nodes);
  }

  lemma ForeignKeepsTimers(s: Sys, f: Foreign)
    requires TimersOk(s) && ForeignEnabled(s, f)
    ensures TimersOk(ForeignStep(s, f))
  {
    ForeignKeepsTasks(s, f);
    match f {
      case FPost(p, b) => CountKeepsAdds(s.q, s.tm.known, s.tm.t.next, p, b);
      case FAddTimer(p, e, c) =>
        DrawKeepsAdds(s.q, s.tm.known, s.tm.t.next, p, TimerNode(TimerId(e, s.tm.t.next), c));
      case FEnqueue(p) => EnqueueKeepsAdds(s.q, s.tm.known, s.tm.t.next, p);
      case FWrite(p) =>
    }
  }

  lemma CountKeepsAdds(q: Q.Queues, known: set<TimerId>, next: nat, p: nat, b: Q.Body)
    requires AddsOk(q, known, next) && Q.Idle(q, p) && !b.AddTimer?
    ensures AddsOk(Q.Count(q, p, b), known, next)
  {
  }

  lemma DrawKeepsAdds(q: Q.Queues, known: set<TimerId>, next: nat, p: nat, n: TimerNode)
    requires AddsOk(q, known, next) && Q.Idle(q, p) && n.id.id == next && n.id !in known
    ensures AddsOk(Q.Count(q, p, Q.AddTimer(n)), known, next + 1)
  {
  }

  lemma EnqueueKeepsAdds(q: Q.Queues, known: set<TimerId>, next: nat, p: nat)
    requires AddsOk(q, known, next) && p in q.counted && Q.Conserved(q)
    ensures AddsOk(Q.Enqueue(q, p), known, next)
  {
    var q' := Q.Enqueue(q, p);
    assert forall i :: 0 <= i < |q.muxHist| ==> q'.muxHist[i] == q.muxHist[i];
  }

  /** Moving a task from the batch to the executed ones: an add becomes known, others change nothing. */
  lemma TakeKeepsAdds(q: Q.Queues, known: set<TimerId>, next: nat)
    requires AddsOk(q, known, next) && Q.Conserved(q) && q.pend != []
    ensures var b := q.pend[0].body;
      && AddsOk(Q.Take(q), if b.AddTimer? then known + {b.node.id} else known, next)
      && (b.AddTimer? ==> b.node.id !in known && b.node.id.id < next)
  {
    var k := |q.muxDone|;
    assert q.muxHist[k] == q.pend[0];
  }

  lemma FreshKeepsAdds(q: Q.Queues, known: set<TimerId>, next: nat, id: TimerId)
    requires AddsOk(q, known, next) && id.id == next
    ensures AddsOk(q, known + {id}, next + 1)
  {
  }

  /** Calls on objects touch neither timers nor the locked queue. */
  ghost predicate TimerFrames(s: Sys, s': Sys) {
    && s'.tm == s.tm
    && (s'.q == s.q || exists o :: s'.q == Q.PostIn(s.q, Q.EvClose(o)))
  }

  lemma FramedAdds(s: Sys, s': Sys)
    requires AddsOk(s.q, s.tm.known, s.tm.t.next) && TimerFrames(s, s')
    ensures AddsOk(s'.q, s'.tm.known, s'.tm.t.next)
  {
  }

  lemma StreamEffectTimers(s: Sys, o: nat, r: (S.Flags, S.Effect))
    requires o < |s.objs| && s.objs[o].StreamObj?
    ensures TimerFrames(s, StreamEffect(s, o, r))
  {
  }

  lemma AcceptorEffectTimers(s: Sys, o: nat, r: (A.Flags, A.Effect))
    requires o < |s.objs| && s.objs[o].AcceptorObj?
    ensures TimerFrames(s, AcceptorEffect(s, o, r))
  {
  }

  lemma UserKeepsTimers(s: Sys, u: User)
    requires TimersOk(s) && UserEnabled(s, u)
    ensures TimersOk(UserStep(s, u))
  {
    UserKeepsTasks(s, u);
    var s' := UserStep(s, u);
    match u {
      case UAddTimer(e, c) =>
        var id := TimerId(e, s.tm.t.next);
        var tm1 := s.tm.(t := s.tm.t.(next := s.tm.t.next + 1));
        assert HeapOk(tm1);
        AddKeepsHeap(tm1, TimerNode(id, c));
        FreshKeepsAdds(s.q, s.tm.known, s.tm.t.next, id);
      case UCancelTimer(_) =>
      case UPost(n) =>
      case UStopLoop =>
      case UStream(_) =>
      case UAcceptor(_) =>
      case URead(o) => StreamEffectTimers(s, o, S.PostRead(s.objs[o].s)); FramedAdds(s, s');
      case UWrite(o) => StreamEffectTimers(s, o, S.PostWrite(s.objs[o].s)); FramedAdds(s, s');
      case UStop(o) => StreamEffectTimers(s, o, S.Stop(s.objs[o].s)); FramedAdds(s, s');
      case UStopAcceptor(o) => AcceptorEffectTimers(s, o, A.Stop(s.objs[o].a)); FramedAdds(s, s');
    }
  }

  lemma TakeKeepsTimers(s: Sys)
    requires TimersOk(s) && LoopEnabled(s, LTake)
    ensures TimersOk(LoopStep(s, LTake))
  {
    LoopKeepsTasks(s, LTake);
    TakeKeepsAdds(s.q, s.tm.known, s.tm.t.next);
    var b := s.q.pend[0].body;
    if b.AddTimer? {
      AddKeepsHeap(s.tm, b.node);
    }
  }

  lemma EndEventTimers(s: Sys)
    requires TimersOk(s) && LoopEnabled(s, LEndEvent)
    ensures TimersOk(LoopStep(s, LEndEvent))
  {
    LoopKeepsTasks(s, LEndEvent);
    var o := s.pc.obj;
    match s.objs[o] {
      case StreamObj(_, _, f) => StreamEffectTimers(s, o, if s.pc.ev == 0 then S.ReadEnd(f) else S.WriteEnd(f));
      case AcceptorObj(_, _, f) => AcceptorEffectTimers(s, o, A.AcceptEnd(f));
    }
    FramedAdds(s, EndEvent(s));
  }

  /** Batches are swapped and subtracted; the locked history and the posters stay. */
  lemma FramedQueues(q: Q.Queues, q': Q.Queues, known: set<TimerId>, next: nat)
    requires AddsOk(q, known, next)
    requires q'.muxHist == q.muxHist && q'.muxDone == q.muxDone && q'.counted == q.counted
    requires forall b :: b in q'.nmux || b in q'.pendN ==> b in q.nmux || b in q.pendN
    ensures AddsOk(q', known, next)
  {
  }

  /** A task of the own queue adds no timer itself and moves no other task. */
  lemma BodyFrames(s: Sys, b: Q.Body, from: From)
    requires !b.AddTimer?
    ensures var s' := RunBody(s, b, from);
      && s.tm.t.slots <= s'.tm.t.slots
      && s'.q == s.q && s'.tm.known == s.tm.known && s'.tm.collected == s.tm.collected
      && s'.tm.t.nodes == s.tm.t.nodes && s'.tm.t.next == s.tm.t.next
  {
  }

  lemma TakeNKeepsTimers(s: Sys)
    requires TimersOk(s) && LoopEnabled(s, LTakeN)
    ensures HeapOk(LoopStep(s, LTakeN).tm)
    ensures AddsOk(LoopStep(s, LTakeN).q, LoopStep(s, LTakeN).tm.known, LoopStep(s, LTakeN).tm.t.next)
  {
    assert s.q.pendN[0] in s.q.pendN && forall b :: b in s.q.pendN[1..] ==> b in s.q.pendN;
    FramedQueues(s.q, Q.TakeN(s.q), s.tm.known, s.tm.t.next);
    BodyFrames(s.(q := Q.TakeN(s.q)), s.q.pendN[0], Own);
    FewerNodes(s.tm, LoopStep(s, LTakeN).tm);
  }

  lemma CollectKeepsTimers(s: Sys, now: int)
    requires TimersOk(s) && LoopEnabled(s, LCollect(now))
    ensures HeapOk(LoopStep(s, LCollect(now)).tm)
    ensures AddsOk(LoopStep(s, LCollect(now)).q, LoopStep(s, LCollect(now)).tm.known, s.tm.t.next)
    ensures LoopStep(s, LCollect(now)).tm.t.next == s.tm.t.next
  {
    CollectKeepsHeap(s, now);
  }

  lemma LoopKeepsTimers(s: Sys, l: Loop)
    requires TimersOk(s) && LoopEnabled(s, l)
    ensures TimersOk(LoopStep(s, l))
  {
    LoopKeepsTasks(s, l);
    if l.LTake? {
      TakeKeepsTimers(s);
    } else if l.LEndEvent? {
      EndEventTimers(s);
    } else if l.LCollect? {
      CollectKeepsTimers(s, l.now);
    } else if l.LTakeN? {
      TakeNKeepsTimers(s);
    } else {
      OtherKeepsTimers(s, l);
    }
  }

  lemma FewerNodes(tm: TimerState, tm': TimerState)
    requires HeapOk(tm) && tm'.known == tm.known && tm'.collected == tm.collected
    requires tm'.t.nodes <= tm.t.nodes && tm'.t.next == tm.t.next
    ensures HeapOk(tm')
  {
    assert T.Ids(tm'.t.nodes) <= T.Ids(tm.t.nodes);
  }

  /** What the other steps of the loop leave alone. */
  lemma OtherFrames(s: Sys, l: Loop)
    requires LoopEnabled(s, l) && !l.LTake? && !l.LEndEvent? && !l.LCollect? && !l.LTakeN?
    ensures var q, tm := LoopStep(s, l).q, LoopStep(s, l).tm;
      && q.muxHist == s.q.muxHist && q.muxDone == s.q.muxDone && q.counted == s.q.counted
      && (forall b :: b in q.nmux || b in q.pendN ==> b in s.q.nmux || b in s.q.pendN)
      && tm.known == s.tm.known && tm.t.next == s.tm.t.next && tm.collected == s.tm.collected
      && (tm.t.nodes == s.tm.t.nodes || tm.t.nodes == {})
      && (!l.LPrune? ==> tm.t.slots == s.tm.t.slots)
  {
  }

  lemma OtherKeepsTimers(s: Sys, l: Loop)
    requires TimersOk(s) && LoopEnabled(s, l)
    requires !l.LTake? && !l.LEndEvent? && !l.LCollect? && !l.LTakeN?
    ensures HeapOk(LoopStep(s, l).tm)
    ensures AddsOk(LoopStep(s, l).q, LoopStep(s, l).tm.known, LoopStep(s, l).tm.t.next)
  {
    OtherFrames(s, l);
    FramedQueues(s.q, LoopStep(s, l).q, s.tm.known, s.tm.t.next);
    FewerNodes(s.tm, LoopStep(s, l).tm);
  }

  lemma NextKeepsTimers(s: Sys, st: Step)
    requires TimersOk(s) && Enabled(s, st)
    ensures TimersOk(Next(s, st))
  {
    match st {
      case F(f) => ForeignKeepsTimers(s, f);
      case K(k) => NextKeepsTasks(s, st);
      case L(l) => LoopKeepsTimers(s, l);
      case U(u) => UserKeepsTimers(s, u);
    }
  }

  lemma {:induction false} RunKeepsTimers(s: Sys, run: seq<Step>)
    requires TimersOk(s) && Legal(s, run)
    ensures TimersOk(Exec(s, run))
    decreases |run|
  {
    if run != [] {
      NextKeepsTimers(s, run[0]);
      RunKeepsTimers(Next(s, run[0]), run[1..]);
    }
  }

  lemma InitTimers()
    ensures TimersOk(INIT)
  {
    InitTasks();
    assert T.Ids({}) == {};
  }

  // ---------- Cancelled for good ----------

  /** Added before, not collected, and buried under a tombstone if still in the heap. */
  ghost predicate Dead(tm: TimerState, id: TimerId) {
    id in tm.known && id !in tm.collected && (id in T.Ids(tm.t.nodes) ==> id in tm.t.slots)
  }

  lemma DeadThroughTimers(s: Sys, l: Loop, id: TimerId)
    requires TimersOk(s) && Dead(s.tm, id) && LoopEnabled(s, l) && (l.LCollect? || l.LPrune? || l.LTake?)
    ensures Dead(LoopStep(s, l).tm, id)
  {
    match l {
      case LCollect(now) =>
        if s.w.open {
          CollectKeepsHeap(s, now);
          var (t', _) := T.Collect(s.tm.t, now);
          assert T.Ids(t'.nodes) <= T.Ids(s.tm.t.nodes);
          forall d | d in T.Due(s.tm.t.nodes, now) && id in T.Ids(t'.nodes)
            ensures d.id != id
          {
          }
        }
      case LPrune =>
        if id in T.Ids(s.tm.t.nodes) {
          var n :| n in s.tm.t.nodes && n.id == id;
          assert Leq(n.id, id);
        }
      case LTake =>
        TakeKeepsAdds(s.q, s.tm.known, s.tm.t.next);
        var b := s.q.pend[0].body;
        if b.AddTimer? {
          assert T.Ids(s.tm.t.nodes + {b.node}) == T.Ids(s.tm.t.nodes) + {b.node.id};
        }
    }
  }

  lemma LoopLeavesDead(s: Sys, l: Loop, id: TimerId)
    requires TimersOk(s) && Dead(s.tm, id) && LoopEnabled(s, l)
    ensures Dead(LoopStep(s, l).tm, id)
  {
    if l.LCollect? || l.LPrune? || l.LTake? {
      DeadThroughTimers(s, l, id);
    } else if l.LTakeN? {
      assert s.q.pendN[0] in s.q.pendN;
      BodyFrames(s.(q := Q.TakeN(s.q)), s.q.pendN[0], Own);
    } else if l.LEndEvent? {
      assert EndEvent(s).tm == s.tm;
    } else {
      OtherFrames(s, l);
    }
  }

  lemma DeadStays(s: Sys, st: Step, id: TimerId)
    requires TimersOk(s) && Dead(s.tm, id) && Enabled(s, st)
    ensures Dead(Next(s, st).tm, id)
  {
    match st {
      case F(f) =>
      case K(k) =>
      case L(l) => LoopLeavesDead(s, l, id);
      case U(u) =>
        if u.UAddTimer? {
          var n := TimerNode(TimerId(u.expire, s.tm.t.next), u.cb);
          assert T.Ids(s.tm.t.nodes + {n}) == T.Ids(s.tm.t.nodes) + {n.id};
        }
    }
  }

  lemma {:induction false} DeadForever(s: Sys, run: seq<Step>, id: TimerId)
    requires TimersOk(s) && Dead(s.tm, id) && Legal(s, run)
    ensures id !in Exec(s, run).tm.collected
    decreases |run|
  {
    if run != [] {
      NextKeepsTimers(s, run[0]);
      DeadStays(s, run[0], id);
      DeadForever(Next(s, run[0]), run[1..], id);
    }
  }

  /** The k-th task of thread `p` is about to run: every earlier add of that thread has been run. */
  lemma EarlierCallsRan(s: Sys, p: nat, b: Q.Body)
    requires Q.Inv(s.q) && s.q.pend != [] && s.q.pend[0].from == p
    requires |Q.Of(s.q.muxDone, p)| <= |Q.CallsOf(s.q, p)| && b in Q.CallsOf(s.q, p)[..|Q.Of(s.q.muxDone, p)|]
    ensures Q.Task(p, b) in s.q.muxDone
  {
    Q.RunInCallOrder(s.q, p);
    assert Q.CallsOf(s.q, p)[..|Q.Of(s.q.muxDone, p)|] == Q.Of(s.q.muxDone, p);
    Q.OfMember(s.q.muxDone, p, b);
  }

  lemma RanIsKnown(q: Q.Queues, known: set<TimerId>, next: nat, p: nat, node: TimerNode)
    requires AddsOk(q, known, next) && Q.Conserved(q) && Q.Task(p, Q.AddTimer(node)) in q.muxDone
    ensures node.id in known
  {
    var i :| 0 <= i < |q.muxDone| && q.muxDone[i] == Q.Task(p, Q.AddTimer(node));
    assert q.muxHist[i] == q.muxDone[i];
  }

  // ---------- Every collected timer runs once ----------

  /** The ids of the timer callbacks in a log, and of the timers in a batch. */
  function FiredIn(log: seq<Event>): multiset<TimerId> {
    if log == [] then multiset{}
    else
      var e := log[|log| - 1];
      FiredIn(log[..|log| - 1]) + (if e.TimerCb? then multiset{e.node.id} else multiset{})
  }

  /** The callback of timer `id` has run. */
  predicate RanTimer(log: seq<Event>, id: TimerId) {
    exists i :: 0 <= i < |log| && log[i].TimerCb? && log[i].node.id == id
  }

  function BatchIds(runs: seq<TimerNode>): multiset<TimerId> {
    if runs == [] then multiset{} else multiset{runs[0].id} + BatchIds(runs[1..])
  }

  /** Run and about to run make up everything collected, each once; a batch exists only in timer_call. */
  ghost predicate RunsOk(s: Sys) {
    && FiredIn(s.log) + BatchIds(s.tm.runs) == multiset(s.tm.collected)
    && (s.pc.Fire? || s.pc.InTimer? || s.tm.runs == [])
  }

  lemma FiredAppend(log: seq<Event>, e: Event)
    ensures FiredIn(log + [e]) == FiredIn(log) + (if e.TimerCb? then multiset{e.node.id} else multiset{})
  {
    assert (log + [e])[..|log|] == log;
  }

  lemma {:induction false} FiredMember(log: seq<Event>, id: TimerId)
    ensures id in FiredIn(log) <==> RanTimer(log, id)
    decreases |log|
  {
    if log != [] {
      var init := log[..|log| - 1];
      FiredMember(init, id);
      assert forall i :: 0 <= i < |init| ==> log[i] == init[i];
      assert RanTimer(init, id) ==> RanTimer(log, id);
    }
  }

  lemma {:induction false} BatchOnce(runs: seq<TimerNode>)
    requires T.Ascending(runs)
    ensures BatchIds(runs) == multiset(set n | n in runs :: n.id)
  {
    if runs != [] {
      BatchOnce(runs[1..]);
      var rest := set n | n in runs[1..] :: n.id;
      assert (set n | n in runs :: n.id) == rest + {runs[0].id};
      assert forall n :: n in runs[1..] ==> Less(runs[0].id, n.id);
      assert runs[0].id !in rest;
    }
  }

  /** Apart from timer_call, the batch stays and no timer callback is logged. */
  ghost predicate NoTimerRuns(s: Sys, s': Sys) {
    && s'.tm.runs == s.tm.runs && s'.tm.collected == s.tm.collected
    && (s'.log == s.log || exists e: Event :: !e.TimerCb? && s'.log == s.log + [e])
  }

  lemma FramedRuns(s: Sys, s': Sys)
    requires RunsOk(s) && NoTimerRuns(s, s')
    requires s'.pc.Fire? || s'.pc.InTimer? || s.tm.runs == []
    ensures RunsOk(s')
  {
    if s'.log != s.log {
      var e: Event :| !e.TimerCb? && s'.log == s.log + [e];
      FiredAppend(s.log, e);
    }
  }

  lemma LoopRuns(s: Sys, l: Loop)
    requires LoopEnabled(s, l) && !l.LFire? && !l.LCollect?
    ensures NoTimerRuns(s, LoopStep(s, l))
    ensures s.tm.runs == [] || LoopStep(s, l).pc.Fire? || !(s.pc.Fire? || s.pc.InTimer?)
  {
    match l {
      case LReap(_) =>
        var s' := LoopStep(s, l);
        if s'.log != s.log {
          var e := s'.log[|s.log|];
          assert !e.TimerCb? && s'.log == s.log + [e];
        }
      case LEndAlloc => assert !ReadCb(s.pc.obj).TimerCb?;
      case LEndEvent =>
        assert EndEvent(s).tm == s.tm && EndEvent(s).log == s.log;
      case LTake => BodyRuns(s.(q := Q.Take(s.q)), s.q.pend[0].body, Thread(s.q.pend[0].from));
      case LTakeN => BodyRuns(s.(q := Q.TakeN(s.q)), s.q.pendN[0], Own);
      case _ =>
    }
  }

  lemma BodyRuns(s: Sys, b: Q.Body, from: From)
    ensures NoTimerRuns(s, RunBody(s, b, from))
  {
    match b {
      case Plain(n) => assert !TaskCb(from, n).TimerCb?;
      case EvClose(o) => assert !CloseCb(o).TimerCb?;
      case _ =>
    }
  }

  lemma UserRuns(s: Sys, u: User)
    requires UserEnabled(s, u)
    ensures NoTimerRuns(s, UserStep(s, u)) && UserStep(s, u).pc == s.pc
  {
  }

  lemma FireRuns(s: Sys)
    requires RunsOk(s) && LoopEnabled(s, LFire)
    ensures RunsOk(LoopStep(s, LFire))
  {
    FiredAppend(s.log, TimerCb(s.tm.runs[0]));
  }

  lemma UnionOnce(a: set<TimerId>, b: set<TimerId>)
    requires a !! b
    ensures multiset(a + b) == multiset(a) + multiset(b)
  {
  }

  /** What is collected was not collected before. */
  lemma CollectIsNew(s: Sys, now: int) returns (ids: set<TimerId>)
    requires HeapOk(s.tm)
    ensures BatchIds(Collect(s, now).tm.runs) == multiset(ids) && ids !! s.tm.collected
    ensures Collect(s, now).tm.collected == s.tm.collected + ids
  {
    var (t', runs) := T.Collect(s.tm.t, now);
    ids := set n | n in runs :: n.id;
    BatchOnce(runs);
    assert forall n :: n in runs ==> n in s.tm.t.nodes;
  }

  lemma CollectRuns(s: Sys, now: int)
    requires HeapOk(s.tm) && RunsOk(s) && LoopEnabled(s, LCollect(now))
    ensures RunsOk(LoopStep(s, LCollect(now)))
  {
    if s.w.open {
      var ids := CollectIsNew(s, now);
      UnionOnce(s.tm.collected, ids);
      assert BatchIds(s.tm.runs) == multiset{};
    }
  }

  lemma LoopNextRuns(s: Sys, l: Loop)
    requires HeapOk(s.tm) && RunsOk(s) && LoopEnabled(s, l)
    ensures RunsOk(LoopStep(s, l))
  {
    match l {
      case LFire => FireRuns(s);
      case LCollect(now) => CollectRuns(s, now);
      case _ => LoopRuns(s, l); FramedRuns(s, LoopStep(s, l));
    }
  }

  lemma NextRuns(s: Sys, st: Step)
    requires HeapOk(s.tm) && RunsOk(s) && Enabled(s, st)
    ensures RunsOk(Next(s, st))
  {
    match st {
      case F(f) => FramedRuns(s, ForeignStep(s, f));
      case K(k) => FramedRuns(s, KernelStep(s, k));
      case L(l) => LoopNextRuns(s, l);
      case U(u) => UserRuns(s, u); FramedRuns(s, UserStep(s, u));
    }
  }

  lemma {:induction false} RunKeepsRuns(s: Sys, run: seq<Step>)
    requires TimersOk(s) && RunsOk(s) && Legal(s, run)
    ensures RunsOk(Exec(s, run))
    decreases |run|
  {
    if run != [] {
      NextKeepsTimers(s, run[0]);
      NextRuns(s, run[0]);
      RunKeepsRuns(Next(s, run[0]), run[1..]);
    }
  }

  lemma RunKeepsFromStart(run: seq<Step>)
    requires Legal(INIT, run)
    ensures TimersOk(Exec(INIT, run)) && RunsOk(Exec(INIT, run))
  {
    InitTimers();
    RunKeepsTimers(INIT, run);
    RunKeepsRuns(INIT, run);
  }

  /** Over every run, whatever other threads draw and post between two callbacks of a batch: a timer
      callback runs at most once, only for a timer that some batch collected, and once the batch is
      over for each of them. */
  lemma CollectedRunOnce(run: seq<Step>, id: TimerId)
    requires Legal(INIT, run)
    ensures var s := Exec(INIT, run);
      && FiredIn(s.log)[id] <= 1
      && (RanTimer(s.log, id) ==> id in s.tm.collected)
      && (!s.pc.Fire? && !s.pc.InTimer? && id in s.tm.collected ==> RanTimer(s.log, id))
  {
    RunKeepsFromStart(run);
    var s := Exec(INIT, run);
    FiredMember(s.log, id);
    assert FiredIn(s.log)[id] + BatchIds(s.tm.runs)[id] == multiset(s.tm.collected)[id] <= 1;
  }

  lemma NeverLogged(s: Sys, id: TimerId)
    requires RunsOk(s) && id !in s.tm.collected
    ensures !RanTimer(s.log, id)
  {
    FiredMember(s.log, id);
    assert FiredIn(s.log)[id] <= multiset(s.tm.collected)[id] == 0;
  }

  /** A cancel_timer call on the loop thread for a timer in the heap silences it for good, also from
      within another timer's callback, and wherever other threads are. */
  lemma CancelInHeapSilences(pre: seq<Step>, post: seq<Step>, id: TimerId)
    requires Legal(INIT, pre) && UserEnabled(Exec(INIT, pre), UCancelTimer(id))
    requires id in T.Ids(Exec(INIT, pre).tm.t.nodes)
    requires Legal(UserStep(Exec(INIT, pre), UCancelTimer(id)), post)
    ensures !RanTimer(Exec(UserStep(Exec(INIT, pre), UCancelTimer(id)), post).log, id)
  {
    RunKeepsFromStart(pre);
    var s := Exec(INIT, pre);
    var s' := Next(s, U(UCancelTimer(id)));
    NextKeepsTimers(s, U(UCancelTimer(id)));
    NextRuns(s, U(UCancelTimer(id)));
    DeadForever(s', post, id);
    RunKeepsRuns(s', post);
    NeverLogged(Exec(s', post), id);
  }

  // ---------- Cross-thread add then cancel ----------

  /** The loop is about to run the cancel_timer task of thread `p` for a timer that `p` added by an
      earlier call, and no batch has collected the timer yet. */
  ghost predicate CancelComesInTime(s: Sys, p: nat, node: TimerNode) {
    && Enabled(s, L(LTake)) && s.q.pend[0] == Q.Task(p, Q.CancelTimer(node.id))
    && |Q.Of(s.q.muxDone, p)| <= |Q.CallsOf(s.q, p)|
    && Q.AddTimer(node) in Q.CallsOf(s.q, p)[..|Q.Of(s.q.muxDone, p)|]
    && node.id !in s.tm.collected
  }

  lemma CancelBuries(s: Sys, p: nat, node: TimerNode)
    requires TimersOk(s) && CancelComesInTime(s, p, node)
    ensures Dead(Next(s, L(LTake)).tm, node.id)
  {
    EarlierCallsRan(s, p, Q.AddTimer(node));
    RanIsKnown(s.q, s.tm.known, s.tm.t.next, p, node);
  }

  /** Over every run: if the cancel comes in time, the timer's callback never runs, before or after. */
  lemma AddThenCancel(pre: seq<Step>, post: seq<Step>, p: nat, node: TimerNode)
    requires Legal(INIT, pre) && CancelComesInTime(Exec(INIT, pre), p, node)
    requires Legal(Next(Exec(INIT, pre), L(LTake)), post)
    ensures !RanTimer(Exec(Next(Exec(INIT, pre), L(LTake)), post).log, node.id)
  {
    RunKeepsFromStart(pre);
    NeverFires(Exec(INIT, pre), post, p, node);
  }

  lemma NeverFires(s: Sys, post: seq<Step>, p: nat, node: TimerNode)
    requires TimersOk(s) && RunsOk(s) && CancelComesInTime(s, p, node)
    requires Legal(Next(s, L(LTake)), post)
    ensures !RanTimer(Exec(Next(s, L(LTake)), post).log, node.id)
  {
    var s' := Next(s, L(LTake));
    CancelBuries(s, p, node);
    LoopKeepsTimers(s, LTake);
    NextRuns(s, L(LTake));
    DeadForever(s', post, node.id);
    RunKeepsRuns(s', post);
    NeverLogged(Exec(s', post), node.id);
  }
}
