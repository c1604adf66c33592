/** The order of timer callbacks in the running loop, and that every timer added runs. */
module LoopBatch {
  import opened TimerHeap
  import opened LoopSystem
  import opened LoopTimers
  import opened LoopCancel
  import Q = TaskQueues
  import T = TimerSpec

  /** The callbacks of a batch, in the batch's order. */
  function Callbacks(batch: seq<TimerNode>): seq<Event> {
    seq(|batch|, i requires 0 <= i < |batch| => TimerCb(batch[i]))
  }

  /** Earlier deadlines first, equal ones by number. */
  predicate InOrder(batch: seq<TimerNode>) {
    forall i, j :: 0 <= i < j < |batch| ==>
      || batch[i].id.expire < batch[j].id.expire
      || (batch[i].id.expire == batch[j].id.expire && batch[i].id.id < batch[j].id.id)
  }

  /** The timers timer_call must run when it reads the clock at `now`. */
  ghost predicate RunsThese(s: Sys, now: int, batch: seq<TimerNode>) {
    && InOrder(batch)
    && forall n :: n in batch <==> n in s.tm.t.nodes && n.id.expire <= now && n.id !in s.tm.t.slots
  }

  /** `k` callbacks of the batch have begun. */
  ghost predicate Midway(s: Sys, log: seq<Event>, batch: seq<TimerNode>, k: nat) {
    && (s.pc.Fire? || s.pc.InTimer?)
    && k <= |batch| && s.tm.runs == batch[k..] && s.log == log + Callbacks(batch[..k])
  }

  /** Stays within timer_call, up to its prune. */
  predicate BeforePrune(run: seq<Step>) {
    L(LPrune) !in run
  }

  lemma BatchStep(s: Sys, st: Step, log: seq<Event>, batch: seq<TimerNode>, k: nat)
    requires Enabled(s, st) && Midway(s, log, batch, k) && st != L(LPrune)
    ensures Midway(Next(s, st), log, batch, if st == L(LFire) then k + 1 else k)
  {
    match st {
      case F(f) => assert ForeignStep(s, f).tm.runs == s.tm.runs;
      case K(kk) =>
      case L(l) =>
        if l.LFire? {
          assert batch[k..][1..] == batch[k + 1..];
          assert Callbacks(batch[..k + 1]) == Callbacks(batch[..k]) + [TimerCb(batch[k])];
        }
      case U(u) => UserRuns(s, u); UserQuiet(s, u);
    }
  }

  lemma UserQuiet(s: Sys, u: User)
    requires UserEnabled(s, u)
    ensures UserStep(s, u).log == s.log
  {
  }

  lemma {:induction false} BatchRuns(s: Sys, run: seq<Step>, log: seq<Event>, batch: seq<TimerNode>, k: nat)
    returns (k': nat)
    requires Legal(s, run) && Midway(s, log, batch, k) && BeforePrune(run)
    ensures Midway(Exec(s, run), log, batch, k')
    decreases |run|
  {
    if run == [] {
      k' := k;
    } else {
      assert run[0] in run && forall st :: st in run[1..] ==> st in run;
      BatchStep(s, run[0], log, batch, k);
      k' := BatchRuns(Next(s, run[0]), run[1..], log, batch, if run[0] == L(LFire) then k + 1 else k);
    }
  }

  lemma CollectsThese(s: Sys, now: int)
    requires T.UniqueIds(s.tm.t.nodes)
    ensures RunsThese(s, now, Collect(s, now).tm.runs)
  {
    var batch := Collect(s, now).tm.runs;
    var due := T.Due(s.tm.t.nodes, now) * T.Live(s.tm.t);
    assert T.Lists(batch, due);
    forall i, j | 0 <= i < j < |batch|
      ensures || batch[i].id.expire < batch[j].id.expire
              || (batch[i].id.expire == batch[j].id.expire && batch[i].id.id < batch[j].id.id)
    {
      assert Less(batch[i].id, batch[j].id);
    }
  }

  lemma CollectBegins(s: Sys, now: int)
    requires LoopEnabled(s, LCollect(now)) && s.w.open
    ensures var begun := LoopStep(s, LCollect(now));
      && begun.tm.runs == Collect(s, now).tm.runs && Midway(begun, s.log, begun.tm.runs, 0)
  {
    var batch := LoopStep(s, LCollect(now)).tm.runs;
    assert Callbacks(batch[..0]) == [] && batch[0..] == batch;
  }

  /** From any state with unique ids, and so in every run, whatever callbacks and other threads do
      meanwhile: from the clock reading of timer_call to its prune, what is called back is exactly the
      timers of the heap that were due and not cancelled, each once, by deadline and then by number, and
      nothing else. At any point in between it is the beginning of that. */
  lemma TimersRunInOrder(s: Sys, now: int, run: seq<Step>) returns (batch: seq<TimerNode>, k: nat)
    requires LoopEnabled(s, LCollect(now)) && s.w.open
    requires Legal(LoopStep(s, LCollect(now)), run) && BeforePrune(run)
    ensures RunsThese(s, now, batch) && k <= |batch|
    ensures var f := Exec(LoopStep(s, LCollect(now)), run);
      && f.log == s.log + Callbacks(batch[..k])
      && (LoopEnabled(f, LPrune) ==> k == |batch|)
  {
    batch, k := CollectedRun(s, LoopStep(s, LCollect(now)), now, run);
  }

  lemma CollectedRun(s: Sys, begun: Sys, now: int, run: seq<Step>) returns (batch: seq<TimerNode>, k: nat)
    requires LoopEnabled(s, LCollect(now)) && s.w.open && begun == LoopStep(s, LCollect(now))
    requires Legal(begun, run) && BeforePrune(run)
    ensures RunsThese(s, now, batch) && k <= |batch| && Exec(begun, run).log == s.log + Callbacks(batch[..k])
    ensures LoopEnabled(Exec(begun, run), LPrune) ==> k == |batch|
  {
    batch := Collect(s, now).tm.runs;
    CollectsThese(s, now);
    CollectBegins(s, now);
    k := BatchRuns(begun, run, s.log, batch, 0);
    BatchDone(Exec(begun, run), s.log, batch, k);
  }

  lemma BatchDone(f: Sys, log: seq<Event>, batch: seq<TimerNode>, k: nat)
    requires Midway(f, log, batch, k)
    ensures LoopEnabled(f, LPrune) ==> k == |batch|
  {
  }

  // ---------- Every timer added runs ----------

  /** Still to come, in the running batch, or called back. */
  ghost predicate OnItsWay(s: Sys, node: TimerNode) {
    Alive(s.tm, node) || node in s.tm.runs || TimerCb(node) in s.log
  }

  lemma CollectedComes(s: Sys, now: int, node: TimerNode)
    requires HeapOk(s.tm) && Alive(s.tm, node) && LoopEnabled(s, LCollect(now)) && s.w.open
    ensures OnItsWay(LoopStep(s, LCollect(now)), node)
  {
    CollectsThese(s, now);
    AliveCollected(s, now, node);
    if node.id.expire <= now {
      assert node in Collect(s, now).tm.runs;
    }
  }

  lemma LoggedStays(s: Sys, st: Step, node: TimerNode)
    requires Enabled(s, st) && TimerCb(node) in s.log
    ensures TimerCb(node) in Next(s, st).log
  {
    LogGrows(s, st);
  }

  lemma StaysOnItsWay(s: Sys, st: Step, node: TimerNode)
    requires HeapOk(s.tm) && RunsOk(s) && OnItsWay(s, node) && Enabled(s, st) && s.w.open && Next(s, st).w.open
    requires !Cancels(s, st, node.id)
    ensures OnItsWay(Next(s, st), node)
  {
    if Alive(s.tm, node) {
      if st.L? && st.l.LCollect? {
        CollectedComes(s, st.l.now, node);
      } else {
        AliveStep(s, st, node);
      }
    } else if node in s.tm.runs {
      RunsMove(s, st, node);
    } else {
      LoggedStays(s, st, node);
    }
  }

  lemma LogGrows(s: Sys, st: Step)
    requires Enabled(s, st)
    ensures s.log <= Next(s, st).log
  {
    match st {
      case F(f) =>
      case K(k) =>
      case L(l) => LoopLogGrows(s, l);
      case U(u) => UserQuiet(s, u);
    }
  }

  lemma LoopLogGrows(s: Sys, l: Loop)
    requires LoopEnabled(s, l)
    ensures s.log <= LoopStep(s, l).log
  {
    if l.LEndEvent? {
      assert EndEvent(s).log == s.log;
    }
  }

  lemma RunsMove(s: Sys, st: Step, node: TimerNode)
    requires RunsOk(s) && Enabled(s, st) && node in s.tm.runs
    ensures node in Next(s, st).tm.runs || TimerCb(node) in Next(s, st).log
  {
    if st.L? {
      if st.l.LFire? {
        var i :| 0 <= i < |s.tm.runs| && s.tm.runs[i] == node;
        assert i > 0 ==> s.tm.runs[1..][i - 1] == node;
      } else {
        assert !st.l.LCollect?;
        LoopRuns(s, st.l);
      }
    } else if st.U? {
      UserRuns(s, st.u);
    }
  }

  lemma {:induction false} OnItsWayToTheEnd(s: Sys, run: seq<Step>, node: TimerNode)
    requires TimersOk(s) && RunsOk(s) && OnItsWay(s, node) && Legal(s, run) && Exec(s, run).w.open
    requires !EverCancels(s, run, node.id)
    ensures OnItsWay(Exec(s, run), node)
    decreases |run|
  {
    if run != [] {
      var s' := Next(s, run[0]);
      RunKnownGrows(s', run[1..]);
      KnownGrows(s, run[0]);
      StaysOnItsWay(s, run[0], node);
      NextKeepsTimers(s, run[0]);
      NextRuns(s, run[0]);
      OnItsWayToTheEnd(s', run[1..], node);
    }
  }

  /** add_timer on the loop thread, or the add task of another thread. */
  ghost predicate Adds(s: Sys, st: Step, node: TimerNode) {
    && Enabled(s, st)
    && if st.U? && st.u.UAddTimer? then node == TimerNode(TimerId(st.u.expire, s.tm.t.next), st.u.cb)
       else st == L(LTake) && s.q.pend[0].body == Q.AddTimer(node)
  }

  lemma AddsAlive(s: Sys, st: Step, node: TimerNode)
    requires TimersOk(s) && RunsOk(s) && Adds(s, st, node) && node.id !in s.tm.t.slots
    ensures TimersOk(Next(s, st)) && RunsOk(Next(s, st)) && Alive(Next(s, st).tm, node)
  {
    NextKeepsTimers(s, st);
    NextRuns(s, st);
  }

  /** Over every run: a timer is added, by the loop thread or by another, and not cancelled before or
      after. While the loop goes on, outside a batch, its callback, the one it was added with, has run
      exactly when timer_call has found it due. */
  lemma AddedTimerRuns(pre: seq<Step>, st: Step, node: TimerNode, post: seq<Step>)
    requires Legal(INIT, pre) && Adds(Exec(INIT, pre), st, node) && node.id !in Exec(INIT, pre).tm.t.slots
    requires Legal(Next(Exec(INIT, pre), st), post) && !EverCancels(Next(Exec(INIT, pre), st), post, node.id)
    requires var f := Exec(Next(Exec(INIT, pre), st), post); f.w.open && !f.pc.Fire? && !f.pc.InTimer?
    ensures TimerCb(node) in Exec(Next(Exec(INIT, pre), st), post).log <==> DueIn(post, node.id.expire)
  {
    RunKeepsFromStart(pre);
    AddsAlive(Exec(INIT, pre), st, node);
    AliveRuns(Next(Exec(INIT, pre), st), post, node);
  }

  lemma AliveRuns(s: Sys, post: seq<Step>, node: TimerNode)
    requires TimersOk(s) && RunsOk(s) && Alive(s.tm, node) && Legal(s, post) && !EverCancels(s, post, node.id)
    requires Exec(s, post).w.open && !Exec(s, post).pc.Fire? && !Exec(s, post).pc.InTimer?
    ensures TimerCb(node) in Exec(s, post).log <==> DueIn(post, node.id.expire)
  {
    var f := Exec(s, post);
    AliveIsCollectedWhenDue(s, post, node);
    OnItsWayToTheEnd(s, post, node);
    RunKeepsTimers(s, post);
    RunKeepsRuns(s, post);
    LoggedWhenOver(f, node.id);
    if TimerCb(node) in f.log {
      assert RanTimer(f.log, node.id);
    }
  }
}
