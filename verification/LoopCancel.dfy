/** cancel_timer against add_timer on different threads. A cancel posted behind the add comes after it;
    a cancel that the loop runs before it has taken the add in leaves a tombstone that timer_call may
    prune too early. */
module LoopCancel {
  import opened TimerHeap
  import opened LoopSystem
  import opened LoopTimers
  import Q = TaskQueues
  import T = TimerSpec

  // ---------- The queue's order across threads ----------

  lemma {:induction false} HistoryGrows(s: Sys, run: seq<Step>)
    requires Legal(s, run)
    ensures s.q.muxHist <= Exec(s, run).q.muxHist
    decreases |run|
  {
    if run != [] {
      StepGrows(s, run[0]);
      HistoryGrows(Next(s, run[0]), run[1..]);
    }
  }

  lemma StepGrows(s: Sys, st: Step)
    requires Enabled(s, st)
    ensures s.q.muxHist <= Next(s, st).q.muxHist
  {
    match st {
      case F(f) =>
      case K(k) =>
      case L(l) => LoopGrows(s, l);
      case U(u) => assert UserStep(s, u).q.muxHist == s.q.muxHist;
    }
  }

  lemma LoopGrows(s: Sys, l: Loop)
    requires LoopEnabled(s, l)
    ensures LoopStep(s, l).q.muxHist == s.q.muxHist
  {
    if l.LEndEvent? {
      assert EndEvent(s).q.muxHist == s.q.muxHist;
    } else if l.LTake? {
      assert LoopStep(s, l).q == Q.Take(s.q);
    } else if l.LTakeN? {
      assert LoopStep(s, l).q == Q.TakeN(s.q);
    }
  }

  /** Over every run: once the add task of a timer is in the locked queue, any thread may call
      cancel_timer. If no batch has collected the timer when the loop comes to that task, its callback
      never runs, before or after. */
  lemma AddThenCancelElsewhere(pre: seq<Step>, mid: seq<Step>, post: seq<Step>, p: nat, r: nat, node: TimerNode)
    requires Legal(INIT, pre) && Q.Task(p, Q.AddTimer(node)) in Exec(INIT, pre).q.muxHist
    requires Q.Task(r, Q.CancelTimer(node.id)) !in Exec(INIT, pre).q.muxHist
    requires Legal(Exec(INIT, pre), mid) && LoopEnabled(Exec(Exec(INIT, pre), mid), LTake)
    requires Exec(Exec(INIT, pre), mid).q.pend[0] == Q.Task(r, Q.CancelTimer(node.id))
    requires node.id !in Exec(Exec(INIT, pre), mid).tm.collected
    requires Legal(LoopStep(Exec(Exec(INIT, pre), mid), LTake), post)
    ensures !RanTimer(Exec(LoopStep(Exec(Exec(INIT, pre), mid), LTake), post).log, node.id)
  {
    RunKeepsFromStart(pre);
    var s0, s := Exec(INIT, pre), Exec(Exec(INIT, pre), mid);
    RunKeepsTimers(s0, mid);
    RunKeepsRuns(s0, mid);
    HistoryGrows(s0, mid);
    AddRanBefore(s0.q, s.q, p, r, node, s.tm.known, s.tm.t.next);
    NextKeepsTimers(s, L(LTake));
    NextRuns(s, L(LTake));
    DeadNeverLogged(LoopStep(s, LTake), post, node.id);
  }

  lemma AddRanBefore(q0: Q.Queues, q: Q.Queues, p: nat, r: nat, node: TimerNode, known: set<TimerId>, next: nat)
    requires Q.Conserved(q) && AddsOk(q, known, next) && q0.muxHist <= q.muxHist
    requires Q.Task(p, Q.AddTimer(node)) in q0.muxHist && Q.Task(r, Q.CancelTimer(node.id)) !in q0.muxHist
    requires q.pend != [] && q.pend[0] == Q.Task(r, Q.CancelTimer(node.id))
    ensures node.id in known
  {
    var i :| 0 <= i < |q0.muxHist| && q0.muxHist[i] == Q.Task(p, Q.AddTimer(node));
    assert q.muxHist[i] == q0.muxHist[i];
    assert q.muxHist[|q.muxDone|] == q.pend[0];
  }

  lemma DeadNeverLogged(s: Sys, post: seq<Step>, id: TimerId)
    requires TimersOk(s) && RunsOk(s) && Dead(s.tm, id) && Legal(s, post)
    ensures !RanTimer(Exec(s, post).log, id)
  {
    DeadForever(s, post, id);
    RunKeepsRuns(s, post);
    NeverLogged(Exec(s, post), id);
  }

  // ---------- A cancel that overtakes the add ----------

  /** A step that leaves a tombstone for `id`. */
  ghost predicate Cancels(s: Sys, st: Step, id: TimerId)
    requires Enabled(s, st)
  {
    || st == U(UCancelTimer(id))
    || (st == L(LTake) && s.q.pend[0].body == Q.CancelTimer(id))
    || (st == L(LTakeN) && s.q.pendN[0] == Q.CancelTimer(id))
  }

  /** A prune that takes a tombstone for `id`: no timer of the heap is at or below it, or the loop is
      ending. */
  ghost predicate Drops(s: Sys, st: Step, id: TimerId) {
    st == L(LPrune) && (s.hasStop || forall n :: n in s.tm.t.nodes ==> !Leq(n.id, id))
  }

  ghost predicate EverCancels(s: Sys, run: seq<Step>, id: TimerId)
    requires Legal(s, run)
    decreases |run|
  {
    run != [] && (Cancels(s, run[0], id) || EverCancels(Next(s, run[0]), run[1..], id))
  }

  ghost predicate EverDrops(s: Sys, run: seq<Step>, id: TimerId)
    requires Legal(s, run)
    decreases |run|
  {
    run != [] && (Drops(s, run[0], id) || EverDrops(Next(s, run[0]), run[1..], id))
  }

  /** timer_call reads the clock at or after `expire`. */
  predicate DueIn(run: seq<Step>, expire: int) {
    exists st :: st in run && st.L? && st.l.LCollect? && st.l.now >= expire
  }

  lemma KnownGrows(s: Sys, st: Step)
    requires Enabled(s, st)
    ensures s.tm.known <= Next(s, st).tm.known && (!s.w.open ==> !Next(s, st).w.open)
  {
    match st {
      case F(f) =>
      case K(k) =>
      case L(l) => LoopKnownGrows(s, l);
      case U(u) =>
    }
  }

  lemma LoopKnownGrows(s: Sys, l: Loop)
    requires LoopEnabled(s, l)
    ensures s.tm.known <= LoopStep(s, l).tm.known && (!s.w.open ==> !LoopStep(s, l).w.open)
  {
    if l.LEndEvent? {
      assert EndEvent(s).tm == s.tm && EndEvent(s).w == s.w;
    }
  }

  lemma {:induction false} RunKnownGrows(s: Sys, run: seq<Step>)
    requires Legal(s, run)
    ensures s.tm.known <= Exec(s, run).tm.known && (!s.w.open ==> !Exec(s, run).w.open)
    decreases |run|
  {
    if run != [] {
      KnownGrows(s, run[0]);
      RunKnownGrows(Next(s, run[0]), run[1..]);
    }
  }

  /** Steps that touch neither heap nor tombstones. */
  lemma SlotsStay(s: Sys, st: Step)
    requires Enabled(s, st)
    requires !(st.L? && (st.l.LTake? || st.l.LTakeN? || st.l.LCollect? || st.l.LPrune?))
    requires !(st.U? && (st.u.UAddTimer? || st.u.UCancelTimer?))
    ensures var tm := Next(s, st).tm;
      tm.t.nodes == s.tm.t.nodes && tm.t.slots == s.tm.t.slots && tm.collected == s.tm.collected
  {
    match st {
      case F(f) =>
      case K(k) =>
      case L(l) =>
        if l.LEndEvent? {
          assert EndEvent(s).tm == s.tm;
        }
      case U(u) =>
    }
  }

  lemma TombstoneStep(s: Sys, st: Step, id: TimerId)
    requires HeapOk(s.tm) && Enabled(s, st) && id !in s.tm.known
    requires id in s.tm.t.slots && !Cancels(s, st, id)
    ensures id in Next(s, st).tm.t.slots <==> !Drops(s, st, id)
  {
    if st.L? && st.l.LPrune? {
    } else if st.L? && st.l.LCollect? {
      assert id !in T.Ids(s.tm.t.nodes);
    } else if st.L? && (st.l.LTake? || st.l.LTakeN?) {
    } else if st.U? && (st.u.UAddTimer? || st.u.UCancelTimer?) {
    } else {
      SlotsStay(s, st);
    }
  }

  lemma NoTombstoneStep(s: Sys, st: Step, id: TimerId)
    requires Enabled(s, st) && id !in s.tm.t.slots && !Cancels(s, st, id)
    ensures id !in Next(s, st).tm.t.slots
  {
    if st.L? && st.l.LPrune? {
    } else if st.L? && st.l.LCollect? {
    } else if st.L? && (st.l.LTake? || st.l.LTakeN?) {
    } else if st.U? && (st.u.UAddTimer? || st.u.UCancelTimer?) {
    } else {
      SlotsStay(s, st);
    }
  }

  lemma {:induction false} GoneStaysGone(s: Sys, run: seq<Step>, id: TimerId)
    requires Legal(s, run) && id !in s.tm.t.slots && !EverCancels(s, run, id)
    ensures id !in Exec(s, run).tm.t.slots
    decreases |run|
  {
    if run != [] {
      NoTombstoneStep(s, run[0], id);
      GoneStaysGone(Next(s, run[0]), run[1..], id);
    }
  }

  /** Until the add is taken in, the tombstone is there exactly as long as no prune took it. */
  lemma {:induction false} TombstoneSurvives(s: Sys, run: seq<Step>, id: TimerId)
    requires TimersOk(s) && Legal(s, run) && id !in Exec(s, run).tm.known
    requires id in s.tm.t.slots && !EverCancels(s, run, id)
    ensures id in Exec(s, run).tm.t.slots <==> !EverDrops(s, run, id)
    decreases |run|
  {
    if run != [] {
      var s' := Next(s, run[0]);
      RunKnownGrows(s, run);
      NextKeepsTimers(s, run[0]);
      TombstoneStep(s, run[0], id);
      if id in s'.tm.t.slots {
        TombstoneSurvives(s', run[1..], id);
      } else {
        GoneStaysGone(s', run[1..], id);
      }
    }
  }

  /** In the heap without a tombstone. */
  ghost predicate Alive(tm: TimerState, node: TimerNode) {
    node in tm.t.nodes && node.id !in tm.t.slots
  }

  lemma AliveCollected(s: Sys, now: int, node: TimerNode)
    requires HeapOk(s.tm) && Alive(s.tm, node)
    ensures if now >= node.id.expire then node.id in Collect(s, now).tm.collected
            else Alive(Collect(s, now).tm, node) && node.id !in Collect(s, now).tm.collected
  {
    CollectKeepsHeap(s, now);
    var (t', runs) := T.Collect(s.tm.t, now);
    var due := T.Due(s.tm.t.nodes, now);
    assert node in due <==> now >= node.id.expire;
    assert node in due * T.Live(s.tm.t) ==> node in runs;
  }

  lemma AliveStep(s: Sys, st: Step, node: TimerNode)
    requires HeapOk(s.tm) && Alive(s.tm, node) && Enabled(s, st) && Next(s, st).w.open
    requires !Cancels(s, st, node.id)
    ensures if st.L? && st.l.LCollect? && st.l.now >= node.id.expire then node.id in Next(s, st).tm.collected
            else Alive(Next(s, st).tm, node)
  {
    NoTombstoneStep(s, st, node.id);
    if st.L? && st.l.LCollect? {
      AliveCollected(s, st.l.now, node);
    } else if st.L? && (st.l.LPrune? || st.l.LTake? || st.l.LTakeN?) {
    } else if st.U? && (st.u.UAddTimer? || st.u.UCancelTimer?) {
    } else {
      SlotsStay(s, st);
    }
  }

  lemma CollectedGrows(s: Sys, st: Step)
    requires Enabled(s, st)
    ensures s.tm.collected <= Next(s, st).tm.collected
  {
    if st.L? && (st.l.LTake? || st.l.LTakeN? || st.l.LCollect? || st.l.LPrune?) {
    } else if st.U? && (st.u.UAddTimer? || st.u.UCancelTimer?) {
    } else {
      SlotsStay(s, st);
    }
  }

  lemma {:induction false} CollectedStays(s: Sys, run: seq<Step>)
    requires Legal(s, run)
    ensures s.tm.collected <= Exec(s, run).tm.collected
    decreases |run|
  {
    if run != [] {
      CollectedGrows(s, run[0]);
      CollectedStays(Next(s, run[0]), run[1..]);
    }
  }

  /** A live timer of a loop that goes on is collected exactly when timer_call finds it due. */
  lemma {:induction false} AliveIsCollectedWhenDue(s: Sys, run: seq<Step>, node: TimerNode)
    requires TimersOk(s) && Alive(s.tm, node) && Legal(s, run) && Exec(s, run).w.open
    requires !EverCancels(s, run, node.id)
    ensures node.id in Exec(s, run).tm.collected <==> DueIn(run, node.id.expire)
    decreases |run|
  {
    if run != [] {
      var st, s' := run[0], Next(s, run[0]);
      RunKnownGrows(s', run[1..]);
      NextKeepsTimers(s, st);
      AliveStep(s, st, node);
      assert run == [st] + run[1..];
      if st.L? && st.l.LCollect? && st.l.now >= node.id.expire {
        assert st in run;
        CollectedStays(s', run[1..]);
      } else {
        AliveIsCollectedWhenDue(s', run[1..], node);
        assert DueIn(run, node.id.expire) <==> DueIn(run[1..], node.id.expire);
      }
    }
  }

  /** The state in which the loop is about to take in an add that was cancelled before. */
  ghost predicate AboutToAdd(b: Sys, node: TimerNode) {
    && TimersOk(b) && RunsOk(b) && LoopEnabled(b, LTake) && b.q.pend[0].body == Q.AddTimer(node)
    && node.id !in b.tm.known
  }

  lemma AddTakes(b: Sys, node: TimerNode)
    requires AboutToAdd(b, node)
    ensures var a := LoopStep(b, LTake); TimersOk(a) && RunsOk(a) && a.tm == AddTimerTo(b.tm, node)
  {
    NextKeepsTimers(b, L(LTake));
    NextRuns(b, L(LTake));
  }

  lemma BuriedIsDead(b: Sys, node: TimerNode)
    requires AboutToAdd(b, node) && node.id in b.tm.t.slots
    ensures Dead(AddTimerTo(b.tm, node), node.id)
  {
    assert node.id !in b.tm.collected;
  }

  lemma Buried(b: Sys, post: seq<Step>, node: TimerNode)
    requires AboutToAdd(b, node) && node.id in b.tm.t.slots && Legal(LoopStep(b, LTake), post)
    ensures !RanTimer(Exec(LoopStep(b, LTake), post).log, node.id)
  {
    AddTakes(b, node);
    BuriedIsDead(b, node);
    DeadNeverLogged(LoopStep(b, LTake), post, node.id);
  }

  lemma Forgotten(b: Sys, post: seq<Step>, node: TimerNode)
    requires AboutToAdd(b, node) && node.id !in b.tm.t.slots && Legal(LoopStep(b, LTake), post)
    requires !EverCancels(LoopStep(b, LTake), post, node.id)
    requires var f := Exec(LoopStep(b, LTake), post); f.w.open && !f.pc.Fire? && !f.pc.InTimer?
    ensures RanTimer(Exec(LoopStep(b, LTake), post).log, node.id) <==> DueIn(post, node.id.expire)
  {
    AddTakes(b, node);
    var a := LoopStep(b, LTake);
    AliveIsCollectedWhenDue(a, post, node);
    RunKeepsRuns(a, post);
    LoggedWhenOver(Exec(a, post), node.id);
  }

  lemma LoggedWhenOver(s: Sys, id: TimerId)
    requires RunsOk(s) && !s.pc.Fire? && !s.pc.InTimer?
    ensures RanTimer(s.log, id) <==> id in s.tm.collected
  {
    FiredMember(s.log, id);
    assert FiredIn(s.log)[id] == multiset(s.tm.collected)[id];
  }

  lemma AddIsNew(b: Sys, node: TimerNode)
    requires TimersOk(b) && LoopEnabled(b, LTake) && b.q.pend[0].body == Q.AddTimer(node)
    ensures node.id !in b.tm.known
  {
    TakeKeepsAdds(b.q, b.tm.known, b.tm.t.next);
  }

  /** cancel_timer runs on the loop thread in `s`, is not repeated in `mid`, and then the loop comes to
      the add of the timer. */
  ghost predicate Overtakes(s: Sys, mid: seq<Step>, node: TimerNode) {
    && UserEnabled(s, UCancelTimer(node.id))
    && var c := UserStep(s, UCancelTimer(node.id));
    && Legal(c, mid) && !EverCancels(c, mid, node.id)
    && LoopEnabled(Exec(c, mid), LTake) && Exec(c, mid).q.pend[0].body == Q.AddTimer(node)
  }

  /** The state at the add, and whether the tombstone was pruned on the way. */
  ghost function AtAdd(s: Sys, mid: seq<Step>, node: TimerNode): Sys
    requires Overtakes(s, mid, node)
  {
    Exec(UserStep(s, UCancelTimer(node.id)), mid)
  }

  ghost predicate Pruned(s: Sys, mid: seq<Step>, node: TimerNode)
    requires Overtakes(s, mid, node)
  {
    EverDrops(UserStep(s, UCancelTimer(node.id)), mid, node.id)
  }

  lemma CancelledMeanwhile(s: Sys, mid: seq<Step>, node: TimerNode)
    requires TimersOk(s) && RunsOk(s) && Overtakes(s, mid, node)
    ensures AboutToAdd(AtAdd(s, mid, node), node)
    ensures node.id in AtAdd(s, mid, node).tm.t.slots <==> !Pruned(s, mid, node)
  {
    var c := UserStep(s, UCancelTimer(node.id));
    NextKeepsTimers(s, U(UCancelTimer(node.id)));
    NextRuns(s, U(UCancelTimer(node.id)));
    RunKeepsTimers(c, mid);
    RunKeepsRuns(c, mid);
    AddIsNew(Exec(c, mid), node);
    TombstoneSurvives(c, mid, node.id);
  }

  /** Over every run: a cancel that overtakes its add silences the timer for good if no prune takes the
      tombstone before the add. */
  lemma OvertakingCancelHolds(pre: seq<Step>, mid: seq<Step>, post: seq<Step>, node: TimerNode)
    requires Legal(INIT, pre) && Overtakes(Exec(INIT, pre), mid, node)
    requires !Pruned(Exec(INIT, pre), mid, node)
    requires Legal(LoopStep(AtAdd(Exec(INIT, pre), mid, node), LTake), post)
    ensures !RanTimer(Exec(LoopStep(AtAdd(Exec(INIT, pre), mid, node), LTake), post).log, node.id)
  {
    RunKeepsFromStart(pre);
    CancelledMeanwhile(Exec(INIT, pre), mid, node);
    Buried(AtAdd(Exec(INIT, pre), mid, node), post, node);
  }

  /** ... and is forgotten if one does. While the loop goes on and nobody cancels again: outside a
      batch, the callback has run exactly when a prune came in between and timer_call has found the
      timer due since. */
  lemma OvertakingCancelExactly(pre: seq<Step>, mid: seq<Step>, post: seq<Step>, node: TimerNode)
    requires Legal(INIT, pre) && Overtakes(Exec(INIT, pre), mid, node)
    requires Legal(LoopStep(AtAdd(Exec(INIT, pre), mid, node), LTake), post)
    requires !EverCancels(LoopStep(AtAdd(Exec(INIT, pre), mid, node), LTake), post, node.id)
    requires var f := Exec(LoopStep(AtAdd(Exec(INIT, pre), mid, node), LTake), post);
      f.w.open && !f.pc.Fire? && !f.pc.InTimer?
    ensures RanTimer(Exec(LoopStep(AtAdd(Exec(INIT, pre), mid, node), LTake), post).log, node.id)
       <==> Pruned(Exec(INIT, pre), mid, node) && DueIn(post, node.id.expire)
  {
    RunKeepsFromStart(pre);
    CancelledMeanwhile(Exec(INIT, pre), mid, node);
    if Pruned(Exec(INIT, pre), mid, node) {
      Forgotten(AtAdd(Exec(INIT, pre), mid, node), post, node);
    } else {
      Buried(AtAdd(Exec(INIT, pre), mid, node), post, node);
    }
  }
}
