/** The sleep of the running loop: in every run, a loop that waits wakes up for its timers. */
module LoopSleep {
  import opened TimerHeap
  import opened LoopSystem
  import opened LoopWakeup
  import B = SleepBound

  /** While the loop waits its timers are those it computed the sleep from: other threads only post. */
  ghost predicate SleepLaw(s: Sys) {
    Sleeping(s.pc) ==> s.pc.sleep == SleepFrom(s.tm, s.pc.sleep.since)
  }

  lemma OthersKeepSleep(s: Sys, st: Step)
    requires Enabled(s, st) && Sleeping(s.pc)
    ensures st.F? || st.K? ==> Next(s, st).pc == s.pc && Next(s, st).tm.t.nodes == s.tm.t.nodes
    ensures !st.U?
  {
  }

  /** Only the wait decision leads into the wait. */
  lemma WakesOrDecides(s: Sys, st: Step)
    requires Enabled(s, st) && Sleeping(Next(s, st).pc)
    ensures Sleeping(s.pc) || (st.L? && st.l.LReadCount?)
  {
    match st {
      case F(_) =>
      case K(_) =>
      case L(l) => LoopDecides(s, l);
      case U(u) => assert UserStep(s, u).pc == s.pc;
    }
  }

  lemma LoopDecides(s: Sys, l: Loop)
    requires LoopEnabled(s, l) && Sleeping(LoopStep(s, l).pc)
    ensures l.LReadCount?
  {
  }

  lemma {:induction false} RunSleeps(s: Sys, run: seq<Step>)
    requires SleepLaw(s) && Legal(s, run)
    ensures SleepLaw(Exec(s, run))
    decreases |run|
  {
    if run != [] {
      if Sleeping(s.pc) {
        OthersKeepSleep(s, run[0]);
      }
      if Sleeping(Next(s, run[0]).pc) {
        WakesOrDecides(s, run[0]);
      }
      RunSleeps(Next(s, run[0]), run[1..]);
    }
  }

  lemma FrontIsFirst(nodes: set<TimerNode>)
    ensures nodes == {} <==> FrontOf(nodes).NoTimer?
    ensures forall n :: n in nodes ==> FrontOf(nodes).expire <= n.id.expire
    ensures nodes != {} ==> exists n :: n in nodes && n.id.expire == FrontOf(nodes).expire
  {
  }

  /** Over every run: a waiting loop is free to go on at the deadline of each of its timers, or at once
      for those already past when it fell asleep, and after 300 s in any case. Without a completion it
      stays asleep until less than a millisecond before the first of these. */
  lemma WakesForTimers(run: seq<Step>, now: int)
    requires Legal(INIT, run) && Sleeping(Exec(INIT, run).pc)
    ensures var s := Exec(INIT, run); var since := s.pc.sleep.since;
      && (forall n :: n in s.tm.t.nodes && n.id.expire <= now && since <= now ==> LoopEnabled(s, LWake(now)))
      && (now >= since + B.MAX_EXPIRED_NS ==> LoopEnabled(s, LWake(now)))
      && (LoopEnabled(s, LWake(now)) && s.ring.cq == [] ==>
            || now + 1_000_000 > since + B.MAX_EXPIRED_NS
            || exists n :: n in s.tm.t.nodes && (now + 1_000_000 > n.id.expire || since > n.id.expire))
  {
    RunSleeps(INIT, run);
    var s := Exec(INIT, run);
    var since, front := s.pc.sleep.since, FrontOf(s.tm.t.nodes);
    FrontIsFirst(s.tm.t.nodes);
    if front.NoTimer? || since <= front.expire {
      B.SleepsAlmostToTheBound(front, since);
    } else {
      B.PastIsNoSleep(front, since);
    }
  }
}
