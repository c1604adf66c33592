/** In which round evClose runs. What decides is when the object closes, not when stop() is called: a
    stop() that only cancels a read closes nothing yet. */
module LoopRounds {
  import opened LoopSystem
  import opened LoopTasks
  import opened LoopClose
  import opened LoopShutdown
  import Q = TaskQueues

  predicate OwnBatch(pc: Pc) {
    pc.RunNmux? || pc.InNmux?
  }

  /** Stays within on_tasks: timer_call does not begin. */
  predicate BeforeTimers(run: seq<Step>) {
    forall st :: st in run ==> !(st.L? && st.l.LCollect?)
  }

  lemma LoopStaysOwn(s: Sys, l: Loop)
    requires LoopEnabled(s, l) && OwnBatch(s.pc) && !l.LCollect?
    ensures OwnBatch(LoopStep(s, l).pc) && SameOwn(s.q, LoopStep(s, l).q)
  {
    if l.LTakeN? {
      BodyKeepsBatches(s.(q := Q.TakeN(s.q)), s.q.pendN[0], Own);
      assert s.q.pendN == [s.q.pendN[0]] + s.q.pendN[1..];
    }
  }

  lemma {:induction false} RunStaysOwn(s: Sys, run: seq<Step>)
    requires Legal(s, run) && OwnBatch(s.pc) && BeforeTimers(run)
    ensures OwnBatch(Exec(s, run).pc) && SameOwn(s.q, Exec(s, run).q)
    decreases |run|
  {
    if run != [] {
      assert run[0] in run && forall st :: st in run[1..] ==> st in run;
      match run[0] {
        case F(f) =>
        case K(k) =>
        case L(l) => LoopStaysOwn(s, l);
        case U(u) => UserKeepsBatches(s, u);
      }
      RunStaysOwn(Next(s, run[0]), run[1..]);
    }
  }

  lemma RoundFrom(s: Sys, run: seq<Step>, o: nat)
    requires CloseOk(s) && LoopEnabled(s, LSubtract) && Legal(LoopStep(s, LSubtract), run)
    requires BeforeTimers(run) && Exec(LoopStep(s, LSubtract), run).q.pendN == []
    ensures CloseOk(Exec(LoopStep(s, LSubtract), run))
    ensures o in ClosesIn(Exec(LoopStep(s, LSubtract), run).log) <==> ClosedWithCallback(s, o)
  {
    var begun := LoopStep(s, LSubtract);
    NextCloses(s, L(LSubtract));
    RunCloses(begun, run);
    RunStaysOwn(begun, run);
    SwappedOwnRan(s.q, Exec(begun, run).q);
    RanByThen(s, Exec(begun, run), o);
  }

  /** Over every run, in every round: when the loop's own batch has run, evClose has run of exactly the
      objects that had closed when on_tasks swapped that batch out; be it in a callback or a timer of
      any earlier round, in an I/O callback or in the locked batch of this one. */
  lemma EvCloseRound(pre: seq<Step>, run: seq<Step>, o: nat)
    requires Legal(INIT, pre) && LoopEnabled(Exec(INIT, pre), LSubtract)
    requires Legal(LoopStep(Exec(INIT, pre), LSubtract), run)
    requires BeforeTimers(run) && Exec(LoopStep(Exec(INIT, pre), LSubtract), run).q.pendN == []
    ensures o in ClosesIn(Exec(LoopStep(Exec(INIT, pre), LSubtract), run).log)
       <==> ClosedWithCallback(Exec(INIT, pre), o)
  {
    InitCloses();
    RunCloses(INIT, pre);
    RoundFrom(Exec(INIT, pre), run, o);
  }

  /** An object that closes between two of these swaps, in a task of the own batch, in a timer or in an
      I/O callback: not in the first batch, but in the second. */
  lemma EvCloseNextRound(pre: seq<Step>, run: seq<Step>, mid: seq<Step>, again: seq<Step>, o: nat)
    requires Legal(INIT, pre) && LoopEnabled(Exec(INIT, pre), LSubtract)
    requires Legal(LoopStep(Exec(INIT, pre), LSubtract), run)
    requires BeforeTimers(run) && Exec(LoopStep(Exec(INIT, pre), LSubtract), run).q.pendN == []
    requires Legal(Exec(LoopStep(Exec(INIT, pre), LSubtract), run), mid)
    requires LoopEnabled(Exec(Exec(LoopStep(Exec(INIT, pre), LSubtract), run), mid), LSubtract)
    requires Legal(LoopStep(Exec(Exec(LoopStep(Exec(INIT, pre), LSubtract), run), mid), LSubtract), again)
    requires BeforeTimers(again)
    requires var g := Exec(Exec(LoopStep(Exec(INIT, pre), LSubtract), run), mid);
      && Exec(LoopStep(g, LSubtract), again).q.pendN == []
      && !ClosedWithCallback(Exec(INIT, pre), o) && ClosedWithCallback(g, o)
    ensures var f := Exec(LoopStep(Exec(INIT, pre), LSubtract), run);
      && o !in ClosesIn(f.log)
      && o in ClosesIn(Exec(LoopStep(Exec(f, mid), LSubtract), again).log)
  {
    InitCloses();
    RunCloses(INIT, pre);
    RoundFrom(Exec(INIT, pre), run, o);
    var f := Exec(LoopStep(Exec(INIT, pre), LSubtract), run);
    RunCloses(f, mid);
    RoundFrom(Exec(f, mid), again, o);
  }

  // ---------- Every round runs the tasks ----------

  /** Where the tasks enqueued before this on_tasks are: still queued, in a batch, or run. */
  ghost predicate Underway(s: Sys, h: seq<Q.Task>, n: seq<Q.Body>) {
    match s.pc
    case SwapMux => h <= s.q.muxHist && n <= s.q.nmuxHist
    case RunMux => h <= s.q.muxDone + s.q.pend && n <= s.q.nmuxHist
    case InMux => h <= s.q.muxDone + s.q.pend && n <= s.q.nmuxHist
    case RunNmux => h <= s.q.muxDone && n <= s.q.nmuxDone + s.q.pendN
    case InNmux => h <= s.q.muxDone && n <= s.q.nmuxDone + s.q.pendN
    case _ => false
  }

  lemma UserStaysUnderway(s: Sys, u: User, h: seq<Q.Task>, n: seq<Q.Body>)
    requires UserEnabled(s, u) && Underway(s, h, n)
    ensures Underway(UserStep(s, u), h, n)
  {
    UserKeepsBatches(s, u);
    var s' := UserStep(s, u);
    assert s'.q.muxHist == s.q.muxHist && s.q.nmuxHist <= s'.q.nmuxHist;
  }

  lemma BatchesStayUnderway(s: Sys, l: Loop, h: seq<Q.Task>, n: seq<Q.Body>)
    requires LoopEnabled(s, l) && Underway(s, h, n) && (l.LTake? || l.LTakeN?)
    ensures Underway(LoopStep(s, l), h, n)
  {
    if l.LTake? {
      BodyKeepsBatches(s.(q := Q.Take(s.q)), s.q.pend[0].body, Thread(s.q.pend[0].from));
      assert s.q.muxDone + [s.q.pend[0]] + s.q.pend[1..] == s.q.muxDone + s.q.pend;
    } else {
      BodyKeepsBatches(s.(q := Q.TakeN(s.q)), s.q.pendN[0], Own);
      assert s.q.nmuxDone + [s.q.pendN[0]] + s.q.pendN[1..] == s.q.nmuxDone + s.q.pendN;
    }
  }

  lemma SwapsStayUnderway(s: Sys, l: Loop, h: seq<Q.Task>, n: seq<Q.Body>)
    requires TasksOk(s) && LoopEnabled(s, l) && Underway(s, h, n) && (l.LSwap? || l.LSubtract?)
    ensures Underway(LoopStep(s, l), h, n)
  {
    if l.LSwap? {
      assert s.q.muxHist == s.q.muxDone + s.q.mux;
    } else {
      assert s.q.muxDone + s.q.pend == s.q.muxDone;
      assert s.q.nmuxHist == s.q.nmuxDone + s.q.nmux;
    }
  }

  lemma TaskEndsUnderway(s: Sys, l: Loop, h: seq<Q.Task>, n: seq<Q.Body>)
    requires LoopEnabled(s, l) && Underway(s, h, n)
    requires !l.LTake? && !l.LTakeN? && !l.LSwap? && !l.LSubtract? && !l.LCollect?
    ensures Underway(LoopStep(s, l), h, n)
  {
    assert l.LEndTask? || l.LEndTaskN?;
  }

  lemma LoopStaysUnderway(s: Sys, l: Loop, h: seq<Q.Task>, n: seq<Q.Body>)
    requires TasksOk(s) && LoopEnabled(s, l) && Underway(s, h, n) && !l.LCollect?
    ensures Underway(LoopStep(s, l), h, n)
  {
    if l.LTake? || l.LTakeN? {
      BatchesStayUnderway(s, l, h, n);
    } else if l.LSwap? || l.LSubtract? {
      SwapsStayUnderway(s, l, h, n);
    } else {
      TaskEndsUnderway(s, l, h, n);
    }
  }

  lemma ForeignStaysUnderway(s: Sys, f: Foreign, h: seq<Q.Task>, n: seq<Q.Body>)
    requires ForeignEnabled(s, f) && Underway(s, h, n)
    ensures Underway(ForeignStep(s, f), h, n)
  {
    var s' := ForeignStep(s, f);
    assert s'.pc == s.pc && s.q.muxHist <= s'.q.muxHist && s'.q.muxDone == s.q.muxDone && s'.q.pend == s.q.pend;
  }

  lemma StaysUnderway(s: Sys, st: Step, h: seq<Q.Task>, n: seq<Q.Body>)
    requires TasksOk(s) && Enabled(s, st) && Underway(s, h, n) && !(st.L? && st.l.LCollect?)
    ensures Underway(Next(s, st), h, n)
  {
    match st {
      case F(f) => ForeignStaysUnderway(s, f, h, n);
      case K(k) => assert KernelStep(s, k).q == s.q && KernelStep(s, k).pc == s.pc;
      case L(l) => LoopStaysUnderway(s, l, h, n);
      case U(u) => UserStaysUnderway(s, u, h, n);
    }
  }

  lemma {:induction false} RunUnderway(s: Sys, run: seq<Step>, h: seq<Q.Task>, n: seq<Q.Body>)
    requires TasksOk(s) && Legal(s, run) && Underway(s, h, n) && BeforeTimers(run)
    ensures Underway(Exec(s, run), h, n)
    decreases |run|
  {
    if run != [] {
      assert run[0] in run && forall st :: st in run[1..] ==> st in run;
      NextKeepsTasks(s, run[0]);
      StaysUnderway(s, run[0], h, n);
      RunUnderway(Next(s, run[0]), run[1..], h, n);
    }
  }

  /** Over every run, in every round: once the completions are through, on_tasks follows, and when it comes to
      the timers every task enqueued in either queue up to then has run, whatever is posted meanwhile. */
  lemma EveryRoundRunsTasks(pre: seq<Step>, run: seq<Step>)
    requires Legal(INIT, pre) && LoopEnabled(Exec(INIT, pre), LReapEnd)
    requires Legal(LoopStep(Exec(INIT, pre), LReapEnd), run) && BeforeTimers(run)
    ensures var s, f := Exec(INIT, pre), Exec(LoopStep(Exec(INIT, pre), LReapEnd), run);
      && !f.pc.Reap? && !f.pc.ReadSize? && !f.pc.Fire?
      && (f.pc.RunNmux? && f.q.pendN == [] ==> s.q.muxHist <= f.q.muxDone && s.q.nmuxHist <= f.q.nmuxDone)
  {
    InitTasks();
    RunKeepsTasks(INIT, pre);
    var s := Exec(INIT, pre);
    LoopKeepsTasks(s, LReapEnd);
    RunUnderway(LoopStep(s, LReapEnd), run, s.q.muxHist, s.q.nmuxHist);
    var f := Exec(LoopStep(s, LReapEnd), run);
    assert f.q.pendN == [] ==> f.q.nmuxDone + f.q.pendN == f.q.nmuxDone;
  }

  // ---------- The order of a round ----------

  datatype Phase = Start | Decide | Sleep | Completions | Tasks | OwnTasks | TimerCalls | Ended

  function PhaseOf(pc: Pc): Phase {
    match pc
    case Boot => Start
    case ReadSize => Decide
    case ReadCount => Decide
    case Wait(_) => Sleep
    case Reap => Completions
    case EfdRead => Completions
    case EfdArm => Completions
    case InAlloc(_) => Completions
    case InEvent(_, _) => Completions
    case SwapMux => Tasks
    case RunMux => Tasks
    case InMux => Tasks
    case RunNmux => OwnTasks
    case InNmux => OwnTasks
    case Fire => TimerCalls
    case InTimer => TimerCalls
    case Done => Ended
  }

  /** What follows a phase. After the timers of the round that saw the stop comes the final on_tasks, and
      after that the end. */
  function Following(phase: Phase, stopped: bool, open: bool): Phase {
    match phase
    case Start => Decide
    case Decide => Sleep
    case Sleep => Completions
    case Completions => Tasks
    case Tasks => OwnTasks
    case OwnTasks => if open then TimerCalls else Ended
    case TimerCalls => if stopped then Tasks else Decide
    case Ended => Ended
  }

  /** In every state: the loop decides, waits, takes completions, runs the locked batch, its own, the timers,
      and decides again; it skips nothing and turns back nowhere. */
  lemma PhasesInOrder(s: Sys, st: Step)
    requires Enabled(s, st)
    ensures || PhaseOf(Next(s, st).pc) == PhaseOf(s.pc)
            || (st.L? && PhaseOf(Next(s, st).pc) == Following(PhaseOf(s.pc), s.hasStop, s.w.open))
  {
    match st {
      case F(f) => assert ForeignStep(s, f).pc == s.pc;
      case K(k) => assert KernelStep(s, k).pc == s.pc;
      case L(l) => LoopPhase(s, l);
      case U(u) => UserKeepsBatches(s, u);
    }
  }

  lemma LoopPhase(s: Sys, l: Loop)
    requires LoopEnabled(s, l)
    ensures || PhaseOf(LoopStep(s, l).pc) == PhaseOf(s.pc)
            || PhaseOf(LoopStep(s, l).pc) == Following(PhaseOf(s.pc), s.hasStop, s.w.open)
  {
    if l.LReap? {
      ReapPhase(s, l.alloc);
    } else if l.LEndEvent? {
      assert EndEvent(s).pc == Reap;
    } else if l.LTake? {
      BodyKeepsBatches(s.(q := Q.Take(s.q)), s.q.pend[0].body, Thread(s.q.pend[0].from));
    } else if l.LTakeN? {
      BodyKeepsBatches(s.(q := Q.TakeN(s.q)), s.q.pendN[0], Own);
    } else {
      QuietPhase(s, l);
    }
  }

  lemma ReapPhase(s: Sys, alloc: bool)
    requires LoopEnabled(s, LReap(alloc))
    ensures PhaseOf(LoopStep(s, LReap(alloc)).pc) == Completions
    ensures LoopStep(s, LReap(alloc)).ring.cq == s.ring.cq[1..]
  {
  }

  lemma QuietPhase(s: Sys, l: Loop)
    requires LoopEnabled(s, l) && !l.LReap? && !l.LEndEvent? && !l.LTake? && !l.LTakeN?
    ensures || PhaseOf(LoopStep(s, l).pc) == PhaseOf(s.pc)
            || PhaseOf(LoopStep(s, l).pc) == Following(PhaseOf(s.pc), s.hasStop, s.w.open)
  {
  }

  /** How many completions a run takes. */
  function Reaps(run: seq<Step>): nat {
    if run == [] then 0 else (if run[0].L? && run[0].l.LReap? then 1 else 0) + Reaps(run[1..])
  }

  lemma LoopShrinks(s: Sys, l: Loop)
    requires LoopEnabled(s, l) && PhaseOf(s.pc) == Completions
    ensures |LoopStep(s, l).ring.cq| + (if l.LReap? then 1 else 0) >= |s.ring.cq|
    ensures PhaseOf(LoopStep(s, l).pc) == Completions || (LoopStep(s, l).pc == SwapMux && s.ring.cq == [])
  {
    if l.LReap? {
      ReapPhase(s, l.alloc);
    } else if l.LEndEvent? {
      assert EndEvent(s).pc == Reap && EndEvent(s).ring.cq == s.ring.cq;
    } else {
      assert l.LReapEnd? || l.LEfdRead? || l.LEfdArm? || l.LEndAlloc?;
    }
  }

  lemma CompletionsShrink(s: Sys, st: Step)
    requires Enabled(s, st) && PhaseOf(s.pc) == Completions
    ensures |Next(s, st).ring.cq| + Reaps([st]) >= |s.ring.cq|
    ensures PhaseOf(Next(s, st).pc) == Completions || (Next(s, st).pc == SwapMux && s.ring.cq == [])
  {
    assert [st][1..] == [];
    match st {
      case F(f) => assert ForeignStep(s, f).ring == s.ring && ForeignStep(s, f).pc == s.pc;
      case K(k) =>
      case L(l) => LoopShrinks(s, l);
      case U(u) => assert UserStep(s, u).ring.cq == s.ring.cq && UserStep(s, u).pc == s.pc;
    }
  }

  /** In the phase of completions or just past it: `n` completions are still in the queue or have been
      taken since. */
  lemma {:induction false} TakesAll(s: Sys, run: seq<Step>)
    requires Legal(s, run) && PhaseOf(s.pc) == Completions && L(LSwap) !in run
    ensures PhaseOf(Exec(s, run).pc) == Completions || Exec(s, run).pc == SwapMux
    ensures Exec(s, run).pc == SwapMux ==> Reaps(run) >= |s.ring.cq|
    decreases |run|
  {
    if run != [] {
      var s' := Next(s, run[0]);
      assert run[0] in run && forall st :: st in run[1..] ==> st in run;
      assert [run[0]][1..] == [];
      CompletionsShrink(s, run[0]);
      if PhaseOf(s'.pc) == Completions {
        TakesAll(s', run[1..]);
      } else {
        StaysAtSwap(s', run[1..]);
      }
    }
  }

  lemma {:induction false} StaysAtSwap(s: Sys, run: seq<Step>)
    requires Legal(s, run) && s.pc == SwapMux && L(LSwap) !in run
    ensures Exec(s, run).pc == SwapMux
    decreases |run|
  {
    if run != [] {
      assert run[0] in run && forall st :: st in run[1..] ==> st in run;
      assert Next(s, run[0]).pc == SwapMux;
      StaysAtSwap(Next(s, run[0]), run[1..]);
    }
  }

  /** In every round, of every run: by the time on_tasks begins, at least the completions that were there when
      the wait ended have been taken. */
  lemma EveryRoundTakesCompletions(s: Sys, now: int, run: seq<Step>)
    requires LoopEnabled(s, LWake(now)) && Legal(LoopStep(s, LWake(now)), run) && L(LSwap) !in run
    ensures Exec(LoopStep(s, LWake(now)), run).pc == SwapMux ==> Reaps(run) >= |s.ring.cq|
  {
    TakesAll(LoopStep(s, LWake(now)), run);
  }
}
