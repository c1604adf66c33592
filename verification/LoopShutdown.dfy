/** The end of run(): what the last on_tasks, after ring and eventfd are closed, still runs and what
    nobody ever runs. */
module LoopShutdown {
  import opened LoopSystem
  import opened LoopTasks
  import opened LoopClose
  import Q = TaskQueues

  /** Past the last swap of the locked queue, and past that of the loop's own. */
  predicate LastOwn(pc: Pc) {
    pc.RunNmux? || pc.InNmux? || pc.Done?
  }

  predicate LastBatches(pc: Pc) {
    pc.RunMux? || pc.InMux? || LastOwn(pc)
  }

  /** Neither batch gains or loses a task. */
  ghost predicate SameMux(q: Q.Queues, q': Q.Queues) {
    q'.muxDone + q'.pend == q.muxDone + q.pend
  }

  ghost predicate SameOwn(q: Q.Queues, q': Q.Queues) {
    q'.nmuxDone + q'.pendN == q.nmuxDone + q.pendN
  }

  lemma UserKeepsBatches(s: Sys, u: User)
    requires UserEnabled(s, u)
    ensures var s' := UserStep(s, u);
      && s'.pc == s.pc && s'.w.open == s.w.open
      && s'.q.muxDone == s.q.muxDone && s'.q.pend == s.q.pend
      && s'.q.nmuxDone == s.q.nmuxDone && s'.q.pendN == s.q.pendN
  {
  }

  lemma BodyKeepsBatches(s: Sys, b: Q.Body, from: From)
    ensures RunBody(s, b, from).q == s.q && RunBody(s, b, from).w.open == s.w.open
    ensures RunBody(s, b, from).pc == s.pc || RunBody(s, b, from).pc == UserPc(from)
  {
  }

  lemma TakeKeepsBatches(s: Sys)
    requires LoopEnabled(s, LTake)
    ensures var s' := LoopStep(s, LTake);
      LastBatches(s'.pc) && s'.w.open == s.w.open && SameMux(s.q, s'.q)
  {
    BodyKeepsBatches(s.(q := Q.Take(s.q)), s.q.pend[0].body, Thread(s.q.pend[0].from));
    assert s.q.pend == [s.q.pend[0]] + s.q.pend[1..];
  }

  lemma TakeNKeepsBatches(s: Sys)
    requires LoopEnabled(s, LTakeN)
    ensures var s' := LoopStep(s, LTakeN);
      LastOwn(s'.pc) && s'.w.open == s.w.open && SameMux(s.q, s'.q) && SameOwn(s.q, s'.q)
  {
    BodyKeepsBatches(s.(q := Q.TakeN(s.q)), s.q.pendN[0], Own);
    assert s.q.pendN == [s.q.pendN[0]] + s.q.pendN[1..];
  }

  lemma LoopKeepsBatches(s: Sys, l: Loop)
    requires LoopEnabled(s, l) && LastBatches(s.pc) && !s.w.open
    ensures var s' := LoopStep(s, l);
      && LastBatches(s'.pc) && !s'.w.open && SameMux(s.q, s'.q)
      && (LastOwn(s.pc) ==> LastOwn(s'.pc) && SameOwn(s.q, s'.q))
  {
    if l.LTake? {
      TakeKeepsBatches(s);
    } else if l.LTakeN? {
      TakeNKeepsBatches(s);
    } else {
      assert l.LEndTask? || l.LSubtract? || l.LEndTaskN? || l.LCollect?;
    }
  }

  lemma NextKeepsBatches(s: Sys, st: Step)
    requires Enabled(s, st) && LastBatches(s.pc) && !s.w.open
    ensures var s' := Next(s, st);
      && LastBatches(s'.pc) && !s'.w.open && SameMux(s.q, s'.q)
      && (LastOwn(s.pc) ==> LastOwn(s'.pc) && SameOwn(s.q, s'.q))
  {
    match st {
      case F(f) =>
      case K(k) =>
      case L(l) => LoopKeepsBatches(s, l);
      case U(u) => UserKeepsBatches(s, u);
    }
  }

  lemma {:induction false} RunKeepsBatches(s: Sys, run: seq<Step>)
    requires Legal(s, run) && LastBatches(s.pc) && !s.w.open
    ensures var s' := Exec(s, run);
      && LastBatches(s'.pc) && !s'.w.open && SameMux(s.q, s'.q)
      && (LastOwn(s.pc) ==> LastOwn(s'.pc) && SameOwn(s.q, s'.q))
    decreases |run|
  {
    if run != [] {
      NextKeepsBatches(s, run[0]);
      RunKeepsBatches(Next(s, run[0]), run[1..]);
    }
  }

  lemma RunFromStart(pre: seq<Step>, l: Loop, run: seq<Step>)
    requires Legal(INIT, pre) && LoopEnabled(Exec(INIT, pre), l)
    requires Legal(LoopStep(Exec(INIT, pre), l), run)
    ensures TasksOk(Exec(INIT, pre)) && TasksOk(Exec(LoopStep(Exec(INIT, pre), l), run))
  {
    InitTasks();
    RunKeepsTasks(INIT, pre);
    LoopKeepsTasks(Exec(INIT, pre), l);
    RunKeepsTasks(LoopStep(Exec(INIT, pre), l), run);
  }

  lemma SwappedRan(q: Q.Queues, q': Q.Queues)
    requires Q.Conserved(q) && q.pend == [] && Q.Conserved(q') && q'.pend == [] && SameMux(Q.Swap(q), q')
    ensures q'.muxDone == q.muxHist && q'.muxHist == q.muxHist + q'.mux
  {
    assert q.muxDone + q.pend == q.muxDone && q'.muxDone + q'.pend == q'.muxDone;
  }

  lemma SwappedOwnRan(q: Q.Queues, q': Q.Queues)
    requires Q.Conserved(q) && q.pendN == [] && Q.Conserved(q') && q'.pendN == []
    requires SameOwn(Q.SwapN(Q.Subtract(q)), q')
    ensures q'.nmuxDone == q.nmuxHist && q'.nmuxHist == q.nmuxHist + q'.nmux
  {
    assert q.nmuxDone + q.pendN == q.nmuxDone && q'.nmuxDone + q'.pendN == q'.nmuxDone;
  }

  /** Over every run that ends: of the tasks other threads posted exactly those have run that were in
      the locked queue when the last on_tasks swapped it out; those enqueued later are lost. */
  lemma LastLockedBatch(pre: seq<Step>, run: seq<Step>)
    requires Legal(INIT, pre) && Exec(INIT, pre).pc.SwapMux? && !Exec(INIT, pre).w.open
    requires Legal(LoopStep(Exec(INIT, pre), LSwap), run) && Exec(LoopStep(Exec(INIT, pre), LSwap), run).pc.Done?
    ensures var q, q' := Exec(INIT, pre).q, Exec(LoopStep(Exec(INIT, pre), LSwap), run).q;
      q'.muxDone == q.muxHist && q'.muxHist == q.muxHist + q'.mux
  {
    RunFromStart(pre, LSwap, run);
    var s := Exec(INIT, pre);
    RunKeepsBatches(LoopStep(s, LSwap), run);
    SwappedRan(s.q, Exec(LoopStep(s, LSwap), run).q);
  }

  /** ... and of the tasks posted on the loop thread exactly those posted before the last swap of its
      own queue; what the tasks of that last batch post, an evClose included, is lost. */
  lemma LastOwnBatch(pre: seq<Step>, run: seq<Step>)
    requires Legal(INIT, pre) && LoopEnabled(Exec(INIT, pre), LSubtract) && !Exec(INIT, pre).w.open
    requires Legal(LoopStep(Exec(INIT, pre), LSubtract), run)
    requires Exec(LoopStep(Exec(INIT, pre), LSubtract), run).pc.Done?
    ensures var q, q' := Exec(INIT, pre).q, Exec(LoopStep(Exec(INIT, pre), LSubtract), run).q;
      q'.nmuxDone == q.nmuxHist && q'.nmuxHist == q.nmuxHist + q'.nmux
  {
    RunFromStart(pre, LSubtract, run);
    var s := Exec(INIT, pre);
    RunKeepsBatches(LoopStep(s, LSubtract), run);
    SwappedOwnRan(s.q, Exec(LoopStep(s, LSubtract), run).q);
  }

  /** After run() has returned nothing is called any more, whatever other threads still post. */
  lemma {:induction false} DoneIsSilent(s: Sys, run: seq<Step>)
    requires Legal(s, run) && s.pc.Done?
    ensures Exec(s, run).pc.Done? && Exec(s, run).log == s.log && Exec(s, run).objs == s.objs
    ensures Exec(s, run).q.nmux == s.q.nmux && Exec(s, run).q.nmuxDone == s.q.nmuxDone
    decreases |run|
  {
    if run != [] {
      assert run[0].F? || run[0].K?;
      DoneIsSilent(Next(s, run[0]), run[1..]);
    }
  }

  lemma RanOrLost(objs: seq<Obj>, q: Q.Queues, o: nat)
    requires PostsOk(objs, q.nmuxHist) && Q.Conserved(q) && q.pendN == []
    requires o < |objs| && objs[o].hasClose && Closed(objs[o])
    ensures Q.EvClose(o) in q.nmuxDone <==> Q.EvClose(o) !in q.nmux
  {
    var hist, done := q.nmuxHist, q.nmuxDone;
    assert hist == done + q.nmux;
    if Q.EvClose(o) in done {
      var i :| 0 <= i < |done| && done[i] == Q.EvClose(o);
      forall j | 0 <= j < |q.nmux|
        ensures q.nmux[j] != Q.EvClose(o)
      {
        assert hist[i] == done[i] && hist[|done| + j] == q.nmux[j];
      }
    }
  }

  /** Over every run that ends, and whatever other threads do afterwards: the evClose of an object runs
      exactly when the object had closed before the last swap of the loop's own queue. That of an
      object closed later, in a task of the last own batch, never runs; its task is still queued. */
  lemma LostEvClose(pre: seq<Step>, run: seq<Step>, post: seq<Step>, o: nat)
    requires Legal(INIT, pre) && LoopEnabled(Exec(INIT, pre), LSubtract) && !Exec(INIT, pre).w.open
    requires Legal(LoopStep(Exec(INIT, pre), LSubtract), run)
    requires Exec(LoopStep(Exec(INIT, pre), LSubtract), run).pc.Done?
    requires Legal(Exec(LoopStep(Exec(INIT, pre), LSubtract), run), post)
    ensures var s, f := Exec(INIT, pre), Exec(LoopStep(Exec(INIT, pre), LSubtract), run);
      && (o in ClosesIn(Exec(f, post).log) <==> ClosedWithCallback(s, o))
      && (ClosedWithCallback(f, o) && !ClosedWithCallback(s, o) <==> Q.EvClose(o) in f.q.nmux)
  {
    var s, f := Exec(INIT, pre), Exec(LoopStep(Exec(INIT, pre), LSubtract), run);
    InitCloses();
    RunCloses(INIT, pre);
    NextCloses(s, L(LSubtract));
    RunCloses(LoopStep(s, LSubtract), run);
    LastOwnBatch(pre, run);
    RanByThen(s, f, o);
    DoneIsSilent(f, post);
    QueuedIsClosed(s, f, o);
  }

  lemma QueuedIsClosed(s: Sys, f: Sys, o: nat)
    requires CloseLaw(s) && CloseLaw(f) && Q.Conserved(f.q) && f.q.pendN == []
    requires f.q.nmuxDone == s.q.nmuxHist
    ensures ClosedWithCallback(f, o) && !ClosedWithCallback(s, o) <==> Q.EvClose(o) in f.q.nmux
  {
    EvCloseFacts(f, o);
    RanByThen(s, f, o);
    if Q.EvClose(o) in f.q.nmux {
      QueuedWasPosted(f, o);
    }
    if ClosedWithCallback(f, o) {
      RanOrLost(f.objs, f.q, o);
    }
  }

  lemma QueuedWasPosted(f: Sys, o: nat)
    requires PostsOk(f.objs, f.q.nmuxHist) && Q.Conserved(f.q) && Q.EvClose(o) in f.q.nmux
    ensures ClosedWithCallback(f, o)
  {
    var j :| 0 <= j < |f.q.nmux| && f.q.nmux[j] == Q.EvClose(o);
    assert f.q.nmuxHist[|f.q.nmuxDone| + |f.q.pendN| + j] == Q.EvClose(o);
  }

  /** A thread that has enqueued its task but not yet written to the eventfd when the loop closes it
      never completes that write: in the source wakeup() panics there. */
  lemma {:induction false} PosterIsStuck(s: Sys, run: seq<Step>, p: nat)
    requires Legal(s, run) && !s.w.open && p in s.q.queued
    ensures !Exec(s, run).w.open && p in Exec(s, run).q.queued && F(FWrite(p)) !in run
    decreases |run|
  {
    if run != [] {
      StaysStuck(s, run[0], p);
      PosterIsStuck(Next(s, run[0]), run[1..], p);
      assert run == [run[0]] + run[1..];
    }
  }

  lemma StaysStuck(s: Sys, st: Step, p: nat)
    requires Enabled(s, st) && !s.w.open && p in s.q.queued
    ensures !Next(s, st).w.open && p in Next(s, st).q.queued && st != F(FWrite(p))
  {
    match st {
      case F(f) =>
      case K(k) =>
      case L(l) => LoopStaysClosed(s, l);
      case U(u) => assert UserStep(s, u).w.open == s.w.open && UserStep(s, u).q.queued == s.q.queued;
    }
  }

  /** on_stop closes the eventfd after the timers of a round that saw the stop event. */
  predicate Ends(s: Sys, st: Step) {
    st == L(LPrune) && s.hasStop
  }

  ghost predicate EverEnds(s: Sys, run: seq<Step>)
    requires Legal(s, run)
    decreases |run|
  {
    run != [] && (Ends(s, run[0]) || EverEnds(Next(s, run[0]), run[1..]))
  }

  lemma OpenUntilEnd(s: Sys, st: Step, p: nat)
    requires Enabled(s, st) && s.w.open && p in s.q.queued && st != F(FWrite(p))
    ensures p in Next(s, st).q.queued && (Next(s, st).w.open <==> !Ends(s, st))
  {
    match st {
      case F(f) =>
      case K(k) =>
      case L(l) => LoopOpenUntilEnd(s, l);
      case U(u) => assert UserStep(s, u).w.open == s.w.open && UserStep(s, u).q.queued == s.q.queued;
    }
  }

  lemma LoopOpenUntilEnd(s: Sys, l: Loop)
    requires LoopEnabled(s, l) && s.w.open
    ensures LoopStep(s, l).q.queued == s.q.queued && (LoopStep(s, l).w.open <==> !Ends(s, L(l)))
  {
    if l.LEndEvent? {
      assert EndEvent(s).w == s.w && EndEvent(s).q.queued == s.q.queued;
    } else if l.LReap? {
      assert LoopStep(s, l).w.open == s.w.open && LoopStep(s, l).q == s.q;
    }
  }

  /** Over every run from the enqueue of a post to its eventfd write: the guard of wakeup() fails, so that
      the posting thread panics, exactly when the loop has closed the eventfd in between. */
  lemma {:induction false} PosterPanics(s: Sys, run: seq<Step>, p: nat)
    requires Legal(s, run) && s.w.open && p in s.q.queued && F(FWrite(p)) !in run
    ensures p in Exec(s, run).q.queued
    ensures ForeignEnabled(Exec(s, run), FWrite(p)) <==> !EverEnds(s, run)
    decreases |run|
  {
    if run != [] {
      assert run[0] in run && forall st :: st in run[1..] ==> st in run;
      OpenUntilEnd(s, run[0], p);
      if Ends(s, run[0]) {
        PosterIsStuck(Next(s, run[0]), run[1..], p);
      } else {
        PosterPanics(Next(s, run[0]), run[1..], p);
      }
    }
  }

  lemma LoopStaysClosed(s: Sys, l: Loop)
    requires LoopEnabled(s, l) && !s.w.open
    ensures !LoopStep(s, l).w.open && LoopStep(s, l).q.queued == s.q.queued
  {
    if l.LEndEvent? {
      assert EndEvent(s).w == s.w && EndEvent(s).q.queued == s.q.queued;
    } else if l.LReap? {
      assert LoopStep(s, l).w.open == s.w.open && LoopStep(s, l).q == s.q;
    }
  }
}
