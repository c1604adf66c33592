/** Concrete runs from INIT for what the theorems of the running loop say can happen. Each is a few
    stretches of steps, with what the next stretch needs stated between them. */
module LoopWitnesses {
  import opened TimerHeap
  import opened LoopSystem
  import opened LoopClose
  import opened LoopRounds
  import Q = TaskQueues
  import S = StreamSpec
  import T = TimerSpec
  import Tags

  lemma Chain(s: Sys, st: Step, rest: seq<Step>)
    requires Enabled(s, st) && Legal(Next(s, st), rest)
    ensures Legal(s, [st] + rest) && Exec(s, [st] + rest) == Exec(Next(s, st), rest)
  {
    assert ([st] + rest)[1..] == rest;
  }

  lemma Two(s: Sys, a: Step, b: Step)
    requires Enabled(s, a) && Enabled(Next(s, a), b)
    ensures Legal(s, [a, b]) && Exec(s, [a, b]) == Next(Next(s, a), b)
  {
    Chain(Next(s, a), b, []);
    assert [b] + [] == [b];
    Chain(s, a, [b]);
    assert [a, b] == [a] + [b];
  }

  lemma Four(s: Sys, a: Step, b: Step, c: Step, d: Step)
    requires Enabled(s, a) && Enabled(Next(s, a), b) && Enabled(Next(Next(s, a), b), c)
    requires Enabled(Next(Next(Next(s, a), b), c), d)
    ensures Legal(s, [a, b, c, d]) && Exec(s, [a, b, c, d]) == Next(Next(Next(Next(s, a), b), c), d)
  {
    Two(Next(Next(s, a), b), c, d);
    Chain(Next(s, a), b, [c, d]);
    Chain(s, a, [b] + [c, d]);
    assert [a, b, c, d] == [a] + ([b] + [c, d]);
  }

  lemma {:induction false} Append(s: Sys, p: seq<Step>, q: seq<Step>)
    requires Legal(s, p) && Legal(Exec(s, p), q)
    ensures Legal(s, p + q) && Exec(s, p + q) == Exec(Exec(s, p), q)
    decreases |p|
  {
    if p == [] {
      assert p + q == q;
    } else {
      assert (p + q)[1..] == p[1..] + q;
      Append(Next(s, p[0]), p[1..], q);
    }
  }

  const IDLE: S.Flags := S.Flags(false, false, false, false)
  const CLOSED: S.Flags := S.Flags(true, false, false, true)
  const READS: S.Flags := S.Flags(false, true, false, false)

  /** One started stream with the flags `f`, register id 2 and an evClose not yet run, and no timers. */
  predicate Holds(s: Sys, f: S.Flags) {
    && |s.objs| == 1 && s.objs[0] == StreamObj(2, true, f)
    && s.tm.t.nodes == {} && s.tm.runs == []
    && CloseCb(0) !in s.log
  }

  /** The same while the loop goes on. */
  predicate OneStream(s: Sys, f: S.Flags) {
    Holds(s, f) && s.w.open && s.ring.cq == [] && !s.hasStop
  }

  // ---------- A read callback after the close ----------

  const READ_OP: Op := Op(Tags.Pack(2, 0), Of(0, 0))
  const INTO_WAIT: seq<Step> := [U(UStream(true)), U(URead(0)), L(LStart), L(LReadSize)]
  const INTO_ALLOC: seq<Step> := [L(LReadCount(0)), K(KComplete(READ_OP)), L(LWake(0)), L(LReap(true))]

  predicate Reading(s: Sys) {
    s.pc.ReadCount? && OneStream(s, READS) && READ_OP in s.ring.flying && s.ring.reg == map[2 := 0]
  }

  lemma StartsReading(s: Sys)
    requires s == INIT
    ensures Legal(s, INTO_WAIT) && Reading(Exec(s, INTO_WAIT))
  {
    var s1 := Next(s, U(UStream(true)));
    assert s1.objs == [StreamObj(2, true, IDLE)] && s1.ring.reg == map[2 := 0];
    var s2 := Next(s1, U(URead(0)));
    assert s2.ring.flying == multiset{READ_OP};
    Four(s, U(UStream(true)), U(URead(0)), L(LStart), L(LReadSize));
  }

  lemma ReadsIntoAlloc(s: Sys)
    requires Reading(s)
    ensures Legal(s, INTO_ALLOC) && Exec(s, INTO_ALLOC).pc == InAlloc(0) && OneStream(Exec(s, INTO_ALLOC), IDLE)
  {
    Tags.ParseOfPack(2, 0);
    var s1 := Next(s, L(LReadCount(0)));
    var s2 := Next(s1, K(KComplete(READ_OP)));
    assert s2.ring.cq == [READ_OP];
    Four(s, L(LReadCount(0)), K(KComplete(READ_OP)), L(LWake(0)), L(LReap(true)));
  }

  /** stop() in user code finds nothing flagged: the stream closes. */
  lemma StopsClosing(s: Sys)
    requires UserCode(s.pc) && Holds(s, IDLE)
    ensures UserEnabled(s, UStop(0))
    ensures var s' := UserStep(s, UStop(0));
      && Holds(s', CLOSED) && s'.w == s.w && s'.ring.cq == s.ring.cq && s'.q.nmux == s.q.nmux + [Q.EvClose(0)]
      && s'.q.pend == s.q.pend && s'.q.pendN == s.q.pendN && s'.q.mux == s.q.mux && s'.q.queued == s.q.queued
      && s'.log == s.log && s'.pc == s.pc
  {
  }

  /** A stop() in the alloc callback: evClose is posted, and the read callback of the closed stream
      comes after it. */
  lemma StopInAllocCallsBack() returns (run: seq<Step>)
    ensures Legal(INIT, run) && Exec(INIT, run).pc == InAlloc(0) && UserEnabled(Exec(INIT, run), UStop(0))
    ensures var s := UserStep(Exec(INIT, run), UStop(0));
      && |s.objs| == 1 && Closed(s.objs[0]) && Q.EvClose(0) in s.q.nmux
      && LoopEnabled(s, LEndAlloc) && LoopStep(s, LEndAlloc).log == s.log + [ReadCb(0)]
  {
    StartsReading(INIT);
    var s := Exec(INIT, INTO_WAIT);
    ReadsIntoAlloc(s);
    Append(INIT, INTO_WAIT, INTO_ALLOC);
    run := INTO_WAIT + INTO_ALLOC;
    StopsClosing(Exec(s, INTO_ALLOC));
  }

  // ---------- A task of another thread ----------

  const POSTS: seq<Step> := [F(FPost(1, Q.Plain(7))), F(FEnqueue(1))]
  const STARTS: seq<Step> := [L(LStart), L(LReadSize)]
  const WAKES: seq<Step> := [L(LWake(0)), L(LReapEnd)]
  const TAKES: seq<Step> := [L(LSwap), L(LTake)]

  /** In a task of the locked batch, with nothing else queued or running; thread 1 has not written. */
  predicate InTask(s: Sys, f: S.Flags) {
    && s.pc == InMux && OneStream(s, f)
    && s.q.mux == [] && s.q.pend == [] && s.q.nmux == [] && s.q.pendN == []
    && 1 in s.q.queued && 2 !in s.q.queued && s.q.counted == map[]
  }

  predicate Started(s: Sys, f: S.Flags) {
    && s.pc.Boot? && OneStream(s, f) && s.q == Q.EMPTY && s.log == []
    && s.tm.t.next == 1
  }

  /** Thread 1 has enqueued its task and not written. */
  predicate Posted(s: Sys, f: S.Flags) {
    && OneStream(s, f)
    && s.q.mux == [Q.Task(1, Q.Plain(7))] && s.q.pend == [] && s.q.nmux == [] && s.q.pendN == []
    && 1 in s.q.queued && 2 !in s.q.queued && s.q.counted == map[]
  }

  lemma Posts(s: Sys, f: S.Flags)
    requires Started(s, f)
    ensures Legal(s, POSTS)
    ensures var s' := Exec(s, POSTS); Posted(s', f) && s'.pc.Boot? && s'.tm == s.tm
  {
    Two(s, F(FPost(1, Q.Plain(7))), F(FEnqueue(1)));
  }

  lemma Starts(s: Sys, f: S.Flags)
    requires Posted(s, f) && s.pc.Boot?
    ensures Legal(s, STARTS)
    ensures var s' := Exec(s, STARTS); Posted(s', f) && s'.pc == Wait(NoWait) && s'.tm == s.tm
  {
    Two(s, L(LStart), L(LReadSize));
  }

  /** The wait ends and no completion is there. */
  lemma Wakes(s: Sys)
    requires s.pc == Wait(NoWait) && s.ring.cq == []
    ensures Legal(s, WAKES) && Exec(s, WAKES) == s.(pc := SwapMux)
  {
    Two(s, L(LWake(0)), L(LReapEnd));
  }

  lemma Takes(s: Sys, f: S.Flags)
    requires Posted(s, f) && s.pc.SwapMux?
    ensures Legal(s, TAKES) && InTask(Exec(s, TAKES), f) && Exec(s, TAKES).tm == s.tm
  {
    Two(s, L(LSwap), L(LTake));
  }

  lemma TaskRuns(s: Sys, f: S.Flags) returns (run: seq<Step>)
    requires Started(s, f)
    ensures Legal(s, run) && InTask(Exec(s, run), f) && Exec(s, run).tm == s.tm
  {
    Posts(s, f);
    var s1 := Exec(s, POSTS);
    Starts(s1, f);
    var s2 := Exec(s1, STARTS);
    Wakes(s2);
    var s3 := Exec(s2, WAKES);
    Takes(s3, f);
    Append(s2, WAKES, TAKES);
    Append(s1, STARTS, WAKES + TAKES);
    Append(s, POSTS, STARTS + (WAKES + TAKES));
    run := POSTS + (STARTS + (WAKES + TAKES));
  }

  lemma StartsIdle(s: Sys)
    requires s == INIT
    ensures Legal(s, [U(UStream(true))]) && Started(Exec(s, [U(UStream(true))]), IDLE)
  {
    var s1 := Next(s, U(UStream(true)));
    assert s1.objs == [StreamObj(2, true, IDLE)];
    Chain(s, U(UStream(true)), []);
    assert [U(UStream(true))] + [] == [U(UStream(true))];
  }

  /** From INIT into a task of thread 1. */
  lemma IdleInTask() returns (run: seq<Step>)
    ensures Legal(INIT, run) && InTask(Exec(INIT, run), IDLE) && Exec(INIT, run).tm.t.next == 1
  {
    StartsIdle(INIT);
    var s := Exec(INIT, [U(UStream(true))]);
    var rest := TaskRuns(s, IDLE);
    Append(INIT, [U(UStream(true))], rest);
    run := [U(UStream(true))] + rest;
  }

  lemma StartsRead(s: Sys)
    requires s == INIT
    ensures Legal(s, [U(UStream(true)), U(URead(0))])
    ensures Started(Exec(s, [U(UStream(true)), U(URead(0))]), READS)
  {
    var s1 := Next(s, U(UStream(true)));
    assert s1.objs == [StreamObj(2, true, IDLE)];
    Two(s, U(UStream(true)), U(URead(0)));
  }

  lemma ReadingInTask() returns (run: seq<Step>)
    ensures Legal(INIT, run) && InTask(Exec(INIT, run), READS)
  {
    StartsRead(INIT);
    var first := [U(UStream(true)), U(URead(0))];
    var s := Exec(INIT, first);
    var rest := TaskRuns(s, READS);
    Append(INIT, first, rest);
    run := first + rest;
  }

  // ---------- The round of evClose ----------

  /** A stop() that closes in a task of the locked batch: evClose in the same round. */
  lemma ClosedInLockedBatch() returns (pre: seq<Step>, post: seq<Step>)
    ensures Legal(INIT, pre) && Exec(INIT, pre).pc == InMux && UserEnabled(Exec(INIT, pre), UStop(0))
    ensures Legal(UserStep(Exec(INIT, pre), UStop(0)), post) && BeforeTimers(post)
    ensures var f := Exec(UserStep(Exec(INIT, pre), UStop(0)), post); f.q.pendN == [] && CloseCb(0) in f.log
  {
    pre := IdleInTask();
    StopsClosing(Exec(INIT, pre));
    var s := UserStep(Exec(INIT, pre), UStop(0));
    EndsTask(s);
    EvCloseComes(Exec(s, [L(LEndTask), L(LSubtract)]));
    Append(s, [L(LEndTask), L(LSubtract)], [L(LTakeN), L(LEndTaskN)]);
    post := [L(LEndTask), L(LSubtract)] + [L(LTakeN), L(LEndTaskN)];
  }

  lemma EndsTask(s: Sys)
    requires s.pc == InMux && s.q.pend == []
    ensures Legal(s, [L(LEndTask), L(LSubtract)])
    ensures var s' := Exec(s, [L(LEndTask), L(LSubtract)]); s'.pc == RunNmux && s'.q.pendN == s.q.nmux
  {
    Two(s, L(LEndTask), L(LSubtract));
  }

  lemma EvCloseComes(s: Sys)
    requires s.pc == RunNmux && s.q.pendN == [Q.EvClose(0)]
    ensures Legal(s, [L(LTakeN), L(LEndTaskN)])
    ensures var s' := Exec(s, [L(LTakeN), L(LEndTaskN)]); CloseCb(0) in s'.log && s'.q.pendN == []
  {
    Two(s, L(LTakeN), L(LEndTaskN));
  }

  const OWN_POST: seq<Step> := [U(UPost(8)), L(LEndTask)]
  const OWN_TAKE: seq<Step> := [L(LSubtract), L(LTakeN)]

  /** Between the batches, with one task of the loop's own. */
  predicate OwnQueued(s: Sys) {
    && s.pc == RunMux && OneStream(s, IDLE)
    && s.q.mux == [] && s.q.pend == [] && s.q.nmux == [Q.Plain(8)]
    && 2 !in s.q.queued && s.q.counted == map[]
  }

  lemma OwnTaskPosted(s: Sys)
    requires InTask(s, IDLE)
    ensures Legal(s, OWN_POST) && OwnQueued(Exec(s, OWN_POST)) && Exec(s, OWN_POST).tm == s.tm
  {
    Two(s, U(UPost(8)), L(LEndTask));
  }

  lemma OwnTaskTaken(s: Sys)
    requires OwnQueued(s)
    ensures Legal(s, OWN_TAKE) && InOwnTask(Exec(s, OWN_TAKE)) && Exec(s, OWN_TAKE).tm == s.tm
  {
    Two(s, L(LSubtract), L(LTakeN));
  }

  /** In a task of the loop's own batch, with nothing else queued or running. */
  predicate InOwnTask(s: Sys) {
    && s.pc == InNmux && OneStream(s, IDLE)
    && s.q.mux == [] && s.q.pend == [] && s.q.nmux == [] && s.q.pendN == []
    && 2 !in s.q.queued && s.q.counted == map[]
  }

  /** From INIT into a task of the loop's own queue. */
  lemma IdleInOwnTask() returns (run: seq<Step>)
    ensures Legal(INIT, run)
    ensures InOwnTask(Exec(INIT, run)) && Exec(INIT, run).tm.t.next == 1
  {
    var first := IdleInTask();
    var s := Exec(INIT, first);
    OwnTaskPosted(s);
    OwnTaskTaken(Exec(s, OWN_POST));
    Append(s, OWN_POST, OWN_TAKE);
    Append(INIT, first, OWN_POST + OWN_TAKE);
    run := first + (OWN_POST + OWN_TAKE);
  }

  /** A stop() that closes in a task of the loop's own batch: not in this round, evClose waits. */
  lemma ClosedInOwnBatch() returns (pre: seq<Step>, post: seq<Step>)
    ensures Legal(INIT, pre) && Exec(INIT, pre).pc == InNmux && UserEnabled(Exec(INIT, pre), UStop(0))
    ensures Legal(UserStep(Exec(INIT, pre), UStop(0)), post)
    ensures var f := Exec(UserStep(Exec(INIT, pre), UStop(0)), post);
      f.pc.RunNmux? && f.q.pendN == [] && CloseCb(0) !in f.log && Q.EvClose(0) in f.q.nmux
  {
    pre := IdleInOwnTask();
    StopsClosing(Exec(INIT, pre));
    var s := UserStep(Exec(INIT, pre), UStop(0));
    Chain(s, L(LEndTaskN), []);
    assert [L(LEndTaskN)] + [] == [L(LEndTaskN)];
    post := [L(LEndTaskN)];
  }

  /** A stop() in a task of the locked batch for a stream whose read is out: it only cancels the read. The
      round ends with the stream open and no evClose posted. */
  lemma ReadingStreamStaysOpen() returns (pre: seq<Step>, post: seq<Step>)
    ensures Legal(INIT, pre) && Exec(INIT, pre).pc == InMux && UserEnabled(Exec(INIT, pre), UStop(0))
    ensures Legal(UserStep(Exec(INIT, pre), UStop(0)), post)
    ensures var f := Exec(UserStep(Exec(INIT, pre), UStop(0)), post);
      && f.pc.RunNmux? && f.q.pendN == [] && f.q.nmux == [] && CloseCb(0) !in f.log
      && |f.objs| == 1 && f.objs[0].StreamObj? && f.objs[0].s.stop && !Closed(f.objs[0])
  {
    pre := ReadingInTask();
    var s := UserStep(Exec(INIT, pre), UStop(0));
    Two(s, L(LEndTask), L(LSubtract));
    post := [L(LEndTask), L(LSubtract)];
  }

  // ---------- The end of the loop ----------

  lemma NothingDue(s: Sys, now: int)
    requires s.tm.t.nodes == {}
    ensures T.UniqueIds(s.tm.t.nodes)
    ensures Collect(s, now).tm.runs == [] && Collect(s, now).tm.t.nodes == {}
  {
    var due := T.Due(s.tm.t.nodes, now) * T.Live(s.tm.t);
    assert due == {};
    assert T.Lists(T.Listing(due), due);
  }

  const STOPS: seq<Step> := [U(UStopLoop), L(LEndTask)]
  const COLLECTS_NONE: seq<Step> := [L(LSubtract), L(LCollect(0))]
  const NEXT_ROUND: seq<Step> := [L(LPrune), L(LReadSize)]
  const STOP_COMES: seq<Step> := [L(LReadCount(0)), K(KComplete(STOP_OP))]
  const STOP_SEEN: seq<Step> := [L(LWake(0)), L(LReap(false))]
  const SWAPS: seq<Step> := [L(LReapEnd), L(LSwap)]
  const LATE_POST: seq<Step> := [F(FPost(2, Q.Plain(9))), F(FEnqueue(2))]
  const LAST_SWAP: seq<Step> := [L(LPrune), L(LSwap)]
  const LAST_TASK: seq<Step> := [L(LTake), U(UPost(8))]
  const LAST_OWN: seq<Step> := [L(LTakeN), U(UStop(0))]
  const ENDS: seq<Step> := [L(LEndTaskN), L(LCollect(0))]

  /** Thread 1 stays between its enqueue and its write; no other is in the middle of post(). */
  predicate Quiet(s: Sys) {
    && Holds(s, IDLE) && s.q.mux == [] && s.q.pend == [] && s.q.nmux == [] && s.q.pendN == []
    && 1 in s.q.queued && 2 !in s.q.queued && s.q.counted == map[]
  }

  predicate StopFlying(s: Sys) {
    Quiet(s) && s.w.open && !s.hasStop && s.ring.cq == [] && STOP_OP in s.ring.flying
  }

  lemma StopsLoop(s: Sys)
    requires InTask(s, IDLE)
    ensures Legal(s, STOPS) && StopFlying(Exec(s, STOPS)) && Exec(s, STOPS).pc.RunMux?
  {
    Two(s, U(UStopLoop), L(LEndTask));
  }

  lemma CollectsNone(s: Sys)
    requires Holds(s, IDLE) && s.pc.RunMux? && s.q.pend == [] && s.q.nmux == [] && s.w.open
    ensures Legal(s, COLLECTS_NONE)
    ensures var s' := Exec(s, COLLECTS_NONE);
      && s'.pc == Fire && Holds(s', IDLE) && s'.hasStop == s.hasStop && s'.w == s.w && s'.ring == s.ring
      && s'.q.mux == s.q.mux && s'.q.pend == [] && s'.q.nmux == [] && s'.q.pendN == []
      && s'.q.queued == s.q.queued && s'.q.counted == s.q.counted
  {
    NothingDue(Next(s, L(LSubtract)), 0);
    Two(s, L(LSubtract), L(LCollect(0)));
  }

  lemma NextRounds(s: Sys)
    requires StopFlying(s) && s.pc.Fire?
    ensures Legal(s, NEXT_ROUND) && StopFlying(Exec(s, NEXT_ROUND)) && Exec(s, NEXT_ROUND).pc.ReadCount?
  {
    Two(s, L(LPrune), L(LReadSize));
  }

  lemma StopComes(s: Sys)
    requires StopFlying(s) && s.pc.ReadCount?
    ensures Legal(s, STOP_COMES)
    ensures var s' := Exec(s, STOP_COMES); Quiet(s') && s'.pc.Wait? && s'.w.open && s'.ring.cq == [STOP_OP]
  {
    Two(s, L(LReadCount(0)), K(KComplete(STOP_OP)));
  }

  lemma StopSeen(s: Sys)
    requires Quiet(s) && s.pc.Wait? && s.w.open && s.ring.cq == [STOP_OP]
    ensures Legal(s, STOP_SEEN)
    ensures var s' := Exec(s, STOP_SEEN); Quiet(s') && s'.pc.Reap? && s'.w.open && s'.hasStop && s'.ring.cq == []
  {
    Tags.ParseOfPack(LOOP_ID, EV_STOP);
    var s1 := Next(s, L(LWake(0)));
    assert Route(s1.ring, STOP_OP.tag) == ToStop;
    assert s1.ring.cq[1..] == [];
    Two(s, L(LWake(0)), L(LReap(false)));
  }

  lemma Swaps(s: Sys)
    requires Quiet(s) && s.pc.Reap? && s.w.open && s.hasStop && s.ring.cq == []
    ensures Legal(s, SWAPS)
    ensures var s' := Exec(s, SWAPS); Quiet(s') && s'.pc.RunMux? && s'.w.open && s'.hasStop
  {
    Two(s, L(LReapEnd), L(LSwap));
  }

  lemma LatePost(s: Sys)
    requires Quiet(s) && s.pc.RunMux? && s.w.open && s.hasStop
    ensures Legal(s, LATE_POST)
    ensures var s' := Exec(s, LATE_POST);
      && s'.pc.RunMux? && s'.hasStop && s'.w.open && Holds(s', IDLE) && s'.q.mux == [Q.Task(2, Q.Plain(9))]
      && s'.q.pend == [] && s'.q.nmux == [] && 1 in s'.q.queued
  {
    Two(s, F(FPost(2, Q.Plain(9))), F(FEnqueue(2)));
  }

  lemma LastSwap(s: Sys)
    requires s.pc.Fire? && s.hasStop && Holds(s, IDLE) && s.q.mux == [Q.Task(2, Q.Plain(9))]
    requires s.q.pend == [] && s.q.nmux == [] && s.q.pendN == [] && 1 in s.q.queued
    ensures Legal(s, LAST_SWAP)
    ensures var s' := Exec(s, LAST_SWAP);
      && s'.pc.RunMux? && !s'.w.open && Holds(s', IDLE) && s'.q.pend == [Q.Task(2, Q.Plain(9))]
      && s'.q.nmux == [] && 1 in s'.q.queued
  {
    Two(s, L(LPrune), L(LSwap));
  }

  lemma LastTask(s: Sys)
    requires s.pc.RunMux? && !s.w.open && Holds(s, IDLE) && s.q.pend == [Q.Task(2, Q.Plain(9))]
    requires s.q.nmux == [] && 1 in s.q.queued
    ensures Legal(s, LAST_TASK)
    ensures var s' := Exec(s, LAST_TASK);
      && s'.pc.InMux? && !s'.w.open && Holds(s', IDLE) && s'.q.pend == []
      && s'.q.nmux == [Q.Plain(8)] && 1 in s'.q.queued
  {
    Two(s, L(LTake), U(UPost(8)));
  }

  /** The last own batch: one task, which stops the stream. */
  lemma LastOwnTask(s: Sys)
    requires s.pc.RunMux? && !s.w.open && Holds(s, IDLE) && s.q.pend == []
    requires s.q.nmux == [Q.Plain(8)] && 1 in s.q.queued
    ensures LoopEnabled(s, LSubtract) && Legal(LoopStep(s, LSubtract), LAST_OWN)
    ensures var s' := Exec(LoopStep(s, LSubtract), LAST_OWN);
      && s'.pc.InNmux? && Holds(s', CLOSED) && s'.q.nmux == [Q.EvClose(0)] && s'.q.pendN == []
      && 1 in s'.q.queued && !s'.w.open
  {
    var s1 := LoopStep(s, LSubtract);
    StopsClosing(Next(s1, L(LTakeN)));
    Two(s1, L(LTakeN), U(UStop(0)));
  }

  lemma LoopEnds(s: Sys)
    requires s.pc.InNmux? && Holds(s, CLOSED) && s.q.nmux == [Q.EvClose(0)] && s.q.pendN == []
    requires 1 in s.q.queued && !s.w.open
    ensures Legal(s, ENDS)
    ensures var f := Exec(s, ENDS);
      && f.pc.Done? && Holds(f, CLOSED) && f.q.nmux == [Q.EvClose(0)] && 1 in f.q.queued && !f.w.open
  {
    NothingDue(Next(s, L(LEndTaskN)), 0);
    Two(s, L(LEndTaskN), L(LCollect(0)));
  }

  lemma StopInThisRound(s: Sys) returns (run: seq<Step>)
    requires InTask(s, IDLE)
    ensures Legal(s, run) && StopFlying(Exec(s, run)) && Exec(s, run).pc.ReadCount?
  {
    StopsLoop(s);
    var s1 := Exec(s, STOPS);
    CollectsNone(s1);
    var s2 := Exec(s1, COLLECTS_NONE);
    NextRounds(s2);
    Append(s1, COLLECTS_NONE, NEXT_ROUND);
    Append(s, STOPS, COLLECTS_NONE + NEXT_ROUND);
    run := STOPS + (COLLECTS_NONE + NEXT_ROUND);
  }

  lemma StopInNextRound(s: Sys) returns (run: seq<Step>)
    requires StopFlying(s) && s.pc.ReadCount?
    ensures Legal(s, run) && Quiet(Exec(s, run))
    ensures Exec(s, run).pc.RunMux? && Exec(s, run).w.open && Exec(s, run).hasStop
  {
    StopComes(s);
    var s1 := Exec(s, STOP_COMES);
    StopSeen(s1);
    var s2 := Exec(s1, STOP_SEEN);
    Swaps(s2);
    Append(s1, STOP_SEEN, SWAPS);
    Append(s, STOP_COMES, STOP_SEEN + SWAPS);
    run := STOP_COMES + (STOP_SEEN + SWAPS);
  }

  /** Up to the last swap: thread 2 has posted after the swap of the round that saw the stop. */
  lemma RoundAtEnd(s: Sys) returns (run: seq<Step>)
    requires Quiet(s) && s.pc.RunMux? && s.w.open && s.hasStop
    ensures Legal(s, run)
    ensures var s' := Exec(s, run);
      && s'.pc.RunMux? && !s'.w.open && Holds(s', IDLE) && s'.q.pend == [Q.Task(2, Q.Plain(9))]
      && s'.q.nmux == [] && 1 in s'.q.queued
  {
    LatePost(s);
    var s1 := Exec(s, LATE_POST);
    CollectsNone(s1);
    var s2 := Exec(s1, COLLECTS_NONE);
    LastSwap(s2);
    Append(s1, COLLECTS_NONE, LAST_SWAP);
    Append(s, LATE_POST, COLLECTS_NONE + LAST_SWAP);
    run := LATE_POST + (COLLECTS_NONE + LAST_SWAP);
  }

  lemma LastRound(s: Sys) returns (run: seq<Step>)
    requires s.pc.RunMux? && !s.w.open && Holds(s, IDLE) && s.q.pend == [Q.Task(2, Q.Plain(9))]
    requires s.q.nmux == [] && 1 in s.q.queued
    ensures Legal(s, run)
    ensures var s' := Exec(s, run);
      && s'.pc.RunMux? && !s'.w.open && Holds(s', IDLE) && s'.q.pend == []
      && s'.q.nmux == [Q.Plain(8)] && 1 in s'.q.queued
  {
    LastTask(s);
    var s1 := Exec(s, LAST_TASK);
    Chain(s1, L(LEndTask), []);
    Append(s, LAST_TASK, [L(LEndTask)] + []);
    run := LAST_TASK + ([L(LEndTask)] + []);
  }

  /** The stream closes in a task of the last own batch: run() returns with its evClose still queued, to
      be run by nobody. And thread 1, having enqueued its task long before, still has its write to do: the
      eventfd is closed, and wakeup() panics. */
  lemma EvCloseIsLost() returns (pre: seq<Step>, run: seq<Step>)
    ensures Legal(INIT, pre) && LoopEnabled(Exec(INIT, pre), LSubtract) && !Exec(INIT, pre).w.open
    ensures Legal(LoopStep(Exec(INIT, pre), LSubtract), run)
    ensures var f := Exec(LoopStep(Exec(INIT, pre), LSubtract), run);
      && f.pc.Done? && ClosedWithCallback(f, 0) && CloseCb(0) !in f.log && Q.EvClose(0) in f.q.nmux
      && 1 in f.q.queued && !ForeignEnabled(f, FWrite(1))
  {
    var a := IdleInTask();
    var s := Exec(INIT, a);
    var b := StopInThisRound(s);
    var s1 := Exec(s, b);
    var c := StopInNextRound(s1);
    var s2 := Exec(s1, c);
    var d := RoundAtEnd(s2);
    var s3 := Exec(s2, d);
    var e := LastRound(s3);
    Append(s2, d, e);
    Append(s1, c, d + e);
    Append(s, b, c + (d + e));
    Append(INIT, a, b + (c + (d + e)));
    pre := a + (b + (c + (d + e)));
    var s4 := Exec(INIT, pre);
    LastOwnTask(s4);
    LoopEnds(Exec(LoopStep(s4, LSubtract), LAST_OWN));
    Append(LoopStep(s4, LSubtract), LAST_OWN, ENDS);
    run := LAST_OWN + ENDS;
  }

  // ---------- A cancel that is forgotten ----------

  const NODE: TimerNode := TimerNode(TimerId(5, 1), 3)
  const ADDS: seq<Step> := [F(FAddTimer(2, 5, 3)), F(FEnqueue(2))]
  const COLLECTS: seq<Step> := [L(LEndTaskN), L(LCollect(0))]
  const PRUNES: seq<Step> := [L(LPrune), L(LReadSize)]
  const DUE: seq<Step> := [L(LSubtract), L(LCollect(5))]
  const FIRES: seq<Step> := [L(LFire), L(LEndTimer)]

  /** Thread 2 has enqueued the add. */
  predicate AddWaits(s: Sys) {
    && OneStream(s, IDLE)
    && s.q.mux == [Q.Task(2, Q.AddTimer(NODE))] && s.q.pend == [] && s.q.nmux == [] && s.q.pendN == []
  }

  lemma AddQueued(s: Sys)
    requires InOwnTask(s) && s.tm.t.next == 1
    ensures Legal(s, ADDS) && AddWaits(Exec(s, ADDS)) && Exec(s, ADDS).pc == InNmux
  {
    Two(s, F(FAddTimer(2, 5, 3)), F(FEnqueue(2)));
  }

  lemma NothingCollected(s: Sys)
    requires AddWaits(s) && s.pc == InNmux
    ensures Legal(s, COLLECTS) && AddWaits(Exec(s, COLLECTS)) && Exec(s, COLLECTS).pc == Fire
  {
    NothingDue(Next(s, L(LEndTaskN)), 0);
    Two(s, L(LEndTaskN), L(LCollect(0)));
  }

  lemma TombstonePruned(s: Sys)
    requires AddWaits(s) && s.pc == Fire
    ensures Legal(s, PRUNES)
    ensures var s' := Exec(s, PRUNES); AddWaits(s') && s'.pc == Wait(NoWait) && s'.tm.t.slots == {}
  {
    assert T.Prune(s.tm.t).slots == {};
    Two(s, L(LPrune), L(LReadSize));
  }

  lemma AddTaken(s: Sys)
    requires AddWaits(s) && s.pc == SwapMux && s.tm.t.slots == {}
    ensures Legal(s, TAKES)
    ensures var s' := Exec(s, TAKES);
      && s'.pc.RunMux? && s'.w.open && s'.q.pend == [] && s'.q.nmux == []
      && s'.tm.t.nodes == {NODE} && s'.tm.t.slots == {}
  {
    Two(s, L(LSwap), L(LTake));
  }

  lemma OneDue(s: Sys)
    requires s.tm.t.nodes == {NODE} && s.tm.t.slots == {}
    ensures T.UniqueIds(s.tm.t.nodes) && Collect(s, 5).tm.runs == [NODE]
  {
    var due := T.Due(s.tm.t.nodes, 5) * T.Live(s.tm.t);
    assert due == {NODE};
    T.ListsUnique([NODE], T.Listing(due), due);
  }

  lemma TimerDue(s: Sys)
    requires s.pc.RunMux? && s.w.open && s.q.pend == [] && s.q.nmux == []
    requires s.tm.t.nodes == {NODE} && s.tm.t.slots == {}
    ensures Legal(s, DUE) && Exec(s, DUE).pc == Fire && Exec(s, DUE).tm.runs == [NODE]
  {
    OneDue(Next(s, L(LSubtract)));
    Two(s, L(LSubtract), L(LCollect(5)));
  }

  lemma TimerFires(s: Sys)
    requires s.pc == Fire && s.tm.runs == [NODE]
    ensures Legal(s, FIRES) && TimerCb(NODE) in Exec(s, FIRES).log
  {
    Two(s, L(LFire), L(LEndTimer));
  }

  lemma PrunedAndTaken(s: Sys) returns (run: seq<Step>)
    requires AddWaits(s) && s.pc == InNmux
    ensures Legal(s, run)
    ensures var s' := Exec(s, run);
      && s'.pc.RunMux? && s'.w.open && s'.q.pend == [] && s'.q.nmux == []
      && s'.tm.t.nodes == {NODE} && s'.tm.t.slots == {}
  {
    NothingCollected(s);
    var s1 := Exec(s, COLLECTS);
    TombstonePruned(s1);
    var s2 := Exec(s1, PRUNES);
    Wakes(s2);
    var s3 := Exec(s2, WAKES);
    AddTaken(s3);
    Append(s2, WAKES, TAKES);
    Append(s1, PRUNES, WAKES + TAKES);
    Append(s, COLLECTS, PRUNES + (WAKES + TAKES));
    run := COLLECTS + (PRUNES + (WAKES + TAKES));
  }

  lemma FiresAnyway(s: Sys) returns (run: seq<Step>)
    requires AddWaits(s) && s.pc == InNmux
    ensures Legal(s, run) && TimerCb(NODE) in Exec(s, run).log
  {
    var first := PrunedAndTaken(s);
    var s1 := Exec(s, first);
    TimerDue(s1);
    TimerFires(Exec(s1, DUE));
    Append(s1, DUE, FIRES);
    Append(s, first, DUE + FIRES);
    run := first + (DUE + FIRES);
  }

  /** add_timer on thread 2, then cancel_timer in a task of the loop while the add is queued; the heap is
      empty, the prune of the round takes the tombstone, and the timer's callback runs. */
  lemma CancelIsForgotten() returns (pre: seq<Step>, post: seq<Step>)
    ensures Legal(INIT, pre) && Q.Task(2, Q.AddTimer(NODE)) in Exec(INIT, pre).q.mux
    ensures UserEnabled(Exec(INIT, pre), UCancelTimer(NODE.id))
    ensures Legal(UserStep(Exec(INIT, pre), UCancelTimer(NODE.id)), post)
    ensures TimerCb(NODE) in Exec(UserStep(Exec(INIT, pre), UCancelTimer(NODE.id)), post).log
  {
    var a := IdleInOwnTask();
    AddQueued(Exec(INIT, a));
    Append(INIT, a, ADDS);
    pre := a + ADDS;
    post := FiresAnyway(UserStep(Exec(INIT, pre), UCancelTimer(NODE.id)));
  }
}
