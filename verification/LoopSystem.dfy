/** The whole loop as a state machine: other threads, the kernel and the loop thread take turns in
    atomic steps, and user code on the loop thread makes any API call at any point of a callback.
    A call or a task that would panic has no next state. */
module LoopSystem {
  import opened TimerHeap
  import opened Words
  import T = TimerSpec
  import Q = TaskQueues
  import S = StreamSpec
  import A = AcceptorLinux
  import B = SleepBound
  import Registry
  import Tags

  // ---------- State ----------

  /** The eventfd's one-shot poll: not in the ring, waiting, or completed and in the queue. */
  datatype Poll = Off | Armed | Fired

  /** `drained`: the eventfd was read in this round and the locked queue is not yet swapped out.
      `open`: neither the ring nor the eventfd is closed. */
  datatype Wake = Wake(efd: nat, poll: Poll, drained: bool, open: bool)

  /** Who an operation was submitted for: what routing must respect. The loop sees only the tag. */
  datatype Owner = LoopEfd | LoopStop | CancelReq | TimeoutReq | Of(obj: nat, ev: nat)

  datatype Op = Op(tag: nat, owner: Owner)

  /** `next` is register_id_req, `reg` the callback map from register id to object, `ever` its history
      (every id given out and to whom), `flying` the operations the kernel holds, `cq` the completion
      queue. */
  datatype Ring = Ring(next: nat, reg: map<nat, nat>, ever: map<nat, nat>, flying: multiset<Op>, cq: seq<Op>)

  /** `rid` is the register id the object got at start, `hasClose` whether it has an evClose. */
  datatype Obj =
    | StreamObj(rid: nat, hasClose: bool, s: S.Flags)
    | AcceptorObj(rid: nat, hasClose: bool, a: A.Flags)

  /** `runs` is the rest of the running timer batch, `known` the ids ever added to the heap,
      `collected` those ever taken out to run. */
  datatype TimerState = TimerState(t: T.Timers, runs: seq<TimerNode>, known: set<TimerId>, collected: set<TimerId>)

  /** Decided at clock value `since`, the wait ends by itself at `until`. */
  datatype Sleep = NoWait | Until(since: int, until: int)

  /** In `InAlloc` run_read has called its alloc callback, in `InEvent` an object its last callback. */
  datatype Pc =
    | Boot
    | ReadSize | ReadCount | Wait(sleep: Sleep)
    | Reap | EfdRead | EfdArm | InAlloc(obj: nat) | InEvent(obj: nat, ev: nat)
    | SwapMux | RunMux | InMux | RunNmux | InNmux
    | Fire | InTimer | Done

  /** Which queue a task comes from: that of thread `p`'s posts, or the loop's own. */
  datatype From = Thread(p: nat) | Own

  /** One user callback that was run. */
  datatype Event =
    | AllocCb(obj: nat) | ReadCb(obj: nat) | WriteCb(obj: nat) | ConnCb(obj: nat) | CloseCb(obj: nat)
    | TimerCb(node: TimerNode) | TaskCb(from: From, n: nat)

  datatype Sys = Sys(
    pc: Pc, hasStop: bool, q: Q.Queues, w: Wake, ring: Ring, objs: seq<Obj>, tm: TimerState, log: seq<Event>)

  const LOOP_ID: nat := 1
  const EV_STOP: nat := 1
  const EV_EFD: nat := 2

  const EFD_OP: Op := Op(Tags.Pack(LOOP_ID, EV_EFD), LoopEfd)
  const STOP_OP: Op := Op(Tags.Pack(LOOP_ID, EV_STOP), LoopStop)

  /** A constructed loop, before run(). */
  const INIT: Sys := Sys(Boot, false, Q.EMPTY, Wake(0, Off, false, true),
                         Ring(LOOP_ID, map[], map[], multiset{}, []), [],
                         TimerState(T.Timers({}, {}, 1), [], {}, {}), [])

  /** User code runs on the loop thread. */
  predicate UserCode(pc: Pc) {
    pc.Boot? || pc.InAlloc? || pc.InEvent? || pc.InMux? || pc.InNmux? || pc.InTimer?
  }

  predicate Closed(o: Obj) {
    match o
    case StreamObj(_, _, s) => s.close
    case AcceptorObj(_, _, a) => a.close
  }

  // ---------- Steps ----------

  datatype Foreign =
    | FPost(p: nat, b: Q.Body)
    | FAddTimer(p: nat, expire: int, cb: nat)
    | FEnqueue(p: nat)
    | FWrite(p: nat)

  datatype Kernel = KPoll | KComplete(op: Op) | KTimeout

  /** A `now` is the clock value the step reads or ends at. `LReap(true)` hands a completion of a read
      to the alloc callback, `LReap(false)` straight to the read callback, as it is for a failed read
      or without an alloc callback; for other completions it makes no difference. */
  datatype Loop =
    | LStart | LReadSize | LReadCount(now: int) | LWake(now: int)
    | LReap(alloc: bool) | LReapEnd | LEfdRead | LEfdArm | LEndAlloc | LEndEvent
    | LSwap | LTake | LEndTask | LSubtract | LTakeN | LEndTaskN
    | LCollect(now: int) | LFire | LEndTimer | LPrune

  datatype User =
    | UPost(n: nat) | UAddTimer(expire: int, cb: nat) | UCancelTimer(id: TimerId) | UStopLoop
    | UStream(hasClose: bool) | URead(o: nat) | UWrite(o: nat) | UStop(o: nat)
    | UAcceptor(hasClose: bool) | UStopAcceptor(o: nat)

  datatype Step = F(f: Foreign) | K(k: Kernel) | L(l: Loop) | U(u: User)

  // ---------- Pieces of steps ----------

  /** wakeup(): a write to the eventfd. */
  function Wakeup(w: Wake): Wake {
    w.(efd := w.efd + 1)
  }

  function Submit(r: Ring, op: Op): Ring {
    r.(flying := r.flying + multiset{op})
  }

  /** PostToClose's work on ring and queue. */
  function CloseDown(s: Sys, o: nat): Sys
    requires o < |s.objs|
  {
    s.(ring := s.ring.(reg := Registry.Unregistered(s.ring.reg, s.objs[o].rid)),
       q := if s.objs[o].hasClose then Q.PostIn(s.q, Q.EvClose(o)) else s.q)
  }

  predicate StreamEffectOk(s: Sys, o: nat, e: S.Effect)
    requires o < |s.objs|
  {
    match e
    case Nothing => true
    case CloseDown => true
    case _ => s.w.open && !Closed(s.objs[o]) && s.objs[o].rid <= Tags.MAX_ID
  }

  function StreamEffect(s: Sys, o: nat, r: (S.Flags, S.Effect)): Sys
    requires o < |s.objs| && s.objs[o].StreamObj?
  {
    var s' := s.(objs := s.objs[o := s.objs[o].(s := r.0)]);
    match r.1
    case Nothing => s'
    case SubmitRead => s'.(ring := Submit(s.ring, Op(Tags.Pack(s.objs[o].rid, 0), Of(o, 0))))
    case SubmitWrite => s'.(ring := Submit(s.ring, Op(Tags.Pack(s.objs[o].rid, 1), Of(o, 1))))
    case CancelRead => s'.(ring := Submit(s.ring, Op(0, CancelReq)))
    case CloseDown => CloseDown(s', o)
  }

  predicate AcceptorEffectOk(s: Sys, o: nat, e: A.Effect)
    requires o < |s.objs|
  {
    match e
    case Nothing => true
    case CloseDown => true
    case _ => s.w.open && !Closed(s.objs[o]) && s.objs[o].rid <= Tags.MAX_ID
  }

  function AcceptorEffect(s: Sys, o: nat, r: (A.Flags, A.Effect)): Sys
    requires o < |s.objs| && s.objs[o].AcceptorObj?
  {
    var s' := s.(objs := s.objs[o := s.objs[o].(a := r.0)]);
    match r.1
    case Nothing => s'
    case SubmitAccept => s'.(ring := Submit(s.ring, Op(Tags.Pack(s.objs[o].rid, 0), Of(o, 0))))
    case CancelAccept => s'.(ring := Submit(s.ring, Op(0, CancelReq)))
    case CloseDown => CloseDown(s', o)
  }

  /** make_register_id and register_event_cb for a new object. */
  function Register(s: Sys, o: Obj): Sys {
    var (rid, reg) := Registry.Registered(s.ring.next, s.ring.reg, |s.objs|);
    s.(ring := s.ring.(next := rid, reg := reg, ever := s.ring.ever[rid := |s.objs|]), objs := s.objs + [o])
  }

  /** An acceptor's start() past bind and listen: registered, with its first accept submitted. */
  function StartAcceptor(s: Sys, hasClose: bool): Sys {
    var rid := s.ring.next + 1;
    var s' := Register(s, AcceptorObj(rid, hasClose, A.PostAccept(A.Flags(false, false, false)).0));
    s'.(ring := Submit(s'.ring, Op(Tags.Pack(rid, 0), Of(|s.objs|, 0))))
  }

  ghost function AddTimerTo(tm: TimerState, n: TimerNode): TimerState {
    tm.(t := T.Add(tm.t, n), known := tm.known + {n.id})
  }

  // ---------- Other threads ----------

  ghost predicate ForeignEnabled(s: Sys, f: Foreign) {
    match f
    case FPost(p, b) => Q.Idle(s.q, p) && (b.Plain? || b.CancelTimer? || b.StopLoop?)
    case FAddTimer(p, _, _) => Q.Idle(s.q, p) && s.tm.t.next + 1 < TWO64
    case FEnqueue(p) => p in s.q.counted
    case FWrite(p) => p in s.q.queued && s.w.open
  }

  /** add_timer draws its sequence number in the step that counts its task. */
  ghost function ForeignStep(s: Sys, f: Foreign): Sys
    requires ForeignEnabled(s, f)
  {
    match f
    case FPost(p, b) => s.(q := Q.Count(s.q, p, b))
    case FAddTimer(p, e, c) =>
      s.(q := Q.Count(s.q, p, Q.AddTimer(TimerNode(TimerId(e, s.tm.t.next), c))),
         tm := s.tm.(t := s.tm.t.(next := s.tm.t.next + 1)))
    case FEnqueue(p) => s.(q := Q.Enqueue(s.q, p))
    case FWrite(p) => s.(q := Q.Written(s.q, p), w := Wakeup(s.w))
  }

  // ---------- The kernel ----------

  ghost predicate KernelEnabled(s: Sys, k: Kernel) {
    && s.w.open
    && match k
       case KPoll => s.w.poll.Armed? && s.w.efd > 0
       case KComplete(op) => op in s.ring.flying
       case KTimeout => true
  }

  ghost function KernelStep(s: Sys, k: Kernel): Sys
    requires KernelEnabled(s, k)
  {
    match k
    case KPoll => s.(w := s.w.(poll := Fired), ring := s.ring.(cq := s.ring.cq + [EFD_OP]))
    case KComplete(op) => s.(ring := s.ring.(flying := s.ring.flying - multiset{op}, cq := s.ring.cq + [op]))
    case KTimeout => s.(ring := s.ring.(cq := s.ring.cq + [Op(Tags.TIMEOUT_TAG, TimeoutReq)]))
  }

  // ---------- The loop thread ----------

  /** Where a completion goes, from its tag alone. */
  datatype Target = Skip | ToEfd | ToStop | ToObj(obj: nat, ev: nat)

  function Route(r: Ring, tag: nat): Target {
    if tag == Tags.TIMEOUT_TAG || tag == 0 then Skip
    else
      var (rid, ev) := Tags.Parse(tag);
      if rid == LOOP_ID then (if ev == EV_EFD then ToEfd else if ev == EV_STOP then ToStop else Skip)
      else if rid in r.reg then ToObj(r.reg[rid], ev)
      else Skip
  }

  /** The stream's callback panics on an event that is neither read nor write. */
  predicate Dispatchable(s: Sys, t: Target) {
    t.ToObj? ==> t.obj < |s.objs| && (s.objs[t.obj].StreamObj? ==> t.ev <= 1)
  }

  function Dispatch(s: Sys, t: Target, alloc: bool): Sys
    requires Dispatchable(s, t)
  {
    match t
    case Skip => s
    case ToEfd => s.(pc := EfdRead, w := s.w.(poll := Off))
    case ToStop => s.(hasStop := true)
    case ToObj(o, ev) =>
      match s.objs[o]
      case StreamObj(_, _, f) =>
        s.(pc := if ev == 0 && alloc then InAlloc(o) else InEvent(o, ev),
           objs := s.objs[o := s.objs[o].(s := if ev == 0 then S.ReadBegin(f) else S.WriteBegin(f))],
           log := s.log + [if ev != 0 then WriteCb(o) else if alloc then AllocCb(o) else ReadCb(o)])
      case AcceptorObj(_, _, f) =>
        s.(pc := InEvent(o, ev), objs := s.objs[o := s.objs[o].(a := A.AcceptBegin(f))], log := s.log + [ConnCb(o)])
  }

  /** Tasks that are lambdas of the loop itself need the ring and the eventfd. */
  predicate BodyOk(s: Sys, b: Q.Body) {
    b.AddTimer? || b.CancelTimer? || b.StopLoop? ==> s.w.open
  }

  /** Where user code of a task runs. */
  function UserPc(from: From): Pc {
    if from.Own? then InNmux else InMux
  }

  /** A task: the loop's own lambdas run to the end, user code starts. */
  ghost function RunBody(s: Sys, b: Q.Body, from: From): Sys {
    match b
    case Plain(n) => s.(pc := UserPc(from), log := s.log + [TaskCb(from, n)])
    case EvClose(o) => s.(pc := UserPc(from), log := s.log + [CloseCb(o)])
    case AddTimer(n) => s.(tm := AddTimerTo(s.tm, n), w := Wakeup(s.w))
    case CancelTimer(id) => s.(tm := s.tm.(t := T.Cancel(s.tm.t, id)), w := Wakeup(s.w))
    case StopLoop => s.(ring := Submit(s.ring, STOP_OP))
  }

  predicate EndEventOk(s: Sys)
    requires s.pc.InEvent?
  {
    var o := s.pc.obj;
    && o < |s.objs|
    && match s.objs[o]
       case StreamObj(_, _, f) => StreamEffectOk(s, o, (if s.pc.ev == 0 then S.ReadEnd(f) else S.WriteEnd(f)).1)
       case AcceptorObj(_, _, f) => AcceptorEffectOk(s, o, A.AcceptEnd(f).1)
  }

  /** The part of run_read, run_write or run after the user's callback. */
  function EndEvent(s: Sys): Sys
    requires s.pc.InEvent? && EndEventOk(s)
  {
    var o := s.pc.obj;
    match s.objs[o]
    case StreamObj(_, _, f) => StreamEffect(s, o, if s.pc.ev == 0 then S.ReadEnd(f) else S.WriteEnd(f)).(pc := Reap)
    case AcceptorObj(_, _, f) => AcceptorEffect(s, o, A.AcceptEnd(f)).(pc := Reap)
  }

  /** After timer_call: the next round, or on_stop, which empties the timers, closes ring and
      eventfd, and runs the tasks once more. */
  function NextRound(s: Sys): Sys {
    if !s.hasStop then s.(pc := ReadSize)
    else s.(pc := SwapMux, w := s.w.(open := false), tm := s.tm.(t := s.tm.t.(nodes := {}, slots := {})))
  }

  /** The front deadline as timer_wait_leatest sees it. */
  ghost function FrontOf(nodes: set<TimerNode>): B.Front {
    if nodes == {} then B.NoTimer else
      T.LeastExists(nodes);
      var m :| m in nodes && forall n :: n in nodes ==> Leq(m.id, n.id);
      B.Front(m.id.expire)
  }

  ghost function SleepFrom(tm: TimerState, now: int): Sleep {
    Until(now, now + B.Nanos(B.TimerWaitLatest(FrontOf(tm.t.nodes), now)))
  }

  ghost predicate LoopEnabled(s: Sys, l: Loop) {
    match l
    case LStart => s.pc.Boot?
    case LReadSize => s.pc.ReadSize?
    case LReadCount(_) => s.pc.ReadCount?
    case LWake(now) => s.pc.Wait? && (s.pc.sleep.NoWait? || s.ring.cq != [] || now >= s.pc.sleep.until)
    case LReap(_) => s.pc.Reap? && s.ring.cq != [] && Dispatchable(s, Route(s.ring, s.ring.cq[0].tag))
    case LReapEnd => s.pc.Reap? && s.ring.cq == []
    case LEfdRead => s.pc.EfdRead? && s.w.efd > 0
    case LEfdArm => s.pc.EfdArm?
    case LEndAlloc => s.pc.InAlloc?
    case LEndEvent => s.pc.InEvent? && EndEventOk(s)
    case LSwap => s.pc.SwapMux?
    case LTake => s.pc.RunMux? && s.q.pend != [] && BodyOk(s, s.q.pend[0].body)
    case LEndTask => s.pc.InMux?
    case LSubtract => s.pc.RunMux? && s.q.pend == []
    case LTakeN => s.pc.RunNmux? && s.q.pendN != [] && BodyOk(s, s.q.pendN[0])
    case LEndTaskN => s.pc.InNmux?
    case LCollect(_) => s.pc.RunNmux? && s.q.pendN == [] && T.UniqueIds(s.tm.t.nodes)
    case LFire => s.pc.Fire? && s.tm.runs != []
    case LEndTimer => s.pc.InTimer?
    case LPrune => s.pc.Fire? && s.tm.runs == []
  }

  ghost function LoopStep(s: Sys, l: Loop): Sys
    requires LoopEnabled(s, l)
  {
    match l
    case LStart => s.(pc := ReadSize, w := s.w.(poll := Armed))
    case LReadSize => s.(pc := if s.q.mux != [] then Wait(NoWait) else ReadCount)
    case LReadCount(now) => s.(pc := Wait(if s.q.count > 0 then NoWait else SleepFrom(s.tm, now)))
    case LWake(_) => s.(pc := Reap)
    case LReap(alloc) => Dispatch(s.(ring := s.ring.(cq := s.ring.cq[1..])), Route(s.ring, s.ring.cq[0].tag), alloc)
    case LReapEnd => s.(pc := SwapMux)
    case LEfdRead => s.(pc := EfdArm, w := s.w.(efd := 0, drained := true))
    case LEfdArm => s.(pc := Reap, w := s.w.(poll := Armed))
    case LEndAlloc => s.(pc := InEvent(s.pc.obj, 0), log := s.log + [ReadCb(s.pc.obj)])
    case LEndEvent => EndEvent(s)
    case LSwap => s.(pc := RunMux, q := Q.Swap(s.q), w := s.w.(drained := false))
    case LTake => RunBody(s.(q := Q.Take(s.q)), s.q.pend[0].body, Thread(s.q.pend[0].from))
    case LEndTask => s.(pc := RunMux)
    case LSubtract => s.(pc := RunNmux, q := Q.SwapN(Q.Subtract(s.q)))
    case LTakeN => RunBody(s.(q := Q.TakeN(s.q)), s.q.pendN[0], Own)
    case LEndTaskN => s.(pc := RunNmux)
    case LCollect(now) =>
      if !s.w.open then s.(pc := Done) else Collect(s, now)
    case LFire =>
      s.(pc := InTimer, log := s.log + [TimerCb(s.tm.runs[0])], tm := s.tm.(runs := s.tm.runs[1..]))
    case LEndTimer => s.(pc := Fire)
    case LPrune => NextRound(s.(tm := s.tm.(t := T.Prune(s.tm.t))))
  }

  ghost function Collect(s: Sys, now: int): Sys
    requires T.UniqueIds(s.tm.t.nodes)
  {
    var (t', runs) := T.Collect(s.tm.t, now);
    s.(pc := Fire, tm := s.tm.(t := t', runs := runs, collected := s.tm.collected + (set n | n in runs :: n.id)))
  }

  // ---------- User code on the loop thread ----------

  ghost predicate UserEnabled(s: Sys, u: User) {
    && UserCode(s.pc)
    && match u
       case UPost(_) => true
       case UAddTimer(_, _) => s.w.open && s.tm.t.next + 1 < TWO64
       case UCancelTimer(_) => s.w.open
       case UStopLoop => s.w.open
       case UStream(_) => s.ring.next + 1 < TWO64
       case URead(o) =>
         o < |s.objs| && s.objs[o].StreamObj? && !s.objs[o].s.reading && StreamEffectOk(s, o, S.SubmitRead)
       case UWrite(o) => o < |s.objs| && s.objs[o].StreamObj? && StreamEffectOk(s, o, S.PostWrite(s.objs[o].s).1)
       case UStop(o) => o < |s.objs| && s.objs[o].StreamObj? && StreamEffectOk(s, o, S.Stop(s.objs[o].s).1)
       case UAcceptor(_) => s.w.open && s.ring.next + 1 <= Tags.MAX_ID
       case UStopAcceptor(o) =>
         o < |s.objs| && s.objs[o].AcceptorObj? && AcceptorEffectOk(s, o, A.Stop(s.objs[o].a).1)
  }

  ghost function UserStep(s: Sys, u: User): Sys
    requires UserEnabled(s, u)
  {
    match u
    case UPost(n) => s.(q := Q.PostIn(s.q, Q.Plain(n)))
    case UAddTimer(e, c) =>
      var n := TimerNode(TimerId(e, s.tm.t.next), c);
      s.(tm := AddTimerTo(s.tm.(t := s.tm.t.(next := s.tm.t.next + 1)), n), w := Wakeup(s.w))
    case UCancelTimer(id) => s.(tm := s.tm.(t := T.Cancel(s.tm.t, id)), w := Wakeup(s.w))
    case UStopLoop => s.(ring := Submit(s.ring, STOP_OP))
    case UStream(h) => Register(s, StreamObj(s.ring.next + 1, h, S.Flags(false, false, false, false)))
    case URead(o) => StreamEffect(s, o, S.PostRead(s.objs[o].s))
    case UWrite(o) => StreamEffect(s, o, S.PostWrite(s.objs[o].s))
    case UStop(o) => StreamEffect(s, o, S.Stop(s.objs[o].s))
    case UAcceptor(h) => StartAcceptor(s, h)
    case UStopAcceptor(o) => AcceptorEffect(s, o, A.Stop(s.objs[o].a))
  }

  // ---------- Runs ----------

  ghost predicate Enabled(s: Sys, st: Step) {
    match st
    case F(f) => ForeignEnabled(s, f)
    case K(k) => KernelEnabled(s, k)
    case L(l) => LoopEnabled(s, l)
    case U(u) => UserEnabled(s, u)
  }

  ghost function Next(s: Sys, st: Step): Sys
    requires Enabled(s, st)
  {
    match st
    case F(f) => ForeignStep(s, f)
    case K(k) => KernelStep(s, k)
    case L(l) => LoopStep(s, l)
    case U(u) => UserStep(s, u)
  }

  ghost predicate Legal(s: Sys, run: seq<Step>)
    decreases |run|
  {
    run == [] || (Enabled(s, run[0]) && Legal(Next(s, run[0]), run[1..]))
  }

  ghost function Exec(s: Sys, run: seq<Step>): Sys
    requires Legal(s, run)
    decreases |run|
  {
    if run == [] then s else Exec(Next(s, run[0]), run[1..])
  }
}
