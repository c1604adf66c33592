/** Heap plus tombstones simulate a plain map of live timers, over every run of draws, adds,
    cancels and timer_calls, with callbacks and the draws of other threads while they run. */
module TimerRefinement {
  import opened TimerHeap
  import opened TimerSpec

  /** The concrete timers with the ids ever added to the heap, and those drawn by another thread whose
      add is still on its way. */
  datatype Hist = Hist(t: Timers, added: set<TimerId>, drawn: set<TimerId>)

  /** The plain map of live timers (the set of its entries) and the next sequence number. */
  datatype Plain = Plain(live: set<TimerNode>, next: nat)

  // ---------- Callback scripts on both levels ----------

  ghost function HOp(h: Hist, op: TimerOp): Hist {
    Hist(ApplyOp(h.t, op),
         if op.AddOp? then h.added + {TimerId(op.expire, h.t.next)} else h.added,
         if op.DrawOp? then h.drawn + {TimerId(op.expire, h.t.next)} else h.drawn)
  }

  ghost function HOps(h: Hist, ops: seq<TimerOp>): Hist {
    if ops == [] then h else HOp(HOps(h, ops[..|ops| - 1]), ops[|ops| - 1])
  }

  ghost function HScripts(h: Hist, scripts: seq<seq<TimerOp>>, k: nat): Hist {
    if k == 0 then h else HOps(HScripts(h, scripts, k - 1), Script(scripts, k - 1))
  }

  ghost function POp(p: Plain, op: TimerOp): Plain {
    match op
    case AddOp(e, c) => Plain(p.live + {TimerNode(TimerId(e, p.next), c)}, p.next + 1)
    case CancelOp(id) => p.(live := Without(p.live, id))
    case DrawOp(_) => p.(next := p.next + 1)
  }

  ghost function Without(live: set<TimerNode>, id: TimerId): set<TimerNode> {
    set n | n in live && n.id != id
  }

  ghost function POps(p: Plain, ops: seq<TimerOp>): Plain {
    if ops == [] then p else POp(POps(p, ops[..|ops| - 1]), ops[|ops| - 1])
  }

  ghost function PScripts(p: Plain, scripts: seq<seq<TimerOp>>, k: nat): Plain {
    if k == 0 then p else POps(PScripts(p, scripts, k - 1), Script(scripts, k - 1))
  }

  /** timer_call on the plain map: the due entries leave, in order, and their callbacks act. */
  ghost function PCall(p: Plain, now: int, scripts: seq<seq<TimerOp>>): (Plain, seq<TimerNode>)
    requires UniqueIds(p.live)
  {
    var due := Due(p.live, now);
    var runs := Listing(due);
    (PScripts(p.(live := p.live - due), scripts, |runs|), runs)
  }

  /** The contract of cancel_timer: the id is one that was already added. */
  ghost predicate LegalOps(h: Hist, ops: seq<TimerOp>) {
    forall i :: 0 <= i < |ops| && ops[i].CancelOp? ==> ops[i].id in HOps(h, ops[..i]).added
  }

  ghost predicate LegalScripts(h: Hist, scripts: seq<seq<TimerOp>>, k: nat) {
    forall i :: 0 <= i < k ==> LegalOps(HScripts(h, scripts, i), Script(scripts, i))
  }

  ghost predicate Agree(h: Hist, p: Plain) {
    && WellFormed(h.t)
    && p.live == Live(h.t) && p.next == h.t.next
    && h.t.slots <= h.added && Ids(h.t.nodes) <= h.added
    && (forall x :: x in h.added || x in h.drawn ==> x.id < h.t.next)
    && h.added !! h.drawn
  }

  lemma OpAgrees(h: Hist, p: Plain, op: TimerOp)
    requires Agree(h, p) && (op.CancelOp? ==> op.id in h.added)
    ensures Agree(HOp(h, op), POp(p, op)) && h.added <= HOp(h, op).added
  {
    var h' := HOp(h, op);
    match op {
      case AddOp(e, c) =>
        var n := TimerNode(TimerId(e, h.t.next), c);
        assert n.id !in h.t.slots;
        assert Live(h'.t) == Live(h.t) + {n};
        assert Ids(h'.t.nodes) == Ids(h.t.nodes) + {n.id};
      case CancelOp(id) =>
        assert Live(h'.t) == Without(Live(h.t), id);
      case DrawOp(_) =>
    }
  }

  lemma {:induction false} OpsAgree(h: Hist, p: Plain, ops: seq<TimerOp>)
    requires Agree(h, p) && LegalOps(h, ops)
    ensures Agree(HOps(h, ops), POps(p, ops)) && h.added <= HOps(h, ops).added
    ensures forall x :: x in HOps(h, ops).added ==> x in h.added || x.id >= h.t.next
    ensures HOps(h, ops).t == ApplyOps(h.t, ops) && h.t.next <= HOps(h, ops).t.next
    decreases |ops|
  {
    if ops != [] {
      var init := ops[..|ops| - 1];
      assert forall i :: 0 <= i < |init| ==> init[..i] == ops[..i];
      OpsAgree(h, p, init);
      OpAgrees(HOps(h, init), POps(p, init), ops[|ops| - 1]);
    }
  }

  lemma {:induction false} ScriptsAgree(h: Hist, p: Plain, scripts: seq<seq<TimerOp>>, k: nat)
    requires Agree(h, p) && LegalScripts(h, scripts, k)
    ensures Agree(HScripts(h, scripts, k), PScripts(p, scripts, k)) && h.added <= HScripts(h, scripts, k).added
    ensures forall x :: x in HScripts(h, scripts, k).added ==> x in h.added || x.id >= h.t.next
    ensures HScripts(h, scripts, k).t == RunScripts(h.t, scripts, k) && h.t.next <= HScripts(h, scripts, k).t.next
    decreases k
  {
    if k > 0 {
      ScriptsAgree(h, p, scripts, k - 1);
      OpsAgree(HScripts(h, scripts, k - 1), PScripts(p, scripts, k - 1), Script(scripts, k - 1));
    }
  }

  /** Pruning discards no tombstone of a node in the heap: the live timers stay the same, and
      what is kept is at or above the front node, nothing if there is none. */
  lemma PruneIsSound(t: Timers)
    ensures Live(Prune(t)) == Live(t)
    ensures forall n :: n in t.nodes ==> (n.id in Prune(t).slots <==> n.id in t.slots)
    ensures forall f, x :: f in t.nodes && (forall n :: n in t.nodes ==> Leq(f.id, n.id)) ==>
              (x in Prune(t).slots <==> x in t.slots && Leq(f.id, x))
    ensures t.nodes == {} ==> Prune(t).slots == {}
  {
    forall n | n in t.nodes
      ensures n.id in Prune(t).slots <==> n.id in t.slots
    {
      assert Leq(n.id, n.id);
    }
  }

  /** Collecting takes exactly the due live timers out of the plain map. */
  lemma CollectAgrees(h: Hist, p: Plain, now: int)
    requires Agree(h, p)
    ensures UniqueIds(p.live)
    ensures Agree(h.(t := Collect(h.t, now).0), p.(live := p.live - Due(p.live, now)))
    ensures Collect(h.t, now).1 == Listing(Due(p.live, now))
  {
    var (t1, runs) := Collect(h.t, now);
    var due := Due(h.t.nodes, now);
    assert due * Live(h.t) == Due(p.live, now);
    forall n | n in t1.nodes
      ensures n.id in t1.slots <==> n.id in h.t.slots
    {
      assert forall d :: d in due ==> d.id != n.id;
    }
    assert Live(t1) == p.live - Due(p.live, now);
    assert Ids(t1.nodes) <= Ids(h.t.nodes);
  }

  ghost function HCall(h: Hist, now: int, scripts: seq<seq<TimerOp>>): (Hist, seq<TimerNode>)
    requires UniqueIds(h.t.nodes)
  {
    var (t1, runs) := Collect(h.t, now);
    var h2 := HScripts(h.(t := t1), scripts, |runs|);
    (h2.(t := Prune(h2.t)), runs)
  }

  /** The callbacks run are the same, in the same order, and the maps agree afterwards. */
  lemma CallAgrees(h: Hist, p: Plain, now: int, scripts: seq<seq<TimerOp>>)
    requires Agree(h, p) && UniqueIds(p.live)
    requires LegalScripts(h.(t := Collect(h.t, now).0), scripts, |Collect(h.t, now).1|)
    ensures var (h', runs) := HCall(h, now, scripts);
      && Agree(h', PCall(p, now, scripts).0) && runs == PCall(p, now, scripts).1
      && (h'.t, runs) == Call(h.t, now, scripts)
      && h.added <= h'.added && h.t.next <= h'.t.next
      && forall x :: x in h'.added ==> x in h.added || x.id >= h.t.next
  {
    CollectAgrees(h, p, now);
    var (t1, runs) := Collect(h.t, now);
    ScriptsAgree(h.(t := t1), p.(live := p.live - Due(p.live, now)), scripts, |runs|);
    PruneIsSound(RunScripts(t1, scripts, |runs|));
  }

  // ---------- Whole runs ----------

  /** `Draw` is the first half of add_timer on another thread, between two calls of timer_call (within one
      it is a DrawOp), `AddDrawn` its task on the loop. */
  datatype Cmd =
    | Draw(expire: int)
    | AddDrawn(id: TimerId, cb: nat)
    | CancelAdded(id: TimerId)
    | CallAt(now: int, scripts: seq<seq<TimerOp>>)

  datatype Run = Run(h: Hist, ran: seq<TimerNode>)

  datatype PlainRun = PlainRun(p: Plain, ran: seq<TimerNode>)

  ghost predicate Legal(r: Run, c: Cmd) {
    match c
    case Draw(_) => true
    case AddDrawn(id, _) => id in r.h.drawn
    case CancelAdded(id) => id in r.h.added
    case CallAt(now, scripts) =>
      && UniqueIds(r.h.t.nodes)
      && LegalScripts(r.h.(t := Collect(r.h.t, now).0), scripts, |Collect(r.h.t, now).1|)
  }

  ghost function Step(r: Run, c: Cmd): Run
    requires Legal(r, c)
  {
    match c
    case Draw(e) => r.(h := HOp(r.h, DrawOp(e)))
    case AddDrawn(id, cb) => r.(h := Hist(Add(r.h.t, TimerNode(id, cb)), r.h.added + {id}, r.h.drawn - {id}))
    case CancelAdded(id) => r.(h := r.h.(t := Cancel(r.h.t, id)))
    case CallAt(now, scripts) =>
      var (h', runs) := HCall(r.h, now, scripts);
      r.(h := h', ran := r.ran + runs)
  }

  ghost function PlainStep(s: PlainRun, c: Cmd): PlainRun
    requires UniqueIds(s.p.live)
  {
    match c
    case Draw(e) => s.(p := s.p.(next := s.p.next + 1))
    case AddDrawn(id, cb) => s.(p := s.p.(live := s.p.live + {TimerNode(id, cb)}))
    case CancelAdded(id) => s.(p := s.p.(live := Without(s.p.live, id)))
    case CallAt(now, scripts) =>
      var (p', runs) := PCall(s.p, now, scripts);
      PlainRun(p', s.ran + runs)
  }

  const START: Run := Run(Hist(Timers({}, {}, 1), {}, {}), [])

  const PLAIN_START: PlainRun := PlainRun(Plain({}, 1), [])

  /** The run of `cmds` from `r` keeps to the contract. */
  ghost predicate LegalRun(r: Run, cmds: seq<Cmd>)
    decreases |cmds|
  {
    cmds == [] || (Legal(r, cmds[0]) && LegalRun(Step(r, cmds[0]), cmds[1..]))
  }

  ghost function Exec(r: Run, cmds: seq<Cmd>): Run
    requires LegalRun(r, cmds)
    decreases |cmds|
  {
    if cmds == [] then r else Exec(Step(r, cmds[0]), cmds[1..])
  }

  /** The two levels agree, drawn ids are fresh, and a timer that ran is gone for good. */
  ghost predicate Simulates(r: Run, s: PlainRun) {
    && Agree(r.h, s.p) && r.ran == s.ran
    && Gone(r.ran, r.h)
  }

  /** Nothing that ran is in the heap, nothing ran twice. */
  ghost predicate Gone(ran: seq<TimerNode>, h: Hist) {
    && (forall n :: n in ran ==> n.id in h.added && n.id !in Ids(h.t.nodes))
    && (forall i, j :: 0 <= i < j < |ran| ==> ran[i].id != ran[j].id)
  }

  lemma StepSimulates(r: Run, s: PlainRun, c: Cmd)
    requires Simulates(r, s) && UniqueIds(s.p.live) && Legal(r, c)
    ensures Simulates(Step(r, c), PlainStep(s, c)) && UniqueIds(PlainStep(s, c).p.live)
    ensures r.h.added <= Step(r, c).h.added
  {
    match c {
      case Draw(e) => OpAgrees(r.h, s.p, DrawOp(e));
      case AddDrawn(id, cb) => AddDrawnSimulates(r, s, id, cb);
      case CancelAdded(id) => OpAgrees(r.h, s.p, CancelOp(id));
      case CallAt(now, scripts) => CallSimulates(r, s, now, scripts);
    }
  }

  lemma AddDrawnSimulates(r: Run, s: PlainRun, id: TimerId, cb: nat)
    requires Simulates(r, s) && UniqueIds(s.p.live) && id in r.h.drawn
    ensures Simulates(Step(r, AddDrawn(id, cb)), PlainStep(s, AddDrawn(id, cb)))
  {
    var n := TimerNode(id, cb);
    var t' := Add(r.h.t, n);
    assert Live(t') == Live(r.h.t) + {n};
    assert Ids(t'.nodes) == Ids(r.h.t.nodes) + {id};
    assert forall m :: m in r.h.t.nodes ==> m.id in Ids(r.h.t.nodes);
    assert forall m :: m in r.ran ==> m.id != id;
  }

  lemma {:induction false} OpsAddFresh(h: Hist, ops: seq<TimerOp>)
    ensures h.t.next <= HOps(h, ops).t.next
    ensures forall n :: n in HOps(h, ops).t.nodes ==> n in h.t.nodes || n.id.id >= h.t.next
    decreases |ops|
  {
    if ops != [] {
      OpsAddFresh(h, ops[..|ops| - 1]);
    }
  }

  /** No timer added during the call reuses the id of a timer that ran. */
  lemma {:induction false} ScriptsAddFresh(h: Hist, scripts: seq<seq<TimerOp>>, k: nat)
    ensures h.t.next <= HScripts(h, scripts, k).t.next
    ensures forall n :: n in HScripts(h, scripts, k).t.nodes ==> n in h.t.nodes || n.id.id >= h.t.next
    decreases k
  {
    if k > 0 {
      ScriptsAddFresh(h, scripts, k - 1);
      OpsAddFresh(HScripts(h, scripts, k - 1), Script(scripts, k - 1));
    }
  }

  lemma CallSimulates(r: Run, s: PlainRun, now: int, scripts: seq<seq<TimerOp>>)
    requires Simulates(r, s) && UniqueIds(s.p.live) && Legal(r, CallAt(now, scripts))
    ensures Simulates(Step(r, CallAt(now, scripts)), PlainStep(s, CallAt(now, scripts)))
    ensures UniqueIds(PlainStep(s, CallAt(now, scripts)).p.live)
    ensures r.h.added <= Step(r, CallAt(now, scripts)).h.added
  {
    CallAgrees(r.h, s.p, now, scripts);
    CollectAgrees(r.h, s.p, now);
    var (h', runs) := HCall(r.h, now, scripts);
    var (t1, _) := Collect(r.h.t, now);
    ScriptsAddFresh(r.h.(t := t1), scripts, |runs|);
    RanAreGone(r.h, r.ran, now, h');
  }

  lemma JoinDistinct(p: seq<TimerNode>, q: seq<TimerNode>)
    requires forall i, j :: 0 <= i < j < |p| ==> p[i].id != p[j].id
    requires Ascending(q)
    requires forall m, n :: m in p && n in q ==> m.id != n.id
    ensures forall i, j :: 0 <= i < j < |p + q| ==> (p + q)[i].id != (p + q)[j].id
    ensures forall n :: n in p + q <==> n in p || n in q
  {
    forall i, j | 0 <= i < j < |p + q|
      ensures (p + q)[i].id != (p + q)[j].id
    {
      if i < |p| <= j {
        assert p[i] in p && q[j - |p|] in q;
      }
    }
  }

  lemma RanAreGone(h: Hist, ran: seq<TimerNode>, now: int, h': Hist)
    requires UniqueIds(h.t.nodes) && Gone(ran, h)
    requires Ids(h.t.nodes) <= h.added <= h'.added && forall x :: x in h.added ==> x.id < h.t.next
    requires forall n :: n in h'.t.nodes ==> n in Collect(h.t, now).0.nodes || n.id.id >= h.t.next
    ensures Gone(ran + Collect(h.t, now).1, h')
  {
    var (t1, runs) := Collect(h.t, now);
    assert forall n :: n in h.t.nodes ==> n.id in Ids(h.t.nodes);
    forall n | n in ran || n in runs
      ensures n.id in h'.added && n.id !in Ids(h'.t.nodes)
    {
      forall m | m in h'.t.nodes
        ensures m.id != n.id
      {
        assert m in t1.nodes ==> m in h.t.nodes;
      }
    }
    JoinDistinct(ran, runs);
  }

  ghost function PlainExec(r: Run, s: PlainRun, cmds: seq<Cmd>): PlainRun
    requires LegalRun(r, cmds) && Simulates(r, s) && UniqueIds(s.p.live)
    decreases |cmds|
  {
    if cmds == [] then s else
      StepSimulates(r, s, cmds[0]);
      PlainExec(Step(r, cmds[0]), PlainStep(s, cmds[0]), cmds[1..])
  }

  /** Timer refinement, for every legal run from any agreeing pair of states: same callbacks in
      the same order, each at most once, and the live timers of the heap are those of the map. */
  lemma {:induction false} TimersRefine(r: Run, s: PlainRun, cmds: seq<Cmd>)
    requires LegalRun(r, cmds) && Simulates(r, s) && UniqueIds(s.p.live)
    ensures Simulates(Exec(r, cmds), PlainExec(r, s, cmds))
    ensures Exec(r, cmds).ran == PlainExec(r, s, cmds).ran
    ensures Live(Exec(r, cmds).h.t) == PlainExec(r, s, cmds).p.live
    decreases |cmds|
  {
    if cmds != [] {
      StepSimulates(r, s, cmds[0]);
      TimersRefine(Step(r, cmds[0]), PlainStep(s, cmds[0]), cmds[1..]);
    }
  }

  lemma StartSimulates()
    ensures Simulates(START, PLAIN_START)
  {
    assert Live(START.h.t) == {};
    assert Ids(START.h.t.nodes) == {};
  }

  /** From new timers on: every legal run calls back what the plain map calls back, in that order and
      nothing twice. */
  lemma TimersRefineFromStart(cmds: seq<Cmd>)
    requires LegalRun(START, cmds)
    ensures Simulates(START, PLAIN_START)
    ensures var r, s := Exec(START, cmds), PlainExec(START, PLAIN_START, cmds);
      && r.ran == s.ran && Live(r.h.t) == s.p.live
      && forall i, j :: 0 <= i < j < |r.ran| ==> r.ran[i].id != r.ran[j].id
  {
    StartSimulates();
    TimersRefine(START, PLAIN_START, cmds);
  }

  /** A timer cancelled while in the heap never runs, whatever happens later. */
  lemma {:induction false} CancelledNeverRuns(r: Run, s: PlainRun, id: TimerId, post: seq<Cmd>)
    requires Simulates(r, s) && UniqueIds(s.p.live)
    requires id in Ids(r.h.t.nodes)
    requires LegalRun(Step(r, CancelAdded(id)), post)
    ensures r.ran <= Exec(Step(r, CancelAdded(id)), post).ran
    ensures forall n :: n in Exec(Step(r, CancelAdded(id)), post).ran ==> n.id != id
  {
    StepSimulates(r, s, CancelAdded(id));
    DeadStaysDead(Step(r, CancelAdded(id)), PlainStep(s, CancelAdded(id)), id, post);
  }

  lemma {:induction false} DeadStaysDead(r: Run, s: PlainRun, id: TimerId, post: seq<Cmd>)
    requires Simulates(r, s) && UniqueIds(s.p.live) && LegalRun(r, post)
    requires id in r.h.added && id !in Ids(s.p.live) && forall n :: n in r.ran ==> n.id != id
    ensures r.ran <= Exec(r, post).ran
    ensures forall n :: n in Exec(r, post).ran ==> n.id != id
    decreases |post|
  {
    if post != [] {
      var c := post[0];
      StepSimulates(r, s, c);
      var r', s' := Step(r, c), PlainStep(s, c);
      match c {
        case Draw(_) =>
        case AddDrawn(x, cb) =>
          assert forall n :: n in s'.p.live ==> n in s.p.live || n.id == x;
        case CancelAdded(_) =>
        case CallAt(now, scripts) =>
          DeadThroughCall(r, s, id, now, scripts);
      }
      assert forall n :: n in s'.p.live ==> n.id != id;
      DeadStaysDead(r', s', id, post[1..]);
    }
  }

  lemma DeadThroughCall(r: Run, s: PlainRun, id: TimerId, now: int, scripts: seq<seq<TimerOp>>)
    requires Simulates(r, s) && UniqueIds(s.p.live) && Legal(r, CallAt(now, scripts))
    requires id in r.h.added && id !in Ids(s.p.live)
    ensures id !in Ids(PCall(s.p, now, scripts).0.live)
    ensures forall n :: n in HCall(r.h, now, scripts).1 ==> n.id != id
  {
    CallAgrees(r.h, s.p, now, scripts);
    CollectAgrees(r.h, s.p, now);
    var p1 := s.p.(live := s.p.live - Due(s.p.live, now));
    var runs := PCall(s.p, now, scripts).1;
    assert forall n :: n in runs ==> n in s.p.live && n.id in Ids(s.p.live);
    PlainScriptsAddFresh(p1, scripts, |runs|);
    forall n | n in PScripts(p1, scripts, |runs|).live
      ensures n.id != id
    {
      if n in p1.live {
        assert n.id in Ids(s.p.live);
      }
    }
  }

  lemma {:induction false} PlainOpsAddFresh(p: Plain, ops: seq<TimerOp>)
    ensures p.next <= POps(p, ops).next
    ensures forall n :: n in POps(p, ops).live ==> n in p.live || n.id.id >= p.next
    decreases |ops|
  {
    if ops != [] {
      PlainOpsAddFresh(p, ops[..|ops| - 1]);
    }
  }

  lemma {:induction false} PlainScriptsAddFresh(p: Plain, scripts: seq<seq<TimerOp>>, k: nat)
    ensures p.next <= PScripts(p, scripts, k).next
    ensures forall n :: n in PScripts(p, scripts, k).live ==> n in p.live || n.id.id >= p.next
    decreases k
  {
    if k > 0 {
      PlainScriptsAddFresh(p, scripts, k - 1);
      PlainOpsAddFresh(PScripts(p, scripts, k - 1), Script(scripts, k - 1));
    }
  }

  /** Outside the contract: a cancel that reaches the loop before its add, with one pruning in
      between, suppresses the timer exactly when some node of the heap was at or below its id. */
  lemma CancelBeforeAdd(t: Timers, n: TimerNode)
    requires n.id !in Ids(t.nodes)
    ensures n in Live(Add(Prune(Cancel(t, n.id)), n)) <==> forall m :: m in t.nodes ==> Less(n.id, m.id)
  {
    var c := Cancel(t, n.id);
    assert n.id in Prune(c).slots <==> exists m :: m in t.nodes && Leq(m.id, n.id);
    forall m | m in t.nodes
      ensures m.id in Ids(t.nodes)
    {
    }
    if exists m :: m in t.nodes && Leq(m.id, n.id) {
      var m :| m in t.nodes && Leq(m.id, n.id);
      assert !Less(n.id, m.id);
    }
  }
}
