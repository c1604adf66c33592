/** What `local_timer` computes, on values: a set of timer nodes, the tombstones in
    `cancel_slots` and the next sequence number. Every operation of the class LocalTimer is
    proved equal to a function of this module. */
module TimerSpec {
  import opened TimerHeap

  datatype Timers = Timers(nodes: set<TimerNode>, slots: set<TimerId>, next: nat)

  /** What may happen to the timers while timer_call runs a callback: what the callback does, and that
      another thread, in the first half of add_timer, draws a number for a timer at `expire`. */
  datatype TimerOp = AddOp(expire: int, cb: nat) | CancelOp(id: TimerId) | DrawOp(expire: int)

  // ---------- Sorted listings of a set of nodes ----------

  ghost function Ids(s: set<TimerNode>): set<TimerId> {
    set n | n in s :: n.id
  }

  ghost predicate UniqueIds(s: set<TimerNode>) {
    forall a, b :: a in s && b in s && a.id == b.id ==> a == b
  }

  ghost predicate Ascending(q: seq<TimerNode>) {
    forall i, j :: 0 <= i < j < |q| ==> Less(q[i].id, q[j].id)
  }

  ghost predicate Lists(q: seq<TimerNode>, s: set<TimerNode>) {
    Ascending(q) && forall n :: n in q <==> n in s
  }

  lemma {:induction false} ListsUnique(p: seq<TimerNode>, q: seq<TimerNode>, s: set<TimerNode>)
    requires Lists(p, s) && Lists(q, s)
    ensures p == q
    decreases |p|
  {
    assert p != [] ==> p[0] in q;
    assert q != [] ==> q[0] in p;
    if p == [] {
      assert q == [];
    } else {
      assert p[0] == q[0];
      TailLists(p, s);
      TailLists(q, s);
      ListsUnique(p[1..], q[1..], s - {p[0]});
      assert p == [p[0]] + p[1..] && q == [q[0]] + q[1..];
    }
  }

  lemma TailLists(p: seq<TimerNode>, s: set<TimerNode>)
    requires Lists(p, s) && p != []
    ensures Lists(p[1..], s - {p[0]})
  {
    assert p == [p[0]] + p[1..];
    forall n
      ensures n in p[1..] <==> n in s - {p[0]}
    {
      assert n in p <==> n == p[0] || n in p[1..];
      assert p[0] !in p[1..];
    }
  }

  lemma {:induction false} LeastOf(s: set<TimerNode>) returns (m: TimerNode)
    requires s != {}
    ensures m in s && forall n :: n in s ==> Leq(m.id, n.id)
  {
    var x :| x in s;
    if s == {x} {
      m := x;
    } else {
      var y := LeastOf(s - {x});
      m := if Less(x.id, y.id) then x else y;
      forall n | n in s
        ensures Leq(m.id, n.id)
      {
        assert n != x ==> n in s - {x};
      }
    }
  }

  lemma LeastExists(s: set<TimerNode>)
    requires s != {}
    ensures exists m :: m in s && forall n :: n in s ==> Leq(m.id, n.id)
  {
    var m := LeastOf(s);
  }

  /** The nodes of `s` in ascending (expire, id) order: unique by ListsUnique. */
  ghost function Listing(s: set<TimerNode>): (q: seq<TimerNode>)
    requires UniqueIds(s)
    ensures Lists(q, s)
    decreases |s|
  {
    if s == {} then [] else
      LeastExists(s);
      var m :| m in s && forall n :: n in s ==> Leq(m.id, n.id);
      var rest := Listing(s - {m});
      assert forall n :: n in s - {m} ==> Less(m.id, n.id);
      assert forall i :: 0 <= i < |rest| ==> rest[i] in s - {m};
      [m] + rest
  }

  // ---------- The operations ----------

  ghost function Add(t: Timers, n: TimerNode): Timers {
    t.(nodes := t.nodes + {n})
  }

  ghost function Cancel(t: Timers, id: TimerId): Timers {
    t.(slots := t.slots + {id})
  }

  ghost function Due(s: set<TimerNode>, now: int): set<TimerNode> {
    set n | n in s && n.id.expire <= now
  }

  ghost function Live(t: Timers): set<TimerNode> {
    set n | n in t.nodes && n.id !in t.slots
  }

  /** The first loop of timer_call: what is left, and the callbacks to run in order. */
  ghost function Collect(t: Timers, now: int): (Timers, seq<TimerNode>)
    requires UniqueIds(t.nodes)
  {
    var due := Due(t.nodes, now);
    (t.(nodes := t.nodes - due, slots := t.slots - Ids(due)), Listing(due * Live(t)))
  }

  ghost function ApplyOp(t: Timers, op: TimerOp): Timers {
    match op
    case AddOp(e, c) => Add(t, TimerNode(TimerId(e, t.next), c)).(next := t.next + 1)
    case CancelOp(id) => Cancel(t, id)
    case DrawOp(_) => t.(next := t.next + 1)
  }

  ghost function ApplyOps(t: Timers, ops: seq<TimerOp>): Timers {
    if ops == [] then t else ApplyOp(ApplyOps(t, ops[..|ops| - 1]), ops[|ops| - 1])
  }

  /** The i-th callback of a batch performs `scripts[i]`; callbacks past the end do nothing. */
  function Script(scripts: seq<seq<TimerOp>>, i: nat): seq<TimerOp> {
    if i < |scripts| then scripts[i] else []
  }

  /** The timers after the first `k` callbacks of the batch. */
  ghost function RunScripts(t: Timers, scripts: seq<seq<TimerOp>>, k: nat): Timers {
    if k == 0 then t else ApplyOps(RunScripts(t, scripts, k - 1), Script(scripts, k - 1))
  }

  /** The tail of timer_call: tombstones below the front node go, all of them if there is none. */
  ghost function Prune(t: Timers): Timers {
    t.(slots := set x | x in t.slots && exists n :: n in t.nodes && Leq(n.id, x))
  }

  ghost function Call(t: Timers, now: int, scripts: seq<seq<TimerOp>>): (Timers, seq<TimerNode>)
    requires UniqueIds(t.nodes)
  {
    var (t1, runs) := Collect(t, now);
    (Prune(RunScripts(t1, scripts, |runs|)), runs)
  }

  // ---------- What every operation keeps ----------

  /** Ids are unique and every id was drawn from the counter. */
  ghost predicate WellFormed(t: Timers) {
    UniqueIds(t.nodes) && forall n :: n in t.nodes ==> n.id.id < t.next
  }

  lemma ApplyOpKeeps(t: Timers, op: TimerOp)
    requires WellFormed(t)
    ensures WellFormed(ApplyOp(t, op)) && t.next <= ApplyOp(t, op).next
  {
  }

  lemma {:induction false} ApplyOpsKeeps(t: Timers, ops: seq<TimerOp>, j: nat)
    requires WellFormed(t) && j <= |ops|
    ensures WellFormed(ApplyOps(t, ops))
    ensures t.next <= ApplyOps(t, ops[..j]).next <= ApplyOps(t, ops).next
    decreases |ops|
  {
    if ops != [] {
      var init := ops[..|ops| - 1];
      ApplyOpsKeeps(t, init, if j < |ops| then j else |init|);
      ApplyOpKeeps(ApplyOps(t, init), ops[|ops| - 1]);
      if j < |ops| {
        assert ops[..j] == init[..j];
      } else {
        assert ops[..j] == ops;
      }
    } else {
      assert ops[..j] == ops;
    }
  }

  lemma {:induction false} RunScriptsKeeps(t: Timers, scripts: seq<seq<TimerOp>>, j: nat, k: nat)
    requires WellFormed(t) && j <= k
    ensures WellFormed(RunScripts(t, scripts, k))
    ensures t.next <= RunScripts(t, scripts, j).next <= RunScripts(t, scripts, k).next
    decreases k
  {
    if k > 0 {
      RunScriptsKeeps(t, scripts, if j < k then j else k - 1, k - 1);
      ApplyOpsKeeps(RunScripts(t, scripts, k - 1), Script(scripts, k - 1), 0);
    }
  }
}
