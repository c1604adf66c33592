/** `local_timer` of the Linux loop, with its fields updated in place. The clock reading and what
    the callbacks do to the timers are parameters. */
module LocalTimers {
  import opened TimerHeap
  import opened TimerSpec
  import opened Words

  /** The value `timer_get_seq` returns for a counter value: 0 is skipped. */
  function SeqNext(timerseq: nat): nat {
    if timerseq == 0 then 1 else timerseq
  }

  /** No node twice, no id twice. */
  ghost predicate Simple(ms: multiset<TimerNode>) {
    && (forall n :: ms[n] <= 1)
    && (forall a, b :: a in ms && b in ms && a.id == b.id ==> a == b)
  }

  ghost function Nodes(v: seq<TimerNode>): set<TimerNode> {
    set n | n in v
  }

  lemma SimpleIsWellFormed(v: seq<TimerNode>, t: Timers)
    requires Simple(multiset(v)) && t.nodes == Nodes(v) && forall n :: n in v ==> n.id.id < t.next
    ensures WellFormed(t)
  {
    assert forall n :: n in v <==> n in multiset(v);
  }

  ghost predicate Below(popped: set<TimerNode>, rest: set<TimerNode>) {
    forall p, n :: p in popped && n in rest ==> Less(p.id, n.id)
  }

  lemma PopFront(v: seq<TimerNode>, w: seq<TimerNode>)
    requires |v| > 0 && IsHeap(v) && Simple(multiset(v))
    requires |w| == |v| && multiset(w) == multiset(v) && w[|w| - 1] == v[0]
    ensures Simple(multiset(w[..|w| - 1]))
    ensures Nodes(w[..|w| - 1]) == Nodes(v) - {v[0]} && v[0] in Nodes(v)
    ensures forall n :: n in Nodes(w[..|w| - 1]) ==> Less(v[0].id, n.id)
  {
    var r := w[..|w| - 1];
    assert w == r + [v[0]];
    assert multiset(r) == multiset(v) - multiset{v[0]};
    forall n | n in v
      ensures Leq(v[0].id, n.id)
    {
      var i :| 0 <= i < |v| && v[i] == n;
      FrontIsLeast(v, i);
    }
    forall n
      ensures n in r <==> n in v && n != v[0]
    {
      assert n in v <==> n in multiset(v);
      assert n in r <==> n in multiset(r);
    }
    assert forall n :: n in r ==> n in v && n.id != v[0].id;
  }

  /** One more due node leaves the heap in timer_call. */
  lemma CollectStep(t: Timers, popped: set<TimerNode>, runs: seq<TimerNode>, f: TimerNode)
    requires UniqueIds(t.nodes) && popped <= t.nodes && f in t.nodes - popped
    requires forall p :: p in popped ==> Less(p.id, f.id)
    requires Lists(runs, popped * Live(t))
    ensures f.id in t.slots - Ids(popped) <==> f.id in t.slots
    ensures t.slots - Ids(popped) - {f.id} == t.slots - Ids(popped + {f})
    ensures Lists(if f.id in t.slots then runs else runs + [f], (popped + {f}) * Live(t))
  {
    assert f.id !in Ids(popped) by {
      assert forall p :: p in popped ==> p.id != f.id;
    }
    assert Ids(popped + {f}) == Ids(popped) + {f.id};
    if f.id in t.slots {
      assert (popped + {f}) * Live(t) == popped * Live(t);
    } else {
      assert (popped + {f}) * Live(t) == popped * Live(t) + {f};
      assert forall i :: 0 <= i < |runs| ==> runs[i] in popped;
    }
  }

  lemma CollectEnd(t: Timers, popped: set<TimerNode>, rest: set<TimerNode>, runs: seq<TimerNode>, now: int)
    requires UniqueIds(t.nodes) && popped <= t.nodes && rest == t.nodes - popped
    requires forall p :: p in popped ==> p.id.expire <= now
    requires forall n :: n in rest ==> n.id.expire > now
    requires Lists(runs, popped * Live(t))
    ensures (t.(nodes := rest, slots := t.slots - Ids(popped)), runs) == Collect(t, now)
  {
    assert popped == Due(t.nodes, now) by {
      forall n
        ensures n in popped <==> n in Due(t.nodes, now)
      {
        assert n in t.nodes ==> n in popped || n in rest;
      }
    }
    ListsUnique(runs, Listing(popped * Live(t)), popped * Live(t));
  }

  /** The loop invariant of the collecting loop. */
  ghost predicate Collecting(t: Timers, popped: set<TimerNode>, s: Timers, runs: seq<TimerNode>, now: int) {
    && UniqueIds(t.nodes)
    && popped <= t.nodes && s.nodes == t.nodes - popped
    && (forall p :: p in popped ==> p.id.expire <= now)
    && Below(popped, s.nodes)
    && s.slots == t.slots - Ids(popped)
    && s.next == t.next
    && Lists(runs, popped * Live(t))
  }

  lemma CollectingStep(t: Timers, popped: set<TimerNode>, s: Timers, runs: seq<TimerNode>, now: int, f: TimerNode)
    requires Collecting(t, popped, s, runs, now) && f in s.nodes && f.id.expire <= now
    requires forall n :: n in s.nodes - {f} ==> Less(f.id, n.id)
    ensures Collecting(t, popped + {f}, s.(nodes := s.nodes - {f}, slots := s.slots - {f.id}),
                       if f.id in s.slots then runs else runs + [f], now)
  {
    CollectStep(t, popped, runs, f);
    assert t.nodes - (popped + {f}) == s.nodes - {f};
  }

  class LocalTimer {
    var timerseq: nat
    var timers: seq<TimerNode>
    var cancelSlots: set<TimerId>

    ghost predicate Valid()
      reads this
    {
      && timerseq < TWO64
      && IsHeap(timers)
      && Simple(multiset(timers))
      && forall n :: n in timers ==> n.id.id < SeqNext(timerseq)
    }

    ghost function Abs(): Timers
      reads this
    {
      Timers(Nodes(timers), cancelSlots, SeqNext(timerseq))
    }

    constructor ()
      ensures Valid() && Abs() == Timers({}, {}, 1) && timerseq == 0
    {
      timerseq, timers, cancelSlots := 0, [], {};
    }

    /** A fetch-and-add on 64 bits, repeated when it returns 0. */
    method TimerGetSeq() returns (r: nat)
      requires timerseq < TWO64
      modifies this`timerseq
      ensures r == SeqNext(old(timerseq)) && timerseq == (r + 1) % TWO64
    {
      r := 0;
      while r == 0
        invariant timerseq < TWO64
        invariant r == 0 ==> timerseq == old(timerseq) || (old(timerseq) == 0 && timerseq == 1)
        invariant r != 0 ==> r == SeqNext(old(timerseq)) && timerseq == (r + 1) % TWO64
        decreases r == 0, timerseq == 0
      {
        r := timerseq;
        timerseq := (timerseq + 1) % TWO64;
      }
    }

    method TimerAdd(id: TimerId, cb: nat)
      requires Valid() && id.id < SeqNext(timerseq)
      requires forall n :: n in timers ==> n.id != id
      modifies this`timers
      ensures Valid() && Abs() == Add(old(Abs()), TimerNode(id, cb))
    {
      var v := timers + [TimerNode(id, cb)];
      assert v[..|v| - 1] == timers;
      var r := PushHeap(v);
      assert multiset(r) == multiset(timers) + multiset{TimerNode(id, cb)};
      assert forall n :: n in r <==> n in multiset(r);
      assert forall n :: n in timers <==> n in multiset(timers);
      timers := r;
      assert Nodes(r) == old(Nodes(timers)) + {TimerNode(id, cb)};
    }

    method TimerErase(id: TimerId)
      modifies this`cancelSlots
      ensures Abs() == Cancel(old(Abs()), id)
    {
      cancelSlots := cancelSlots + {id};
    }

    /** timer_call: `scripts[i]` is what happens to the timers while the i-th callback runs. The sequence
        numbers drawn meanwhile must not wrap past 2^64 during the call. */
    method TimerCall(now: int, scripts: seq<seq<TimerOp>>) returns (runs: seq<TimerNode>)
      requires Valid()
      requires Call(Abs(), now, scripts).0.next < TWO64
      modifies this
      ensures Valid()
      ensures (Abs(), runs) == Call(old(Abs()), now, scripts)
    {
      runs := CollectDue(now);
      RunCallbacks(|runs|, scripts);
      PruneSlots();
    }

    /** The second loop of timer_call: the collected callbacks, in order. */
    method RunCallbacks(n: nat, scripts: seq<seq<TimerOp>>)
      requires Valid()
      requires RunScripts(Abs(), scripts, n).next < TWO64
      modifies this
      ensures Valid() && Abs() == RunScripts(old(Abs()), scripts, n)
    {
      ghost var t := Abs();
      SimpleIsWellFormed(timers, t);
      for i := 0 to n
        invariant Valid() && Abs() == RunScripts(t, scripts, i)
      {
        RunScriptsKeeps(t, scripts, i + 1, n);
        RunCallback(Script(scripts, i));
      }
    }

    /** The first loop of timer_call: pop every due node, keep those without a tombstone. */
    method CollectDue(now: int) returns (runs: seq<TimerNode>)
      requires Valid()
      modifies this`timers, this`cancelSlots
      ensures Valid() && (Abs(), runs) == Collect(old(Abs()), now)
    {
      runs := [];
      ghost var t := Abs();
      ghost var popped: set<TimerNode> := {};
      while timers != [] && timers[0].id.expire <= now
        invariant Valid() && Collecting(t, popped, Abs(), runs, now)
        decreases |timers|
      {
        var f := timers[0];
        var v := PopHeap(timers);
        PopFront(timers, v);
        CollectingStep(t, popped, Abs(), runs, now, f);
        if f.id !in cancelSlots {
          runs := runs + [f];
        }
        cancelSlots := cancelSlots - {f.id};
        timers := v[..|v| - 1];
        popped := popped + {f};
      }
      Exhausted(timers, now);
      CollectEnd(t, popped, Nodes(timers), runs, now);
    }

    /** One callback: add_timer draws a number and adds at once, cancel_timer leaves a tombstone, and
        other threads draw numbers. */
    method RunCallback(ops: seq<TimerOp>)
      requires Valid()
      requires ApplyOps(Abs(), ops).next < TWO64
      modifies this
      ensures Valid() && Abs() == ApplyOps(old(Abs()), ops)
    {
      ghost var t := Abs();
      SimpleIsWellFormed(timers, t);
      for i := 0 to |ops|
        invariant Valid()
        invariant Abs() == ApplyOps(t, ops[..i])
      {
        assert ops[..i + 1][..i] == ops[..i];
        ApplyOpsKeeps(t, ops, i + 1);
        RunOp(ops[i]);
      }
      assert ops[..|ops|] == ops;
    }

    method RunOp(op: TimerOp)
      requires Valid()
      requires ApplyOp(Abs(), op).next < TWO64
      modifies this
      ensures Valid() && Abs() == ApplyOp(old(Abs()), op)
    {
      match op {
        case AddOp(expire, cb) =>
          var id := TimerGetSeq();
          TimerAdd(TimerId(expire, id), cb);
        case CancelOp(id) =>
          TimerErase(id);
        case DrawOp(_) =>
          var _ := TimerGetSeq();
      }
    }

    method PruneSlots()
      requires Valid()
      modifies this`cancelSlots
      ensures Valid() && Abs() == Prune(old(Abs()))
    {
      if timers == [] {
        cancelSlots := {};
      } else {
        var front := timers[0].id;
        FrontBound(timers);
        cancelSlots := set x | x in cancelSlots && !Less(x, front);
      }
    }
  }

  lemma FrontBound(v: seq<TimerNode>)
    requires IsHeap(v) && v != []
    ensures forall x :: !Less(x, v[0].id) <==> exists n :: n in Nodes(v) && Leq(n.id, x)
  {
    forall x
      ensures !Less(x, v[0].id) <==> exists n :: n in Nodes(v) && Leq(n.id, x)
    {
      if Leq(v[0].id, x) {
        assert v[0] in Nodes(v);
      }
      forall n | n in Nodes(v) && Leq(n.id, x)
        ensures Leq(v[0].id, x)
      {
        var i :| 0 <= i < |v| && v[i] == n;
        FrontIsLeast(v, i);
      }
    }
  }

  /** When the collecting loop stops, no node left in the heap is due. */
  lemma Exhausted(v: seq<TimerNode>, now: int)
    requires IsHeap(v) && (v == [] || v[0].id.expire > now)
    ensures forall n :: n in v ==> n.id.expire > now
  {
    forall n | n in v
      ensures n.id.expire > now
    {
      var i :| 0 <= i < |v| && v[i] == n;
      FrontIsLeast(v, i);
    }
  }

  // ---------- Sequence numbers ----------

  /** The counter after `n` calls of timer_get_seq on a new object. */
  function CounterAfter(n: nat): nat {
    if n == 0 then 0 else (SeqNext(CounterAfter(n - 1)) + 1) % TWO64
  }

  lemma Successor(m: nat)
    ensures (m + 1) % (TWO64 - 1) == if m % (TWO64 - 1) == TWO64 - 2 then 0 else m % (TWO64 - 1) + 1
  {
    var k, r := m / (TWO64 - 1), m % (TWO64 - 1);
    assert m == k * (TWO64 - 1) + r;
    if r == TWO64 - 2 {
      assert m + 1 == (k + 1) * (TWO64 - 1);
    } else {
      assert m + 1 == k * (TWO64 - 1) + (r + 1);
    }
  }

  /** The n-th call (from 0) returns n mod (2^64 - 1), plus 1. */
  lemma {:induction false} NthSequenceNumber(n: nat)
    ensures CounterAfter(n) < TWO64
    ensures SeqNext(CounterAfter(n)) == n % (TWO64 - 1) + 1
  {
    if n > 0 {
      NthSequenceNumber(n - 1);
      Successor(n - 1);
    }
  }

  /** Numbers are never 0, and two calls get the same one exactly when they are a multiple of
      2^64 - 1 calls apart. */
  lemma SequenceNumbersRepeat(m: nat, n: nat)
    ensures SeqNext(CounterAfter(m)) != 0
    ensures SeqNext(CounterAfter(m)) == SeqNext(CounterAfter(n)) <==> m % (TWO64 - 1) == n % (TWO64 - 1)
  {
    NthSequenceNumber(m);
    NthSequenceNumber(n);
  }
}
