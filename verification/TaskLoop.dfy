/** post() and on_tasks of the loop class, queues and counter updated in place. What other threads
    and the running task do to the queues meanwhile is a parameter: any sequence of actions. */
module TaskLoop {
  import opened Words
  import Q = TaskQueues

  datatype Act = Counts(p: nat, b: Q.Body) | Enqueues(p: nat) | Writes(p: nat) | PostsIn(b: Q.Body)

  /** An action that is not possible at this point is skipped. */
  function DoAct(q: Q.Queues, a: Act): Q.Queues {
    match a
    case Counts(p, b) => if Q.Idle(q, p) then Q.Count(q, p, b) else q
    case Enqueues(p) => if p in q.counted then Q.Enqueue(q, p) else q
    case Writes(p) => Q.Written(q, p)
    case PostsIn(b) => Q.PostIn(q, b)
  }

  function DoActs(q: Q.Queues, acts: seq<Act>): (r: Q.Queues)
    ensures r.pend == q.pend && r.taken == q.taken && r.pendN == q.pendN
    ensures r.muxDone == q.muxDone && r.nmuxDone == q.nmuxDone
    ensures q.mux <= r.mux && q.nmux <= r.nmux
  {
    if acts == [] then q else DoAct(DoActs(q, acts[..|acts| - 1]), acts[|acts| - 1])
  }

  function Noise(noise: seq<seq<Act>>, i: nat): seq<Act> {
    if i < |noise| then noise[i] else []
  }

  /** After `k` tasks of the locked batch; `noise[i]` happens during the i-th. */
  function RunMux(q: Q.Queues, noise: seq<seq<Act>>, k: nat): (r: Q.Queues)
    requires k <= |q.pend|
    ensures r.pend == q.pend[k..] && r.muxDone == q.muxDone + q.pend[..k]
    ensures r.taken == q.taken && r.pendN == q.pendN && r.nmuxDone == q.nmuxDone && q.nmux <= r.nmux
  {
    if k == 0 then q else
      var m := RunMux(q, noise, k - 1);
      assert m.pend[1..] == q.pend[k..] && m.muxDone + [m.pend[0]] == q.muxDone + q.pend[..k];
      DoActs(Q.Take(m), Noise(noise, k - 1))
  }

  function RunNmux(q: Q.Queues, noise: seq<seq<Act>>, k: nat): (r: Q.Queues)
    requires k <= |q.pendN|
    ensures r.pendN == q.pendN[k..] && r.nmuxDone == q.nmuxDone + q.pendN[..k]
    ensures r.muxDone == q.muxDone && r.pend == q.pend && r.taken == q.taken
  {
    if k == 0 then q else
      var m := RunNmux(q, noise, k - 1);
      assert m.pendN[1..] == q.pendN[k..] && m.nmuxDone + [m.pendN[0]] == q.nmuxDone + q.pendN[..k];
      DoActs(Q.TakeN(m), Noise(noise, k - 1))
  }

  /** on_tasks: both batches, with `noise` during the first and `noiseN` during the second. */
  function OnTasksSpec(q: Q.Queues, noise: seq<seq<Act>>, noiseN: seq<seq<Act>>): Q.Queues {
    var q1 := Q.Swap(q);
    var q2 := Q.SwapN(Q.Subtract(RunMux(q1, noise, |q1.pend|)));
    RunNmux(q2, noiseN, |q2.pendN|)
  }

  lemma DoActKeeps(q: Q.Queues, a: Act)
    requires Q.Inv(q)
    ensures Q.Inv(DoAct(q, a))
  {
    match a {
      case Counts(p, b) => if Q.Idle(q, p) { Q.CountKeeps(q, p, b); }
      case Enqueues(p) => if p in q.counted { Q.EnqueueKeeps(q, p); }
      case Writes(p) => Q.WrittenKeeps(q, p);
      case PostsIn(b) => Q.PostInKeeps(q, b);
    }
  }

  lemma {:induction false} DoActsKeep(q: Q.Queues, acts: seq<Act>)
    requires Q.Inv(q)
    ensures Q.Inv(DoActs(q, acts))
    decreases |acts|
  {
    if acts != [] {
      DoActsKeep(q, acts[..|acts| - 1]);
      DoActKeeps(DoActs(q, acts[..|acts| - 1]), acts[|acts| - 1]);
    }
  }

  lemma {:induction false} RunMuxKeeps(q: Q.Queues, noise: seq<seq<Act>>, k: nat)
    requires Q.Inv(q) && k <= |q.pend|
    ensures Q.Inv(RunMux(q, noise, k))
  {
    if k > 0 {
      RunMuxKeeps(q, noise, k - 1);
      Q.TakeKeeps(RunMux(q, noise, k - 1));
      DoActsKeep(Q.Take(RunMux(q, noise, k - 1)), Noise(noise, k - 1));
    }
  }

  lemma {:induction false} RunNmuxKeeps(q: Q.Queues, noise: seq<seq<Act>>, k: nat)
    requires Q.Inv(q) && k <= |q.pendN|
    ensures Q.Inv(RunNmux(q, noise, k))
  {
    if k > 0 {
      RunNmuxKeeps(q, noise, k - 1);
      Q.TakeNKeeps(RunNmux(q, noise, k - 1));
      DoActsKeep(Q.TakeN(RunNmux(q, noise, k - 1)), Noise(noise, k - 1));
    }
  }

  /** One on_tasks, with any interference: the laws hold again, every task that was in the locked
      queue has run, in order and once, and so has every task in the loop's own queue, with those
      the first batch posted there; tasks posted during their own batch stay for the next round. */
  lemma OnTasksRunsAll(q: Q.Queues, noise: seq<seq<Act>>, noiseN: seq<seq<Act>>)
    requires Q.Inv(q) && q.pend == [] && q.taken == 0 && q.pendN == []
    ensures var r := OnTasksSpec(q, noise, noiseN);
      && Q.Inv(r) && r.pend == [] && r.taken == 0 && r.pendN == []
      && r.muxDone == q.muxDone + q.mux
      && q.nmuxDone + q.nmux <= r.nmuxDone
      && r.nmuxDone == q.nmuxDone + RunMux(Q.Swap(q), noise, |q.mux|).nmux
  {
    var q1 := Q.Swap(q);
    Q.SwapKeeps(q);
    RunMuxKeeps(q1, noise, |q1.pend|);
    var m := RunMux(q1, noise, |q1.pend|);
    Q.SubtractKeeps(m);
    Q.SwapNKeeps(Q.Subtract(m));
    var q2 := Q.SwapN(Q.Subtract(m));
    RunNmuxKeeps(q2, noiseN, |q2.pendN|);
    assert q1.pend[..|q1.pend|] == q.mux && q2.pendN[..|q2.pendN|] == m.nmux;
  }

  /** Actions of threads other than `p`. */
  predicate Others(acts: seq<Act>, p: nat) {
    forall a :: a in acts && !a.PostsIn? ==> a.p != p
  }

  lemma {:induction false} OthersKeep(q: Q.Queues, acts: seq<Act>, p: nat)
    requires Others(acts, p) && p in q.counted
    ensures p in DoActs(q, acts).counted && DoActs(q, acts).counted[p] == q.counted[p]
    decreases |acts|
  {
    if acts != [] {
      OthersKeep(q, acts[..|acts| - 1], p);
      assert acts[|acts| - 1] in acts;
    }
  }

  class SLoop {
    var tasksMux: seq<Q.Task>
    var taksNmux: seq<Q.Body>
    var tasksCount: nat
    // The other threads in the middle of post(): before the push with the task they carry, and before
    // the eventfd write.
    var counted: map<nat, Q.Body>
    var queued: set<nat>
    // The tasks run so far, as on_tasks took them from its batches.
    var ran: seq<Q.Task>
    var ranOwn: seq<Q.Body>
    ghost var q: Q.Queues

    /** `q` shows the fields, with batches and history beside them. */
    ghost predicate Valid()
      reads this
    {
      && q.mux == tasksMux && q.nmux == taksNmux && q.count == tasksCount
      && q.counted == counted && q.queued == queued
      && q.muxDone == ran && q.nmuxDone == ranOwn
    }

    constructor ()
      ensures Valid() && q == Q.EMPTY
    {
      tasksMux, taksNmux, tasksCount, counted, queued, ran, ranOwn := [], [], 0, map[], {}, [], [];
      q := Q.EMPTY;
    }

    /** One action of another thread or of the running task. */
    method Act(a: Act)
      requires Valid()
      modifies this
      ensures Valid() && q == DoAct(old(q), a)
      ensures ran == old(ran) && ranOwn == old(ranOwn)
    {
      q := DoAct(q, a);
      match a {
        case Counts(p, b) =>
          if p !in counted && p !in queued {
            tasksCount := (tasksCount + 1) % TWO32;
            counted := counted[p := b];
          }
        case Enqueues(p) =>
          if p in counted {
            tasksMux := tasksMux + [Q.Task(p, counted[p])];
            counted, queued := counted - {p}, queued + {p};
          }
        case Writes(p) => queued := queued - {p};
        case PostsIn(b) =>
          tasksCount := (tasksCount + 1) % TWO32;
          taksNmux := taksNmux + [b];
      }
    }

    /** The rest of the world acts on queues and counter. */
    method Interfere(acts: seq<Act>)
      requires Valid()
      modifies this
      ensures Valid() && q == DoActs(old(q), acts)
      ensures ran == old(ran) && ranOwn == old(ranOwn)
    {
      for i := 0 to |acts|
        invariant Valid() && q == DoActs(old(q), acts[..i])
        invariant ran == old(ran) && ranOwn == old(ranOwn)
      {
        assert acts[..i + 1][..i] == acts[..i];
        Act(acts[i]);
      }
      assert acts[..|acts|] == acts;
    }

    /** post() on the loop thread. */
    method PostInLoop(b: Q.Body)
      requires Valid()
      modifies this`taksNmux, this`tasksCount, this`q
      ensures Valid() && q == Q.PostIn(old(q), b)
    {
      tasksCount := (tasksCount + 1) % TWO32;
      taksNmux := taksNmux + [b];
      q := Q.PostIn(q, b);
    }

    /** post() on thread `p`, with the actions of others between its three. */
    method PostFrom(p: nat, b: Q.Body, before: seq<Act>, after: seq<Act>)
      requires Valid() && p !in counted && p !in queued && Others(before, p)
      modifies this
      ensures Valid() && p in DoActs(Q.Count(old(q), p, b), before).counted
      ensures q == Q.Written(DoActs(Q.Enqueue(DoActs(Q.Count(old(q), p, b), before), p), after), p)
    {
      tasksCount := (tasksCount + 1) % TWO32;
      counted := counted[p := b];
      q := Q.Count(q, p, b);
      OthersKeep(q, before, p);
      Interfere(before);
      tasksMux := tasksMux + [Q.Task(p, b)];
      counted, queued := counted - {p}, queued + {p};
      q := Q.Enqueue(q, p);
      Interfere(after);
      queued := queued - {p};
      q := Q.Written(q, p);
    }

    /** on_tasks: `noise[i]` is what happens while the i-th task of the locked batch runs, `noiseN`
        the same for the loop's own batch. What runs is what the two batches hold, in their order. */
    method OnTasks(noise: seq<seq<Act>>, noiseN: seq<seq<Act>>)
      requires Valid()
      modifies this
      ensures Valid() && q == OnTasksSpec(old(q), noise, noiseN)
      ensures ran == old(ran) + old(tasksMux)
      ensures ranOwn == old(ranOwn) + RunMux(Q.Swap(old(q)), noise, |old(tasksMux)|).nmux
    {
      RunLocked(noise);
      RunOwn(noiseN);
    }

    /** The locked batch and its subtraction. */
    method RunLocked(noise: seq<seq<Act>>)
      requires Valid()
      modifies this
      ensures Valid() && q == Q.Subtract(RunMux(Q.Swap(old(q)), noise, |old(tasksMux)|))
      ensures ran == old(ran) + old(tasksMux) && ranOwn == old(ranOwn)
    {
      var pendings := tasksMux;
      tasksMux := [];
      q := Q.Swap(q);
      ghost var q1 := q;
      for i := 0 to |pendings|
        invariant Valid() && q == RunMux(q1, noise, i)
        invariant ran == old(ran) + pendings[..i] && ranOwn == old(ranOwn)
      {
        ran := ran + [pendings[i]];
        q := Q.Take(q);
        Interfere(Noise(noise, i));
      }
      tasksCount := (tasksCount - |pendings|) % TWO32;
      q := Q.Subtract(q);
    }

    /** The loop's own batch, which is not subtracted. */
    method RunOwn(noise: seq<seq<Act>>)
      requires Valid()
      modifies this
      ensures Valid() && q == RunNmux(Q.SwapN(old(q)), noise, |old(taksNmux)|)
      ensures ranOwn == old(ranOwn) + old(taksNmux) && ran == old(ran)
    {
      var pendings := taksNmux;
      taksNmux := [];
      q := Q.SwapN(q);
      ghost var q1 := q;
      for i := 0 to |pendings|
        invariant Valid() && q == RunNmux(q1, noise, i)
        invariant ranOwn == old(ranOwn) + pendings[..i] && ran == old(ran)
      {
        ranOwn := ranOwn + [pendings[i]];
        q := Q.TakeN(q);
        Interfere(Noise(noise, i));
      }
    }
  }
}
