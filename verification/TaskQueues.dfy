/** The loop's two task queues and its atomic task counter, one atomic action at a time: the locked
    queue fed by other threads, the queue of the loop thread, and the batches on_tasks runs. */
module TaskQueues {
  import opened TimerHeap
  import opened Words

  /** What a posted task does: user code, an object's evClose, or one of the loop's own lambdas. */
  datatype Body = Plain(n: nat) | EvClose(obj: nat) | AddTimer(node: TimerNode) | CancelTimer(id: TimerId) | StopLoop

  /** A task in the locked queue and the thread that posted it. */
  datatype Task = Task(from: nat, body: Body)

  /** `counted` holds the threads between the increment and the enqueue with the task they carry,
      `queued` those between the enqueue and the eventfd write. `pend` and `pendN` are what is left
      of the running batches, `taken` the size of the locked batch not yet subtracted. The last
      five fields record history: everything enqueued, everything run, and each thread's calls. */
  datatype Queues = Queues(
    mux: seq<Task>, nmux: seq<Body>, count: nat,
    counted: map<nat, Body>, queued: set<nat>,
    pend: seq<Task>, taken: nat, pendN: seq<Body>,
    muxHist: seq<Task>, muxDone: seq<Task>, nmuxHist: seq<Body>, nmuxDone: seq<Body>,
    calls: map<nat, seq<Body>>)

  const EMPTY: Queues := Queues([], [], 0, map[], {}, [], 0, [], [], [], [], [], map[])

  function CallsOf(q: Queues, p: nat): seq<Body> {
    if p in q.calls then q.calls[p] else []
  }

  predicate Idle(q: Queues, p: nat) {
    p !in q.counted && p !in q.queued
  }

  // ---------- The atomic actions ----------

  /** post() on another thread: the increment ... */
  function Count(q: Queues, p: nat, b: Body): Queues
    requires Idle(q, p)
  {
    q.(count := (q.count + 1) % TWO32, counted := q.counted[p := b], calls := q.calls[p := CallsOf(q, p) + [b]])
  }

  /** ... the push under the lock ... */
  function Enqueue(q: Queues, p: nat): Queues
    requires p in q.counted
  {
    var t := Task(p, q.counted[p]);
    q.(mux := q.mux + [t], muxHist := q.muxHist + [t], counted := q.counted - {p}, queued := q.queued + {p})
  }

  /** ... and the eventfd write that ends it. */
  function Written(q: Queues, p: nat): Queues {
    q.(queued := q.queued - {p})
  }

  /** post() on the loop thread. */
  function PostIn(q: Queues, b: Body): Queues {
    q.(count := (q.count + 1) % TWO32, nmux := q.nmux + [b], nmuxHist := q.nmuxHist + [b])
  }

  /** on_tasks: swap the locked queue out, run it task by task, subtract its size ... */
  function Swap(q: Queues): Queues {
    q.(pend := q.mux, taken := |q.mux|, mux := [])
  }

  function Take(q: Queues): Queues
    requires q.pend != []
  {
    q.(pend := q.pend[1..], muxDone := q.muxDone + [q.pend[0]])
  }

  /** An unsigned 32-bit subtraction. */
  function Subtract(q: Queues): Queues {
    q.(count := (q.count - q.taken) % TWO32, taken := 0)
  }

  /** ... then the same with the loop's own queue, which is not subtracted. */
  function SwapN(q: Queues): Queues {
    q.(pendN := q.nmux, nmux := [])
  }

  function TakeN(q: Queues): Queues
    requires q.pendN != []
  {
    q.(pendN := q.pendN[1..], nmuxDone := q.nmuxDone + [q.pendN[0]])
  }

  // ---------- The laws ----------

  /** What the counter stands for: all in-loop posts ever made, the threads between increment and
      enqueue, the locked queue and the batch not yet subtracted. */
  function Law(q: Queues): nat {
    |q.nmuxHist| + |q.counted| + |q.mux| + q.taken
  }

  /** The tasks of thread `p`, in order. */
  function Of(ts: seq<Task>, p: nat): seq<Body> {
    if ts == [] then [] else
      Of(ts[..|ts| - 1], p) + (if ts[|ts| - 1].from == p then [ts[|ts| - 1].body] else [])
  }

  function InHand(q: Queues, p: nat): seq<Body> {
    if p in q.counted then [q.counted[p]] else []
  }

  /** Run, about to run and queued make up everything ever enqueued, in order. */
  ghost predicate Conserved(q: Queues) {
    && q.muxHist == q.muxDone + q.pend + q.mux
    && q.nmuxHist == q.nmuxDone + q.pendN + q.nmux
  }

  ghost predicate CounterLaw(q: Queues) {
    q.count == Law(q) % TWO32 && q.count < TWO32 && q.counted.Keys !! q.queued
  }

  /** The queue holds every thread's calls in that thread's order. */
  ghost predicate InOrder(q: Queues) {
    forall p :: Of(q.muxHist, p) + InHand(q, p) == CallsOf(q, p)
  }

  ghost predicate Inv(q: Queues) {
    Conserved(q) && CounterLaw(q) && InOrder(q)
  }

  lemma OfAppend(ts: seq<Task>, t: Task, p: nat)
    ensures Of(ts + [t], p) == Of(ts, p) + (if t.from == p then [t.body] else [])
  {
    assert (ts + [t])[..|ts|] == ts;
  }

  lemma CountKeepsOrder(q: Queues, p: nat, b: Body)
    requires InOrder(q) && Idle(q, p)
    ensures InOrder(Count(q, p, b))
  {
    var q' := Count(q, p, b);
    forall r
      ensures Of(q'.muxHist, r) + InHand(q', r) == CallsOf(q', r)
    {
      assert Of(q.muxHist, r) + InHand(q, r) == CallsOf(q, r);
    }
  }

  lemma CountKeeps(q: Queues, p: nat, b: Body)
    requires Inv(q) && Idle(q, p)
    ensures Inv(Count(q, p, b))
  {
    CountKeepsOrder(q, p, b);
    CountKeepsCounter(q, p, b);
  }

  lemma CountKeepsCounter(q: Queues, p: nat, b: Body)
    requires CounterLaw(q) && Idle(q, p)
    ensures CounterLaw(Count(q, p, b))
  {
    var q' := Count(q, p, b);
    assert q'.counted.Keys == q.counted.Keys + {p};
    assert |q'.counted.Keys| == |q.counted.Keys| + 1;
    assert |q'.counted| == |q'.counted.Keys| && |q.counted| == |q.counted.Keys|;
    assert Law(q') == Law(q) + 1;
    Modular(Law(q), 1);
  }

  lemma Modular(law: nat, d: int)
    ensures (law % TWO32 + d) % TWO32 == (law + d) % TWO32
  {
    var k := law / TWO32;
    assert law == k * TWO32 + law % TWO32;
    ModularShift(law % TWO32 + d, k);
  }

  lemma {:induction false} ModularShift(a: int, k: nat)
    ensures (a + k * TWO32) % TWO32 == a % TWO32
    decreases k
  {
    if k > 0 {
      ModularShift(a, k - 1);
      var b := a + (k - 1) * TWO32;
      assert (b + TWO32) % TWO32 == b % TWO32;
    }
  }

  lemma EnqueueKeepsOrder(q: Queues, p: nat)
    requires InOrder(q) && p in q.counted
    ensures InOrder(Enqueue(q, p))
  {
    var q' := Enqueue(q, p);
    forall r
      ensures Of(q'.muxHist, r) + InHand(q', r) == CallsOf(q', r)
    {
      OfAppend(q.muxHist, Task(p, q.counted[p]), r);
      assert Of(q.muxHist, r) + InHand(q, r) == CallsOf(q, r);
    }
  }

  lemma EnqueueKeeps(q: Queues, p: nat)
    requires Inv(q) && p in q.counted
    ensures Inv(Enqueue(q, p))
  {
    EnqueueKeepsOrder(q, p);
    EnqueueKeepsCounter(q, p);
  }

  lemma EnqueueKeepsCounter(q: Queues, p: nat)
    requires CounterLaw(q) && p in q.counted
    ensures CounterLaw(Enqueue(q, p))
  {
    var rest := q.counted - {p};
    assert rest.Keys == q.counted.Keys - {p};
    assert |rest| == |rest.Keys| && |q.counted| == |q.counted.Keys|;
  }

  lemma WrittenKeeps(q: Queues, p: nat)
    requires Inv(q)
    ensures Inv(Written(q, p))
  {
    var q' := Written(q, p);
    forall r
      ensures Of(q'.muxHist, r) + InHand(q', r) == CallsOf(q', r)
    {
      assert Of(q.muxHist, r) + InHand(q, r) == CallsOf(q, r);
    }
  }

  /** Actions that leave the posters and the locked history alone keep the per-thread order. */
  lemma OrderFramed(q: Queues, q': Queues)
    requires InOrder(q) && q'.muxHist == q.muxHist && q'.counted == q.counted && q'.calls == q.calls
    ensures InOrder(q')
  {
    forall r
      ensures Of(q'.muxHist, r) + InHand(q', r) == CallsOf(q', r)
    {
      assert Of(q.muxHist, r) + InHand(q, r) == CallsOf(q, r);
    }
  }

  lemma PostInKeeps(q: Queues, b: Body)
    requires Inv(q)
    ensures Inv(PostIn(q, b))
  {
    OrderFramed(q, PostIn(q, b));
  }

  lemma SwapKeeps(q: Queues)
    requires Inv(q) && q.pend == [] && q.taken == 0
    ensures Inv(Swap(q))
  {
    OrderFramed(q, Swap(q));
  }

  lemma TakeKeeps(q: Queues)
    requires Inv(q) && q.pend != []
    ensures Inv(Take(q))
  {
    OrderFramed(q, Take(q));
    assert q.pend == [q.pend[0]] + q.pend[1..];
  }

  /** The subtraction never goes below zero: the counter covers the batch unless it wrapped. */
  lemma SubtractKeeps(q: Queues)
    requires Inv(q)
    ensures Inv(Subtract(q))
    ensures Law(q) < TWO32 ==> q.taken <= q.count && Subtract(q).count == q.count - q.taken
  {
    OrderFramed(q, Subtract(q));
    assert Law(Subtract(q)) == Law(q) - q.taken;
  }

  lemma SwapNKeeps(q: Queues)
    requires Inv(q) && q.pendN == []
    ensures Inv(SwapN(q))
  {
    OrderFramed(q, SwapN(q));
  }

  lemma TakeNKeeps(q: Queues)
    requires Inv(q) && q.pendN != []
    ensures Inv(TakeN(q))
  {
    OrderFramed(q, TakeN(q));
    assert q.pendN == [q.pendN[0]] + q.pendN[1..];
  }

  lemma {:induction false} OfConcat(a: seq<Task>, b: seq<Task>, p: nat)
    ensures Of(a + b, p) == Of(a, p) + Of(b, p)
    decreases |b|
  {
    if b == [] {
      assert a + b == a;
    } else {
      var n := |b| - 1;
      OfConcat(a, b[..n], p);
      assert a + b == a + b[..n] + [b[n]];
      OfAppend(a + b[..n], b[n], p);
    }
  }

  /** What has run of a thread's tasks is always a prefix of its calls: nothing of it is lost,
      repeated or overtaken. */
  lemma RunInCallOrder(q: Queues, p: nat)
    requires Inv(q)
    ensures Of(q.muxDone, p) <= CallsOf(q, p)
  {
    OfConcat(q.muxDone + q.pend, q.mux, p);
    OfConcat(q.muxDone, q.pend, p);
    assert Of(q.muxHist, p) + InHand(q, p) == CallsOf(q, p);
    assert CallsOf(q, p) == Of(q.muxDone, p) + (Of(q.pend, p) + Of(q.mux, p) + InHand(q, p));
  }

  lemma {:induction false} OfMember(ts: seq<Task>, p: nat, b: Body)
    ensures b in Of(ts, p) <==> Task(p, b) in ts
    decreases |ts|
  {
    if ts != [] {
      var n := |ts| - 1;
      OfMember(ts[..n], p, b);
      assert ts == ts[..n] + [ts[n]];
    }
  }

  /** The wait decision of run(): with the locked queue seen empty, the loop does not wait exactly
      when the counter is nonzero. Absent a wrap that is the case whenever either queue, a posting
      thread or any in-loop post of the past is there. */
  lemma WaitDecision(q: Queues)
    requires Inv(q)
    ensures q.count > 0 <==> Law(q) % TWO32 != 0
    ensures Law(q) < TWO32 && (q.mux != [] || q.nmux != [] || q.counted != map[]) ==> q.count > 0
    ensures Law(q) < TWO32 && q.nmuxHist != [] ==> q.count > 0
  {
    if q.counted != map[] {
      assert q.counted.Keys != {};
    }
  }
}
