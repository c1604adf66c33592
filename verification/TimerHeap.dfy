/** The binary heap under the loop's timers: `timer_node`s ordered by `(expire, id)`,
    kept as a min-heap by push_heap and pop_heap with the `greater` comparator. The two heap
    algorithms follow the contract of section 25.8.8 of ISO/IEC 14882:2020. */
module TimerHeap {

  /** `expire` is a steady_clock time point in nanoseconds, `id` the 64-bit sequence number. */
  datatype TimerId = TimerId(expire: int, id: nat)

  /** `cb` names the stored callback. */
  datatype TimerNode = TimerNode(id: TimerId, cb: nat)

  predicate Less(a: TimerId, b: TimerId) {
    if a.expire == b.expire then a.id < b.id else a.expire < b.expire
  }

  predicate Leq(a: TimerId, b: TimerId) {
    !Less(b, a)
  }

  function Parent(i: int): int
    requires i > 0
  {
    (i - 1) / 2
  }

  ghost predicate IsHeap(v: seq<TimerNode>) {
    forall i :: 0 < i < |v| ==> Leq(v[Parent(i)].id, v[i].id)
  }

  ghost predicate HeapButUp(v: seq<TimerNode>, i: int) {
    && (forall j :: 0 < j < |v| && j != i ==> Leq(v[Parent(j)].id, v[j].id))
    && (forall j :: 0 < j < |v| && Parent(j) == i && 0 < i < |v| ==> Leq(v[Parent(i)].id, v[j].id))
  }

  ghost predicate HeapButDown(v: seq<TimerNode>, n: int, i: int)
    requires n <= |v|
  {
    && (forall j :: 0 < j < n && Parent(j) != i ==> Leq(v[Parent(j)].id, v[j].id))
    && (forall j :: 0 < j < n && Parent(j) == i && 0 < i < n ==> Leq(v[Parent(i)].id, v[j].id))
  }

  function Swap(v: seq<TimerNode>, i: int, j: int): (r: seq<TimerNode>)
    requires 0 <= i < |v| && 0 <= j < |v|
  {
    v[i := v[j]][j := v[i]]
  }

  lemma SwapPermutes(v: seq<TimerNode>, i: int, j: int)
    requires 0 <= i < |v| && 0 <= j < |v|
    ensures multiset(Swap(v, i, j)) == multiset(v)
  {
  }

  /** The node at index 0 is the least one: the fact `timers.front()` relies on. */
  lemma {:induction false} FrontIsLeast(v: seq<TimerNode>, i: nat)
    requires IsHeap(v) && i < |v|
    ensures Leq(v[0].id, v[i].id)
    decreases i
  {
    if i > 0 {
      FrontIsLeast(v, Parent(i));
      assert Leq(v[Parent(i)].id, v[i].id);
    }
  }

  /** One sift-up exchange moves the only possible violation from `i` to its parent. */
  lemma SiftUpStep(v: seq<TimerNode>, i: int)
    requires 0 < i < |v| && HeapButUp(v, i) && Less(v[i].id, v[Parent(i)].id)
    ensures HeapButUp(Swap(v, i, Parent(i)), Parent(i))
  {
    var p := Parent(i);
    var r := Swap(v, i, p);
    forall j | 0 < j < |r| && j != p
      ensures Leq(r[Parent(j)].id, r[j].id)
    {
      assert j != i ==> Leq(v[Parent(j)].id, v[j].id);
    }
    forall j | 0 < j < |r| && Parent(j) == p && 0 < p
      ensures Leq(r[Parent(p)].id, r[j].id)
    {
      assert Leq(v[Parent(p)].id, v[p].id);
      assert Leq(v[Parent(j)].id, v[j].id) || j == i;
    }
  }

  /** One sift-down exchange with the lesser child `c` moves the only possible violation to `c`. */
  lemma SiftDownStep(v: seq<TimerNode>, n: int, i: int, c: int)
    requires 0 <= i < c < n <= |v| && Parent(c) == i && HeapButDown(v, n, i)
    requires Less(v[c].id, v[i].id)
    requires forall j :: 0 < j < n && Parent(j) == i ==> Leq(v[c].id, v[j].id)
    ensures HeapButDown(Swap(v, i, c), n, c)
  {
    var r := Swap(v, i, c);
    forall j | 0 < j < n && Parent(j) != c
      ensures Leq(r[Parent(j)].id, r[j].id)
    {
      assert Parent(j) != i ==> Leq(v[Parent(j)].id, v[j].id);
      assert j == i ==> Leq(v[Parent(i)].id, v[c].id);
    }
    forall j | 0 < j < n && Parent(j) == c
      ensures Leq(r[Parent(c)].id, r[j].id)
    {
      assert Leq(v[Parent(j)].id, v[j].id);
    }
  }

  /** push_heap: the first |v|-1 nodes are a heap, the last one is sifted up into place. */
  method PushHeap(v: seq<TimerNode>) returns (r: seq<TimerNode>)
    requires |v| > 0 && IsHeap(v[..|v| - 1])
    ensures IsHeap(r) && multiset(r) == multiset(v)
  {
    r := v;
    var i := |v| - 1;
    assert HeapButUp(v, i) by {
      assert forall j :: 0 <= j < i ==> v[..i][j] == v[j];
    }
    while i > 0 && Less(r[i].id, r[Parent(i)].id)
      invariant 0 <= i < |r| == |v|
      invariant multiset(r) == multiset(v)
      invariant HeapButUp(r, i)
    {
      SwapPermutes(r, i, Parent(i));
      SiftUpStep(r, i);
      r := Swap(r, i, Parent(i));
      i := Parent(i);
    }
  }

  /** The child the sift-down of pop_heap compares with. */
  function LesserChild(v: seq<TimerNode>, n: int, i: int): (c: int)
    requires 0 <= i && 2 * i + 1 < n <= |v|
    ensures i < c < n && Parent(c) == i
    ensures forall j :: 0 < j < n && Parent(j) == i ==> Leq(v[c].id, v[j].id)
  {
    var c := 2 * i + 1;
    assert forall j :: 0 < j < n && Parent(j) == i ==> j == c || j == c + 1;
    if c + 1 < n && Less(v[c + 1].id, v[c].id) then c + 1 else c
  }

  lemma PopStart(v: seq<TimerNode>)
    requires |v| > 0 && IsHeap(v)
    ensures HeapButDown(Swap(v, 0, |v| - 1), |v| - 1, 0)
  {
    var r := Swap(v, 0, |v| - 1);
    forall j | 0 < j < |v| - 1 && Parent(j) != 0
      ensures Leq(r[Parent(j)].id, r[j].id)
    {
      assert Leq(v[Parent(j)].id, v[j].id);
    }
  }

  lemma PopEnd(v: seq<TimerNode>, n: int, i: int)
    requires 0 <= i <= n <= |v| && HeapButDown(v, n, i)
    requires 2 * i + 1 < n ==> Leq(v[i].id, v[LesserChild(v, n, i)].id)
    ensures IsHeap(v[..n])
  {
    forall j | 0 < j < n
      ensures Leq(v[..n][Parent(j)].id, v[..n][j].id)
    {
      if Parent(j) == i {
        assert 2 * i + 1 <= j;
        assert Leq(v[LesserChild(v, n, i)].id, v[j].id);
      }
    }
  }

  /** pop_heap: the least node moves to the end, the others stay a heap. */
  method PopHeap(v: seq<TimerNode>) returns (r: seq<TimerNode>)
    requires |v| > 0 && IsHeap(v)
    ensures |r| == |v| && r[|r| - 1] == v[0]
    ensures IsHeap(r[..|r| - 1]) && multiset(r) == multiset(v)
  {
    var n := |v| - 1;
    SwapPermutes(v, 0, n);
    r := Swap(v, 0, n);
    PopStart(v);
    var i := 0;
    while 2 * i + 1 < n && Less(r[LesserChild(r, n, i)].id, r[i].id)
      invariant 0 <= i <= n < |r| == |v|
      invariant r[n] == v[0]
      invariant multiset(r) == multiset(v)
      invariant HeapButDown(r, n, i)
    {
      var c := LesserChild(r, n, i);
      SwapPermutes(r, i, c);
      SiftDownStep(r, n, i, c);
      r := Swap(r, i, c);
      i := c;
    }
    PopEnd(r, n, i);
  }
}
