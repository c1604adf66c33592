/** The scatter read of a stream and the two helpers that gather its buffers again. */
module Buffers {

  type byte = bv8

  /** `mem` is the memory behind the pointer, `size` how much of it the buffer names. */
  datatype Buffer = Buffer(mem: seq<byte>, size: nat)

  predicate Readable(bufs: seq<Buffer>) {
    forall b :: b in bufs ==> b.size <= |b.mem|
  }

  /** All named bytes, in order. */
  function Gather(bufs: seq<Buffer>): seq<byte>
    requires Readable(bufs)
  {
    if bufs == [] then [] else
      var last := bufs[|bufs| - 1];
      Gather(bufs[..|bufs| - 1]) + last.mem[..last.size]
  }

  /** std::string::resize: what there is stays, what is added is zero. */
  function Resize(s: seq<byte>, n: nat): (r: seq<byte>)
    ensures |r| == n
    ensures forall i :: 0 <= i < n ==> r[i] == if i < |s| then s[i] else 0
  {
    if n <= |s| then s[..n] else s + seq(n - |s|, _ => 0)
  }

  method CopyFromBuffers(s: seq<byte>, bufs: seq<Buffer>) returns (s': seq<byte>, n: nat)
    requires Readable(bufs)
    ensures bufs == [] ==> s' == s && n == 0
    ensures bufs != [] ==> s' == Gather(bufs) && n == |s'|
  {
    if bufs == [] {
      return s, 0;
    }
    s' := bufs[0].mem[..bufs[0].size];
    assert bufs[..1] == [bufs[0]];
    assert Gather(bufs[..1]) == Gather(bufs[..1][..0]) + s';
    for i := 1 to |bufs|
      invariant s' == Gather(bufs[..i])
    {
      assert bufs[..i + 1][..i] == bufs[..i];
      s' := s' + bufs[i].mem[..bufs[i].size];
    }
    assert bufs[..|bufs|] == bufs;
    n := |s'|;
  }

  method CopyFromBuffers1(s: seq<byte>, bufs: seq<Buffer>) returns (s': seq<byte>, n: nat)
    requires Readable(bufs)
    ensures bufs == [] ==> s' == s && n == 0
    ensures bufs != [] ==> s' == Resize(s, bufs[0].size) + Gather(bufs[1..]) && n == |s'|
  {
    if bufs == [] {
      return s, 0;
    }
    s' := Resize(s, bufs[0].size);
    ghost var head := s';
    assert bufs[1..][..0] == [];
    for i := 1 to |bufs|
      invariant s' == head + Gather(bufs[1..][..i - 1])
    {
      assert bufs[1..][..i][..i - 1] == bufs[1..][..i - 1];
      s' := s' + bufs[i].mem[..bufs[i].size];
    }
    assert bufs[1..][..|bufs| - 1] == bufs[1..];
    n := |s'|;
  }

  lemma {:induction false} GatherHead(bufs: seq<Buffer>)
    requires Readable(bufs) && bufs != []
    ensures Gather(bufs) == bufs[0].mem[..bufs[0].size] + Gather(bufs[1..])
    decreases |bufs|
  {
    var init := bufs[..|bufs| - 1];
    if init == [] {
      assert Gather(init) == [];
      assert bufs[1..] == [];
    } else {
      GatherHead(init);
      assert bufs[1..][..|bufs[1..]| - 1] == init[1..];
    }
  }

  /** copy_from_buffers_1 agrees with copy_from_buffers exactly when the container, resized,
      already holds what the first buffer names. */
  lemma CopiesAgree(s: seq<byte>, bufs: seq<Buffer>)
    requires Readable(bufs) && bufs != []
    ensures Resize(s, bufs[0].size) + Gather(bufs[1..]) == Gather(bufs)
        <==> Resize(s, bufs[0].size) == bufs[0].mem[..bufs[0].size]
  {
    GatherHead(bufs);
    var head, tail := Resize(s, bufs[0].size), Gather(bufs[1..]);
    assert (head + tail)[..|head|] == head;
    assert Gather(bufs)[..|head|] == bufs[0].mem[..bufs[0].size];
  }

  // ---------- The scatter read ----------

  const STACK_SIZE: nat := 65535

  /** The most one readv transfers on Linux. */
  const MAX_RW_COUNT: nat := 0x7FFF_F000

  const INT_MAX := 0x7FFF_FFFF

  /** static_cast<int> of a size_t. */
  function ToInt(a: nat): int {
    var m := a % 0x1_0000_0000;
    if m > INT_MAX then m - 0x1_0000_0000 else m
  }

  /** The sizes left in the two buffers; `Overflow` is the signed overflow of the subtraction,
      which C++ leaves undefined. */
  datatype Trimmed = Sizes(first: nat, second: nat) | Overflow

  function Trim(a: nat, r: nat): Trimmed
    requires 0 < r <= MAX_RW_COUNT
  {
    var diff := r - ToInt(a);
    if diff > INT_MAX then Overflow
    else if diff >= 0 then Sizes(a, diff)
    else Sizes(r, 0)
  }

  /** The trimmed sizes sum to the read count exactly when the first size survives the cast to
      int, or the read stopped short of what the cast makes of it. Below 2^31 that is always. */
  lemma TrimExact(a: nat, r: nat)
    requires 0 < r <= MAX_RW_COUNT && r <= a + STACK_SIZE
    ensures Trim(a, r).Sizes? && Trim(a, r).first + Trim(a, r).second == r
        <==> a <= INT_MAX || r < ToInt(a)
    ensures a <= INT_MAX ==> Trim(a, r).second <= STACK_SIZE && Trim(a, r).first <= a
  {
  }

  /** What readv leaves in the user's `a` bytes and in the stack buffer. */
  function Scatter(first: seq<byte>, second: seq<byte>, data: seq<byte>): (m: (seq<byte>, seq<byte>))
    requires |data| <= |first| + |second|
    ensures |m.0| == |first| && |m.1| == |second|
  {
    var k := if |data| < |first| then |data| else |first|;
    (data[..k] + first[k..], data[k..] + second[|data| - k..])
  }

  /** The buffers handed to on_read after a read of `data`. */
  function ReadBuffers(first: seq<byte>, second: seq<byte>, data: seq<byte>): seq<Buffer>
    requires |data| <= |first| + |second| && 0 < |data| <= MAX_RW_COUNT
    requires Trim(|first|, |data|).Sizes?
  {
    var m, t := Scatter(first, second, data), Trim(|first|, |data|);
    [Buffer(m.0, t.first), Buffer(m.1, t.second)]
  }

  lemma GatherPair(b: Buffer, c: Buffer)
    requires b.size <= |b.mem| && c.size <= |c.mem|
    ensures Gather([b, c]) == b.mem[..b.size] + c.mem[..c.size]
  {
    GatherHead([b, c]);
    assert [b, c][1..] == [c] && [c][..0] == [];
    assert Gather([c]) == Gather([c][..0]) + c.mem[..c.size];
  }

  /** Gathering gives back exactly the bytes read, for every first buffer below 2^31 bytes and
      beyond whenever the trimmed sizes still sum up. */
  lemma ReadDelivers(first: seq<byte>, second: seq<byte>, data: seq<byte>)
    requires |second| == STACK_SIZE && 0 < |data| <= MAX_RW_COUNT && |data| <= |first| + STACK_SIZE
    requires |first| <= INT_MAX || |data| < ToInt(|first|)
    ensures Readable(ReadBuffers(first, second, data))
    ensures Gather(ReadBuffers(first, second, data)) == data
  {
    TrimExact(|first|, |data|);
    var m, t := Scatter(first, second, data), Trim(|first|, |data|);
    GatherPair(Buffer(m.0, t.first), Buffer(m.1, t.second));
    if |data| < |first| {
      assert m.0[..t.first] == data;
      assert m.1[..t.second] == [];
    } else {
      assert m.0[..t.first] == data[..|first|];
      assert m.1[..t.second] == data[|first|..];
    }
  }

  /** With a container that lent its own storage as first buffer, copy_from_buffers_1 delivers the
      same bytes. */
  lemma LentStorageDelivers(first: seq<byte>, second: seq<byte>, data: seq<byte>)
    requires |second| == STACK_SIZE && 0 < |data| <= MAX_RW_COUNT && |data| <= |first| + STACK_SIZE
    requires |first| <= INT_MAX || |data| < ToInt(|first|)
    ensures var bufs := ReadBuffers(first, second, data);
      Readable(bufs) && Resize(Scatter(first, second, data).0, bufs[0].size) + Gather(bufs[1..]) == data
  {
    TrimExact(|first|, |data|);
    ReadDelivers(first, second, data);
    CopiesAgree(Scatter(first, second, data).0, ReadBuffers(first, second, data));
  }
}
