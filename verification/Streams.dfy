/** `sstream_t` on Linux, flags updated in place. A user callback is a script of calls on the
    stream: any sequence that does not panic. */
module Streams {
  import S = StreamSpec
  import Buffers

  /** What run_read hands to the user: the result code and, after a successful read, the sizes. */
  datatype ReadResult = Failed(res: int) | Filled(res: int, sizes: Buffers.Trimmed)

  lemma {:induction false} SplitLast(m: S.Machine, script: seq<S.Step>, i: nat)
    requires i < |script| && S.Legal(m, script)
    ensures S.Legal(m, script[..i]) && S.Legal(m, script[..i + 1])
    ensures S.Enabled(S.Exec(m, script[..i]), script[i])
    ensures S.Exec(m, script[..i + 1]) == S.Next(S.Exec(m, script[..i]), script[i])
    decreases i
  {
    if i == 0 {
      assert script[..1] == [script[0]] && [script[0]][1..] == [];
      assert S.Exec(S.Next(m, script[0]), []) == S.Next(m, script[0]);
    } else {
      SplitLast(S.Next(m, script[0]), script[1..], i - 1);
      assert script[..i][1..] == script[1..][..i - 1];
      assert script[..i + 1][1..] == script[1..][..i];
    }
  }

  /** A read completion and what its callbacks call: the alloc callback, if there is one and the read
      did not fail, then the read callback. */
  function ReadRun(alloc: bool, allocCalls: seq<S.Step>, calls: seq<S.Step>): seq<S.Step> {
    [S.ReadDone(alloc)] + ((if alloc then allocCalls + [S.AllocReturn] else []) + (calls + [S.Return]))
  }

  function WriteRun(calls: seq<S.Step>): seq<S.Step> {
    [S.WriteDone] + (calls + [S.Return])
  }

  lemma {:induction false} Split(m: S.Machine, p: seq<S.Step>, q: seq<S.Step>)
    requires S.Legal(m, p + q)
    ensures S.Legal(m, p) && S.Legal(S.Exec(m, p), q)
    ensures S.Exec(m, p + q) == S.Exec(S.Exec(m, p), q)
    decreases |p|
  {
    if p == [] {
      assert p + q == q;
    } else {
      assert (p + q)[1..] == p[1..] + q;
      Split(S.Next(m, p[0]), p[1..], q);
    }
  }

  lemma SplitFirst(m: S.Machine, s: S.Step, q: seq<S.Step>)
    requires S.Legal(m, [s] + q)
    ensures S.Enabled(m, s) && S.Legal(S.Next(m, s), q)
    ensures S.Exec(m, [s] + q) == S.Exec(S.Next(m, s), q)
  {
    assert ([s] + q)[1..] == q;
  }

  lemma SplitEnd(m: S.Machine, p: seq<S.Step>, s: S.Step)
    requires S.Legal(m, p + [s])
    ensures S.Legal(m, p) && S.Enabled(S.Exec(m, p), s)
    ensures S.Exec(m, p + [s]) == S.Next(S.Exec(m, p), s)
  {
    Split(m, p, [s]);
    assert [s][1..] == [];
  }

  class SStream {
    var stop: bool
    var reading: bool
    var writing: bool
    var close: bool
    // What the ring and the loop hold for this stream.
    var readOps: nat
    var writeOps: nat
    var cancels: nat
    var posted: nat
    // Which callback is running.
    ghost var ctx: S.Context

    ghost function Abs(): S.Machine
      reads this
    {
      S.Machine(S.Flags(stop, reading, writing, close), ctx, readOps, writeOps, cancels, posted)
    }

    constructor ()
      ensures Abs() == S.STARTED
    {
      stop, reading, writing, close := false, false, false, false;
      readOps, writeOps, cancels, posted := 0, 0, 0, 0;
      ctx := S.Idle;
    }

    method PostToClose()
      modifies this`close, this`posted
      ensures Abs() == S.Do(old(Abs()), S.PostToClose(old(Abs()).f))
    {
      if close {
        return;
      }
      close := true;
      posted := posted + 1;
    }

    /** read(): a failing socket option reports to the callback and reads nothing. */
    method InitRead(noblock: int, nodelay: int, script: seq<S.Step>) returns (r: int)
      requires !reading
      requires noblock > 0 && nodelay > 0 ==> !close
      requires S.Calls(script) && S.Legal(Abs(), script)
      modifies this
      ensures noblock <= 0 || nodelay <= 0 ==>
                r == (if noblock <= 0 then noblock else nodelay) && Abs() == S.Exec(old(Abs()), script)
      ensures noblock > 0 && nodelay > 0 ==> r == 1 && Abs() == S.Next(old(Abs()), S.ReadCall)
    {
      if noblock <= 0 {
        RunScript(script);
        return noblock;
      }
      if nodelay <= 0 {
        RunScript(script);
        return nodelay;
      }
      r := PostRead();
    }

    method PostRead() returns (r: int)
      requires !close
      modifies this`reading, this`readOps
      ensures r == 1 && Abs() == S.Do(old(Abs()), S.PostRead(old(Abs()).f))
    {
      reading := true;
      readOps := readOps + 1;
      r := 1;
    }

    method PostWrite() returns (ok: bool)
      requires !S.WritePanics(Abs().f)
      modifies this`writing, this`writeOps
      ensures ok == !old(writing) && Abs() == S.Next(old(Abs()), S.WriteCall)
    {
      if writing {
        return false;
      }
      writeOps := writeOps + 1;
      writing := true;
      ok := true;
    }

    method Stop()
      modifies this`stop, this`close, this`posted, this`cancels
      ensures Abs() == S.Next(old(Abs()), S.StopCall)
    {
      if stop {
        return;
      }
      stop := true;
      if writing {
        return;
      }
      if reading {
        cancels := cancels + 1;
      } else {
        PostToClose();
      }
    }

    /** The body of a user callback. */
    method RunScript(script: seq<S.Step>)
      requires S.Calls(script) && S.Legal(Abs(), script)
      modifies this
      ensures Abs() == S.Exec(old(Abs()), script) && ctx == old(ctx)
    {
      ghost var m := Abs();
      assert script[..0] == [];
      for i := 0 to |script|
        invariant S.Legal(m, script[..i]) && Abs() == S.Exec(m, script[..i]) && ctx == old(ctx)
      {
        SplitLast(m, script, i);
        assert script[i] in script;
        match script[i] {
          case ReadCall => var _ := PostRead();
          case WriteCall => var _ := PostWrite();
          case StopCall => Stop();
        }
      }
      assert script[..|script|] == script;
    }

    /** The alloc callback and its return into run_read. */
    method RunAlloc(calls: seq<S.Step>)
      requires S.Inv(Abs()) && !close && ctx == S.InAlloc
      requires S.Calls(calls) && S.Legal(Abs(), calls + [S.AllocReturn])
      modifies this
      ensures Abs() == S.Exec(old(Abs()), calls + [S.AllocReturn])
      ensures S.Inv(Abs()) && ctx == S.InRead
      ensures S.Legal(old(Abs()), calls) && (close <==> S.EverStopsClosing(old(Abs()), calls))
    {
      SplitEnd(Abs(), calls, S.AllocReturn);
      S.CallsClose(Abs(), calls);
      RunScript(calls);
      ctx := S.InRead;
    }

    /** The read callback and the end of run_read: close if drained, or read again. */
    method RunReadCallback(calls: seq<S.Step>)
      requires S.Inv(Abs()) && ctx == S.InRead
      requires S.Calls(calls) && S.Legal(Abs(), calls + [S.Return])
      modifies this
      ensures Abs() == S.Exec(old(Abs()), calls + [S.Return])
    {
      SplitEnd(Abs(), calls, S.Return);
      S.RunKeepsInv(Abs(), calls);
      RunScript(calls);
      if stop {
        if !writing {
          PostToClose();
        }
      } else {
        var _ := PostRead();
      }
      ctx := S.Idle;
    }

    /** `res` is the completion's result, `alloc` whether there is an alloc callback, `a` the size of the
        buffer it gives, `n` what readv returned and `errno` its error; `allocCalls` and `calls` are what
        the two callbacks call. `late` tells that the read callback was called on a closed stream. */
    method RunRead(res: int, alloc: bool, a: nat, n: int, errno: int, allocCalls: seq<S.Step>, calls: seq<S.Step>)
      returns (result: ReadResult, late: bool)
      requires S.Inv(Abs()) && !close && n <= Buffers.MAX_RW_COUNT
      requires S.Calls(allocCalls) && S.Calls(calls)
      requires S.Legal(Abs(), ReadRun(res >= 0 && alloc, allocCalls, calls))
      modifies this
      ensures Abs() == S.Exec(old(Abs()), ReadRun(res >= 0 && alloc, allocCalls, calls))
      ensures result == if res < 0 then Failed(res) else if n <= 0 then Failed(-errno)
                        else Filled(n, Buffers.Trim(if alloc then a else 0, n))
      ensures S.Enabled(old(Abs()), S.ReadDone(true))
      ensures late <==> res >= 0 && alloc && S.Legal(S.Next(old(Abs()), S.ReadDone(true)), allocCalls)
                        && S.EverStopsClosing(S.Next(old(Abs()), S.ReadDone(true)), allocCalls)
    {
      ghost var m := Abs();
      ghost var first := if res >= 0 && alloc then allocCalls + [S.AllocReturn] else [];
      SplitFirst(m, S.ReadDone(res >= 0 && alloc), first + (calls + [S.Return]));
      ghost var begun := S.Next(m, S.ReadDone(res >= 0 && alloc));
      Split(begun, first, calls + [S.Return]);
      reading := false;
      readOps := readOps - 1;
      ctx := if res >= 0 && alloc then S.InAlloc else S.InRead;
      if res < 0 {
        result := Failed(res);
      } else {
        var size := 0;
        if alloc {
          RunAlloc(allocCalls);
          size := a;
        }
        result := if n <= 0 then Failed(-errno) else Filled(n, Buffers.Trim(size, n));
      }
      late := close;
      RunReadCallback(calls);
    }

    method RunWrite(calls: seq<S.Step>)
      requires S.Inv(Abs()) && !close
      requires S.Calls(calls) && S.Legal(Abs(), WriteRun(calls))
      modifies this
      ensures Abs() == S.Exec(old(Abs()), WriteRun(calls))
    {
      SplitFirst(Abs(), S.WriteDone, calls + [S.Return]);
      SplitEnd(S.Next(Abs(), S.WriteDone), calls, S.Return);
      writeOps := writeOps - 1;
      ctx := S.InWrite;
      writing := false;
      RunScript(calls);
      if stop && !reading {
        PostToClose();
      }
      ctx := S.Idle;
    }
  }
}
