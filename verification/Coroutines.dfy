/** `co_session` and `co_tcpserver` with their fields, awaiters reached through pointers. */
module Coroutines {
  import opened CoSpec

  /** The awaiter object of one co_read; the coroutine handle is not part of this model. */
  class ReadAwaiter {
    var buf: seq<byte>

    constructor ()
      ensures buf == []
    {
      buf := [];
    }
  }

  class CoSession {
    var buffer: seq<byte>
    var read: ReadAwaiter?
    var err: int
    var close: int
    // What each co_read gave out.
    ghost var returned: seq<seq<byte>>

    ghost function Abs(): Session
      reads this, read
    {
      Session(buffer, if read == null then None else Some(read.buf), err, returned)
    }

    constructor ()
      ensures Abs() == OPENED && close == 0
    {
      buffer, read, err, close, returned := [], null, 1, 0, [];
    }

    /** Swaps the buffered bytes into the awaiter. */
    method TakeBuf(a: ReadAwaiter) returns (n: nat)
      modifies this`buffer, a
      ensures a.buf == old(buffer) && buffer == old(a.buf) && n == |a.buf|
    {
      buffer, a.buf := a.buf, buffer;
      n := |a.buf|;
    }

    method AwaitReady(a: ReadAwaiter) returns (ready: bool)
      requires err > 0 ==> close == 0
      modifies this`buffer, a
      ensures err <= 0 ==> ready && a.buf == old(a.buf) && buffer == old(buffer)
      ensures err > 0 ==> a.buf == old(buffer) && buffer == old(a.buf) && (ready <==> a.buf != [])
    {
      if err <= 0 {
        return true;
      }
      var n := TakeBuf(a);
      ready := n > 0;
    }

    /** co_await co_read(): either it is ready and returns its bytes, or it suspends. */
    method CoReadCall()
      requires read == null && (err > 0 ==> close == 0)
      modifies this`buffer, this`read, this`returned
      ensures Abs() == CoRead(old(Abs()))
      ensures read == null || fresh(read)
    {
      var a := new ReadAwaiter();
      var ready := AwaitReady(a);
      if ready {
        returned := returned + [a.buf];
      } else {
        read := a;
      }
    }

    /** The resumed coroutine takes its bytes and reads on, until it suspends or stops reading. */
    method ResumeReader(a: ReadAwaiter, again: nat)
      requires read == null && (err > 0 ==> close == 0)
      modifies this`buffer, this`read, this`returned
      ensures Abs() == CoReads(old(Abs()).(returned := old(returned) + [a.buf]), again)
      ensures read == null || fresh(read)
    {
      returned := returned + [a.buf];
      ghost var s := Abs();
      for i := 0 to again
        invariant Abs() == CoReads(s, i)
        invariant read == null || fresh(read)
        invariant err == old(err) && close == old(close)
      {
        if read == null {
          CoReadCall();
        }
      }
    }

    /** `bufs` are the filled buffers of the callback. */
    method OnReadCallback(res: int, bufs: seq<seq<byte>>, again: nat)
      requires close == 0
      modifies this, read
      ensures Abs() == OnRead(old(Abs()), res, Flatten(bufs), again)
      ensures close == 0
    {
      if res <= 0 {
        err := res;
      }
      var p := read;
      read := null;
      if err > 0 {
        if p != null {
          for i := 0 to |bufs|
            invariant p.buf == old(if read == null then [] else read.buf) + Flatten(bufs[..i])
            invariant read == null && buffer == old(buffer) && returned == old(returned) && close == 0
            invariant err == if res <= 0 then res else old(err)
          {
            assert bufs[..i + 1][..i] == bufs[..i];
            p.buf := p.buf + bufs[i];
          }
          assert bufs[..|bufs|] == bufs;
          ResumeReader(p, again);
        } else {
          for i := 0 to |bufs|
            invariant buffer == old(buffer) + Flatten(bufs[..i])
            invariant read == null && returned == old(returned) && close == 0
            invariant err == if res <= 0 then res else old(err)
          {
            assert bufs[..i + 1][..i] == bufs[..i];
            buffer := buffer + bufs[i];
          }
          assert bufs[..|bufs|] == bufs;
        }
      } else if p != null {
        assert p.buf == p.buf + [];
        ResumeReader(p, again);
      }
    }
  }

  class AcceptAwaiter {
    var res: Option<Sock>

    constructor ()
      ensures res == None
    {
      res := None;
    }
  }

  class CoTcpServer {
    var pendings: seq<Sock>
    var cb: AcceptAwaiter?
    var err: int
    var close: int
    // What each co_accept gave out.
    ghost var results: seq<Option<Sock>>

    ghost function Abs(): Server
      reads this
    {
      Server(pendings, cb != null, err, results)
    }

    constructor ()
      ensures Abs() == LISTENING && close == 0
    {
      pendings, cb, err, close, results := [], null, 1, 0, [];
    }

    method Pop() returns (r: Option<Sock>)
      modifies this`pendings
      ensures old(pendings) == [] ==> r == None && pendings == []
      ensures old(pendings) != [] ==> r == Some(old(pendings)[0]) && pendings == old(pendings)[1..]
    {
      if pendings == [] {
        return None;
      }
      r := Some(pendings[0]);
      pendings := pendings[1..];
    }

    method AwaitReady(a: AcceptAwaiter) returns (ready: bool)
      requires pendings == [] && cb == null ==> close == 0
      modifies this`pendings, a
      ensures old(pendings) == [] ==> a.res == None && pendings == [] && (ready <==> cb != null || err <= 0)
      ensures old(pendings) != [] ==> a.res == Some(old(pendings)[0]) && pendings == old(pendings)[1..] && ready
    {
      var r := Pop();
      a.res := r;
      ready := a.res.Some? || cb != null || err <= 0;
    }

    method CoAcceptCall()
      requires pendings == [] && cb == null ==> close == 0
      modifies this`pendings, this`cb, this`results
      ensures Abs() == CoAccept(old(Abs()))
      ensures cb == old(cb) || fresh(cb)
    {
      var a := new AcceptAwaiter();
      var ready := AwaitReady(a);
      if ready {
        Give(a.res);
      } else {
        cb := a;
      }
    }

    /** await_resume: the coroutine gets its socket, or none. */
    ghost method Give(r: Option<Sock>)
      modifies this`results
      ensures results == old(results) + [r]
    {
      results := results + [r];
    }

    method OnClientCallback(res: int, sock: Sock, again: nat)
      requires close == 0
      modifies this, cb
      ensures Abs() == OnClient(old(Abs()), res, sock, again)
    {
      if res <= 0 {
        err := res;
      }
      var p := cb;
      cb := null;
      if p != null {
        p.res := if res > 0 then Some(sock) else None;
        Give(p.res);
        ghost var s := Abs();
        for i := 0 to again
          invariant Abs() == CoAccepts(s, i) && close == 0
        {
          CoAcceptCall();
        }
      } else if res > 0 {
        pendings := pendings + [sock];
      }
    }
  }
}
