/** `sacceptor_t` on Windows: post_acceptor and run call each other, slots updated in place. */
module AcceptorWin {
  import A = AcceptorWinSpec

  class SAcceptor {
    var doing: seq<bool>
    var stop: bool
    var close: bool
    // The evClose tasks posted to the loop, and what the system and the user saw.
    var posted: nat
    var log: seq<A.Event>

    ghost function Abs(): A.Acc
      reads this
    {
      A.Acc(doing, stop, close, posted, log)
    }

    constructor ()
      ensures Abs() == A.Acc([], false, false, 0, [])
    {
      doing, stop, close, posted, log := [], false, false, 0, [];
    }

    method PostClose()
      modifies this`close, this`posted, this`log
      ensures Abs() == A.PostClose(old(Abs()))
    {
      if close {
        return;
      }
      close := true;
      posted := posted + 1;
      log := log + [A.Closed];
    }

    /** start() from the posting loop on; `env` answers the AcceptEx calls. */
    method Start(slots: nat, env: seq<A.Choice>) returns (ghost rest: seq<A.Choice>, r: int)
      modifies this
      ensures (Abs(), rest, r) == A.PostAll(old(Abs()).(doing := seq(slots, _ => false)), 0, env, 1)
    {
      doing := seq(slots, _ => false);
      ghost var w := Abs();
      var todo := env;
      r := 1;
      var i := 0;
      while i < slots
        invariant 0 <= i <= slots == |doing|
        invariant A.PostAll(w, 0, env, 1) == A.PostAll(Abs(), i, todo, r)
      {
        var left, code := PostAcceptor(i, todo);
        todo := left;
        r := code;
        if r <= 0 {
          return todo, r;
        }
        i := i + 1;
      }
      rest := todo;
    }

    method PostAcceptor(op: nat, env: seq<A.Choice>) returns (rest: seq<A.Choice>, r: int)
      requires op < |doing|
      modifies this
      ensures (Abs(), rest, r) == A.Post(old(Abs()), op, env)
      decreases |env|, 0
    {
      if stop {
        return env, 0;
      }
      log := log + [A.Submit(op)];
      doing := doing[op := true];
      if env == [] {
        return [], 1;
      }
      match env[0].outcome {
        case Pending =>
          return env[1..], 1;
        case Fails(e) =>
          doing := doing[op := false];
          Call(A.Refused(op), env[0].stops);
          r := e;
          return env[1..], -r;
        case Immediate =>
          rest := Run(op, env[0].stops, env[1..]);
          r := 1;
      }
    }

    method Run(op: nat, stops: bool, env: seq<A.Choice>) returns (rest: seq<A.Choice>)
      requires op < |doing|
      modifies this
      ensures (Abs(), rest) == A.Run(old(Abs()), op, stops, env)
      decreases |env|, 1
    {
      doing := doing[op := false];
      Call(A.Conn(op), stops);
      if stop {
        rest := env;
        var left := CountBusy();
        A.CountAny(doing);
        if left == 0 {
          PostClose();
        }
      } else {
        var code;
        rest, code := PostAcceptor(op, env);
      }
    }

    /** The loop of run() that counts the slots still busy. */
    method CountBusy() returns (left: nat)
      ensures left == A.Count(doing)
    {
      left := 0;
      for i := 0 to |doing|
        invariant left == A.Count(doing[..i])
      {
        assert doing[..i + 1][..i] == doing[..i];
        if doing[i] {
          left := left + 1;
        }
      }
      assert doing[..|doing|] == doing;
    }

    /** evConn, which may call stop(). */
    method Call(e: A.Event, stops: bool)
      modifies this`stop, this`close, this`posted, this`log
      ensures Abs() == A.Callback(old(Abs()), e, stops)
    {
      log := log + [e];
      if stops {
        Stop();
      }
    }

    method Stop()
      modifies this`stop, this`close, this`posted, this`log
      ensures Abs() == A.Stop(old(Abs()))
    {
      if stop {
        return;
      }
      stop := true;
      log := log + [A.Stopped];
      var cancel := false;
      for i := 0 to |doing|
        invariant doing == old(doing) && stop && close == old(close) && posted == old(posted)
        invariant log == old(log) + [A.Stopped] + A.Cancels(doing[..i])
        invariant cancel <==> A.Any(doing[..i])
      {
        assert doing[..i + 1][..i] == doing[..i] && doing[..i + 1][i] == doing[i];
        assert A.Any(doing[..i]) ==> A.Any(doing[..i + 1]);
        if doing[i] {
          log := log + [A.Cancel(i)];
          cancel := true;
        }
      }
      assert doing[..|doing|] == doing;
      if !cancel {
        NoCancels(doing);
        PostClose();
      }
    }
  }

  lemma {:induction false} NoCancels(doing: seq<bool>)
    requires !A.Any(doing)
    ensures A.Cancels(doing) == []
    decreases |doing|
  {
    if doing != [] {
      var n := |doing| - 1;
      assert forall i :: 0 <= i < n ==> doing[..n][i] == doing[i];
      NoCancels(doing[..n]);
    }
  }
}
