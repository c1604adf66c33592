/** The Linux acceptor after a successful bind and listen: one accept in the ring at a time. */
module AcceptorLinux {

  datatype Flags = Flags(op: bool, stop: bool, close: bool)

  datatype Effect = Nothing | SubmitAccept | CancelAccept | CloseDown

  function PostToClose(f: Flags): (Flags, Effect) {
    if f.close then (f, Nothing) else (f.(close := true), CloseDown)
  }

  function PostAccept(f: Flags): (Flags, Effect) {
    (f.(op := true), SubmitAccept)
  }

  /** run() up to and after evConn. */
  function AcceptBegin(f: Flags): Flags {
    f.(op := false)
  }

  function AcceptEnd(f: Flags): (Flags, Effect) {
    if f.stop then PostToClose(f) else PostAccept(f)
  }

  function Stop(f: Flags): (Flags, Effect) {
    if f.stop then (f, Nothing)
    else if f.op then (f.(stop := true), CancelAccept)
    else PostToClose(f.(stop := true))
  }

  /** `ops` counts accepts in the ring, `cancels` the cancel requests made, `posted` the evClose
      tasks. */
  datatype Machine = Machine(f: Flags, inConn: bool, ops: nat, cancels: nat, posted: nat)

  datatype Step = StopCall | AcceptDone | Return

  function Do(m: Machine, r: (Flags, Effect)): Machine {
    match r.1
    case Nothing => m.(f := r.0)
    case SubmitAccept => m.(f := r.0, ops := m.ops + 1)
    case CancelAccept => m.(f := r.0, cancels := m.cancels + 1)
    case CloseDown => m.(f := r.0, posted := m.posted + 1)
  }

  predicate Enabled(m: Machine, s: Step) {
    match s
    case StopCall => true
    case AcceptDone => !m.inConn && m.ops > 0
    case Return => m.inConn
  }

  function Next(m: Machine, s: Step): Machine
    requires Enabled(m, s)
  {
    match s
    case StopCall => Do(m, Stop(m.f))
    case AcceptDone =>
      if m.f.close then m.(ops := m.ops - 1)
      else m.(ops := m.ops - 1, f := AcceptBegin(m.f), inConn := true)
    case Return => Do(m, AcceptEnd(m.f)).(inConn := false)
  }

  predicate Legal(m: Machine, run: seq<Step>)
    decreases |run|
  {
    run == [] || (Enabled(m, run[0]) && Legal(Next(m, run[0]), run[1..]))
  }

  function Exec(m: Machine, run: seq<Step>): Machine
    requires Legal(m, run)
    decreases |run|
  {
    if run == [] then m else Exec(Next(m, run[0]), run[1..])
  }

  const ACCEPTING: Machine := Machine(Flags(true, false, false), false, 1, 0, 0)

  function Bit(b: bool): nat {
    if b then 1 else 0
  }

  ghost predicate Inv(m: Machine) {
    && (m.f.close ==> m.f.stop)
    && m.ops == Bit(m.f.op)
    && m.posted == Bit(m.f.close)
    && m.cancels <= Bit(m.f.stop)
    && (if m.inConn then !m.f.op else m.f.close <==> !m.f.op)
  }

  lemma {:induction false} RunKeepsInv(m: Machine, run: seq<Step>)
    requires Inv(m) && Legal(m, run)
    ensures Inv(Exec(m, run))
    ensures m.f.stop ==> Exec(m, run).f.stop && Exec(m, run).ops <= m.ops
    decreases |run|
  {
    if run != [] {
      RunKeepsInv(Next(m, run[0]), run[1..]);
    }
  }

  /** Over every run: the close happens only after a stop and with no accept in the ring, evClose
      is posted at most once, no accept is submitted twice, and a stopped acceptor that is not yet
      closed still has its one accept out whenever evConn is not running. */
  lemma DrainSafety(run: seq<Step>)
    requires Legal(ACCEPTING, run)
    ensures var m := Exec(ACCEPTING, run);
      && (m.f.close ==> m.f.stop && m.ops == 0)
      && m.posted == Bit(m.f.close)
      && m.ops <= 1
      && (!m.inConn ==> (m.f.close <==> m.ops == 0))
  {
    RunKeepsInv(ACCEPTING, run);
  }

  function Completions(run: seq<Step>): nat {
    if run == [] then 0 else Bit(run[0] == AcceptDone) + Completions(run[1..])
  }

  /** After a stop nothing is submitted again: the outstanding accept completes once, and then,
      evConn having returned, the acceptor is closed. */
  lemma {:induction false} DrainCompletes(m: Machine, run: seq<Step>)
    requires Inv(m) && m.f.stop && Legal(m, run)
    ensures Exec(m, run).ops + Completions(run) == m.ops
    ensures !Exec(m, run).inConn ==> (Exec(m, run).f.close <==> Completions(run) == m.ops)
    decreases |run|
  {
    RunKeepsInv(m, run);
    if run != [] {
      DrainCompletes(Next(m, run[0]), run[1..]);
    }
  }

  /** The first stop() cancels the accept exactly when one is out, and nothing is cancelled afterwards. */
  lemma StopCancelsExactly(m: Machine, run: seq<Step>)
    requires Inv(m) && !m.f.stop && Legal(m, [StopCall] + run)
    ensures Exec(m, [StopCall] + run).cancels == m.cancels + Bit(m.f.op)
    ensures m.f.op <==> m.ops == 1
  {
    assert ([StopCall] + run)[1..] == run;
    StoppedCancelsNothing(Next(m, StopCall), run);
  }

  lemma {:induction false} StoppedCancelsNothing(m: Machine, run: seq<Step>)
    requires m.f.stop && Legal(m, run)
    ensures Exec(m, run).cancels == m.cancels
    decreases |run|
  {
    if run != [] {
      StoppedCancelsNothing(Next(m, run[0]), run[1..]);
    }
  }

  /** What evConn is told: an accepted descriptor with result 1, or the error. */
  datatype Conn = Accepted(fd: nat) | Refused(res: int)

  class SAcceptor {
    var op: bool
    var stop: bool
    var close: bool
    // What the ring and the loop hold for this acceptor, and the evConn calls made.
    var ops: nat
    var cancels: nat
    var posted: nat
    var conns: seq<Conn>
    ghost var inConn: bool

    ghost function Abs(): Machine
      reads this
    {
      Machine(Flags(op, stop, close), inConn, ops, cancels, posted)
    }

    /** start() past bind and listen. */
    constructor ()
      ensures Abs() == ACCEPTING && conns == []
    {
      stop, close, cancels, posted, conns, inConn := false, false, 0, 0, [], false;
      op, ops := true, 1;
    }

    method PostClose()
      modifies this`close, this`posted
      ensures Abs() == Do(old(Abs()), PostToClose(old(Abs()).f))
    {
      if !close {
        close := true;
        posted := posted + 1;
      }
    }

    method Submit()
      modifies this`op, this`ops
      ensures Abs() == Do(old(Abs()), PostAccept(old(Abs()).f))
    {
      ops := ops + 1;
      op := true;
    }

    method StopCalled()
      modifies this`stop, this`close, this`posted, this`cancels
      ensures Abs() == Next(old(Abs()), StopCall)
    {
      if stop {
        return;
      }
      stop := true;
      if op {
        cancels := cancels + 1;
      } else {
        PostClose();
      }
    }

    /** One completion; evConn calls stop() `stops` times. */
    method Run(res: int, stops: nat)
      requires Inv(Abs()) && Enabled(Abs(), AcceptDone)
      modifies this
      ensures Inv(Abs())
      ensures conns == old(conns) + [if res >= 0 then Accepted(res) else Refused(res)]
      ensures Abs() == Next(AfterStops(Next(old(Abs()), AcceptDone), stops), Return)
    {
      ops := ops - 1;
      op := false;
      inConn := true;
      conns := conns + [if res >= 0 then Accepted(res) else Refused(res)];
      ghost var m := Abs();
      for i := 0 to stops
        invariant Abs() == AfterStops(m, i) && conns == old(conns) + [if res >= 0 then Accepted(res) else Refused(res)]
      {
        StopCalled();
      }
      if stop {
        PostClose();
      } else {
        Submit();
      }
      inConn := false;
    }
  }

  function AfterStops(m: Machine, n: nat): (r: Machine)
    requires Inv(m)
    ensures Inv(r) && r.inConn == m.inConn
  {
    if n == 0 then m else Next(AfterStops(m, n - 1), StopCall)
  }
}
