/** The Linux stream: two independent operations, one read and one write, that must drain before
    the stream closes. Flags and their transitions on values; the class SStream is proved equal
    to them, and the loop system of LoopSystem runs them. The theorems are about every run of calls
    and completions from start() on, whatever the callbacks call. */
module StreamSpec {

  datatype Flags = Flags(stop: bool, reading: bool, writing: bool, close: bool)

  /** What a call asks of the ring and the loop. `CloseDown` is the shutdown, the removal of the
      completion callback and the post of evClose. */
  datatype Effect = Nothing | SubmitRead | SubmitWrite | CancelRead | CloseDown

  function PostToClose(f: Flags): (Flags, Effect) {
    if f.close then (f, Nothing) else (f.(close := true), CloseDown)
  }

  function PostRead(f: Flags): (Flags, Effect) {
    (f.(reading := true), SubmitRead)
  }

  function PostWrite(f: Flags): (Flags, Effect) {
    if f.writing then (f, Nothing) else (f.(writing := true), SubmitWrite)
  }

  function Stop(f: Flags): (Flags, Effect) {
    if f.stop then (f, Nothing)
    else
      var g := f.(stop := true);
      if g.writing then (g, Nothing)
      else if g.reading then (g, CancelRead)
      else PostToClose(g)
  }

  /** run_read up to its first and after its last user callback. */
  function ReadBegin(f: Flags): Flags {
    f.(reading := false)
  }

  function ReadEnd(f: Flags): (Flags, Effect) {
    if f.stop then (if f.writing then (f, Nothing) else PostToClose(f)) else PostRead(f)
  }

  /** run_write up to and after the user's callback. */
  function WriteBegin(f: Flags): Flags {
    f.(writing := false)
  }

  function WriteEnd(f: Flags): (Flags, Effect) {
    if f.stop && !f.reading then PostToClose(f) else (f, Nothing)
  }

  /** Calls that would panic: a second read while one is out, and any submission once the socket's
      register id is gone. */
  predicate ReadPanics(f: Flags) {
    f.reading || f.close
  }

  predicate WritePanics(f: Flags) {
    !f.writing && f.close
  }

  // ---------- One stream and its operations in the ring ----------

  /** Where the loop thread is in this stream: run_read calls the alloc callback, then the read
      callback; run_write calls the write callback. */
  datatype Context = Idle | InAlloc | InRead | InWrite

  /** `readOps`, `writeOps` count operations handed to the ring and not completed, `cancels` the
      cancel requests ever made, `posted` the evClose tasks. */
  datatype Machine = Machine(f: Flags, ctx: Context, readOps: nat, writeOps: nat, cancels: nat, posted: nat)

  /** `ReadDone(true)` is a read completion that goes through the alloc callback, `ReadDone(false)`
      one that does not: it failed, or there is no alloc callback. */
  datatype Step = ReadCall | WriteCall | StopCall | ReadDone(alloc: bool) | WriteDone | AllocReturn | Return

  function Do(m: Machine, r: (Flags, Effect)): Machine {
    var n := m.(f := r.0);
    match r.1
    case Nothing => n
    case SubmitRead => n.(readOps := n.readOps + 1)
    case SubmitWrite => n.(writeOps := n.writeOps + 1)
    case CancelRead => n.(cancels := n.cancels + 1)
    case CloseDown => n.(posted := n.posted + 1)
  }

  /** A panicking call ends the process, so it has no next state. */
  predicate Enabled(m: Machine, s: Step) {
    match s
    case ReadCall => !ReadPanics(m.f)
    case WriteCall => !WritePanics(m.f)
    case StopCall => true
    case ReadDone(_) => m.ctx == Idle && m.readOps > 0
    case WriteDone => m.ctx == Idle && m.writeOps > 0
    case AllocReturn => m.ctx == InAlloc
    case Return => m.ctx == InRead || m.ctx == InWrite
  }

  /** A completion after the close finds no callback and is dropped. The read callback follows the
      alloc callback whatever that one did. */
  function Next(m: Machine, s: Step): Machine
    requires Enabled(m, s)
  {
    match s
    case ReadCall => Do(m, PostRead(m.f))
    case WriteCall => Do(m, PostWrite(m.f))
    case StopCall => Do(m, Stop(m.f))
    case ReadDone(alloc) =>
      if m.f.close then m.(readOps := m.readOps - 1)
      else m.(readOps := m.readOps - 1, f := ReadBegin(m.f), ctx := if alloc then InAlloc else InRead)
    case WriteDone =>
      if m.f.close then m.(writeOps := m.writeOps - 1)
      else m.(writeOps := m.writeOps - 1, f := WriteBegin(m.f), ctx := InWrite)
    case AllocReturn => m.(ctx := InRead)
    case Return =>
      (if m.ctx == InRead then Do(m, ReadEnd(m.f)) else Do(m, WriteEnd(m.f))).(ctx := Idle)
  }

  predicate Legal(m: Machine, run: seq<Step>)
    decreases |run|
  {
    run == [] || (Enabled(m, run[0]) && Legal(Next(m, run[0]), run[1..]))
  }

  function Exec(m: Machine, run: seq<Step>): Machine
    requires Legal(m, run)
    decreases |run|
  {
    if run == [] then m else Exec(Next(m, run[0]), run[1..])
  }

  /** After start(). */
  const STARTED: Machine := Machine(Flags(false, false, false, false), Idle, 0, 0, 0, 0)

  /** After start() and one successful read(). */
  const READING: Machine := Machine(Flags(false, true, false, false), Idle, 1, 0, 0, 0)

  function Bit(b: bool): nat {
    if b then 1 else 0
  }

  lemma Chain(m: Machine, s: Step, rest: seq<Step>)
    requires Enabled(m, s) && Legal(Next(m, s), rest)
    ensures Legal(m, [s] + rest) && Exec(m, [s] + rest) == Exec(Next(m, s), rest)
  {
    assert ([s] + rest)[1..] == rest;
  }

  lemma {:induction false} ExecAppend(m: Machine, p: seq<Step>, q: seq<Step>)
    requires Legal(m, p) && Legal(Exec(m, p), q)
    ensures Legal(m, p + q) && Exec(m, p + q) == Exec(Exec(m, p), q)
    decreases |p|
  {
    if p == [] {
      assert p + q == q;
    } else {
      ExecAppend(Next(m, p[0]), p[1..], q);
      assert (p + q)[1..] == p[1..] + q;
    }
  }

  // ---------- What every run keeps ----------

  /** The flags agree with the operations, except that further reads may be out. While a callback
      of a closed stream runs, and only the alloc and read callbacks and those that called stop()
      are such, no operation is flagged. */
  ghost predicate Inv(m: Machine) {
    && (m.f.close ==> m.f.stop)
    && m.posted == Bit(m.f.close)
    && (!m.f.close ==> m.writeOps == Bit(m.f.writing) && m.readOps >= Bit(m.f.reading))
    && (m.ctx != Idle && m.f.close ==> !m.f.reading && !m.f.writing && m.writeOps == 0)
    && (m.ctx == Idle && m.f.stop && !m.f.close ==> m.f.reading || m.f.writing)
  }

  /** No operation beyond the flagged ones, and no read left when the stream closed. */
  ghost predicate ReadsFlagged(m: Machine) {
    Inv(m) && m.readOps == Bit(m.f.reading) && (m.f.close ==> m.readOps == 0)
  }

  ghost predicate WritesDrained(m: Machine) {
    Inv(m) && (m.f.close ==> m.writeOps == 0)
  }

  lemma {:induction false} RunKeepsInv(m: Machine, run: seq<Step>)
    requires Inv(m) && Legal(m, run)
    ensures Inv(Exec(m, run))
    ensures m.f.stop ==> Exec(m, run).f.stop
    decreases |run|
  {
    if run != [] {
      RunKeepsInv(Next(m, run[0]), run[1..]);
    }
  }

  // ---------- What can go wrong, and exactly when ----------

  /** Two reads in flight at once, or a close that finds a read or a write in flight. */
  datatype Harm = TwoReads | ReadAtClose | WriteAtClose

  predicate Harmed(m: Machine, h: Harm) {
    match h
    case TwoReads => m.readOps >= 2
    case ReadAtClose => m.f.close && m.readOps > 0
    case WriteAtClose => m.f.close && m.writeOps > 0
  }

  /** The branches after the user's callback that do it: run_read reads again although the callback
      called read(), or closes on that read; run_write closes on a write made in its callback. */
  predicate Causes(m: Machine, s: Step, h: Harm) {
    && s == Return
    && match h
       case TwoReads => m.ctx == InRead && m.f.reading && !m.f.stop
       case ReadAtClose => m.ctx == InRead && m.f.reading && m.f.stop && !m.f.writing
       case WriteAtClose => m.ctx == InWrite && m.f.stop && !m.f.reading && m.f.writing
  }

  /** Some state of the run is harmed. */
  predicate EverHarmed(m: Machine, run: seq<Step>, h: Harm)
    requires Legal(m, run)
    decreases |run|
  {
    Harmed(m, h) || (run != [] && EverHarmed(Next(m, run[0]), run[1..], h))
  }

  /** Some step of the run takes the branch. */
  predicate EverCauses(m: Machine, run: seq<Step>, h: Harm)
    requires Legal(m, run)
    decreases |run|
  {
    run != [] && (Causes(m, run[0], h) || EverCauses(Next(m, run[0]), run[1..], h))
  }

  /** The branch always does its harm. */
  lemma {:induction false} CauseHarms(m: Machine, run: seq<Step>, h: Harm)
    requires Inv(m) && Legal(m, run) && EverCauses(m, run, h)
    ensures EverHarmed(m, run, h)
    decreases |run|
  {
    var m' := Next(m, run[0]);
    if Causes(m, run[0], h) {
      assert Harmed(m', h);
      assert EverHarmed(m', run[1..], h);
    } else {
      CauseHarms(m', run[1..], h);
    }
  }

  lemma {:induction false} ReadsStayFlagged(m: Machine, run: seq<Step>)
    requires ReadsFlagged(m) && Legal(m, run)
    requires !EverCauses(m, run, TwoReads) && !EverCauses(m, run, ReadAtClose)
    ensures ReadsFlagged(Exec(m, run)) && !EverHarmed(m, run, TwoReads) && !EverHarmed(m, run, ReadAtClose)
    decreases |run|
  {
    if run != [] {
      ReadsStayFlagged(Next(m, run[0]), run[1..]);
    }
  }

  /** A close on a flagged read leaves no further read, so a second one needs its own branch. */
  lemma {:induction false} OneReadStays(m: Machine, run: seq<Step>)
    requires Inv(m) && Legal(m, run) && !EverCauses(m, run, TwoReads)
    requires if m.f.close then m.readOps <= 1 else m.readOps == Bit(m.f.reading)
    ensures !EverHarmed(m, run, TwoReads)
    decreases |run|
  {
    if run != [] {
      OneReadStays(Next(m, run[0]), run[1..]);
    }
  }

  lemma {:induction false} WritesStayDrained(m: Machine, run: seq<Step>)
    requires WritesDrained(m) && Legal(m, run) && !EverCauses(m, run, WriteAtClose)
    ensures WritesDrained(Exec(m, run)) && !EverHarmed(m, run, WriteAtClose)
    decreases |run|
  {
    if run != [] {
      WritesStayDrained(Next(m, run[0]), run[1..]);
    }
  }

  /** Over every run from start(): a second read gets in flight exactly when run_read reads again
      after a callback that called read() itself. */
  lemma SecondRead(run: seq<Step>)
    requires Legal(STARTED, run)
    ensures EverHarmed(STARTED, run, TwoReads) <==> EverCauses(STARTED, run, TwoReads)
  {
    if EverCauses(STARTED, run, TwoReads) {
      CauseHarms(STARTED, run, TwoReads);
    } else {
      OneReadStays(STARTED, run);
    }
  }

  /** Over every run: reads overlap or outlive the close exactly when run_read ends with the read
      flagged, unless a stopped stream still writes. */
  lemma ReadsDrain(run: seq<Step>)
    requires Legal(STARTED, run)
    ensures EverHarmed(STARTED, run, TwoReads) || EverHarmed(STARTED, run, ReadAtClose)
       <==> EverCauses(STARTED, run, TwoReads) || EverCauses(STARTED, run, ReadAtClose)
  {
    if EverCauses(STARTED, run, TwoReads) {
      CauseHarms(STARTED, run, TwoReads);
    } else if EverCauses(STARTED, run, ReadAtClose) {
      CauseHarms(STARTED, run, ReadAtClose);
    } else {
      ReadsStayFlagged(STARTED, run);
    }
  }

  /** Over every run: the close finds a write in flight exactly when run_write closes after a callback
      that left a write flagged. */
  lemma WritesDrain(run: seq<Step>)
    requires Legal(STARTED, run)
    ensures EverHarmed(STARTED, run, WriteAtClose) <==> EverCauses(STARTED, run, WriteAtClose)
  {
    if EverCauses(STARTED, run, WriteAtClose) {
      CauseHarms(STARTED, run, WriteAtClose);
    } else {
      WritesStayDrained(STARTED, run);
    }
  }

  /** How many reads the flag does not know of: one more each time run_read reads again over a read
      of the callback, one less with each completion that finds the flag down. */
  function Unflagged(m: Machine, run: seq<Step>): int
    requires Legal(m, run)
    decreases |run|
  {
    if run == [] then 0
    else
      Bit(Causes(m, run[0], TwoReads)) - Bit(run[0].ReadDone? && !m.f.reading) + Unflagged(Next(m, run[0]), run[1..])
  }

  lemma StepCounted(m: Machine, s: Step)
    requires Inv(m) && Enabled(m, s) && !m.f.close && !Next(m, s).f.close
    ensures Next(m, s).readOps - Bit(Next(m, s).f.reading)
         == m.readOps - Bit(m.f.reading) + Bit(Causes(m, s, TwoReads)) - Bit(s.ReadDone? && !m.f.reading)
  {
  }

  lemma {:induction false} CloseStays(m: Machine, run: seq<Step>)
    requires m.f.close && Legal(m, run)
    ensures Exec(m, run).f.close
    decreases |run|
  {
    if run != [] {
      CloseStays(Next(m, run[0]), run[1..]);
    }
  }

  /** The exact number of reads of an open stream, over every run. */
  lemma {:induction false} ReadsCounted(m: Machine, run: seq<Step>)
    requires Inv(m) && Legal(m, run) && !Exec(m, run).f.close
    ensures !m.f.close
    ensures Exec(m, run).readOps - Bit(Exec(m, run).f.reading) == m.readOps - Bit(m.f.reading) + Unflagged(m, run)
    decreases |run|
  {
    if m.f.close {
      CloseStays(m, run);
    } else if run != [] {
      var m' := Next(m, run[0]);
      RunKeepsInv(m, [run[0]]);
      ReadsCounted(m', run[1..]);
      StepCounted(m, run[0]);
    }
  }

  /** The step that closes finds a read in flight exactly when the flag is up or does not know of one.
      With ReadsCounted this tells it of every run, overlapping reads included. */
  lemma CloseFindsRead(run: seq<Step>, s: Step)
    requires Legal(STARTED, run) && Enabled(Exec(STARTED, run), s)
    requires !Exec(STARTED, run).f.close && Next(Exec(STARTED, run), s).f.close
    ensures Harmed(Next(Exec(STARTED, run), s), ReadAtClose)
       <==> Exec(STARTED, run).f.reading || Unflagged(STARTED, run) > 0
  {
    RunKeepsInv(STARTED, run);
    ReadsCounted(STARTED, run);
  }

  /** Drain safety over every run from start(): a close only after a stop and with one evClose posted;
      stopped, open and outside its callbacks the stream still has an operation out; and if no
      harmful branch was taken the close found nothing in flight. */
  lemma DrainSafety(run: seq<Step>)
    requires Legal(STARTED, run)
    ensures var m := Exec(STARTED, run);
      && (m.f.close ==> m.f.stop)
      && m.posted == Bit(m.f.close)
      && (m.ctx == Idle && m.f.stop && !m.f.close ==> m.readOps + m.writeOps >= 1)
      && (!EverCauses(STARTED, run, TwoReads) && !EverCauses(STARTED, run, ReadAtClose)
          ==> m.readOps == Bit(m.f.reading) && (m.f.close ==> m.readOps == 0))
      && (!EverCauses(STARTED, run, WriteAtClose) && m.f.close ==> m.writeOps == 0)
  {
    RunKeepsInv(STARTED, run);
    if !EverCauses(STARTED, run, TwoReads) && !EverCauses(STARTED, run, ReadAtClose) {
      ReadsStayFlagged(STARTED, run);
    }
    if !EverCauses(STARTED, run, WriteAtClose) {
      WritesStayDrained(STARTED, run);
    }
  }

  // ---------- Who avoids the harm ----------

  /** A stream that reads: read() was called and the library keeps reading until the stop. */
  ghost predicate KeepsReading(m: Machine) {
    && Inv(m)
    && (!m.f.stop && (m.ctx == Idle || m.ctx == InWrite) ==> m.f.reading)
    && (m.ctx == InWrite && m.f.stop && !m.f.reading ==> !m.f.writing)
  }

  /** Without a further read() no read overlaps another or outlives the close. */
  lemma {:induction false} OneReadCall(m: Machine, run: seq<Step>)
    requires Legal(m, run) && ReadCall !in run
    requires m.ctx == InAlloc || m.ctx == InRead ==> !m.f.reading
    ensures !EverCauses(m, run, TwoReads) && !EverCauses(m, run, ReadAtClose)
    decreases |run|
  {
    if run != [] {
      OneReadCall(Next(m, run[0]), run[1..]);
    }
  }

  /** A stream that reads and is not written to after its stop closes with no write in flight. */
  lemma {:induction false} NoWriteAfterStop(m: Machine, run: seq<Step>)
    requires KeepsReading(m) && Legal(m, run)
    requires forall i :: 0 <= i < |run| && run[i] == WriteCall ==> Legal(m, run[..i]) && !Exec(m, run[..i]).f.stop
    ensures !EverCauses(m, run, WriteAtClose)
    decreases |run|
  {
    if run != [] {
      assert run[..0] == [];
      var m' := Next(m, run[0]);
      forall i | 0 <= i < |run[1..]| && run[1..][i] == WriteCall
        ensures Legal(m', run[1..][..i]) && !Exec(m', run[1..][..i]).f.stop
      {
        assert run[i + 1] == WriteCall;
        assert run[..i + 1][1..] == run[1..][..i] && run[..i + 1][0] == run[0];
      }
      NoWriteAfterStop(m', run[1..]);
    }
  }

  /** With one read() at the start and no write after the stop, a close finds nothing in flight. */
  lemma OneReadDrains(run: seq<Step>)
    requires Legal(READING, run) && ReadCall !in run
    requires forall i :: 0 <= i < |run| && run[i] == WriteCall ==>
               Legal(READING, run[..i]) && !Exec(READING, run[..i]).f.stop
    ensures var m := Exec(READING, run);
      && m.posted == Bit(m.f.close)
      && (m.f.close ==> m.f.stop && !m.f.reading && m.readOps == 0 && m.writeOps == 0)
  {
    OneReadCall(READING, run);
    NoWriteAfterStop(READING, run);
    ReadsStayFlagged(READING, run);
    WritesStayDrained(READING, run);
  }

  /** Until it is stopped a stream that read() was called for always has a read out, outside the callbacks
      of the read itself. */
  lemma ReadsUntilStopped(run: seq<Step>)
    requires Legal(READING, run)
    ensures var m := Exec(READING, run);
      !m.f.stop && (m.ctx == Idle || m.ctx == InWrite) ==> m.f.reading && m.readOps >= 1
  {
    StaysReading(READING, run);
  }

  lemma {:induction false} StaysReading(m: Machine, run: seq<Step>)
    requires Inv(m) && Legal(m, run) && (!m.f.stop && (m.ctx == Idle || m.ctx == InWrite) ==> m.f.reading)
    ensures var m' := Exec(m, run);
      Inv(m') && (!m'.f.stop && (m'.ctx == Idle || m'.ctx == InWrite) ==> m'.f.reading)
    decreases |run|
  {
    if run != [] {
      StaysReading(Next(m, run[0]), run[1..]);
    }
  }

  // ---------- Witnesses ----------

  /** A read() inside the read callback passes the panic guard and leaves two reads in flight. */
  lemma SecondReadDoubles()
    ensures Legal(READING, [ReadDone(false), ReadCall, Return])
    ensures Exec(READING, [ReadDone(false), ReadCall, Return]).readOps == 2
  {
    var m1 := Next(READING, ReadDone(false));
    var m2 := Next(m1, ReadCall);
    Chain(m2, Return, []);
    Chain(m1, ReadCall, [Return]);
    Chain(READING, ReadDone(false), [ReadCall, Return]);
  }

  /** With a stop() after it the stream closes on that read. */
  lemma ReadInFlightAtClose(m: Machine)
    requires m == READING
    ensures var run := [ReadDone(false), ReadCall] + [StopCall, Return];
      Legal(m, run) && Exec(m, run).f.close && Exec(m, run).readOps == 1
  {
    ExecPair(m, ReadDone(false), ReadCall);
    ExecPair(Next(Next(m, ReadDone(false)), ReadCall), StopCall, Return);
    ExecAppend(m, [ReadDone(false), ReadCall], [StopCall, Return]);
  }

  lemma ExecPair(m: Machine, s: Step, t: Step)
    requires Enabled(m, s) && Enabled(Next(m, s), t)
    ensures Legal(m, [s, t]) && Exec(m, [s, t]) == Next(Next(m, s), t)
  {
    assert [s, t][1..] == [t] && [t][1..] == [];
    assert Exec(Next(m, s), [t]) == Next(Next(m, s), t);
  }

  /** A stream that only writes: a write() and the stop() in the write callback, and the stream closes
      with that write in flight. */
  lemma WriteInFlightAtClose(m: Machine)
    requires m == STARTED
    ensures var run := [WriteCall, WriteDone] + ([WriteCall, StopCall] + [Return]);
      Legal(m, run) && Exec(m, run).f.close && Exec(m, run).writeOps == 1
  {
    ExecPair(m, WriteCall, WriteDone);
    var n := Next(Next(m, WriteCall), WriteDone);
    ExecPair(n, WriteCall, StopCall);
    var k := Next(Next(n, WriteCall), StopCall);
    Chain(k, Return, []);
    ExecAppend(n, [WriteCall, StopCall], [Return]);
    ExecAppend(m, [WriteCall, WriteDone], [WriteCall, StopCall] + [Return]);
  }

  // ---------- The read callback after the close ----------

  /** A stop() that closes at once. */
  predicate ClosingStop(m: Machine, s: Step) {
    s == StopCall && !m.f.stop && !m.f.writing && !m.f.reading
  }

  predicate EverStopsClosing(m: Machine, run: seq<Step>)
    requires Legal(m, run)
    decreases |run|
  {
    run != [] && (ClosingStop(m, run[0]) || EverStopsClosing(Next(m, run[0]), run[1..]))
  }

  predicate Calls(run: seq<Step>) {
    forall s :: s in run ==> s in {ReadCall, WriteCall, StopCall}
  }

  /** A stop() that finds an operation flagged closes nothing, and a read() in the callback stays
      flagged until it ends. */
  lemma {:induction false} CallsClose(m: Machine, run: seq<Step>)
    requires Inv(m) && !m.f.close && Calls(run) && Legal(m, run)
    ensures Exec(m, run).ctx == m.ctx && Inv(Exec(m, run))
    ensures Exec(m, run).f.close <==> EverStopsClosing(m, run)
    decreases |run|
  {
    if run != [] {
      assert run[0] in run && forall s :: s in run[1..] ==> s in run;
      if Next(m, run[0]).f.close {
        CallsStayClosed(Next(m, run[0]), run[1..]);
      } else {
        CallsClose(Next(m, run[0]), run[1..]);
      }
    }
  }

  lemma {:induction false} CallsStayClosed(m: Machine, run: seq<Step>)
    requires Inv(m) && m.f.close && Calls(run) && Legal(m, run)
    ensures Exec(m, run).ctx == m.ctx && Exec(m, run).f.close && Inv(Exec(m, run))
    decreases |run|
  {
    if run != [] {
      assert run[0] in run && forall s :: s in run[1..] ==> s in run;
      CallsStayClosed(Next(m, run[0]), run[1..]);
    }
  }

  /** The read callback of a closed stream, over every run: it is called exactly when the alloc
      callback before it made the first stop(), with no write out and no read() of its own before. */
  lemma ReadCallbackAfterClose(pre: seq<Step>, calls: seq<Step>)
    requires Legal(STARTED, pre) && Enabled(Exec(STARTED, pre), ReadDone(true)) && !Exec(STARTED, pre).f.close
    requires var m := Next(Exec(STARTED, pre), ReadDone(true)); Calls(calls) && Legal(m, calls)
    ensures var m := Next(Exec(STARTED, pre), ReadDone(true));
      && Enabled(Exec(m, calls), AllocReturn)
      && Next(Exec(m, calls), AllocReturn).ctx == InRead
      && (Next(Exec(m, calls), AllocReturn).f.close <==> EverStopsClosing(m, calls))
  {
    RunKeepsInv(STARTED, pre);
    CallsClose(Next(Exec(STARTED, pre), ReadDone(true)), calls);
  }

  // ---------- Progress ----------

  function Completions(run: seq<Step>): nat {
    if run == [] then 0 else Bit(run[0].ReadDone? || run[0].WriteDone?) + Completions(run[1..])
  }

  /** Operations the calls of a run submit once the stream is stopped: every accepted read() and
      every accepted write(). */
  function Accepted(m: Machine, run: seq<Step>): nat
    requires Legal(m, run)
    decreases |run|
  {
    if run == [] then 0
    else Bit(run[0] == ReadCall || (run[0] == WriteCall && !m.f.writing)) + Accepted(Next(m, run[0]), run[1..])
  }

  /** After a stop the library itself submits nothing: operations out plus completions make up what
      was out plus what the calls submitted. */
  lemma {:induction false} StoppedCounts(m: Machine, run: seq<Step>)
    requires Inv(m) && m.f.stop && Legal(m, run)
    ensures Exec(m, run).readOps + Exec(m, run).writeOps + Completions(run)
         == m.readOps + m.writeOps + Accepted(m, run)
    decreases |run|
  {
    if run != [] {
      StoppedCounts(Next(m, run[0]), run[1..]);
    }
  }

  predicate Harmless(m: Machine, run: seq<Step>)
    requires Legal(m, run)
  {
    && !EverCauses(m, run, TwoReads)
    && !EverCauses(m, run, ReadAtClose)
    && !EverCauses(m, run, WriteAtClose)
  }

  /** Progress over every run from start(): take any point at which the stream is stopped and go on
      in any way. Stopped and open, an operation is out that will bring the close; each completion
      takes one off. As long as no harmful branch was taken there were at most two, and the stream is
      closed outside its callbacks exactly when everything that was out and everything its calls
      submitted has completed. */
  lemma DrainCompletes(pre: seq<Step>, run: seq<Step>)
    requires Legal(STARTED, pre) && Exec(STARTED, pre).f.stop && Legal(Exec(STARTED, pre), run)
    ensures var m, m' := Exec(STARTED, pre), Exec(Exec(STARTED, pre), run);
      && (m.ctx == Idle && !m.f.close ==> m.readOps + m.writeOps >= 1)
      && m'.readOps + m'.writeOps + Completions(run) == m.readOps + m.writeOps + Accepted(m, run)
      && (Harmless(STARTED, pre) && Harmless(m, run) ==>
            && m.readOps + m.writeOps <= 2
            && (m'.ctx == Idle ==>
                  (m'.f.close <==> Completions(run) == m.readOps + m.writeOps + Accepted(m, run))))
  {
    DrainSafety(pre);
    RunKeepsInv(STARTED, pre);
    var m := Exec(STARTED, pre);
    StoppedCounts(m, run);
    RunKeepsInv(m, run);
    if Harmless(STARTED, pre) && Harmless(m, run) {
      ReadsStayFlagged(STARTED, pre);
      WritesStayDrained(STARTED, pre);
      ReadsStayFlagged(m, run);
      WritesStayDrained(m, run);
    }
  }

  /** The first stop() cancels the read out exactly when there is one and no write is out, and nothing
      is ever cancelled afterwards. With both out it leaves the read alone: until a read completes by
      itself the stream stays open, whatever else happens. */
  lemma StopCancelsExactly(m: Machine, run: seq<Step>)
    requires Inv(m) && !m.f.stop && Legal(m, [StopCall] + run)
    ensures Exec(m, [StopCall] + run).cancels == m.cancels + Bit(m.f.reading && !m.f.writing)
    ensures m.f.writing && m.f.reading && (forall b :: ReadDone(b) !in run) ==> !Exec(m, [StopCall] + run).f.close
  {
    assert ([StopCall] + run)[1..] == run;
    StoppedCancelsNothing(Next(m, StopCall), run);
  }

  /** stop() with read and write out: no cancel, and the stream waits for both. */
  lemma StopDuringWrite()
    ensures Legal(READING, [WriteCall, StopCall])
    ensures var m := Exec(READING, [WriteCall, StopCall]);
      m.cancels == 0 && m.f.stop && m.f.reading && !m.f.close && m.readOps == 1 && m.writeOps == 1
  {
    ExecPair(READING, WriteCall, StopCall);
  }

  lemma {:induction false} StoppedCancelsNothing(m: Machine, run: seq<Step>)
    requires Inv(m) && m.f.stop && Legal(m, run)
    ensures Exec(m, run).cancels == m.cancels
    ensures (forall b :: ReadDone(b) !in run) && m.f.reading && !m.f.close
            && (m.ctx == InAlloc || m.ctx == InRead ==> m.f.writing)
            ==> !Exec(m, run).f.close
    decreases |run|
  {
    if run != [] {
      StoppedCancelsNothing(Next(m, run[0]), run[1..]);
    }
  }
}
