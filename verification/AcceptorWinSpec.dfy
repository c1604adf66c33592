/** The Windows acceptor: any number of accept slots, completing later, at once (recursively) or
    not at all. Transitions on values. */
module AcceptorWinSpec {

  /** How AcceptEx answers: the operation is pending, succeeded on the spot, or failed with code `e`. */
  datatype Outcome = Pending | Immediate | Fails(e: nat)

  /** One AcceptEx call, and whether the evConn it leads to on the spot calls stop(). */
  datatype Choice = Choice(outcome: Outcome, stops: bool)

  /** A refused AcceptEx, too, calls evConn: with its error. */
  datatype Event = Submit(op: nat) | Conn(op: nat) | Refused(op: nat) | Stopped | Cancel(op: nat) | Closed

  /** `doing` holds the slots' doing_ flags, `posted` the evClose tasks, `log` what was observed. */
  datatype Acc = Acc(doing: seq<bool>, stop: bool, close: bool, posted: nat, log: seq<Event>)

  function Log(w: Acc, e: Event): Acc {
    w.(log := w.log + [e])
  }

  predicate Any(doing: seq<bool>) {
    exists i :: 0 <= i < |doing| && doing[i]
  }

  function Count(doing: seq<bool>): nat {
    if doing == [] then 0 else Count(doing[..|doing| - 1]) + (if doing[|doing| - 1] then 1 else 0)
  }

  function PostClose(w: Acc): Acc {
    if w.close then w else Log(w.(close := true, posted := w.posted + 1), Closed)
  }

  /** One CancelIoEx per busy slot, in slot order. */
  function Cancels(doing: seq<bool>): seq<Event> {
    if doing == [] then [] else
      Cancels(doing[..|doing| - 1]) + (if doing[|doing| - 1] then [Cancel(|doing| - 1)] else [])
  }

  function Stop(w: Acc): Acc {
    if w.stop then w
    else
      var v := Log(w.(stop := true), Stopped);
      if Any(w.doing) then v.(log := v.log + Cancels(w.doing)) else PostClose(v)
  }

  /** The user's evConn, which may call stop(). */
  function Callback(w: Acc, e: Event, stops: bool): Acc {
    if stops then Stop(Log(w, e)) else Log(w, e)
  }

  /** post_acceptor; `env` answers the AcceptEx calls in turn, and Pending once it is used up. */
  function Post(w: Acc, op: nat, env: seq<Choice>): (Acc, seq<Choice>, int)
    requires op < |w.doing|
    ensures |Post(w, op, env).0.doing| == |w.doing| && |Post(w, op, env).1| <= |env|
    decreases |env|, 0
  {
    if w.stop then (w, env, 0)
    else
      var v := Log(w.(doing := w.doing[op := true]), Submit(op));
      if env == [] || env[0].outcome.Pending? then (v, if env == [] then [] else env[1..], 1)
      else if env[0].outcome.Fails? then
        var res: int := env[0].outcome.e;
        (Callback(v.(doing := v.doing[op := false]), Refused(op), env[0].stops), env[1..], -res)
      else
        var (u, rest) := Run(v, op, env[0].stops, env[1..]);
        (u, rest, 1)
  }

  /** run(): the completion of slot `op`, whose evConn calls stop() or not. */
  function Run(w: Acc, op: nat, stops: bool, env: seq<Choice>): (Acc, seq<Choice>)
    requires op < |w.doing|
    ensures |Run(w, op, stops, env).0.doing| == |w.doing| && |Run(w, op, stops, env).1| <= |env|
    decreases |env|, 1
  {
    var v := Callback(w.(doing := w.doing[op := false]), Conn(op), stops);
    if v.stop then (if Any(v.doing) then v else PostClose(v), env)
    else
      var (u, rest, _) := Post(v, op, env);
      (u, rest)
  }

  /** The posting loop of start(), from slot `i`. */
  function PostAll(w: Acc, i: nat, env: seq<Choice>, last: int): (Acc, seq<Choice>, int)
    requires i <= |w.doing|
    ensures |PostAll(w, i, env, last).0.doing| == |w.doing|
    decreases |w.doing| - i
  {
    if i == |w.doing| then (w, env, last)
    else
      var (v, rest, r) := Post(w, i, env);
      if r <= 0 then (v, rest, r) else PostAll(v, i + 1, rest, r)
  }

  // ---------- What holds whenever no frame of the acceptor is on the stack ----------

  function Bit(b: bool): nat {
    if b then 1 else 0
  }

  /** Holds even inside the callbacks. */
  ghost predicate Safe(w: Acc) {
    && (w.close ==> w.stop && !Any(w.doing))
    && w.posted == Bit(w.close)
    && (w.stop <==> Stopped in w.log)
    && (forall i, j :: 0 <= i < j < |w.log| && w.log[i].Stopped? ==> !w.log[j].Submit?)
    && (forall i :: 0 <= i < |w.log| && w.log[i].Closed? ==> i == |w.log| - 1)
    && (w.close <==> Closed in w.log)
  }

  ghost predicate AtRest(w: Acc) {
    Safe(w) && (w.stop && !Any(w.doing) ==> w.close)
  }

  lemma LogSafe(w: Acc, e: Event)
    requires Safe(w) && !w.close && !e.Stopped? && !e.Closed? && (e.Submit? ==> !w.stop)
    ensures Safe(Log(w, e))
  {
  }

  lemma PostCloseSafe(w: Acc)
    requires Safe(w) && w.stop && !Any(w.doing)
    ensures AtRest(PostClose(w))
  {
  }

  lemma {:induction false} CancelsOnly(doing: seq<bool>)
    ensures forall e :: e in Cancels(doing) ==> e.Cancel?
    decreases |doing|
  {
    if doing != [] {
      CancelsOnly(doing[..|doing| - 1]);
    }
  }

  lemma StopSafe(w: Acc)
    requires Safe(w) && (w.stop ==> !Any(w.doing) ==> w.close)
    ensures AtRest(Stop(w)) && Stop(w).stop && Stop(w).doing == w.doing
  {
    if !w.stop {
      var v := Log(w.(stop := true), Stopped);
      assert Safe(v);
      if Any(w.doing) {
        CancelsOnly(w.doing);
        AppendSafe(v, Cancels(w.doing));
      } else {
        PostCloseSafe(v);
      }
    }
  }

  lemma AppendSafe(w: Acc, es: seq<Event>)
    requires Safe(w) && !w.close && forall e :: e in es ==> e.Cancel?
    ensures Safe(w.(log := w.log + es))
  {
    var l := w.log + es;
    assert forall i :: |w.log| <= i < |l| ==> l[i] in es;
    assert forall e :: e in l <==> e in w.log || e in es;
  }

  lemma CallbackSafe(w: Acc, e: Event, stops: bool)
    requires Safe(w) && !w.close && (e.Conn? || e.Refused?)
    ensures Safe(Callback(w, e, stops)) && Callback(w, e, stops).doing == w.doing
    ensures w.stop ==> Callback(w, e, stops) == Log(w, e)
    ensures !w.stop ==> AtRest(Callback(w, e, stops)) && (Callback(w, e, stops).stop <==> stops)
  {
    LogSafe(w, e);
    if stops && !w.stop {
      StopSafe(Log(w, e));
    }
  }

  /** Whatever AcceptEx answers and the callbacks do: only slot `op` changes, and the acceptor is
      at rest again when the call returns. */
  lemma {:induction false} PostSafe(w: Acc, op: nat, env: seq<Choice>)
    requires AtRest(w) && op < |w.doing| && !w.doing[op]
    ensures var w' := Post(w, op, env).0;
      && AtRest(w') && w'.doing == w.doing[op := w'.doing[op]]
      && (w.stop ==> w' == w)
    decreases |env|, 0
  {
    if !w.stop {
      var v := Log(w.(doing := w.doing[op := true]), Submit(op));
      LogSafe(w.(doing := w.doing[op := true]), Submit(op));
      if env == [] || env[0].outcome.Pending? {
      } else if env[0].outcome.Fails? {
        assert v.doing[op := false] == w.doing;
        CallbackSafe(v.(doing := v.doing[op := false]), Refused(op), env[0].stops);
      } else {
        RunSafe(v, op, env[0].stops, env[1..]);
      }
    }
  }

  /** After a stop the completion just frees its slot; nothing is submitted again. */
  lemma {:induction false} RunSafe(w: Acc, op: nat, stops: bool, env: seq<Choice>)
    requires AtRest(w) && op < |w.doing| && w.doing[op]
    ensures var w' := Run(w, op, stops, env).0;
      && AtRest(w') && w'.doing == w.doing[op := w'.doing[op]]
      && (w.stop ==> w'.stop && !w'.doing[op])
    decreases |env|, 1
  {
    assert Any(w.doing);
    var u := w.(doing := w.doing[op := false]);
    CallbackSafe(u, Conn(op), stops);
    var v := Callback(u, Conn(op), stops);
    if v.stop {
      if !Any(v.doing) {
        PostCloseSafe(v);
      }
    } else {
      PostSafe(v, op, env);
    }
  }

  lemma {:induction false} PostAllSafe(w: Acc, i: nat, env: seq<Choice>, last: int)
    requires AtRest(w) && i <= |w.doing| && forall j :: i <= j < |w.doing| ==> !w.doing[j]
    ensures AtRest(PostAll(w, i, env, last).0)
    decreases |w.doing| - i
  {
    if i < |w.doing| {
      PostSafe(w, i, env);
      var (v, rest, r) := Post(w, i, env);
      if r > 0 {
        PostAllSafe(v, i + 1, rest, r);
      }
    }
  }

  // ---------- Whole runs ----------

  datatype Step = Complete(op: nat, stops: bool, env: seq<Choice>) | StopCall

  predicate Enabled(w: Acc, s: Step) {
    s.Complete? ==> s.op < |w.doing| && w.doing[s.op]
  }

  function Next(w: Acc, s: Step): Acc
    requires Enabled(w, s)
  {
    match s
    case Complete(op, stops, env) => Run(w, op, stops, env).0
    case StopCall => Stop(w)
  }

  predicate Legal(w: Acc, run: seq<Step>)
    decreases |run|
  {
    run == [] || (Enabled(w, run[0]) && Legal(Next(w, run[0]), run[1..]))
  }

  function Exec(w: Acc, run: seq<Step>): Acc
    requires Legal(w, run)
    decreases |run|
  {
    if run == [] then w else Exec(Next(w, run[0]), run[1..])
  }

  /** A started acceptor with `n` slots. */
  function Started(n: nat, env: seq<Choice>): Acc {
    PostAll(Acc(seq(n, _ => false), false, false, 0, []), 0, env, 1).0
  }

  lemma {:induction false} RunKeepsRest(w: Acc, run: seq<Step>)
    requires AtRest(w) && Legal(w, run)
    ensures AtRest(Exec(w, run))
    decreases |run|
  {
    if run != [] {
      match run[0] {
        case Complete(op, stops, env) => RunSafe(w, op, stops, env);
        case StopCall => StopSafe(w);
      }
      RunKeepsRest(Next(w, run[0]), run[1..]);
    }
  }

  /** For any number of slots and any mix of answers: closed means no slot is busy, nothing was
      submitted after the stop, evClose is posted at most once and is the very last event, and it
      has been posted once the stop is in and no accept is outstanding. */
  lemma DrainSafety(n: nat, env: seq<Choice>, run: seq<Step>)
    requires Legal(Started(n, env), run)
    ensures var w := Exec(Started(n, env), run);
      && (w.close ==> w.stop && forall i :: 0 <= i < |w.doing| ==> !w.doing[i])
      && w.posted == Bit(w.close)
      && (w.close <==> w.stop && !Any(w.doing))
      && (forall i, j :: 0 <= i < j < |w.log| && w.log[i].Stopped? ==> !w.log[j].Submit?)
      && (w.close ==> |w.log| > 0 && w.log[|w.log| - 1].Closed?)
  {
    var w0 := Acc(seq(n, _ => false), false, false, 0, []);
    assert AtRest(w0);
    PostAllSafe(w0, 0, env, 1);
    RunKeepsRest(Started(n, env), run);
    var w := Exec(Started(n, env), run);
    if w.close {
      var i :| 0 <= i < |w.log| && w.log[i] == Closed;
      assert w.log[i].Closed?;
    }
  }

  lemma {:induction false} CountFrees(doing: seq<bool>, op: nat)
    requires op < |doing| && doing[op]
    ensures Count(doing) == Count(doing[op := false]) + 1
    decreases |doing|
  {
    var n := |doing| - 1;
    if op < n {
      CountFrees(doing[..n], op);
      assert doing[op := false][..n] == doing[..n][op := false];
    } else {
      assert doing[op := false][..n] == doing[..n];
    }
  }

  lemma {:induction false} CountAny(doing: seq<bool>)
    ensures Any(doing) <==> Count(doing) > 0
    decreases |doing|
  {
    if doing != [] {
      var n := |doing| - 1;
      CountAny(doing[..n]);
      if Any(doing[..n]) {
        var i :| 0 <= i < n && doing[..n][i];
        assert doing[i];
      }
      if Any(doing) && !doing[n] {
        var i :| 0 <= i < |doing| && doing[i];
        assert doing[..n][i];
      }
    }
  }

  function Completions(run: seq<Step>): nat {
    if run == [] then 0 else Bit(run[0].Complete?) + Completions(run[1..])
  }

  /** After the stop every completion lowers the number of busy slots by exactly one, and the close
      comes with the last of them. */
  lemma {:induction false} DrainCompletes(w: Acc, run: seq<Step>)
    requires AtRest(w) && w.stop && Legal(w, run)
    ensures Count(Exec(w, run).doing) + Completions(run) == Count(w.doing)
    ensures Exec(w, run).close <==> Completions(run) == Count(w.doing)
    decreases |run|
  {
    RunKeepsRest(w, run);
    CountAny(Exec(w, run).doing);
    if run != [] {
      var w' := Next(w, run[0]);
      match run[0] {
        case Complete(op, stops, env) =>
          RunSafe(w, op, stops, env);
          CountFrees(w.doing, op);
        case StopCall =>
          StopSafe(w);
      }
      DrainCompletes(w', run[1..]);
    }
  }

  // ---------- Who is cancelled ----------

  lemma {:induction false} CancelsBusy(doing: seq<bool>, i: nat)
    ensures multiset(Cancels(doing))[Cancel(i)] == Bit(i < |doing| && doing[i])
    decreases |doing|
  {
    if doing != [] {
      CancelsBusy(doing[..|doing| - 1], i);
    }
  }

  /** The first stop() makes one CancelIoEx for each busy slot and for no other, and closes if there is
      none; a later one does nothing. */
  lemma StopCancelsExactly(w: Acc)
    ensures w.stop ==> Stop(w) == w
    ensures !w.stop ==>
              && Stop(w).stop && Stop(w).doing == w.doing && w.log + [Stopped] <= Stop(w).log
              && var more := Stop(w).log[|w.log| + 1..];
                 && (forall i: nat :: multiset(more)[Cancel(i)] == Bit(i < |w.doing| && w.doing[i]))
                 && (forall e :: e in more ==> e.Cancel? || e.Closed?)
                 && (Any(w.doing) ==> Closed !in more)
  {
    if !w.stop {
      CancelsOnly(w.doing);
      var v := Log(w.(stop := true), Stopped);
      assert v.log == w.log + [Stopped];
      var more := Stop(w).log[|w.log| + 1..];
      assert more == if Any(w.doing) then Cancels(w.doing) else if w.close then [] else [Closed];
      forall i: nat
        ensures multiset(more)[Cancel(i)] == Bit(i < |w.doing| && w.doing[i])
      {
        CancelsBusy(w.doing, i);
      }
    }
  }

  // ---------- A running acceptor keeps accepting ----------

  /** The last thing that happened to slot `op`: it was submitted, accepted a client, was refused, or
      nothing yet. */
  datatype Last = Never | Last(e: Event)

  predicate Concerns(e: Event, op: nat) {
    e == Submit(op) || e == Conn(op) || e == Refused(op)
  }

  function LastOf(log: seq<Event>, op: nat): Last {
    if log == [] then Never
    else if Concerns(log[|log| - 1], op) then Last(log[|log| - 1])
    else LastOf(log[..|log| - 1], op)
  }

  /** A slot is busy exactly when its last event is its AcceptEx. */
  ghost predicate SlotLaw(w: Acc) {
    forall op :: 0 <= op < |w.doing| ==> (w.doing[op] <==> LastOf(w.log, op) == Last(Submit(op)))
  }

  /** Each client accepted before any stop is followed at once by the next AcceptEx of that slot, or by the
      stop its evConn makes; `last` leaves out a client accepted just now. */
  ghost predicate Followed(log: seq<Event>, last: bool) {
    forall i :: 0 <= i < |log| && log[i].Conn? && Stopped !in log[..i] && (last ==> i < |log| - 1) ==>
      i + 1 < |log| && (log[i + 1] == Submit(log[i].op) || log[i + 1] == Stopped)
  }

  lemma LastAppend(log: seq<Event>, e: Event, op: nat)
    ensures LastOf(log + [e], op) == if Concerns(e, op) then Last(e) else LastOf(log, op)
  {
    assert (log + [e])[..|log|] == log;
  }

  lemma {:induction false} LastAppendAll(log: seq<Event>, es: seq<Event>, op: nat)
    requires forall e :: e in es ==> !Concerns(e, op)
    ensures LastOf(log + es, op) == LastOf(log, op)
    decreases |es|
  {
    if es == [] {
      assert log + es == log;
    } else {
      var init := es[..|es| - 1];
      LastAppendAll(log, init, op);
      assert log + es == (log + init) + [es[|es| - 1]];
      LastAppend(log + init, es[|es| - 1], op);
    }
  }

  lemma FollowedAppend(log: seq<Event>, es: seq<Event>)
    requires Followed(log, false) && forall e :: e in es ==> !e.Conn?
    ensures Followed(log + es, false)
  {
    var l := log + es;
    assert forall k :: 0 <= k < |es| ==> es[k] in es;
    assert forall i :: |log| <= i < |l| ==> l[i] == es[i - |log|];
    forall i | 0 <= i < |l| && l[i].Conn? && Stopped !in l[..i]
      ensures i + 1 < |l| && (l[i + 1] == Submit(l[i].op) || l[i + 1] == Stopped)
    {
      assert i < |log|;
      assert l[..i] == log[..i];
    }
  }

  /** The Submit or the Stopped that follows a client. */
  lemma FollowedNext(log: seq<Event>, e: Event)
    requires Followed(log, true) && log != [] && log[|log| - 1].Conn?
    requires e == Submit(log[|log| - 1].op) || e == Stopped
    ensures Followed(log + [e], false)
  {
    forall i | 0 <= i < |log + [e]| && (log + [e])[i].Conn? && Stopped !in (log + [e])[..i]
      ensures i + 1 < |log + [e]|
      ensures (log + [e])[i + 1] == Submit((log + [e])[i].op) || (log + [e])[i + 1] == Stopped
    {
      assert i < |log| && (log + [e])[..i] == log[..i];
    }
  }

  lemma ConnAppend(log: seq<Event>, op: nat)
    requires Followed(log, false)
    ensures Followed(log + [Conn(op)], true)
    ensures Stopped in log ==> Followed(log + [Conn(op)], false)
  {
    var l := log + [Conn(op)];
    forall i | 0 <= i < |log| && l[i].Conn? && Stopped !in l[..i]
      ensures i + 1 < |log| && (l[i + 1] == Submit(l[i].op) || l[i + 1] == Stopped)
    {
      assert l[..i] == log[..i] && l[i] == log[i];
    }
    assert l[..|log|] == log;
  }

  /** At rest all clients are followed up; between evConn and the next AcceptEx all but the last. */
  ghost predicate Keeps(w: Acc, last: bool) {
    && SlotLaw(w) && Followed(w.log, last)
    && (w.stop <==> Stopped in w.log)
    && (last ==> !w.stop && w.log != [] && w.log[|w.log| - 1].Conn?)
  }

  /** Events that concern no slot. */
  lemma SlotsUntouched(w: Acc, w': Acc, es: seq<Event>)
    requires SlotLaw(w) && w'.doing == w.doing && w'.log == w.log + es
    requires forall e :: e in es ==> e.Cancel? || e.Closed? || e.Stopped?
    ensures SlotLaw(w')
  {
    forall op | 0 <= op < |w.doing|
      ensures LastOf(w'.log, op) == LastOf(w.log, op)
    {
      LastAppendAll(w.log, es, op);
    }
  }

  lemma StopFollows(w: Acc, es: seq<Event>, last: bool)
    requires Keeps(w, last) && forall e :: e in es ==> e.Cancel? || e.Closed?
    ensures Followed(w.log + [Stopped] + es, false)
  {
    if last {
      FollowedNext(w.log, Stopped);
    } else {
      FollowedAppend(w.log, [Stopped]);
    }
    FollowedAppend(w.log + [Stopped], es);
  }

  lemma StopKeeps(w: Acc, last: bool)
    requires Keeps(w, last)
    ensures Keeps(Stop(w), last && w.stop)
  {
    StopCancelsExactly(w);
    if !w.stop {
      var more := Stop(w).log[|w.log| + 1..];
      assert Stop(w).log == w.log + [Stopped] + more;
      StopFollows(w, more, last);
      assert w.log + [Stopped] + more == w.log + ([Stopped] + more);
      SlotsUntouched(w, Stop(w), [Stopped] + more);
      assert Stop(w).log[|w.log|] == Stopped;
    }
  }

  /** Slot `op` gets the event `e` and is busy or not accordingly. */
  lemma SlotEvent(w: Acc, op: nat, e: Event)
    requires SlotLaw(w) && op < |w.doing| && Concerns(e, op)
    ensures SlotLaw(Log(w.(doing := w.doing[op := e == Submit(op)]), e))
  {
    forall p | 0 <= p < |w.doing|
      ensures LastOf(w.log + [e], p) == if p == op then Last(e) else LastOf(w.log, p)
    {
      LastAppend(w.log, e, p);
    }
  }

  /** evConn for slot `op`: of a client, or of a refusal. */
  lemma CallbackKeeps(w: Acc, op: nat, e: Event, stops: bool)
    requires Keeps(w, false) && op < |w.doing| && (e == Conn(op) || e == Refused(op))
    ensures var v := Callback(w.(doing := w.doing[op := false]), e, stops);
      && Keeps(v, e.Conn? && !v.stop) && |v.doing| == |w.doing|
      && (e.Conn? && !v.stop ==> v.log[|v.log| - 1] == Conn(op))
  {
    var u := Log(w.(doing := w.doing[op := false]), e);
    SlotEvent(w, op, e);
    assert Stopped in u.log <==> Stopped in w.log;
    if e.Conn? {
      ConnAppend(w.log, op);
    } else {
      FollowedAppend(w.log, [e]);
    }
    if stops {
      StopKeeps(u, e.Conn? && !w.stop);
    }
  }

  lemma {:induction false} PostKeeps(w: Acc, op: nat, env: seq<Choice>, last: bool)
    requires Keeps(w, last) && op < |w.doing| && (last ==> w.log[|w.log| - 1] == Conn(op))
    ensures Keeps(Post(w, op, env).0, false)
    decreases |env|, 0
  {
    if !w.stop {
      var v := Log(w.(doing := w.doing[op := true]), Submit(op));
      SlotEvent(w, op, Submit(op));
      if last {
        FollowedNext(w.log, Submit(op));
      } else {
        FollowedAppend(w.log, [Submit(op)]);
      }
      assert Stopped in v.log <==> Stopped in w.log;
      if env == [] || env[0].outcome.Pending? {
      } else if env[0].outcome.Fails? {
        CallbackKeeps(v, op, Refused(op), env[0].stops);
      } else {
        RunKeeps(v, op, env[0].stops, env[1..]);
      }
    }
  }

  lemma {:induction false} RunKeeps(w: Acc, op: nat, stops: bool, env: seq<Choice>)
    requires Keeps(w, false) && op < |w.doing|
    ensures Keeps(Run(w, op, stops, env).0, false)
    decreases |env|, 1
  {
    CallbackKeeps(w, op, Conn(op), stops);
    var v := Callback(w.(doing := w.doing[op := false]), Conn(op), stops);
    if v.stop {
      if !Any(v.doing) {
        PostCloseKeeps(v);
      }
    } else {
      PostKeeps(v, op, env, true);
    }
  }

  lemma PostCloseKeeps(w: Acc)
    requires Keeps(w, false)
    ensures Keeps(PostClose(w), false)
  {
    if !w.close {
      FollowedAppend(w.log, [Closed]);
      SlotsUntouched(w, PostClose(w), [Closed]);
      assert Stopped in w.log + [Closed] <==> Stopped in w.log;
    }
  }

  lemma {:induction false} PostAllKeeps(w: Acc, i: nat, env: seq<Choice>, last: int)
    requires Keeps(w, false) && i <= |w.doing|
    ensures Keeps(PostAll(w, i, env, last).0, false)
    decreases |w.doing| - i
  {
    if i < |w.doing| {
      PostKeeps(w, i, env, false);
      var (v, rest, r) := Post(w, i, env);
      if r > 0 {
        PostAllKeeps(v, i + 1, rest, r);
      }
    }
  }

  lemma {:induction false} LastIsThere(log: seq<Event>, op: nat) returns (i: nat)
    requires LastOf(log, op) != Never
    ensures i < |log| && Concerns(log[i], op) && log[i] == LastOf(log, op).e
    ensures forall j :: i < j < |log| ==> !Concerns(log[j], op)
    decreases |log|
  {
    if Concerns(log[|log| - 1], op) {
      i := |log| - 1;
    } else {
      i := LastIsThere(log[..|log| - 1], op);
    }
  }

  lemma NoClientLeft(w: Acc, op: nat)
    requires Keeps(w, false) && !w.stop
    ensures LastOf(w.log, op) != Last(Conn(op))
  {
    if LastOf(w.log, op) != Never {
      var i := LastIsThere(w.log, op);
      assert Stopped !in w.log[..i];
      assert i + 1 < |w.log| ==> !Concerns(w.log[i + 1], op);
    }
  }

  lemma {:induction false} RunKeepsAccepting(w: Acc, run: seq<Step>)
    requires Keeps(w, false) && Legal(w, run)
    ensures Keeps(Exec(w, run), false)
    decreases |run|
  {
    if run != [] {
      match run[0] {
        case Complete(op, stops, env) => RunKeeps(w, op, stops, env);
        case StopCall => StopKeeps(w, false);
      }
      RunKeepsAccepting(Next(w, run[0]), run[1..]);
    }
  }

  /** For any number of slots and any mix of answers, as long as nobody stops it: a slot that is idle has
      never been submitted or was refused the last time; one whose client came is accepting again. In any
      run each client accepted before a stop is followed at once by the slot's next AcceptEx, or by the
      stop of its own evConn. */
  lemma KeepsAccepting(n: nat, env: seq<Choice>, run: seq<Step>)
    requires Legal(Started(n, env), run)
    ensures var w := Exec(Started(n, env), run);
      && (!w.stop ==> forall op :: 0 <= op < |w.doing| ==>
            (!w.doing[op] <==> LastOf(w.log, op) == Never || LastOf(w.log, op) == Last(Refused(op))))
      && (forall i :: 0 <= i < |w.log| && w.log[i].Conn? && Stopped !in w.log[..i] ==>
            i + 1 < |w.log| && (w.log[i + 1] == Submit(w.log[i].op) || w.log[i + 1] == Stopped))
  {
    var w0 := Acc(seq(n, _ => false), false, false, 0, []);
    assert Keeps(w0, false);
    PostAllKeeps(w0, 0, env, 1);
    RunKeepsAccepting(Started(n, env), run);
    var w := Exec(Started(n, env), run);
    if !w.stop {
      forall op | 0 <= op < |w.doing|
        ensures !w.doing[op] <==> LastOf(w.log, op) == Never || LastOf(w.log, op) == Last(Refused(op))
      {
        NoClientLeft(w, op);
        if LastOf(w.log, op) != Never {
          var _ := LastIsThere(w.log, op);
        }
      }
    }
  }

  // ---------- Which slots start() submits ----------

  /** Events of slot `op`, and of a stop. */
  ghost predicate Of(es: seq<Event>, op: nat) {
    forall e :: e in es ==> Concerns(e, op) || e.Stopped? || e.Cancel? || e.Closed?
  }

  lemma StopEvents(w: Acc, op: nat) returns (es: seq<Event>)
    ensures Stop(w).log == w.log + es && Of(es, op)
    ensures forall e :: e in es ==> !Concerns(e, op)
  {
    CancelsOnly(w.doing);
    es := Stop(w).log[|w.log|..];
    if !w.stop {
      var v := Log(w.(stop := true), Stopped);
      assert Stop(w).log == w.log + ([Stopped] + if Any(w.doing) then Cancels(w.doing)
                                                 else if w.close then [] else [Closed]);
    }
  }

  lemma CallbackEvents(w: Acc, op: nat, e: Event, stops: bool) returns (es: seq<Event>)
    requires Concerns(e, op)
    ensures Callback(w, e, stops).log == w.log + ([e] + es) && Of(es, op)
  {
    es := [];
    if stops {
      es := StopEvents(Log(w, e), op);
    }
    assert w.log + [e] + es == w.log + ([e] + es);
  }

  lemma {:induction false} PostEvents(w: Acc, op: nat, env: seq<Choice>) returns (es: seq<Event>)
    requires op < |w.doing|
    ensures Post(w, op, env).0.log == w.log + es && Of(es, op)
    ensures w.stop ==> es == [] && Post(w, op, env).2 <= 0
    ensures !w.stop ==>
              && es != [] && es[0] == Submit(op)
              && (Post(w, op, env).2 <= 0 <==> |es| > 1 && es[1] == Refused(op))
    decreases |env|, 0
  {
    es := [];
    if !w.stop {
      var v := Log(w.(doing := w.doing[op := true]), Submit(op));
      if env == [] || env[0].outcome.Pending? {
        es := [Submit(op)];
      } else if env[0].outcome.Fails? {
        var more := CallbackEvents(v.(doing := v.doing[op := false]), op, Refused(op), env[0].stops);
        es := [Submit(op)] + ([Refused(op)] + more);
        assert v.log + ([Refused(op)] + more) == w.log + es;
      } else {
        var more := RunEvents(v, op, env[0].stops, env[1..]);
        es := [Submit(op)] + ([Conn(op)] + more);
        assert v.log + ([Conn(op)] + more) == w.log + es;
      }
    }
  }

  lemma {:induction false} RunEvents(w: Acc, op: nat, stops: bool, env: seq<Choice>) returns (es: seq<Event>)
    requires op < |w.doing|
    ensures Run(w, op, stops, env).0.log == w.log + ([Conn(op)] + es) && Of(es, op)
    decreases |env|, 1
  {
    var first := CallbackEvents(w.(doing := w.doing[op := false]), op, Conn(op), stops);
    var v := Callback(w.(doing := w.doing[op := false]), Conn(op), stops);
    var more: seq<Event> := [];
    if v.stop {
      more := if !Any(v.doing) && !v.close then [Closed] else [];
    } else {
      more := PostEvents(v, op, env);
    }
    es := first + more;
    assert Run(w, op, stops, env).0.log == v.log + more;
    assert w.log + ([Conn(op)] + first) + more == w.log + ([Conn(op)] + es);
  }

  /** The first AcceptEx of slot `op` failed. */
  ghost predicate RefusedAtOnce(log: seq<Event>, op: nat) {
    exists i :: 0 <= i < |log| - 1 && log[i] == Submit(op) && log[i + 1] == Refused(op) && Submit(op) !in log[..i]
  }

  /** What happens to slot `op` leaves the first answer of slot `p` as it was. */
  lemma OtherSlot(log: seq<Event>, es: seq<Event>, p: nat, op: nat)
    requires p != op && Of(es, op)
    ensures RefusedAtOnce(log + es, p) <==> RefusedAtOnce(log, p)
    ensures Submit(p) in log + es <==> Submit(p) in log
  {
    var l := log + es;
    assert forall k :: 0 <= k < |es| ==> es[k] in es;
    assert forall i :: |log| <= i < |l| ==> l[i] == es[i - |log|];
    assert forall i :: 0 <= i <= |log| ==> l[..i] == log[..i];
    if RefusedAtOnce(log, p) {
      var i :| 0 <= i < |log| - 1 && log[i] == Submit(p) && log[i + 1] == Refused(p) && Submit(p) !in log[..i];
      assert l[i] == Submit(p) && l[i + 1] == Refused(p) && Submit(p) !in l[..i];
    }
  }

  lemma OwnSlot(log: seq<Event>, es: seq<Event>, op: nat)
    requires Submit(op) !in log && es != [] && es[0] == Submit(op)
    ensures Submit(op) in log + es
    ensures RefusedAtOnce(log + es, op) <==> |es| > 1 && es[1] == Refused(op)
  {
    var l := log + es;
    assert l[|log|] == Submit(op) && l[..|log|] == log;
    assert forall i :: 0 <= i < |log| ==> l[i] == log[i] && l[i] in log;
    if |es| > 1 {
      assert l[|log| + 1] == es[1];
    }
    forall i | |log| < i < |l| - 1
      ensures Submit(op) in l[..i]
    {
      assert l[..i][|log|] == Submit(op);
    }
  }

  /** The slots below `i` are submitted and were not refused, those from `i` on are not. */
  ghost predicate UpTo(w: Acc, i: nat) {
    forall op: nat :: (Submit(op) in w.log <==> op < i) && (op < i ==> !RefusedAtOnce(w.log, op))
  }

  lemma {:induction false} PostAllReaches(w: Acc, i: nat, env: seq<Choice>, last: int) returns (k: nat)
    requires UpTo(w, i) && i <= |w.doing| && last > 0
    ensures var (v, _, r) := PostAll(w, i, env, last);
      && k <= |w.doing| && (forall op: nat :: Submit(op) in v.log <==> op < k)
      && (forall op: nat :: op < k ==> (RefusedAtOnce(v.log, op) ==> op == k - 1))
      && (r <= 0 && !v.stop ==> k > 0 && RefusedAtOnce(v.log, k - 1))
      && (r > 0 ==> k == |w.doing| && (k > 0 ==> !RefusedAtOnce(v.log, k - 1)))
    decreases |w.doing| - i
  {
    k := i;
    if i < |w.doing| {
      var (v, rest, r) := Post(w, i, env);
      var es := PostEvents(w, i, env);
      if w.stop {
        assert v.log == w.log;
      } else {
        forall op: nat | op != i
          ensures RefusedAtOnce(v.log, op) <==> RefusedAtOnce(w.log, op)
          ensures Submit(op) in v.log <==> Submit(op) in w.log
        {
          OtherSlot(w.log, es, op, i);
        }
        OwnSlot(w.log, es, i);
        k := i + 1;
        if r > 0 {
          k := PostAllReaches(v, i + 1, rest, r);
        }
      }
    }
  }

  /** start() submits the slots in order, up to the first that is refused at once, or until a callback
      stops it; its result is positive exactly when it got through and nobody was refused at once. */
  lemma StartReaches(n: nat, env: seq<Choice>)
    ensures var (w, _, r) := PostAll(Acc(seq(n, _ => false), false, false, 0, []), 0, env, 1);
      && (forall p: nat, op: nat :: p < op && Submit(op) in w.log ==> Submit(p) in w.log)
      && (!w.stop ==> forall op: nat :: op < n ==>
            (Submit(op) in w.log <==> forall p: nat :: p < op ==> !RefusedAtOnce(w.log, p)))
      && (r > 0 ==> forall op: nat :: op < n ==> Submit(op) in w.log && !RefusedAtOnce(w.log, op))
      && (r <= 0 ==> w.stop || exists op: nat :: op < n && RefusedAtOnce(w.log, op))
  {
    var w0 := Acc(seq(n, _ => false), false, false, 0, []);
    assert UpTo(w0, 0);
    var k := PostAllReaches(w0, 0, env, 1);
    var (w, _, r) := PostAll(w0, 0, env, 1);
    if !w.stop {
      forall op: nat | op < n
        ensures Submit(op) in w.log <==> forall p: nat :: p < op ==> !RefusedAtOnce(w.log, p)
      {
        if op >= k {
          assert r <= 0 && RefusedAtOnce(w.log, k - 1);
        }
      }
    }
  }
}
