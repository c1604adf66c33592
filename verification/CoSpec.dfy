/** The hand-off between loop callbacks and coroutine awaiters, on values. */
module CoSpec {

  type byte = bv8

  datatype Option<T> = None | Some(value: T)

  /** Pieces of a byte stream joined. */
  function Flatten(pieces: seq<seq<byte>>): seq<byte> {
    if pieces == [] then [] else Flatten(pieces[..|pieces| - 1]) + pieces[|pieces| - 1]
  }

  lemma {:induction false} FlattenJoins(p: seq<seq<byte>>, q: seq<seq<byte>>, piece: seq<byte>)
    ensures Flatten([]) == [] && Flatten([piece]) == piece
    ensures Flatten(p + q) == Flatten(p) + Flatten(q)
    decreases |q|
  {
    assert [piece][..0] == [];
    assert Flatten([piece]) == Flatten([piece][..0]) + piece;
    if q == [] {
      assert p + q == p;
    } else {
      FlattenJoins(p, q[..|q| - 1], piece);
      assert (p + q)[..|p + q| - 1] == p + q[..|q| - 1];
    }
  }

  // ---------- co_session: a byte stream with one reader ----------

  /** `waiting` is the buffer of the suspended reader; `returned` collects what each co_read gave out. */
  datatype Session = Session(buffer: seq<byte>, waiting: Option<seq<byte>>, err: int, returned: seq<seq<byte>>)

  const OPENED: Session := Session([], None, 1, [])

  /** co_read by the one reader: an error ends it at once with nothing, buffered bytes are taken,
      otherwise it suspends. */
  function CoRead(s: Session): Session
    requires s.waiting.None?
  {
    if s.err <= 0 then s.(returned := s.returned + [[]])
    else if s.buffer != [] then s.(buffer := [], returned := s.returned + [s.buffer])
    else s.(waiting := Some([]))
  }

  /** Up to `n` reads in a row by the running coroutine. */
  function CoReads(s: Session, n: nat): Session {
    if n == 0 then s else
      var m := CoReads(s, n - 1);
      if m.waiting.Some? then m else CoRead(m)
  }

  function Resume(s: Session, bytes: seq<byte>): Session
    requires s.waiting.Some?
  {
    s.(waiting := None, returned := s.returned + [s.waiting.value + bytes])
  }

  /** on_read; a resumed coroutine calls co_read up to `again` times before it returns. */
  function OnRead(s: Session, res: int, bytes: seq<byte>, again: nat): Session {
    var e := if res <= 0 then s.(err := res) else s;
    if e.waiting.Some? then CoReads(Resume(e, if e.err > 0 then bytes else []), again)
    else if e.err > 0 then e.(buffer := e.buffer + bytes)
    else e
  }

  /** A failed write stores its error code as well. */
  datatype SessionEvent = Arrive(res: int, bytes: seq<byte>, again: nat) | Read | WriteFails(res: int)

  /** The read callback is given as many bytes as its count says. */
  predicate Possible(s: Session, e: SessionEvent) {
    match e
    case Arrive(res, bytes, _) => res > 0 ==> |bytes| == res
    case Read => s.waiting.None?
    case WriteFails(res) => res <= 0
  }

  function After(s: Session, e: SessionEvent): Session
    requires Possible(s, e)
  {
    match e
    case Arrive(res, bytes, again) => OnRead(s, res, bytes, again)
    case Read => CoRead(s)
    case WriteFails(res) => s.(err := res)
  }

  predicate PossibleRun(s: Session, run: seq<SessionEvent>)
    decreases |run|
  {
    run == [] || (Possible(s, run[0]) && PossibleRun(After(s, run[0]), run[1..]))
  }

  function AfterRun(s: Session, run: seq<SessionEvent>): Session
    requires PossibleRun(s, run)
    decreases |run|
  {
    if run == [] then s else AfterRun(After(s, run[0]), run[1..])
  }

  /** An event that reports an error: a failed read, the end of the file, or a failed write. */
  predicate IsError(e: SessionEvent) {
    (e.Arrive? && e.res <= 0) || e.WriteFails?
  }

  predicate HasError(run: seq<SessionEvent>) {
    exists e :: e in run && IsError(e)
  }

  /** The bytes handed to on_read before the first error. */
  function Passed(run: seq<SessionEvent>): seq<byte> {
    if run == [] || IsError(run[0]) then [] else
      (if run[0].Arrive? then run[0].bytes else []) + Passed(run[1..])
  }

  function Held(s: Session): seq<byte> {
    if s.waiting.Some? then s.waiting.value else []
  }

  ghost predicate SessionInv(s: Session) {
    && (s.waiting.Some? ==> s.buffer == [] && s.waiting.value == [])
    && (s.err > 0 ==> forall r :: r in s.returned ==> r != [])
  }

  lemma FlattenAppend(p: seq<seq<byte>>, piece: seq<byte>)
    ensures Flatten(p + [piece]) == Flatten(p) + piece
  {
    FlattenJoins(p, [piece], piece);
  }

  lemma CoReadConserves(s: Session)
    requires SessionInv(s) && s.waiting.None?
    ensures SessionInv(CoRead(s)) && CoRead(s).err == s.err
    ensures Flatten(CoRead(s).returned) + CoRead(s).buffer == Flatten(s.returned) + s.buffer
    ensures s.err <= 0 ==> Flatten(CoRead(s).returned) == Flatten(s.returned) && CoRead(s).buffer == s.buffer
    ensures s.err <= 0 ==> CoRead(s).waiting == s.waiting
  {
    if s.err <= 0 {
      FlattenAppend(s.returned, []);
      assert Flatten(s.returned) + [] == Flatten(s.returned);
    } else if s.buffer != [] {
      FlattenAppend(s.returned, s.buffer);
    }
  }

  lemma {:induction false} CoReadsConserve(s: Session, n: nat)
    requires SessionInv(s)
    ensures SessionInv(CoReads(s, n)) && CoReads(s, n).err == s.err
    ensures Flatten(CoReads(s, n).returned) + CoReads(s, n).buffer == Flatten(s.returned) + s.buffer
    ensures s.err <= 0 ==> Flatten(CoReads(s, n).returned) == Flatten(s.returned)
                           && CoReads(s, n).buffer == s.buffer && CoReads(s, n).waiting == s.waiting
  {
    if n > 0 {
      CoReadsConserve(s, n - 1);
      var m := CoReads(s, n - 1);
      if m.waiting.None? {
        CoReadConserves(m);
      }
    }
  }

  lemma EventConserves(s: Session, e: SessionEvent)
    requires SessionInv(s) && Possible(s, e)
    ensures SessionInv(After(s, e))
    ensures After(s, e).err > 0 <==> s.err > 0 && !IsError(e)
    ensures var s' := After(s, e);
      Flatten(s'.returned) + s'.buffer
      == Flatten(s.returned) + s.buffer + (if e.Arrive? && s.err > 0 && !IsError(e) then e.bytes else [])
    ensures s.err <= 0 ==> Flatten(After(s, e).returned) == Flatten(s.returned) && After(s, e).buffer == s.buffer
  {
    match e {
      case Arrive(res, bytes, again) =>
        if s.waiting.Some? {
          var e1 := if res <= 0 then s.(err := res) else s;
          var got := if e1.err > 0 then bytes else [];
          FlattenAppend(e1.returned, e1.waiting.value + got);
          assert e1.waiting.value + got == got;
          CoReadsConserve(Resume(e1, got), again);
        }
      case Read => CoReadConserves(s);
      case WriteFails(res) =>
    }
  }

  lemma {:induction false} RunKeepsSession(s: Session, run: seq<SessionEvent>)
    requires SessionInv(s) && PossibleRun(s, run)
    ensures SessionInv(AfterRun(s, run)) && (AfterRun(s, run).err > 0 <==> s.err > 0 && !HasError(run))
    decreases |run|
  {
    if run != [] {
      EventConserves(s, run[0]);
      ErrorsSplit(run);
      RunKeepsSession(After(s, run[0]), run[1..]);
    }
  }

  /** Returned and still buffered. */
  function Total(s: Session): seq<byte> {
    Flatten(s.returned) + s.buffer
  }

  lemma TotalJoins(a: seq<byte>, b: seq<byte>, c: seq<byte>)
    ensures (a + b) + c == a + (b + c) && a + [] == a
  {
  }

  lemma {:induction false} TotalGrows(s: Session, run: seq<SessionEvent>)
    requires SessionInv(s) && s.err > 0 && PossibleRun(s, run)
    ensures Total(AfterRun(s, run)) == Total(s) + Passed(run)
    decreases |run|
  {
    if run != [] {
      var m := After(s, run[0]);
      EventConserves(s, run[0]);
      ErrorsSplit(run);
      if IsError(run[0]) {
        FrozenAfterError(m, run[1..]);
        TotalJoins(Total(s), [], []);
      } else {
        TotalGrows(m, run[1..]);
        TotalJoins(Total(s), Passed([run[0]]), Passed(run[1..]));
      }
    }
  }

  /** Over every run: as long as no error was reported, what the co_reads returned and what is buffered make
      up everything passed to on_read, in order and once; a waiting reader holds nothing and means an empty
      buffer; and no co_read has returned without bytes. */
  lemma StreamIsConserved(run: seq<SessionEvent>)
    requires PossibleRun(OPENED, run)
    ensures var m := AfterRun(OPENED, run);
      && Flatten(m.returned) + m.buffer == Passed(run)
      && Held(m) == [] && (m.waiting.Some? ==> m.buffer == [])
      && (m.err > 0 <==> !HasError(run))
      && (!HasError(run) ==> forall r :: r in m.returned ==> r != [])
  {
    RunKeepsSession(OPENED, run);
    TotalGrows(OPENED, run);
    HeldNothing(AfterRun(OPENED, run));
  }

  lemma HeldNothing(s: Session)
    requires SessionInv(s)
    ensures Held(s) == []
  {
  }

  lemma ErrorsSplit(run: seq<SessionEvent>)
    requires run != []
    ensures HasError(run) <==> IsError(run[0]) || HasError(run[1..])
    ensures Passed([run[0]]) == if run[0].Arrive? && !IsError(run[0]) then run[0].bytes else []
    ensures Passed(run) == if IsError(run[0]) then [] else Passed([run[0]]) + Passed(run[1..])
  {
    assert run == [run[0]] + run[1..];
    assert [run[0]][1..] == [];
    if HasError(run) {
      var e :| e in run && IsError(e);
      assert e == run[0] || e in run[1..];
    }
    if HasError(run[1..]) {
      var e :| e in run[1..] && IsError(e);
      assert e in run;
    }
    assert IsError(run[0]) ==> run[0] in run;
  }

  /** What a co_read does, in terms of the events so far. After an error it ends at once with nothing. Before,
      it takes everything that was passed in and not yet returned; and if nothing is left it leaves the reader
      waiting. */
  lemma CoReadOutcome(run: seq<SessionEvent>)
    requires PossibleRun(OPENED, run) && AfterRun(OPENED, run).waiting.None?
    ensures var m := AfterRun(OPENED, run); var m', left := CoRead(m), Passed(run);
      && Flatten(m.returned) <= left
      && (HasError(run) ==> m'.returned == m.returned + [[]] && m'.waiting.None?)
      && (!HasError(run) && Flatten(m.returned) != left ==>
            m'.returned == m.returned + [left[|Flatten(m.returned)|..]] && m'.waiting.None?)
      && (!HasError(run) && Flatten(m.returned) == left ==> m'.returned == m.returned && m'.waiting.Some?)
  {
    StreamIsConserved(run);
    var m := AfterRun(OPENED, run);
    assert Flatten(m.returned) + m.buffer == Passed(run);
    assert Passed(run)[|Flatten(m.returned)|..] == m.buffer;
  }

  /** What on_read does to a waiting reader: before any error it completes its co_read with exactly the bytes
      that came; an error completes it with none. Then the reader may read on, and waits again if it does
      before any error. */
  lemma OnReadOutcome(run: seq<SessionEvent>, res: int, bytes: seq<byte>, again: nat)
    requires PossibleRun(OPENED, run) && AfterRun(OPENED, run).waiting.Some?
    requires Possible(AfterRun(OPENED, run), Arrive(res, bytes, again))
    ensures var m := AfterRun(OPENED, run); var m', error := OnRead(m, res, bytes, again), HasError(run) || res <= 0;
      && |m'.returned| > |m.returned| && m'.returned[..|m.returned|] == m.returned
      && m'.returned[|m.returned|] == (if error then [] else bytes)
      && (!error ==> |m'.returned| == |m.returned| + 1 && (m'.waiting.Some? <==> again > 0))
      && (error ==> m'.waiting.None? && |m'.returned| == |m.returned| + 1 + again)
  {
    StreamIsConserved(run);
    RunKeepsSession(OPENED, run);
    var m := AfterRun(OPENED, run);
    var e := if res <= 0 then m.(err := res) else m;
    var r := Resume(e, if e.err > 0 then bytes else []);
    assert e.waiting.value + (if e.err > 0 then bytes else []) == if e.err > 0 then bytes else [];
    if e.err > 0 {
      SuspendsAgain(r, again);
    } else {
      EndsAgain(r, again);
    }
  }

  lemma {:induction false} SuspendsAgain(s: Session, n: nat)
    requires s.waiting.None? && s.err > 0 && s.buffer == []
    ensures CoReads(s, n) == if n == 0 then s else s.(waiting := Some([]))
  {
    if n > 0 {
      SuspendsAgain(s, n - 1);
    }
  }

  lemma {:induction false} EndsAgain(s: Session, n: nat)
    requires s.waiting.None? && s.err <= 0
    ensures CoReads(s, n).waiting.None? && CoReads(s, n).err == s.err
    ensures |CoReads(s, n).returned| == |s.returned| + n && s.returned <= CoReads(s, n).returned
  {
    if n > 0 {
      EndsAgain(s, n - 1);
    }
  }

  /** After an error nothing more comes out: what is still buffered then is lost, so all bytes
      passed in are returned in the end exactly when the error found the buffer empty. */
  lemma {:induction false} ErrorEndsDelivery(run: seq<SessionEvent>, rest: seq<SessionEvent>)
    requires PossibleRun(OPENED, run) && HasError(run) && PossibleRun(AfterRun(OPENED, run), rest)
    ensures var m, m' := AfterRun(OPENED, run), AfterRun(AfterRun(OPENED, run), rest);
      && Flatten(m'.returned) == Flatten(m.returned)
      && (Flatten(m'.returned) == Passed(run) <==> m.buffer == [])
  {
    var m := AfterRun(OPENED, run);
    StreamIsConserved(run);
    RunKeepsSession(OPENED, run);
    FrozenAfterError(m, rest);
    assert (Flatten(m.returned) + m.buffer)[|Flatten(m.returned)|..] == m.buffer;
  }

  /** It happens: bytes arrive while nobody reads, then the end of the file. They are never returned. */
  lemma BufferedBytesAreLost(bytes: seq<byte>, n: nat)
    requires bytes != []
    ensures var run := [Arrive(|bytes|, bytes, n), Arrive(0, [], n)];
      && PossibleRun(OPENED, run) && Passed(run) == bytes
      && AfterRun(OPENED, run).buffer == bytes && AfterRun(OPENED, run).err == 0
      && forall rest :: PossibleRun(AfterRun(OPENED, run), rest) ==>
           Flatten(AfterRun(AfterRun(OPENED, run), rest).returned) == []
  {
    var run := [Arrive(|bytes|, bytes, n), Arrive(0, [], n)];
    var s1 := After(OPENED, run[0]);
    var m := After(s1, run[1]);
    assert run[1..] == [run[1]] && run[1..][1..] == [];
    assert AfterRun(s1, run[1..]) == AfterRun(m, []) == m;
    assert Passed(run[1..]) == [];
    forall rest | PossibleRun(m, rest)
      ensures Flatten(AfterRun(m, rest).returned) == []
    {
      FrozenAfterError(m, rest);
    }
  }

  lemma {:induction false} FrozenAfterError(m: Session, rest: seq<SessionEvent>)
    requires SessionInv(m) && m.err <= 0 && PossibleRun(m, rest)
    ensures var f := AfterRun(m, rest);
      SessionInv(f) && f.err <= 0 && Flatten(f.returned) == Flatten(m.returned) && f.buffer == m.buffer
    decreases |rest|
  {
    if rest != [] {
      EventConserves(m, rest[0]);
      FrozenAfterError(After(m, rest[0]), rest[1..]);
    }
  }

  // ---------- co_tcpserver: accepted sockets, any number of accepting coroutines ----------

  type Sock = nat

  /** `waiting`: an awaiter is suspended; `results` collects what each co_accept gave out. */
  datatype Server = Server(pendings: seq<Sock>, waiting: bool, err: int, results: seq<Option<Sock>>)

  const LISTENING: Server := Server([], false, 1, [])

  /** co_accept: a pending socket, else nothing if somebody waits or after an error, else suspend. */
  function CoAccept(s: Server): Server {
    if s.pendings != [] then s.(pendings := s.pendings[1..], results := s.results + [Some(s.pendings[0])])
    else if s.waiting || s.err <= 0 then s.(results := s.results + [None])
    else s.(waiting := true)
  }

  function CoAccepts(s: Server, n: nat): Server {
    if n == 0 then s else CoAccept(CoAccepts(s, n - 1))
  }

  /** on_client; `sock` is a socket exactly when `res` is positive. */
  function OnClient(s: Server, res: int, sock: Sock, again: nat): Server {
    var e := if res <= 0 then s.(err := res) else s;
    if e.waiting then
      CoAccepts(e.(waiting := false, results := e.results + [if res > 0 then Some(sock) else None]), again)
    else if res > 0 then e.(pendings := e.pendings + [sock])
    else e
  }

  datatype ServerEvent = Client(res: int, sock: Sock, again: nat) | Accept

  function ServerAfter(s: Server, e: ServerEvent): Server {
    match e
    case Client(res, sock, again) => OnClient(s, res, sock, again)
    case Accept => CoAccept(s)
  }

  function ServerAfterRun(s: Server, run: seq<ServerEvent>): Server
    decreases |run|
  {
    if run == [] then s else ServerAfterRun(ServerAfter(s, run[0]), run[1..])
  }

  /** The sockets the acceptor offered, in order. */
  function Offered(run: seq<ServerEvent>): seq<Sock> {
    if run == [] then [] else
      (if run[0].Client? && run[0].res > 0 then [run[0].sock] else []) + Offered(run[1..])
  }

  predicate Failed(run: seq<ServerEvent>) {
    exists e :: e in run && e.Client? && e.res <= 0
  }

  /** The sockets given out. */
  function Delivered(results: seq<Option<Sock>>): seq<Sock> {
    if results == [] then [] else
      var last := results[|results| - 1];
      Delivered(results[..|results| - 1]) + (if last.Some? then [last.value] else [])
  }

  ghost predicate ServerInv(s: Server) {
    s.waiting ==> s.pendings == []
  }

  lemma DeliveredAppend(results: seq<Option<Sock>>, r: Option<Sock>)
    ensures Delivered(results + [r]) == Delivered(results) + (if r.Some? then [r.value] else [])
  {
    assert (results + [r])[..|results|] == results;
  }

  lemma CoAcceptConserves(s: Server)
    requires ServerInv(s)
    ensures ServerInv(CoAccept(s)) && CoAccept(s).err == s.err
    ensures Delivered(CoAccept(s).results) + CoAccept(s).pendings == Delivered(s.results) + s.pendings
  {
    if s.pendings != [] {
      DeliveredAppend(s.results, Some(s.pendings[0]));
    } else {
      DeliveredAppend(s.results, None);
    }
  }

  lemma {:induction false} CoAcceptsConserve(s: Server, n: nat)
    requires ServerInv(s)
    ensures ServerInv(CoAccepts(s, n)) && CoAccepts(s, n).err == s.err
    ensures Delivered(CoAccepts(s, n).results) + CoAccepts(s, n).pendings == Delivered(s.results) + s.pendings
  {
    if n > 0 {
      CoAcceptsConserve(s, n - 1);
      CoAcceptConserves(CoAccepts(s, n - 1));
    }
  }

  lemma ServerEventConserves(s: Server, e: ServerEvent)
    requires ServerInv(s)
    ensures ServerInv(ServerAfter(s, e))
    ensures ServerAfter(s, e).err > 0 <==> s.err > 0 && !(e.Client? && e.res <= 0)
    ensures Delivered(ServerAfter(s, e).results) + ServerAfter(s, e).pendings
         == Delivered(s.results) + s.pendings + Offered([e])
  {
    assert [e][1..] == [];
    assert Offered([e]) == if e.Client? && e.res > 0 then [e.sock] else [];
    match e {
      case Accept => CoAcceptConserves(s);
      case Client(res, sock, again) =>
        if s.waiting {
          var e1 := if res <= 0 then s.(err := res) else s;
          var r := if res > 0 then Some(sock) else None;
          DeliveredAppend(e1.results, r);
          CoAcceptsConserve(e1.(waiting := false, results := e1.results + [r]), again);
        }
    }
  }

  /** Every accepted socket is delivered once, in order of arrival, or still pending; errors in
      between lose none, and somebody waits only while nothing is pending. */
  lemma {:induction false} SocketsAreConserved(s: Server, run: seq<ServerEvent>)
    requires ServerInv(s)
    ensures var s' := ServerAfterRun(s, run);
      && ServerInv(s') && (s'.err > 0 <==> s.err > 0 && !Failed(run))
      && Delivered(s'.results) + s'.pendings == Delivered(s.results) + s.pendings + Offered(run)
    decreases |run|
  {
    if run != [] {
      ServerEventConserves(s, run[0]);
      SocketsAreConserved(ServerAfter(s, run[0]), run[1..]);
      assert [run[0]][1..] == [];
      assert Offered(run) == Offered([run[0]]) + Offered(run[1..]);
      assert Failed(run) <==> (run[0].Client? && run[0].res <= 0) || Failed(run[1..]);
    }
  }

  /** What a co_accept does, in terms of the events so far: it takes the next socket not yet delivered, errors
      or not; if there is none it ends with nothing after an error or while somebody waits; otherwise
      it suspends. */
  lemma CoAcceptOutcome(run: seq<ServerEvent>)
    ensures var s := ServerAfterRun(LISTENING, run);
      var s', given := CoAccept(s), |Delivered(s.results)|;
      && given <= |Offered(run)| && Delivered(s.results) == Offered(run)[..given]
      && (given < |Offered(run)| ==> s'.results == s.results + [Some(Offered(run)[given])] && s'.waiting == s.waiting)
      && (given == |Offered(run)| && (Failed(run) || s.waiting) ==>
            s'.results == s.results + [None] && s'.waiting == s.waiting)
      && (given == |Offered(run)| && !Failed(run) && !s.waiting ==> s'.results == s.results && s'.waiting)
  {
    SocketsAreConserved(LISTENING, run);
    var s := ServerAfterRun(LISTENING, run);
    assert Delivered(s.results) + s.pendings == Offered(run);
    assert Offered(run)[|Delivered(s.results)|..] == s.pendings;
  }

  /** What on_client does: a waiting co_accept ends with exactly the socket that came, or with nothing on an
      error, and nobody waits unless it was called again; if nobody waits a socket is kept. */
  lemma OnClientOutcome(run: seq<ServerEvent>, res: int, sock: Sock, again: nat)
    ensures var s := ServerAfterRun(LISTENING, run);
      var s' := OnClient(s, res, sock, again);
      && (s.waiting ==>
            && |s'.results| > |s.results| && s'.results[..|s.results|] == s.results
            && s'.results[|s.results|] == (if res > 0 then Some(sock) else None)
            && (s'.waiting <==> again > 0 && res > 0 && !Failed(run)))
      && (!s.waiting ==> s'.results == s.results && !s'.waiting)
      && Delivered(s'.results) + s'.pendings == Offered(run) + (if res > 0 then [sock] else [])
  {
    SocketsAreConserved(LISTENING, run);
    var s := ServerAfterRun(LISTENING, run);
    var e := Client(res, sock, again);
    ServerEventConserves(s, e);
    assert [e][1..] == [];
    assert Offered([e]) == if res > 0 then [sock] else [];
    if s.waiting {
      var e1 := if res <= 0 then s.(err := res) else s;
      AcceptsAgain(e1.(waiting := false, results := e1.results + [if res > 0 then Some(sock) else None]), again);
    }
  }

  lemma {:induction false} AcceptsAgain(s: Server, n: nat)
    requires s.pendings == [] && !s.waiting
    ensures s.results <= CoAccepts(s, n).results && CoAccepts(s, n).pendings == [] && CoAccepts(s, n).err == s.err
    ensures CoAccepts(s, n).waiting <==> n > 0 && s.err > 0
  {
    if n > 0 {
      AcceptsAgain(s, n - 1);
    }
  }
}
