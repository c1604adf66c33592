/** How long the loop sleeps: timer_wait_leatest with both of its truncating casts. */
module SleepBound {

  /** C++ integer division and remainder truncate toward zero. */
  function TruncDiv(a: int, b: int): int
    requires b > 0
  {
    if a >= 0 then a / b else -(-a / b)
  }

  function TruncRem(a: int, b: int): int
    requires b > 0
  {
    a - b * TruncDiv(a, b)
  }

  datatype Timespec = Timespec(sec: int, nsec: int)

  datatype Front = NoTimer | Front(expire: int)

  function Min(a: int, b: int): int {
    if b < a then b else a
  }

  const NS_PER_US := 1_000
  const NS_PER_SEC := 1_000_000_000
  const MAX_EXPIRED_US := 300_000_000
  const MAX_EXPIRED_NS := 300_000_000_000

  /** The argument is a duration in microseconds; it is cut to milliseconds. */
  function MsecToTs(us: int): Timespec {
    var msec := TruncDiv(us, 1000);
    Timespec(TruncDiv(msec, 1000), TruncRem(msec, 1000) * 1_000_000)
  }

  function TimerMinExpire(front: Front, expire: int): int {
    if front.NoTimer? then expire else Min(front.expire, expire)
  }

  /** Clock values are nanoseconds. */
  function TimerWaitLatest(front: Front, now: int): Timespec {
    var expire := TimerMinExpire(front, MAX_EXPIRED_NS + now);
    var diff := TruncDiv(expire - now, NS_PER_US);
    MsecToTs(Min(diff, MAX_EXPIRED_US))
  }

  predicate Normalised(ts: Timespec) {
    0 <= ts.sec && 0 <= ts.nsec < NS_PER_SEC
  }

  function Nanos(ts: Timespec): int {
    ts.sec * NS_PER_SEC + ts.nsec
  }

  /** The longest the loop may sleep without being late for its front timer. */
  function Bound(front: Front, now: int): int {
    if front.NoTimer? then MAX_EXPIRED_NS else Min(front.expire - now, MAX_EXPIRED_NS)
  }

  /** A nonnegative duration loses less than a millisecond, and stays normalised. */
  lemma TruncatedTwice(ns: int)
    requires 0 <= ns <= MAX_EXPIRED_NS
    ensures Normalised(MsecToTs(TruncDiv(ns, NS_PER_US)))
    ensures Nanos(MsecToTs(TruncDiv(ns, NS_PER_US))) <= ns < Nanos(MsecToTs(TruncDiv(ns, NS_PER_US))) + 1_000_000
  {
    var us := ns / 1000;
    var ms := us / 1000;
    assert ms * 1_000_000 <= ns < ms * 1_000_000 + 1_000_000;
    assert ms == ms / 1000 * 1000 + ms % 1000;
  }

  /** The sleep is never past the front deadline nor 300 s, and short of that by less than 1 ms. */
  lemma SleepsAlmostToTheBound(front: Front, now: int)
    requires front.Front? ==> now <= front.expire
    ensures Normalised(TimerWaitLatest(front, now))
    ensures Nanos(TimerWaitLatest(front, now)) <= Bound(front, now) < Nanos(TimerWaitLatest(front, now)) + 1_000_000
  {
    TruncatedTwice(Bound(front, now));
    BoundIsWaited(front, now);
  }

  lemma BoundIsWaited(front: Front, now: int)
    ensures TimerWaitLatest(front, now) == MsecToTs(TruncDiv(Bound(front, now), NS_PER_US))
  {
    var b := Bound(front, now);
    assert TimerMinExpire(front, MAX_EXPIRED_NS + now) - now == b;
    assert TruncDiv(b, NS_PER_US) <= MAX_EXPIRED_US;
  }

  /** Once the front deadline is a whole millisecond in the past the timespec is no longer a
      valid one; up to then it is. */
  lemma NormalisedExactly(front: Front, now: int)
    ensures Normalised(TimerWaitLatest(front, now)) <==> Bound(front, now) > -1_000_000
  {
    var b := Bound(front, now);
    BoundIsWaited(front, now);
    if b >= 0 {
      TruncatedTwice(b);
    } else {
      var us := TruncDiv(b, NS_PER_US);
      assert us == -(-b / 1000);
      var ms := TruncDiv(us, 1000);
      assert ms == -(-us / 1000);
      assert ms == 0 <==> b > -1_000_000;
      if ms < 0 {
        assert -ms == -ms / 1000 * 1000 + -ms % 1000;
      }
    }
  }

  /** A front deadline already passed never makes the loop sleep. */
  lemma PastIsNoSleep(front: Front, now: int)
    requires front.Front? && front.expire < now
    ensures Nanos(TimerWaitLatest(front, now)) <= 0
  {
    var b := Bound(front, now);
    BoundIsWaited(front, now);
    var us := TruncDiv(b, NS_PER_US);
    assert us == -(-b / 1000);
    var ms := TruncDiv(us, 1000);
    assert ms == -(-us / 1000);
    assert -ms == -ms / 1000 * 1000 + -ms % 1000;
  }
}
