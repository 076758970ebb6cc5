/** Time as the guest sees it: microseconds since the epoch of Unix, and the conversions of
    src/logicalclock.cpp, whose casts truncate toward zero. */
module LogicalClock {

  const MICROS: int := 1_000_000
  const NANOS: int := 1_000_000_000
  const INT64_MAX: int := 0x7fff_ffff_ffff_ffff

  predicate FitsInt64(x: int) {
    -INT64_MAX - 1 <= x <= INT64_MAX
  }

  /** Integer division as C++ does it. */
  function Trunc(x: int, n: int): int
    requires n > 0
  {
    if x >= 0 then x / n else -((-x) / n)
  }

  function ToTimeT(t: int): int {
    Trunc(t, MICROS)
  }

  function FromTimeT(s: int): int {
    s * MICROS
  }

  datatype Timespec = Timespec(sec: int, nsec: int)
  datatype Timeval = Timeval(sec: int, usec: int)

  function ToTimespec(t: int): Timespec {
    var secs := Trunc(t, MICROS);
    Timespec(secs, t * 1000 - secs * NANOS)
  }

  function FromTimespec(ts: Timespec): int {
    Trunc(ts.sec * NANOS + ts.nsec, 1000)
  }

  function ToTimeval(t: int): Timeval {
    var secs := Trunc(t, MICROS);
    Timeval(secs, t - secs * MICROS)
  }

  function FromTimeval(tv: Timeval): int {
    tv.sec * MICROS + tv.usec
  }

  /** Both conversions come back, and in the range where a time in nanoseconds fits 64 bits, so does
      every intermediate value. */
  lemma ConversionsRoundTrip(t: int)
    ensures FromTimespec(ToTimespec(t)) == t && FromTimeval(ToTimeval(t)) == t
    ensures -(INT64_MAX / 1000) <= t <= INT64_MAX / 1000 ==>
              var ts := ToTimespec(t);
              FitsInt64(t * 1000) && FitsInt64(ts.sec * NANOS) && FitsInt64(ts.nsec) && FitsInt64(ts.sec * NANOS + ts.nsec)
  {
    var secs := Trunc(t, MICROS);
    var ts := ToTimespec(t);
    assert ts.sec * NANOS + ts.nsec == t * 1000;
    assert t >= 0 ==> 0 <= secs * MICROS <= t;
    assert t < 0 ==> t <= secs * MICROS <= 0;
  }

  /** A normalised timespec the guest passes in, not before the epoch of Unix, comes back exactly if
      it is of whole microseconds. */
  lemma TimespecRoundTrip(ts: Timespec)
    requires 0 <= ts.sec && 0 <= ts.nsec < NANOS
    ensures ToTimespec(FromTimespec(ts)) == ts <==> ts.nsec % 1000 == 0
  {
    var us := ts.nsec / 1000;
    assert ts.nsec == us * 1000 + ts.nsec % 1000 && 0 <= us < MICROS;
    var t := ts.sec * MICROS + us;
    assert ts.sec * NANOS + ts.nsec == t * 1000 + ts.nsec % 1000;
    assert FromTimespec(ts) == t;
    assert t / MICROS == ts.sec;
  }

  /** What to_timespec makes of a time is normalised exactly if the time is not before the epoch of
      Unix, or is a whole second. */
  lemma NormalisedIff(t: int)
    ensures 0 <= ToTimespec(t).nsec < NANOS <==> t >= 0 || t % MICROS == 0
  {
    var secs := Trunc(t, MICROS);
    if t < 0 {
      var q := (-t) / MICROS;
      assert -t == q * MICROS + (-t) % MICROS;
      assert t % MICROS == 0 <==> (-t) % MICROS == 0;
    }
  }

  /** Truncation toward zero leaves a remainder of the dividend's sign that is smaller than the divisor. */
  lemma TruncMeaning(x: int, n: int)
    requires n > 0
    ensures var r := x - Trunc(x, n) * n;
            -n < r < n && (x >= 0 ==> r >= 0) && (x <= 0 ==> r <= 0)
  {
    var y := if x >= 0 then x else -x;
    assert y == (y / n) * n + y % n;
    if x < 0 {
      assert Trunc(x, n) * n == -((y / n) * n);
    }
  }

  /** All three conversions agree on the second, and what is left is less than a second, of the time's
      sign. */
  lemma PartsOfASecond(t: int)
    ensures var ts, tv := ToTimespec(t), ToTimeval(t);
            && ts.sec == tv.sec == ToTimeT(t)
            && ts.nsec == tv.usec * 1000 && -MICROS < tv.usec < MICROS
            && (t >= 0 ==> 0 <= tv.usec) && (t <= 0 ==> tv.usec <= 0)
  {
    TruncMeaning(t, MICROS);
  }

  /** Whole seconds survive, and a time loses less than a second, toward zero. */
  lemma SecondsRoundTrip(s: int, t: int)
    ensures ToTimeT(FromTimeT(s)) == s
    ensures -MICROS < t - FromTimeT(ToTimeT(t)) < MICROS
    ensures if t >= 0 then 0 <= FromTimeT(ToTimeT(t)) <= t else t <= FromTimeT(ToTimeT(t)) <= 0
  {
    TruncMeaning(t, MICROS);
    TruncMeaning(FromTimeT(s), MICROS);
  }

  /** The times of files from before the run, in whole seconds, lie before those of files made in it,
      whenever that is, exactly if the epoch is not within the first second of Unix time. */
  lemma OldFilesLookOlderIff(epoch: int)
    ensures !(0 < epoch < MICROS) <==> forall t | epoch <= t :: ToTimeT(epoch - MICROS) < ToTimeT(t)
  {
    if 0 < epoch < MICROS {
      assert ToTimeT(epoch - MICROS) == 0;
      assert ToTimeT(epoch) == 0;
    } else {
      forall t | epoch <= t
        ensures ToTimeT(epoch - MICROS) < ToTimeT(t)
      {
        SecondsAreMonotone(epoch, t);
        SecondBefore(epoch);
      }
    }
  }

  lemma SecondsAreMonotone(a: int, b: int)
    requires a <= b
    ensures ToTimeT(a) <= ToTimeT(b)
  {
  }

  lemma SecondBefore(epoch: int)
    requires !(0 < epoch < MICROS)
    ensures ToTimeT(epoch - MICROS) == ToTimeT(epoch) - 1
  {
  }

  /** An epoch given in whole seconds, as every option that sets one gives it, is such a one. */
  lemma WholeSecondEpoch(s: int)
    ensures !(0 < FromTimeT(s) < MICROS)
  {
  }
}
