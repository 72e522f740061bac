/**
  The time-of-day counter of org.aksw.twig.automaton.time.TimeCounter: a
  fixed 24 x 60 matrix of Java `long` counts, cell [h][m] holding the number
  of messages sent between h:m (inclusive) and h:(m+1) (exclusive).
*/
module TimeCounters {
  import opened Wrappers
  import opened JavaLongs

  const HOURS := 24
  const MINUTES := 60

  /** The `long` that Java's two's-complement arithmetic yields for the
      mathematical value `x`. */
  function Wrap(x: int): (r: long)
    ensures (r as int - x) % LONG_RANGE == 0
    ensures -0x8000_0000_0000_0000 <= x < 0x8000_0000_0000_0000 ==> r as int == x
  {
    ((x + 0x8000_0000_0000_0000) % LONG_RANGE - 0x8000_0000_0000_0000) as long
  }

  /** Java's `a + b` on two longs. */
  function AddLong(a: long, b: long): long
  {
    Wrap(a as int + b as int)
  }

  /** Two values that differ by a multiple of 2^64 wrap to the same long. */
  lemma WrapCongruent(x: int, y: int)
    requires (x - y) % LONG_RANGE == 0
    ensures Wrap(x) == Wrap(y)
  {
    var k := (x - y) / LONG_RANGE;
    assert x == y + k * LONG_RANGE;
    var bias := 0x8000_0000_0000_0000;
    assert (x + bias) % LONG_RANGE == (y + bias + k * LONG_RANGE) % LONG_RANGE;
    ModAddMultiple(y + bias, k);
  }

  lemma ModAddMultiple(a: int, k: int)
    ensures (a + k * LONG_RANGE) % LONG_RANGE == a % LONG_RANGE
  {
    var q := a / LONG_RANGE;
    var r := a % LONG_RANGE;
    assert a == q * LONG_RANGE + r;
    assert a + k * LONG_RANGE == (q + k) * LONG_RANGE + r;
  }

  /** Adding `c1` and then `c2` is adding the long `c1 + c2` once, even when
      the sums wrap around. */
  lemma AddTwiceIsAddSum(x: long, c1: long, c2: long)
    ensures AddLong(AddLong(x, c1), c2) == AddLong(x, AddLong(c1, c2))
  {
    var a := AddLong(x, c1) as int + c2 as int;
    var b := x as int + AddLong(c1, c2) as int;
    var m := x as int + c1 as int + c2 as int;
    WrapCongruent(a, m);
    WrapCongruent(b, m);
  }

  type Hour = h: int | 0 <= h < HOURS
  type Minute = m: int | 0 <= m < MINUTES

  /** The fields of java.time.LocalDateTime that exist at minute resolution
      and below; `addTweetTime` reads only the hour and the minute. */
  datatype DateTime = DateTime(year: int, month: int, day: int, hour: Hour, minute: Minute, second: int, nano: int)

  /** Number of times in `times` that fall on hour `h`, minute `m`. */
  function CountAt(times: seq<DateTime>, h: int, m: int): (n: nat)
    ensures n <= |times|
  {
    if times == [] then 0
    else CountAt(times[..|times| - 1], h, m) + (if times[|times| - 1].hour == h && times[|times| - 1].minute == m then 1 else 0)
  }

  /** Counting is additive over concatenation of the timestamp streams. */
  lemma {:induction false} CountAtConcat(s: seq<DateTime>, t: seq<DateTime>, h: int, m: int)
    ensures CountAt(s + t, h, m) == CountAt(s, h, m) + CountAt(t, h, m)
  {
    if t == [] {
      assert s + t == s;
    } else {
      var t' := t[..|t| - 1];
      assert (s + t)[..|s + t| - 1] == s + t';
      CountAtConcat(s, t', h, m);
    }
  }

  /** Only hour and minute matter: two times with the same clock minute are
      counted in exactly the same cells. */
  lemma SameClockMinuteSameCell(t1: DateTime, t2: DateTime, h: int, m: int)
    requires t1.hour == t2.hour && t1.minute == t2.minute
    ensures CountAt([t1], h, m) == CountAt([t2], h, m)
    ensures CountAt([t1], h, m) == (if h == t1.hour && m == t1.minute then 1 else 0)
  {
    assert [t1][..0] == [] && [t2][..0] == [];
  }

  /** One more timestamp adds 1 (with wrap-around) to its own cell only. */
  lemma CountStep(start: long, current: long, times: seq<DateTime>, i: int, h: int, m: int)
    requires 0 <= i < |times|
    requires current == Wrap(start as int + CountAt(times[..i], h, m))
    ensures (if h == times[i].hour && m == times[i].minute then AddLong(current, 1) else current)
      == Wrap(start as int + CountAt(times[..i + 1], h, m))
  {
    assert times[..i + 1][..i] == times[..i];
    var base := start as int + CountAt(times[..i], h, m);
    if h == times[i].hour && m == times[i].minute {
      WrapCongruent(Wrap(base) as int + 1, base + 1);
    }
  }

  class TimeCounter {
    /** `tweetTimes`, allocated once as `new long[HOURS][MINUTES]`. */
    const tweetTimes: array2<long>

    ghost predicate Valid()
      reads this
    {
      tweetTimes.Length0 == HOURS && tweetTimes.Length1 == MINUTES
    }

    /** A fresh counter: every cell is 0. */
    constructor ()
      ensures Valid() && fresh(tweetTimes)
      ensures forall h, m :: 0 <= h < HOURS && 0 <= m < MINUTES ==> tweetTimes[h, m] == 0
    {
      tweetTimes := new long[HOURS, MINUTES]((h, m) => 0);
    }

    /** `getTweetTimes`: the live matrix itself, not a copy. */
    method GetTweetTimes() returns (r: array2<long>)
      requires Valid()
      ensures r == tweetTimes && r.Length0 == HOURS && r.Length1 == MINUTES
    {
      r := tweetTimes;
    }

    /** `getTweetTimesAt`: the cell [hour][minute]; outside 0..23 x 0..59 the
        array access throws ArrayIndexOutOfBoundsException (None here). */
    method GetTweetTimesAt(hour: int, minute: int) returns (r: Option<long>)
      requires Valid()
      ensures r.Some? <==> 0 <= hour < HOURS && 0 <= minute < MINUTES
      ensures r.Some? ==> r.value == tweetTimes[hour, minute]
    {
      if 0 <= hour < HOURS && 0 <= minute < MINUTES {
        r := Some(tweetTimes[hour, minute]);
      } else {
        r := None;
      }
    }

    /** `addTweetTime`: `count` is added (with long wrap-around) to the cell of
        the time's hour and minute; every other cell is unchanged. */
    method AddTweetTime(time: DateTime, count: long)
      requires Valid()
      modifies tweetTimes
      ensures forall h, m :: 0 <= h < HOURS && 0 <= m < MINUTES ==>
        tweetTimes[h, m] == if h == time.hour && m == time.minute then AddLong(old(tweetTimes[h, m]), count) else old(tweetTimes[h, m])
    {
      tweetTimes[time.hour, time.minute] := AddLong(tweetTimes[time.hour, time.minute], count);
    }

    /** The counting loop of `addModel` once the timestamps have been read
        from the model: each one adds exactly 1 to its cell. */
    method AddTweetTimes(times: seq<DateTime>)
      requires Valid()
      modifies tweetTimes
      ensures forall h, m :: 0 <= h < HOURS && 0 <= m < MINUTES ==>
        tweetTimes[h, m] == Wrap(old(tweetTimes[h, m]) as int + CountAt(times, h, m))
    {
      var i := 0;
      while i < |times|
        invariant 0 <= i <= |times|
        invariant forall h, m :: 0 <= h < HOURS && 0 <= m < MINUTES ==>
          tweetTimes[h, m] == Wrap(old(tweetTimes[h, m]) as int + CountAt(times[..i], h, m))
      {
        label before:
        AddTweetTime(times[i], 1);
        forall h, m | 0 <= h < HOURS && 0 <= m < MINUTES
          ensures tweetTimes[h, m] == Wrap(old(tweetTimes[h, m]) as int + CountAt(times[..i + 1], h, m))
        {
          CountStep(old(tweetTimes[h, m]), old@before(tweetTimes[h, m]), times, i, h, m);
        }
        i := i + 1;
      }
      assert times[..|times|] == times;
    }
  }
}
