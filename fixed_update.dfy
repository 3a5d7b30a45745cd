/**
 * The fixed-update provider: it turns frames of varying duration into a steady
 * rate of fixed updates. Each frame adds the frame's duration to the time
 * elapsed since the last fixed update, then fires one fixed update per whole
 * interval and keeps the remainder for the next frame.
 */
module FixedUpdate {
  /** A frame's outcome: how many fixed updates fired, and the time carried over. */
  datatype Fired = Fired(ticks: nat, elapsed: real)

  /** Dividing by a positive real and multiplying back gives the number again. */
  lemma DivThenMul(x: real, d: real)
    requires 0.0 < d
    ensures (x / d) * d == x
  {
  }

  /** Multiplying by a positive real keeps an order, strict or not. */
  lemma MulPosMono(a: real, b: real, d: real)
    requires 0.0 < d
    ensures a <= b ==> a * d <= b * d
    ensures a < b ==> a * d < b * d
  {
    assert b * d - a * d == (b - a) * d;
  }

  /** n whole intervals fit in total and n + 1 do not, when n is Floor(total / interval). */
  lemma FloorSplit(total: real, interval: real)
    requires 0.0 < interval
    ensures var n := (total / interval).Floor;
      n as real * interval <= total < n as real * interval + interval
  {
    var q := total / interval;
    var n := q.Floor;
    assert n as real <= q < n as real + 1.0;
    DivThenMul(total, interval);
    MulPosMono(n as real, q, interval);
    MulPosMono(q, n as real + 1.0, interval);
    calc {
      n as real * interval;
    <= q * interval;
    == total;
    }
    calc {
      total;
    == q * interval;
    < (n as real + 1.0) * interval;
    == n as real * interval + interval;
    }
  }

  /**
   * The outcome of a frame of length delta, when elapsed was carried over and
   * fixed updates are interval apart: the whole intervals in the total fire,
   * the remainder is carried.
   */
  function Fire(elapsed: real, delta: real, interval: real): (r: Fired)
    requires 0.0 < interval
    ensures r.ticks as real * interval + r.elapsed == elapsed + delta
    ensures r.elapsed < interval
    ensures 0.0 <= elapsed + delta ==> 0.0 <= r.elapsed
    ensures elapsed + delta < interval ==> r == Fired(0, elapsed + delta)
  {
    var total := elapsed + delta;
    if total < interval then Fired(0, total)
    else
      var n := (total / interval).Floor;
      FloorSplit(total, interval);
      Fired(n, total - n as real * interval)
  }

  /** The fixed updates and the carried time after a run of frames. */
  function Run(elapsed: real, deltas: seq<real>, interval: real): Fired
    requires 0.0 < interval
    decreases |deltas|
  {
    if deltas == [] then Fired(0, elapsed)
    else
      var before := Run(elapsed, deltas[..|deltas| - 1], interval);
      var last := Fire(before.elapsed, deltas[|deltas| - 1], interval);
      Fired(before.ticks + last.ticks, last.elapsed)
  }

  /** The total length of a run of frames. */
  function Total(deltas: seq<real>): real
    decreases |deltas|
  {
    if deltas == [] then 0.0 else Total(deltas[..|deltas| - 1]) + deltas[|deltas| - 1]
  }

  /** Floor(total / interval) is the most whole intervals that fit in total. */
  lemma FloorIsLargest(total: real, interval: real, k: int)
    requires 0.0 < interval && k as real * interval <= total
    ensures k <= (total / interval).Floor
  {
    var m := (total / interval).Floor;
    FloorSplit(total, interval);
    if m < k {
      MulPosMono(m as real + 1.0, k as real, interval);
      calc {
        total;
      < m as real * interval + interval;
      == (m as real + 1.0) * interval;
      <= k as real * interval;
      }
    }
  }

  /** No more than Floor(total / interval) whole intervals fit in total. */
  lemma FloorIsBelow(total: real, interval: real, k: int)
    requires 0.0 < interval && total < k as real * interval
    ensures (total / interval).Floor < k
  {
    var m := (total / interval).Floor;
    FloorSplit(total, interval);
    if k <= m {
      MulPosMono(k as real, m as real, interval);
    }
  }

  /**
   * n is the number of whole intervals in total, and rest what is left: the
   * split is unique, so it is Floor(total / interval).
   */
  lemma WholeIntervals(total: real, interval: real, n: int, rest: real)
    requires 0.0 < interval && 0.0 <= rest < interval
    requires n as real * interval + rest == total
    ensures n == (total / interval).Floor
  {
    FloorIsLargest(total, interval, n);
    assert total < (n + 1) as real * interval by {
      assert (n + 1) as real * interval == n as real * interval + interval;
    }
    FloorIsBelow(total, interval, n + 1);
  }

  /**
   * r fired the whole intervals in total and carries the remainder, which is
   * less than one interval and not negative.
   */
  ghost predicate FiresWhole(r: Fired, total: real, interval: real)
    requires 0.0 < interval
  {
    && r.ticks == (total / interval).Floor
    && r.ticks as real * interval + r.elapsed == total
    && 0.0 <= r.elapsed < interval
  }

  /**
   * Fixed updates fired over two spans add up: when the first span fired its
   * whole intervals and the second starts from what the first carried, the two
   * together fired the whole intervals of both.
   */
  lemma CarryOver(ticks: nat, carried: real, more: nat, rest: real, first: real, delta: real, interval: real)
    requires 0.0 < interval && 0.0 <= rest
    requires FiresWhole(Fired(ticks, carried), first, interval)
    requires Fire(carried, delta, interval) == Fired(more, rest)
    ensures FiresWhole(Fired(ticks + more, rest), first + delta, interval)
  {
    assert (ticks + more) as real * interval == ticks as real * interval + more as real * interval;
    WholeIntervals(first + delta, interval, ticks + more, rest);
  }

  /**
   * Fire is the only split of a frame's total into fired intervals and a carried
   * remainder below one interval, where the remainder is negative only if
   * nothing fired.
   */
  lemma FireIsUnique(elapsed: real, delta: real, interval: real, ticks: nat, rest: real)
    requires 0.0 < interval && rest < interval
    requires ticks as real * interval + rest == elapsed + delta
    requires ticks > 0 ==> 0.0 <= rest
    ensures Fire(elapsed, delta, interval) == Fired(ticks, rest)
  {
    if ticks > 0 {
      var total := elapsed + delta;
      WholeIntervals(total, interval, ticks, rest);
      assert 1.0 <= ticks as real;
      MulPosMono(1.0, ticks as real, interval);
      calc {
        interval;
      == 1.0 * interval;
      <= ticks as real * interval;
      <= total;
      }
      assert total - ticks as real * interval == rest;
    }
  }

  /**
   * The rate is independent of how time is split into frames: from a fresh
   * start, a run of frames of non-negative length fires exactly the whole
   * intervals in its total length, and carries the remainder.
   */
  lemma {:induction false} RunFiresWholeIntervals(deltas: seq<real>, interval: real)
    requires 0.0 < interval
    requires forall i :: 0 <= i < |deltas| ==> 0.0 <= deltas[i]
    ensures FiresWhole(Run(0.0, deltas, interval), Total(deltas), interval)
    decreases |deltas|
  {
    if deltas == [] {
      WholeIntervals(0.0, interval, 0, 0.0);
    } else {
      var front := deltas[..|deltas| - 1];
      RunFiresWholeIntervals(front, interval);
      var before := Run(0.0, front, interval);
      var d := deltas[|deltas| - 1];
      var last := Fire(before.elapsed, d, interval);
      assert 0.0 <= last.elapsed by {
        assert 0.0 <= d;
      }
      CarryOver(before.ticks, before.elapsed, last.ticks, last.elapsed, Total(front), d, interval);
    }
  }

  class FixedUpdateProvider {
    /** Whether fixed updates fire at all: a framerate of zero makes the interval infinite. */
    const ticking: bool
    /** The interval between fixed updates, in milliseconds. */
    const interval: real
    /** The time since the last fixed update, in milliseconds. */
    var elapsed: real

    ghost predicate Valid()
      reads this
    {
      ticking ==> 0.0 < interval
    }

    /** A provider for framerate fixed updates per second. */
    constructor (framerate: real)
      requires 0.0 <= framerate
      ensures Valid() && elapsed == 0.0
      ensures ticking <==> 0.0 < framerate
      ensures ticking ==> interval == 1000.0 / framerate
    {
      ticking := 0.0 < framerate;
      interval := if 0.0 < framerate then 1000.0 / framerate else 0.0;
      elapsed := 0.0;
    }

    /**
     * The before-render handler: adds the frame's duration, then fires a fixed
     * update and takes one interval off for as long as a whole interval has
     * elapsed. Returns the number of fixed updates fired.
     */
    method Frame(delta: real) returns (ticks: nat)
      requires Valid()
      modifies this
      ensures Valid()
      ensures ticking ==> Fired(ticks, elapsed) == Fire(old(elapsed), delta, interval)
      ensures !ticking ==> ticks == 0 && elapsed == old(elapsed) + delta
    {
      elapsed := elapsed + delta;
      ticks := 0;
      if !ticking {
        return;
      }
      ghost var total := elapsed;
      ghost var whole := (total / interval).Floor;
      while elapsed >= interval
        invariant ticks as real * interval + elapsed == total
        invariant ticks > 0 ==> 0.0 <= elapsed
        invariant ticks <= whole || elapsed < interval
        decreases whole - ticks
      {
        assert (ticks + 1) as real * interval == ticks as real * interval + interval;
        FloorIsLargest(total, interval, ticks + 1);
        elapsed := elapsed - interval;
        ticks := ticks + 1;
      }
      FireIsUnique(old(elapsed), delta, interval, ticks, elapsed);
    }
  }
}
