/**
 * useClock: a tick counter driven by animation frames. Time is exact `real`
 * milliseconds here; the source computes in IEEE-754 doubles.
 */
module Clock {
  import opened Wrappers

  /** The subdivisions the clock accepts. */
  predicate ValidDivision(division: string)
  {
    division == "1/32" || division == "1/16" || division == "1/8" || division == "1/4"
  }

  /** The whole number a string of decimal digits spells, as `Number` reads it. */
  function Decimal(digits: string): nat
    requires forall i :: 0 <= i < |digits| ==> '0' <= digits[i] <= '9'
    decreases |digits|
  {
    if digits == [] then 0
    else Decimal(digits[..|digits| - 1]) * 10 + (digits[|digits| - 1] as int - '0' as int)
  }

  /** The numerator of an accepted division: the text before the '/'. */
  function Numerator(division: string): nat
    requires ValidDivision(division)
  {
    Decimal(division[..1])
  }

  /** The denominator of an accepted division: the text after the '/'. */
  function Denominator(division: string): nat
    requires ValidDivision(division)
  {
    Decimal(division[2..])
  }

  /** getDivisionValue: the fraction a division string names, numerator over denominator. */
  function DivisionValue(division: string): (v: real)
    requires ValidDivision(division)
    ensures v * Denominator(division) as real == Numerator(division) as real
    ensures 0.0 < v <= 0.25
    ensures division == "1/4" ==> v == 0.25
  {
    assert Numerator(division) == 1 by {
      assert division[..1] == "1" && "1"[..0] == [];
    }
    if division == "1/32" then
      assert Denominator(division) == 32 by {
        assert division[2..] == "32" && "32"[..1] == "3" && "3"[..0] == [];
      }
      1.0 / 32.0
    else if division == "1/16" then
      assert Denominator(division) == 16 by {
        assert division[2..] == "16" && "16"[..1] == "1" && "1"[..0] == [];
      }
      1.0 / 16.0
    else if division == "1/8" then
      assert Denominator(division) == 8 by {
        assert division[2..] == "8" && "8"[..0] == [];
      }
      1.0 / 8.0
    else
      assert Denominator(division) == 4 by {
        assert division[2..] == "4" && "4"[..0] == [];
      }
      1.0 / 4.0
  }

  /**
   * getIntervalMs: the length of one tick, a minute divided by the tempo,
   * scaled by the division; that is, `bpm` ticks of it fill the division's
   * share of a minute.
   */
  function IntervalMs(bpm: real, division: string): (ms: real)
    requires bpm != 0.0 && ValidDivision(division)
    ensures ms * bpm == 60000.0 * DivisionValue(division)
    ensures bpm > 0.0 ==> ms > 0.0
  {
    var minute := 60000.0 / bpm;
    assert minute * bpm == 60000.0;
    minute * DivisionValue(division)
  }

  /**
   * The interval is inversely proportional to the tempo: a tempo `k` times
   * faster gives ticks `k` times shorter.
   */
  lemma {:induction false} IntervalInverseToTempo(bpm: real, k: real, division: string)
    requires bpm > 0.0 && k > 0.0 && ValidDivision(division)
    ensures IntervalMs(bpm * k, division) * k == IntervalMs(bpm, division)
  {
    var d := DivisionValue(division);
    var minute := 60000.0 / bpm;
    assert 60000.0 / (bpm * k) * k == minute by {
      assert 60000.0 / (bpm * k) * (bpm * k) == 60000.0;
      assert minute * bpm == 60000.0;
    }
    calc {
      IntervalMs(bpm * k, division) * k;
      (60000.0 / (bpm * k)) * d * k;
      (60000.0 / (bpm * k) * k) * d;
      minute * d;
    }
  }

  /** With the hook's defaults, 120 bpm and quarter notes, a tick lasts 125 ms. */
  lemma DefaultInterval()
    ensures IntervalMs(120.0, "1/4") == 125.0
  {
  }

  /**
   * The tick count after `elapsed` ms: `floor(elapsed / intervalMs)`. At 0 bpm
   * the interval is infinite and the quotient rounds to zero.
   */
  function TicksAt(elapsed: real, bpm: real, division: string): (ticks: int)
    requires ValidDivision(division)
    ensures bpm > 0.0 ==> ticks as real * IntervalMs(bpm, division) <= elapsed < (ticks + 1) as real * IntervalMs(bpm, division)
  {
    if bpm == 0.0 then 0
    else
      var interval := IntervalMs(bpm, division);
      var ticks := (elapsed / interval).Floor;
      FloorScaled(elapsed, interval, ticks);
      ticks
  }

  /** `floor(x / interval)` whole intervals fit in `x`, and one more does not. */
  lemma FloorScaled(x: real, interval: real, ticks: int)
    requires interval != 0.0 && ticks == (x / interval).Floor
    ensures interval > 0.0 ==> ticks as real * interval <= x < (ticks + 1) as real * interval
  {
    if interval > 0.0 {
      FloorScaledBelow(x, interval, ticks);
      FloorScaledAbove(x, interval, ticks);
    }
  }

  lemma FloorScaledBelow(x: real, interval: real, ticks: int)
    requires interval > 0.0 && ticks == (x / interval).Floor
    ensures ticks as real * interval <= x
  {
    var q := x / interval;
    var lo := ticks as real;
    assert lo <= q;
    assert q * interval == x;
    assert lo * interval <= q * interval;
  }

  lemma FloorScaledAbove(x: real, interval: real, ticks: int)
    requires interval > 0.0 && ticks == (x / interval).Floor
    ensures x < (ticks + 1) as real * interval
  {
    var q := x / interval;
    var hi := (ticks + 1) as real;
    assert q < hi;
    assert q * interval == x;
    assert q * interval < hi * interval;
    assert x < hi * interval;
  }

  lemma ScaleLe(a: real, b: real, c: real)
    requires a <= b && c > 0.0
    ensures a * c <= b * c
  {
  }

  /** The first frame is the anchor, so the first tick computed is 0. */
  lemma FirstTickIsZero(bpm: real, division: string)
    requires ValidDivision(division)
    ensures TicksAt(0.0, bpm, division) == 0
  {
  }

  /** With a positive tempo, more elapsed time never gives fewer ticks. */
  lemma {:induction false} TicksMonotone(e1: real, e2: real, bpm: real, division: string)
    requires ValidDivision(division) && bpm > 0.0 && e1 <= e2
    ensures TicksAt(e1, bpm, division) <= TicksAt(e2, bpm, division)
  {
    var interval := IntervalMs(bpm, division);
    var t1, t2 := TicksAt(e1, bpm, division), TicksAt(e2, bpm, division);
    if t2 < t1 {
      assert (t2 + 1) as real <= t1 as real;
      ScaleLe((t2 + 1) as real, t1 as real, interval);
      assert false;
    }
  }

  /** The hook's state: the published counter, the start anchor and the pending frame request. */
  class Clock {
    const bpm: real
    const division: string
    var counter: int
    var start: Option<real>
    var scheduled: bool
    /** Every value handed to `setCounter`, in order. */
    ghost var published: seq<int>
    /** The timestamp of the last frame that ran. */
    ghost var lastStamp: real

    ghost predicate Valid()
      reads this
    {
      && (scheduled ==> ValidDivision(division))
      && (start.None? ==> counter == 0)
      && (start.Some? && ValidDivision(division) ==> counter == TicksAt(lastStamp - start.value, bpm, division))
      && (published != [] ==> published[|published| - 1] == counter)
    }

    /**
     * Mounting: the counter starts at 0 with no anchor. The effect requests a
     * first frame only when the division is one of the accepted ones; for any
     * other division nothing is scheduled and the counter never moves.
     */
    constructor (bpm: real, division: string)
      ensures Valid() && this.bpm == bpm && this.division == division
      ensures counter == 0 && start == None && published == []
      ensures scheduled == ValidDivision(division)
    {
      this.bpm := bpm;
      this.division := division;
      counter := 0;
      start := None;
      scheduled := ValidDivision(division);
      published := [];
      lastStamp := 0.0;
    }

    /**
     * `tick` at a frame's timestamp: anchor the start on the first frame,
     * compute the ticks since the anchor, publish them only if they differ from
     * the counter, and request the next frame.
     */
    method Frame(timestamp: real)
      requires Valid()
      modifies this
      ensures Valid() && scheduled == old(scheduled)
      ensures !scheduled ==> counter == old(counter) && start == old(start) && published == old(published)
      ensures scheduled ==> start == (if old(start).None? then Some(timestamp) else old(start))
      ensures scheduled ==> counter == TicksAt(timestamp - start.value, bpm, division)
      ensures scheduled ==> published == old(published) + (if counter != old(counter) then [counter] else [])
      ensures scheduled && old(start).None? ==> counter == 0
      ensures scheduled && old(start).Some? && bpm > 0.0 && old(lastStamp) <= timestamp ==> old(counter) <= counter
    {
      if !scheduled {
        return;
      }
      if start.None? {
        start := Some(timestamp);
      }
      var ticks := TicksAt(timestamp - start.value, bpm, division);
      if ticks != counter {
        counter := ticks;
        published := published + [ticks];
      }
      if old(start).Some? && bpm > 0.0 && old(lastStamp) <= timestamp {
        TicksMonotone(old(lastStamp) - start.value, timestamp - start.value, bpm, division);
      }
      lastStamp := timestamp;
    }

    /** `reset`: drop the anchor so the next frame re-anchors, and publish 0. */
    method Reset()
      requires Valid()
      modifies this
      ensures Valid() && scheduled == old(scheduled)
      ensures start == None && counter == 0
      ensures published == old(published) + [0]
    {
      start := None;
      counter := 0;
      published := published + [0];
    }

    /** Unmounting cancels the pending frame: no tick runs afterwards. */
    method Teardown()
      requires Valid()
      modifies this
      ensures Valid() && !scheduled
      ensures counter == old(counter) && start == old(start) && published == old(published)
    {
      scheduled := false;
    }
  }
}
