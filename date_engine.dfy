/** The "current week" indicator: whole days elapsed since the start date, whole weeks
    elapsed, plus one, clamped to the curriculum's range. Times are integer milliseconds;
    turning the stored date string into milliseconds and reading the clock are done by the
    caller. */
module DateEngine {
  import opened Wrappers

  /** Milliseconds in a day, written as the source builds it. */
  const MsPerDay: int := 1000 * 60 * 60 * 24
  const DaysPerWeek: int := 7
  /** The clamp bounds; the upper one is a literal 10, not the catalog's length. */
  const FirstWeek: int := 1
  const LastWeek: int := 10

  /** `Math.floor(a / b)` for a positive divisor: the greatest q with b * q <= a. */
  function FloorDiv(a: int, b: int): (q: int)
    requires b > 0
    ensures b * q <= a < b * q + b
  {
    a / b
  }

  /** Week number for a start and a current time, both in milliseconds. */
  function WeekAt(start: int, now: int): (w: int)
    ensures FirstWeek <= w <= LastWeek
  {
    var diffDays := FloorDiv(now - start, MsPerDay);
    var week := FloorDiv(diffDays, DaysPerWeek) + 1;
    if week < FirstWeek then FirstWeek
    else if week > LastWeek then LastWeek
    else week
  }

  /** A start date counts as set when the record is present and not the empty string
      (the source tests the stored value for truthiness). */
  predicate StartDateSet(startDate: Option<string>) {
    startDate.Some? && startDate.value != ""
  }

  /** The current week for the stored start date, or None when no start date is set.
      `dateMs` gives the millisecond value of a stored date string; `now` is the clock. */
  function CurrentWeek(startDate: Option<string>, dateMs: string -> int, now: int): (r: Option<int>)
    ensures r.None? <==> !StartDateSet(startDate)
    ensures r.Some? ==> FirstWeek <= r.value <= LastWeek
  {
    if !StartDateSet(startDate) then None
    else Some(WeekAt(dateMs(startDate.value), now))
  }

  // ---------------------------------------------------------------------------
  // Reference definition: whole weeks elapsed, counted in milliseconds directly.

  const MsPerWeek: int := DaysPerWeek * MsPerDay

  /** Flooring to days and then to weeks is flooring to weeks. */
  lemma FloorDivTwice(a: int, b: int, c: int)
    requires b > 0 && c > 0
    ensures FloorDiv(FloorDiv(a, b), c) == FloorDiv(a, b * c)
  {
    var q := FloorDiv(a, b);
    var q2 := FloorDiv(q, c);
    // c * q2 <= q <= c * q2 + c - 1
    assert b * (c * q2) <= b * q by { MulLeftMono(b, c * q2, q); }
    assert b * q <= b * (c * q2 + c - 1) by { MulLeftMono(b, q, c * q2 + c - 1); }
    assert b * (c * q2 + c - 1) + b == (b * c) * q2 + b * c;
    assert (b * c) * q2 <= a < (b * c) * q2 + b * c;
    FloorDivUnique(a, b * c, q2);
  }

  lemma MulLeftMono(b: int, x: int, y: int)
    requires b > 0 && x <= y
    ensures b * x <= b * y
  {
    assert b * y - b * x == b * (y - x);
  }

  /** The bounds of `FloorDiv` determine it. */
  lemma FloorDivUnique(a: int, b: int, q: int)
    requires b > 0
    requires b * q <= a < b * q + b
    ensures FloorDiv(a, b) == q
  {
    var r := FloorDiv(a, b);
    if r < q {
      MulLeftMono(b, r + 1, q);
      assert false;
    } else if r > q {
      MulLeftMono(b, q + 1, r);
      assert false;
    }
  }

  /** At least m whole divisors fit in a exactly when a reaches m of them. */
  lemma FloorDivAtLeast(a: int, b: int, m: int)
    requires b > 0
    ensures FloorDiv(a, b) >= m <==> a >= m * b
  {
    var q := FloorDiv(a, b);
    if q >= m {
      MulLeftMono(b, m, q);
    } else {
      MulLeftMono(b, q + 1, m);
    }
  }

  /** Flooring preserves order. */
  lemma FloorDivMono(a1: int, a2: int, b: int)
    requires b > 0 && a1 <= a2
    ensures FloorDiv(a1, b) <= FloorDiv(a2, b)
  {
    var q1, q2 := FloorDiv(a1, b), FloorDiv(a2, b);
    if q1 > q2 {
      MulLeftMono(b, q2 + 1, q1);
      assert false;
    }
  }

  /** The week number is the number of whole weeks elapsed plus one, clamped to 1..10. */
  lemma WeekAtIsElapsedWeeks(start: int, now: int)
    ensures var k := FloorDiv(now - start, MsPerWeek) + 1;
            WeekAt(start, now) == if k < FirstWeek then FirstWeek else if k > LastWeek then LastWeek else k
  {
    FloorDivTwice(now - start, MsPerDay, DaysPerWeek);
    assert MsPerDay * DaysPerWeek == MsPerWeek;
  }

  /** Which week is current, stated on the elapsed time alone: week 1 until seven days
      have passed (including any time before the start), week w while between w - 1 and w
      whole weeks have passed, and week 10 from nine whole weeks on. */
  lemma WeekAtByElapsed(start: int, now: int, w: int)
    requires FirstWeek <= w <= LastWeek
    ensures WeekAt(start, now) == w <==>
      (w == FirstWeek || (w - 1) * MsPerWeek <= now - start) &&
      (w == LastWeek || now - start < w * MsPerWeek)
  {
    WeekAtIsElapsedWeeks(start, now);
    FloorDivAtLeast(now - start, MsPerWeek, w - 1);
    FloorDivAtLeast(now - start, MsPerWeek, w);
  }

  /** For a fixed start date the current week never goes back as time advances. */
  lemma WeekAtMonotone(start: int, now1: int, now2: int)
    requires now1 <= now2
    ensures WeekAt(start, now1) <= WeekAt(start, now2)
  {
    FloorDivMono(now1 - start, now2 - start, MsPerDay);
    FloorDivMono(FloorDiv(now1 - start, MsPerDay), FloorDiv(now2 - start, MsPerDay), DaysPerWeek);
  }

  /** A start date in the future gives week 1. */
  lemma WeekAtBeforeStart(start: int, now: int)
    requires now < start
    ensures WeekAt(start, now) == FirstWeek
  {
    FloorDivMono(now - start, -1, MsPerDay);
    assert FloorDiv(-1, MsPerDay) == -1;
    FloorDivMono(FloorDiv(now - start, MsPerDay), -1, DaysPerWeek);
    assert FloorDiv(-1, DaysPerWeek) == -1;
  }

  /** Concrete cases: on the start day, fourteen days in, and a hundred days in. */
  lemma WeekAtExamples(start: int)
    ensures WeekAt(start, start) == 1
    ensures WeekAt(start, start + 14 * MsPerDay) == 3
    ensures WeekAt(start, start + 100 * MsPerDay) == 10
  {
  }
}
