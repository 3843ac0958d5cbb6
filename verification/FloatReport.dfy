/** BackpressureSeconds as the snapshot reports it (pkg/controlplane/health.go): the accumulated and the running
    duration are converted to float64 seconds one by one and then added, with a rounding at every operation. The
    results hold for every rounding with the properties of IsRounding; float64 has them.
 */
module FloatReport {
  import opened Float64
  import opened Backpressure

  type Rounding = real -> real

  // ----- Duration.Seconds -----------------------------------------------------------------------

  function Whole(d: int): (n: int)
    ensures 0 <= d - 1_000_000_000 * n < 1_000_000_000
  {
    d / 1_000_000_000
  }

  /** The nanoseconds beyond the whole seconds, as a number of seconds. */
  function Fraction(d: int): (r: real)
    ensures 0.0 <= r < 1.0
  {
    (d - 1_000_000_000 * Whole(d)) as real / 1000000000.0
  }

  function InSeconds(d: int): real {
    d as real / 1000000000.0
  }

  lemma WholeAndFraction(d: int)
    ensures InSeconds(d) == Whole(d) as real + Fraction(d)
  {
    var rest := d - 1_000_000_000 * Whole(d);
    assert d as real == 1000000000.0 * Whole(d) as real + rest as real;
  }

  /** time.Duration.Seconds: the whole seconds plus the rounded fraction, rounded. */
  function Seconds(rnd: Rounding, d: int): real {
    rnd(Whole(d) as real + rnd(Fraction(d)))
  }

  /** The fraction rounds to at most one. */
  lemma SumBounds(rnd: Rounding, d: int)
    requires IsRounding(rnd) && 0 <= d <= MAX_DURATION
    ensures 0.0 <= rnd(Fraction(d)) <= 1.0
    ensures 0.0 <= Whole(d) as real + rnd(Fraction(d)) <= 9223372038.0
  {
    assert Ordered(rnd, Fraction(d), 1.0) && Ordered(rnd, 0.0, Fraction(d));
  }

  /** x = s + f, with f rounded to g and s + g to r. */
  lemma TwoRoundings(x: real, s: real, f: real, g: real, r: real)
    requires x == s + f && 0.0 <= f && 0.0 <= s && 0.0 <= g
    requires Within(g, f, 1.0) && Within(r, s + g, 1.0)
    ensures Within(r, x, 3.0)
  {
  }

  /** Two roundings lose at most three parts in 2^53. */
  lemma SecondsError(rnd: Rounding, d: int)
    requires IsRounding(rnd) && 0 <= d <= MAX_DURATION
    ensures Within(Seconds(rnd, d), InSeconds(d), 3.0) && 0.0 <= Seconds(rnd, d) <= 20000000000.0
  {
    SumBounds(rnd, d);
    WholeAndFraction(d);
    var f, s := Fraction(d), Whole(d) as real;
    assert Close(rnd, f) && Close(rnd, s + rnd(f));
    TwoRoundings(InSeconds(d), s, f, rnd(f), rnd(s + rnd(f)));
  }

  lemma SecondsMonotone(rnd: Rounding, d: int, e: int)
    requires IsRounding(rnd) && 0 <= d <= e <= MAX_DURATION
    ensures Seconds(rnd, d) <= Seconds(rnd, e)
  {
    SumBounds(rnd, d);
    SumBounds(rnd, e);
    var x, y := Whole(d) as real + rnd(Fraction(d)), Whole(e) as real + rnd(Fraction(e));
    if Whole(d) == Whole(e) {
      assert Fraction(d) <= Fraction(e);
      assert Ordered(rnd, Fraction(d), Fraction(e));
    } else {
      assert Whole(d) + 1 <= Whole(e);
    }
    assert Ordered(rnd, x, y);
  }

  // ----- The report -----------------------------------------------------------------------------

  function Report(rnd: Rounding, total: int, running: int): real {
    rnd(Seconds(rnd, total) + Seconds(rnd, running))
  }

  lemma ReportMonotone(rnd: Rounding, total: int, running: int, later: int)
    requires IsRounding(rnd) && 0 <= total <= MAX_DURATION && 0 <= running <= later <= MAX_DURATION
    ensures Report(rnd, total, running) <= Report(rnd, total, later)
  {
    SecondsError(rnd, total);
    SecondsError(rnd, running);
    SecondsError(rnd, later);
    SecondsMonotone(rnd, running, later);
    assert Ordered(rnd, Seconds(rnd, total) + Seconds(rnd, running), Seconds(rnd, total) + Seconds(rnd, later));
  }

  lemma SecondsOfZero(rnd: Rounding)
    requires IsRounding(rnd)
    ensures Seconds(rnd, 0) == 0.0
  {
    assert Whole(0) == 0 && Fraction(0) == 0.0;
  }

  /** With only one of the two durations the addition rounds nothing. */
  lemma ReportOfOne(rnd: Rounding, d: int)
    requires IsRounding(rnd) && 0 <= d <= MAX_DURATION
    ensures Report(rnd, d, 0) == Seconds(rnd, d) == Report(rnd, 0, d)
  {
    SecondsOfZero(rnd);
    SumBounds(rnd, d);
    var x := Whole(d) as real + rnd(Fraction(d));
    assert Fixed(rnd, x);
  }

  lemma SumOfErrors(x: real, a: real, y: real, b: real, r: real)
    requires 0.0 <= x && 0.0 <= y && Within(a, x, 3.0) && Within(b, y, 3.0) && Within(r, a + b, 1.0)
    ensures Within(r, x + y, 5.0)
  {
  }

  lemma ReportError(rnd: Rounding, total: int, running: int)
    requires IsRounding(rnd) && 0 <= total <= MAX_DURATION && 0 <= running <= MAX_DURATION
    ensures Within(Report(rnd, total, running), InSeconds(total + running), 5.0)
  {
    SecondsError(rnd, total);
    SecondsError(rnd, running);
    assert Close(rnd, Seconds(rnd, total) + Seconds(rnd, running));
    SumOfErrors(InSeconds(total), Seconds(rnd, total), InSeconds(running), Seconds(rnd, running),
                Report(rnd, total, running));
    assert InSeconds(total + running) == InSeconds(total) + InSeconds(running);
  }

  function Reported(rnd: Rounding, p: Pressure, now: int): real {
    Report(rnd, p.total, Elapsed(now, p.start))
  }

  /** A total that fits, and a start that is not in the future. */
  ghost predicate Sane(p: Pressure, now: int) {
    0 <= p.total <= MAX_DURATION && (p.start != 0 ==> 0 < p.start <= now)
  }

  lemma RunIsSane(h: seq<Observation>, now: int)
    requires Clocked(h) && LastTime(h) <= now
    ensures Sane(After(h), now)
  {
    PressureMeans(h, now);
  }

  // ----- When the report can fall ---------------------------------------------------------------

  /** Waiting never makes the report fall. */
  lemma FloatNeverFallsByWaiting(rnd: Rounding, h: seq<Observation>, now: int, later: int)
    requires IsRounding(rnd) && Clocked(h) && LastTime(h) <= now <= later
    ensures Reported(rnd, After(h), now) <= Reported(rnd, After(h), later)
  {
    RunIsSane(h, now);
    var p := After(h);
    ReportMonotone(rnd, p.total, Elapsed(now, p.start), Elapsed(later, p.start));
  }

  /** The total after pressure ends. */
  function Summed(total: int, running: int): int {
    Min(total + running, MAX_DURATION)
  }

  /** At the end of pressure the report is the seconds of the sum; alone, neither duration can make it fall. */
  lemma EndOfPressure(rnd: Rounding, p: Pressure, now: int)
    requires IsRounding(rnd) && Sane(p, now) && p.start != 0
    ensures var running := Elapsed(now, p.start);
            && Reported(rnd, Observe(p, now, false), now) == Seconds(rnd, Summed(p.total, running))
            && (p.total == 0 || running == 0 ==>
                  Seconds(rnd, Summed(p.total, running)) == Report(rnd, p.total, running))
  {
    var running := Elapsed(now, p.start);
    EndsWithSum(p, now);
    ReportOfOne(rnd, p.total);
    ReportOfOne(rnd, running);
    ReportOfOne(rnd, Summed(p.total, running));
  }

  lemma EndsWithSum(p: Pressure, now: int)
    requires Sane(p, now) && p.start != 0
    ensures var running := Elapsed(now, p.start);
            0 <= running <= MAX_DURATION && Observe(p, now, false) == Pressure(Summed(p.total, running), 0)
  {
  }

  /** Any other observation leaves the report as it is. */
  lemma OtherObservation(rnd: Rounding, p: Pressure, now: int, active: bool)
    requires active || p.start == 0
    ensures Reported(rnd, Observe(p, now, active), now) == Reported(rnd, p, now)
  {
  }

  /** An observation makes the report fall exactly when it ends pressure and the seconds of the sum are fewer than
      the rounded sum of the seconds; that takes an earlier stretch and a running one. */
  lemma FloatFallsIff(rnd: Rounding, h: seq<Observation>, now: int, active: bool)
    requires IsRounding(rnd) && Clocked(h) && LastTime(h) <= now
    ensures var p := After(h);
            var running := Elapsed(now, p.start);
            var falls := Reported(rnd, Observe(p, now, active), now) < Reported(rnd, p, now);
            && (falls <==>
                !active && p.start != 0 && Seconds(rnd, Summed(p.total, running)) < Report(rnd, p.total, running))
            && (falls ==> p.total > 0 && running > 0)
  {
    RunIsSane(h, now);
    var p := After(h);
    if active || p.start == 0 {
      OtherObservation(rnd, p, now, active);
    } else {
      EndOfPressure(rnd, p, now);
    }
  }

  // ----- Whole seconds --------------------------------------------------------------------------

  lemma SecondsOfWhole(n: nat)
    requires n <= 20_000_000_000
    ensures Seconds(RoundToFloat64, 1_000_000_000 * n) == n as real
  {
    Float64Rounds();
    WholeIsExact(n);
    assert Whole(1_000_000_000 * n) == n && Fraction(1_000_000_000 * n) == 0.0;
  }

  lemma ReportOfWhole(n: nat, m: nat)
    requires n <= 10_000_000_000 && m <= 10_000_000_000
    ensures Report(RoundToFloat64, 1_000_000_000 * n, 1_000_000_000 * m) == (n + m) as real
  {
    SecondsOfWhole(n);
    SecondsOfWhole(m);
    WholeIsExact(n + m);
  }

  lemma SecondsOfLongest()
    ensures Seconds(RoundToFloat64, MAX_DURATION) < 9223372037.0
  {
    Float64Rounds();
    SecondsError(RoundToFloat64, MAX_DURATION);
  }

  /** When the time accumulated and the time running are whole seconds, the float64 report falls only by overflow. */
  lemma WholeSecondsFallIff(h: seq<Observation>, now: int, active: bool)
    requires Clocked(h) && LastTime(h) <= now
    requires After(h).total % 1_000_000_000 == 0 && Elapsed(now, After(h).start) % 1_000_000_000 == 0
    ensures var p := After(h);
            Reported(RoundToFloat64, Observe(p, now, active), now) < Reported(RoundToFloat64, p, now) <==>
            !active && p.start != 0 && p.total + Elapsed(now, p.start) > MAX_DURATION
  {
    var p := After(h);
    var running := Elapsed(now, p.start);
    Float64Rounds();
    RunIsSane(h, now);
    FloatFallsIff(RoundToFloat64, h, now, active);
    WholeParts(p.total, running);
  }

  lemma WholeParts(total: int, running: int)
    requires 0 <= total <= MAX_DURATION && 0 <= running <= MAX_DURATION
    requires total % 1_000_000_000 == 0 && running % 1_000_000_000 == 0
    ensures Seconds(RoundToFloat64, Summed(total, running)) < Report(RoundToFloat64, total, running)
            <==> total + running > MAX_DURATION
  {
    var n, m := Whole(total), Whole(running);
    assert total == 1_000_000_000 * n && running == 1_000_000_000 * m;
    SummedWhole(n, m, total, running);
  }

  lemma SummedWhole(n: nat, m: nat, total: int, running: int)
    requires total == 1_000_000_000 * n && running == 1_000_000_000 * m
    requires total <= MAX_DURATION && running <= MAX_DURATION
    ensures Seconds(RoundToFloat64, Summed(total, running)) < Report(RoundToFloat64, total, running)
            <==> total + running > MAX_DURATION
  {
    ReportOfWhole(n, m);
    if total + running <= MAX_DURATION {
      SecondsOfWhole(n + m);
    } else {
      SecondsOfLongest();
      assert n + m >= 9223372037;
    }
  }

  // ----- How far it can fall --------------------------------------------------------------------

  ghost function ActiveSeconds(h: seq<Observation>, now: int): real {
    InSeconds(|ActiveInstants(h, now)|)
  }

  /** Below the bound the report is the time under pressure, up to five parts in 2^53. */
  lemma FloatNearActiveTime(rnd: Rounding, h: seq<Observation>, now: int)
    requires IsRounding(rnd) && Clocked(h) && LastTime(h) <= now && |ActiveInstants(h, now)| <= MAX_DURATION
    ensures Within(Reported(rnd, After(h), now), ActiveSeconds(h, now), 5.0)
  {
    RunIsSane(h, now);
    NanosAreActiveTime(h, now);
    var p := After(h);
    ReportError(rnd, p.total, Elapsed(now, p.start));
  }

  /** From r to s the report fell, if at all, by at most ten parts in 2^53 of x. */
  ghost predicate FellBy(r: real, s: real, x: real) {
    (r - s) * 9007199254740992.0 <= 10.0 * x
  }

  lemma TwoErrors(r: real, x: real, s: real, y: real)
    requires 0.0 <= x <= y && Within(r, x, 5.0) && Within(s, y, 5.0)
    ensures FellBy(r, s, x)
  {
  }

  /** A later report, whatever was observed in between, is smaller by at most ten parts in 2^53. */
  lemma FloatFallIsTiny(rnd: Rounding, h: seq<Observation>, now: int, more: seq<Observation>, later: int)
    requires IsRounding(rnd) && Clocked(h + more) && LastTime(h) <= now <= later && LastTime(h + more) <= later
    requires forall i :: 0 <= i < |more| ==> now <= more[i].time
    requires |ActiveInstants(h + more, later)| <= MAX_DURATION
    ensures FellBy(Reported(rnd, After(h), now), Reported(rnd, After(h + more), later), ActiveSeconds(h, now))
  {
    MoreInstants(h, now, more, later);
    FloatNearActiveTime(rnd, h, now);
    FloatNearActiveTime(rnd, h + more, later);
    TwoErrors(Reported(rnd, After(h), now), ActiveSeconds(h, now),
              Reported(rnd, After(h + more), later), ActiveSeconds(h + more, later));
  }

  // ----- It does fall ---------------------------------------------------------------------------

  /** The spacing of float64 values just above 0.0625; it doubles at 0.125 and at 0.25. */
  const SPACING: real := 1.0 / 72057594037927936.0

  lemma Spacings()
    ensures Half(TOP, 68) == SPACING && Half(TOP, 67) == 2.0 * SPACING && Half(TOP, 66) == 4.0 * SPACING
  {
    assert Pow2(11) == 2048;
    Pow2Sum(11, 11);
    Pow2Sum(22, 11);
    Pow2Sum(33, 33);
    assert Pow2(66) == 73786976294838206464;
    assert Pow2(67) == 2 * Pow2(66) && Pow2(68) == 2 * Pow2(67);
    HalfTimesPow(TOP, 66);
    HalfTimesPow(TOP, 67);
    HalfTimesPow(TOP, 68);
  }

  lemma OneTenth()
    ensures RoundToFloat64(0.1) == 7205759403792794.0 * SPACING
  {
    Spacings();
    RoundAt(0.1, 68);
    SnapNear(0.1, 7205759403792794, SPACING);
  }

  lemma TwoTenths()
    ensures RoundToFloat64(0.2) == 14411518807585588.0 * SPACING
  {
    Spacings();
    RoundAt(0.2, 67);
    SnapNear(0.2, 7205759403792794, 2.0 * SPACING);
  }

  lemma ThreeTenths()
    ensures RoundToFloat64(0.3) == 21617278211378380.0 * SPACING
  {
    Spacings();
    RoundAt(0.3, 66);
    SnapNear(0.3, 5404319552844595, 4.0 * SPACING);
  }

  /** The sum of the two is half-way between two values, and the even one is the larger. */
  lemma SumOfTenths()
    ensures RoundToFloat64(21617278211378382.0 * SPACING) == 21617278211378384.0 * SPACING
  {
    var x := 21617278211378382.0 * SPACING;
    Spacings();
    RoundAt(x, 66);
    QuotientIs(x, 4.0 * SPACING, 5404319552844595.5);
    assert Nearest(5404319552844595.5) == 5404319552844596;
  }

  lemma SecondsBelowOne(rnd: Rounding, d: int)
    requires IsRounding(rnd) && 0 <= d < 1_000_000_000
    ensures Seconds(rnd, d) == rnd(InSeconds(d))
  {
    assert Whole(d) == 0 && Fixed(rnd, Fraction(d));
  }

  /** 100 ms before and 200 ms running are reported as 0.30000000000000004 s, 300 ms as 0.3 s. */
  lemma TenthPlusTwoTenths(rnd: Rounding)
    requires IsRounding(rnd)
    requires rnd(0.1) == 7205759403792794.0 * SPACING && rnd(0.2) == 14411518807585588.0 * SPACING
    requires rnd(0.3) == 21617278211378380.0 * SPACING
    requires rnd(21617278211378382.0 * SPACING) == 21617278211378384.0 * SPACING
    ensures Seconds(rnd, 300_000_000) < Report(rnd, 100_000_000, 200_000_000)
  {
    SecondsBelowOne(rnd, 100_000_000);
    SecondsBelowOne(rnd, 200_000_000);
    SecondsBelowOne(rnd, 300_000_000);
  }

  lemma FallingRun() returns (h: seq<Observation>)
    ensures Clocked(h) && LastTime(h) == 100_000_001 && After(h) == Pressure(100_000_000, 100_000_001)
  {
    var a, b, c := Observation(1, true), Observation(100_000_001, false), Observation(100_000_001, true);
    h := [a, b, c];
    assert [a][..0] == [] && [a, b][..1] == [a] && h[..2] == [a, b];
    assert Clocked([]) && Clocked([a]) && Clocked([a, b]);
    assert After([a]) == Pressure(0, 1);
    assert After([a, b]) == Pressure(100_000_000, 0);
  }

  /** A run with a good clock, far below the bound, whose report falls when pressure ends. */
  lemma FloatFalls() returns (h: seq<Observation>, now: int)
    ensures Clocked(h) && LastTime(h) <= now
    ensures Reported(RoundToFloat64, Observe(After(h), now, false), now) < Reported(RoundToFloat64, After(h), now)
    ensures ReportedNanos(Observe(After(h), now, false), now) == ReportedNanos(After(h), now) == 300_000_000
  {
    h := FallingRun();
    now := 300_000_001;
    Float64Rounds();
    OneTenth();
    TwoTenths();
    ThreeTenths();
    SumOfTenths();
    TenthPlusTwoTenths(RoundToFloat64);
    FloatFallsIff(RoundToFloat64, h, now, false);
  }
}
