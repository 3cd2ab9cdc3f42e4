/** Online statistics of free-running 32-bit tick counters: the one-pass mean and
    variance update, and the sampling loop that feeds it. Floating point is taken as
    exact; the counters and the 64-bit total wrap explicitly. */
module TickStats {
  import opened Basics

  const COUNTERS: nat := 4
  const U32: nat := 0x1_0000_0000
  const U64: nat := 0x1_0000_0000_0000_0000

  // Minimum and maximum start at plus and minus infinity, written None.
  datatype Stats = Stats(samples: nat, total: nat, mean: real, m2: real, minimum: Option<real>, maximum: Option<real>)

  const EMPTY := Stats(0, 0, 0.0, 0.0, None, None)

  function Added(s: Stats, ticks: nat, rate: real): Stats {
    var n := s.samples + 1;
    var delta := rate - s.mean;
    var mean := s.mean + delta / n as real;
    Stats(n, (s.total + ticks) % U64, mean, s.m2 + delta * (rate - mean),
          if s.minimum == None || rate < s.minimum.value then Some(rate) else s.minimum,
          if s.maximum == None || rate > s.maximum.value then Some(rate) else s.maximum)
  }

  // ----- definitions of what is being computed -----

  function Sum(xs: seq<real>): real {
    if xs == [] then 0.0 else Sum(xs[..|xs| - 1]) + xs[|xs| - 1]
  }

  // The sum of deviations from c: zero exactly at the mean.
  function Excess(xs: seq<real>, c: real): real {
    if xs == [] then 0.0 else Excess(xs[..|xs| - 1], c) + (xs[|xs| - 1] - c)
  }

  // The sum of squared deviations from c.
  function Deviation(xs: seq<real>, c: real): real {
    if xs == [] then 0.0 else Deviation(xs[..|xs| - 1], c) + (xs[|xs| - 1] - c) * (xs[|xs| - 1] - c)
  }

  ghost predicate Least(xs: seq<real>, m: Option<real>) {
    if m == None then xs == [] else m.value in xs && forall x :: x in xs ==> m.value <= x
  }

  ghost predicate Greatest(xs: seq<real>, m: Option<real>) {
    if m == None then xs == [] else m.value in xs && forall x :: x in xs ==> x <= m.value
  }

  predicate MeanOf(xs: seq<real>, m: real) { Sum(xs) == m * |xs| as real }

  ghost predicate Moments(xs: seq<real>, n: nat, mean: real, m2: real) {
    n == |xs| && Excess(xs, mean) == 0.0 && m2 == Deviation(xs, mean)
  }

  /** The statistics are those of the rates xs by definition. */
  ghost predicate Describes(s: Stats, xs: seq<real>) {
    Moments(xs, s.samples, s.mean, s.m2) && Least(xs, s.minimum) && Greatest(xs, s.maximum)
  }

  // ----- the one-pass update -----

  lemma {:induction false} BalancedIsMean(xs: seq<real>, c: real)
    ensures Excess(xs, c) == Sum(xs) - c * |xs| as real
  {
    if xs != [] {
      var n := |xs| - 1;
      BalancedIsMean(xs[..n], c);
      assert c * |xs| as real == c * n as real + c;
    }
  }

  lemma {:induction false} Snoc(xs: seq<real>, x: real, c: real)
    ensures Excess(xs + [x], c) == Excess(xs, c) + (x - c)
    ensures Deviation(xs + [x], c) == Deviation(xs, c) + (x - c) * (x - c)
  {
    assert (xs + [x])[..|xs|] == xs;
  }

  // Moving the centre by h.
  lemma {:induction false} ExcessShifts(xs: seq<real>, c: real, h: real)
    ensures Excess(xs, c - h) == Excess(xs, c) + |xs| as real * h
  {
    if xs != [] {
      var n := |xs| - 1;
      ExcessShifts(xs[..n], c, h);
      assert |xs| as real * h == n as real * h + h;
    }
  }

  function Moved(d: real, e: real, n: nat, h: real): real { d + 2.0 * h * e + n as real * h * h }

  lemma MovedStep(d: real, e: real, n: nat, h: real, y: real)
    ensures Moved(d, e, n, h) + (y + h) * (y + h) == Moved(d + y * y, e + y, n + 1, h)
  {
    assert (y + h) * (y + h) == y * y + 2.0 * h * y + h * h;
    assert 2.0 * h * (e + y) == 2.0 * h * e + 2.0 * h * y;
    assert (n + 1) as real * h * h == n as real * h * h + h * h;
  }

  lemma CentreStep(d: real, e: real, n: nat, h: real, x: real, c: real)
    ensures Moved(d, e, n, h) + (x - (c - h)) * (x - (c - h)) == Moved(d + (x - c) * (x - c), e + (x - c), n + 1, h)
  {
    MovedStep(d, e, n, h, x - c);
    assert x - (c - h) == x - c + h;
  }

  // One more value x, on the sums before and after it.
  lemma Assemble(a: real, b: real, d: real, e: real, n: nat, d2: real, e2: real, h: real, x: real, c: real)
    requires a == Moved(d, e, n, h) && b == a + (x - (c - h)) * (x - (c - h))
    requires d2 == d + (x - c) * (x - c) && e2 == e + (x - c)
    ensures b == Moved(d2, e2, n + 1, h)
  {
    CentreStep(d, e, n, h, x, c);
  }

  lemma {:induction false} DeviationShifts(xs: seq<real>, c: real, h: real)
    ensures Deviation(xs, c - h) == Moved(Deviation(xs, c), Excess(xs, c), |xs|, h)
  {
    if xs == [] {
      assert Moved(0.0, 0.0, 0, h) == 0.0;
    } else {
      var ys, x := xs[..|xs| - 1], xs[|xs| - 1];
      DeviationShifts(ys, c, h);
      Assemble(Deviation(ys, c - h), Deviation(xs, c - h), Deviation(ys, c), Excess(ys, c), |ys|,
               Deviation(xs, c), Excess(xs, c), h, x, c);
    }
  }

  lemma Square(x: real)
    ensures x * x >= 0.0
  {
    if x < 0.0 { assert (-x) * (-x) >= 0.0; }
  }

  lemma {:induction false} DeviationNotNegative(xs: seq<real>, c: real)
    ensures Deviation(xs, c) >= 0.0
  {
    if xs != [] {
      DeviationNotNegative(xs[..|xs| - 1], c);
      Square(xs[|xs| - 1] - c);
    }
  }

  // The mean moves from m by -h; the new value lies n * h before the new mean.
  lemma MeanStep(n: nat, m: real, x: real, k: real, h: real)
    requires k == m + (x - m) / (n + 1) as real && h == m - k
    ensures n as real * h + (x - k) == 0.0
  {
    var d, r := x - m, (n + 1) as real;
    var q := d / r;
    assert q * r == d;
    assert h == -q && n as real == r - 1.0;
    assert (r - 1.0) * h == -(q * r) + q;
  }

  lemma WelfordStep(n: real, h: real, y: real)
    requires n * h + y == 0.0
    ensures n * h * h + y * y == (y - h) * y
  {
    assert n * h * h == -(y * h) by { assert n * h == -y; }
  }

  /** The update keeps the mean and the sum of squared deviations by definition. */
  lemma MomentsStep(xs: seq<real>, n: nat, mean: real, m2: real, x: real, k: real)
    requires Moments(xs, n, mean, m2) && k == mean + (x - mean) / (n + 1) as real
    ensures Moments(xs + [x], n + 1, k, m2 + (x - mean) * (x - k))
  {
    var h := mean - k;
    MeanStep(n, mean, x, k, h);
    assert k == mean - h;
    Snoc(xs, x, k);
    ExcessShifts(xs, mean, h);
    DeviationShifts(xs, mean, h);
    WelfordStep(n as real, h, x - k);
    assert x - k - h == x - mean;
  }

  lemma BoundsStep(xs: seq<real>, s: Stats, ticks: nat, x: real)
    requires Least(xs, s.minimum) && Greatest(xs, s.maximum)
    ensures Least(xs + [x], Added(s, ticks, x).minimum) && Greatest(xs + [x], Added(s, ticks, x).maximum)
  {
    var ys := xs + [x];
    assert forall y :: y in ys <==> y in xs || y == x;
  }

  /** Adding one sample extends the described list by its rate. */
  lemma AddedDescribes(s: Stats, xs: seq<real>, ticks: nat, x: real)
    requires Describes(s, xs)
    ensures Describes(Added(s, ticks, x), xs + [x])
  {
    var r := Added(s, ticks, x);
    MomentsStep(xs, s.samples, s.mean, s.m2, x, r.mean);
    BoundsStep(xs, s, ticks, x);
  }

  // ----- the sampling loop -----

  type Counters = c: seq<nat> | |c| == COUNTERS witness [0, 0, 0, 0]

  datatype Reading = Reading(ticks: Counters, time: nat)

  type Table = t: seq<Stats> | |t| == COUNTERS witness [EMPTY, EMPTY, EMPTY, EMPTY]

  datatype State = State(previous: Reading, deadline: nat, number: nat, elapsed: nat, stats: Table)

  // The registers wrap at 32 bits, and so does their difference.
  function Delta(current: nat, previous: nat): nat { (current - previous) % U32 }

  // Ticks per second, from an elapsed time in nanoseconds.
  function Rate(ticks: nat, elapsed: nat): (r: real)
    requires elapsed > 0
    ensures r * elapsed as real == ticks as real * 1000000000.0
  {
    ticks as real / (elapsed as real / 1000000000.0)
  }

  function Initial(first: Reading, interval: nat): State {
    State(first, first.time + interval, 0, 0, [EMPTY, EMPTY, EMPTY, EMPTY])
  }

  function Advanced(stats: Table, current: Counters, previous: Counters, elapsed: nat): Table
    requires elapsed > 0
  {
    seq(COUNTERS, i requires 0 <= i < COUNTERS =>
      var d := Delta(current[i], previous[i]); Added(stats[i], d, Rate(d, elapsed)))
  }

  function NextDeadline(deadline: nat, time: nat, interval: nat): nat {
    if deadline + interval <= time then time + interval else deadline + interval
  }

  function Step(s: State, r: Reading, interval: nat): State
    requires s.previous.time <= r.time
  {
    var elapsed := r.time - s.previous.time;
    if elapsed == 0 then s.(previous := r, deadline := r.time + interval)
    else State(r, NextDeadline(s.deadline, r.time, interval), s.number + 1, s.elapsed + elapsed,
               Advanced(s.stats, r.ticks, s.previous.ticks, elapsed))
  }

  ghost predicate Monotone(readings: seq<Reading>) {
    forall i, j :: 0 <= i <= j < |readings| ==> readings[i].time <= readings[j].time
  }

  // readings[0] is taken before the loop, the rest in it.
  function Run(readings: seq<Reading>, interval: nat): (s: State)
    requires readings != [] && Monotone(readings)
    ensures s.previous == readings[|readings| - 1]
  {
    var n := |readings| - 1;
    if n == 0 then Initial(readings[0], interval)
    else Step(Run(readings[..n], interval), readings[n], interval)
  }

  // The rates of counter i in the intervals that took time.
  function Rates(readings: seq<Reading>, i: nat): seq<real>
    requires readings != [] && Monotone(readings) && i < COUNTERS
  {
    var n := |readings| - 1;
    if n == 0 then []
    else
      Rates(readings[..n], i) + NewRate(readings[n - 1], readings[n], i)
  }

  function NewRate(a: Reading, b: Reading, i: nat): seq<real>
    requires a.time <= b.time && i < COUNTERS
  {
    if a.time == b.time then [] else [Rate(Delta(b.ticks[i], a.ticks[i]), b.time - a.time)]
  }

  function Counted(s: Stats, a: Reading, b: Reading, i: nat): Stats
    requires a.time <= b.time && i < COUNTERS
  {
    if a.time == b.time then s
    else var d := Delta(b.ticks[i], a.ticks[i]); Added(s, d, Rate(d, b.time - a.time))
  }

  lemma DescribesStep(s: Stats, xs: seq<real>, a: Reading, b: Reading, i: nat)
    requires a.time <= b.time && i < COUNTERS && Describes(s, xs)
    ensures Describes(Counted(s, a, b, i), xs + NewRate(a, b, i))
  {
    if a.time == b.time {
      assert xs + [] == xs;
    } else {
      var d := Delta(b.ticks[i], a.ticks[i]);
      AddedDescribes(s, xs, d, Rate(d, b.time - a.time));
    }
  }

  lemma Before(readings: seq<Reading>)
    requires |readings| > 1 && Monotone(readings)
    ensures var n := |readings| - 1;
            Monotone(readings[..n]) && readings[n - 1].time <= readings[n].time && readings[..n][0] == readings[0]
  {
  }

  lemma {:induction false} RunSnoc(readings: seq<Reading>, interval: nat)
    requires |readings| > 1 && Monotone(readings) && Monotone(readings[..|readings| - 1])
    ensures var n := |readings| - 1;
            var p := Run(readings[..n], interval);
            p.previous == readings[n - 1] && p.previous.time <= readings[n].time
            && Run(readings, interval) == Step(p, readings[n], interval)
  {
  }

  lemma StatsSnoc(readings: seq<Reading>, interval: nat, i: nat)
    requires |readings| > 1 && Monotone(readings) && Monotone(readings[..|readings| - 1]) && i < COUNTERS
    ensures var n := |readings| - 1;
            var a, b := readings[n - 1], readings[n];
            && a.time <= b.time
            && Run(readings, interval).stats[i] == Counted(Run(readings[..n], interval).stats[i], a, b, i)
            && Rates(readings, i) == Rates(readings[..n], i) + NewRate(a, b, i)
  {
    RunSnoc(readings, interval);
  }

  lemma DescribesMean(s: Stats, xs: seq<real>)
    requires Describes(s, xs)
    ensures MeanOf(xs, s.mean)
  {
    BalancedIsMean(xs, s.mean);
  }

  /** After any run, each counter's mean, sum of squared deviations, minimum and maximum
      are by definition those of its rates over all intervals that took time. */
  lemma {:induction false} RunDescribes(readings: seq<Reading>, interval: nat, i: nat)
    requires readings != [] && Monotone(readings) && i < COUNTERS
    ensures Describes(Run(readings, interval).stats[i], Rates(readings, i))
    decreases |readings|
  {
    var n := |readings| - 1;
    if n > 0 {
      Before(readings);
      RunDescribes(readings[..n], interval, i);
      StatsSnoc(readings, interval, i);
      DescribesStep(Run(readings[..n], interval).stats[i], Rates(readings[..n], i), readings[n - 1], readings[n], i);
    }
  }

  /** The mean is the sum of the rates over their number. */
  lemma {:induction false} MeanIsAverage(readings: seq<Reading>, interval: nat, i: nat)
    requires readings != [] && Monotone(readings) && i < COUNTERS
    ensures MeanOf(Rates(readings, i), Run(readings, interval).stats[i].mean)
  {
    RunDescribes(readings, interval, i);
    DescribesMean(Run(readings, interval).stats[i], Rates(readings, i));
  }

  /** The samples are counted, their elapsed times add up to the whole run, and the sum
      of squared deviations is never negative. */
  lemma {:induction false} RunCounts(readings: seq<Reading>, interval: nat, i: nat)
    requires readings != [] && Monotone(readings) && i < COUNTERS
    ensures var s := Run(readings, interval);
            && s.number == s.stats[i].samples && s.stats[i].m2 >= 0.0
            && s.elapsed == readings[|readings| - 1].time - readings[0].time
    decreases |readings|
  {
    var n := |readings| - 1;
    if n > 0 {
      Before(readings);
      RunCounts(readings[..n], interval, i);
      RunSnoc(readings, interval);
    }
    RunDescribes(readings, interval, i);
    DeviationNotNegative(Rates(readings, i), Run(readings, interval).stats[i].mean);
  }

  // ----- wrap-around of the counters -----

  /** What the hardware really counted: truth[k] are the unbounded counters at the time
      of readings[k]; less than 2^32 ticks pass between two readings. */
  ghost predicate Counts(readings: seq<Reading>, truth: seq<Counters>) {
    && |truth| == |readings|
    && (forall k, i :: 0 <= k < |readings| && 0 <= i < COUNTERS ==> readings[k].ticks[i] == truth[k][i] % U32)
    && (forall k, i :: 0 <= k < |readings| - 1 && 0 <= i < COUNTERS ==> Near(truth, k, i))
  }

  ghost predicate Near(truth: seq<Counters>, k: nat, i: nat)
    requires k + 1 < |truth| && i < COUNTERS
  {
    truth[k][i] <= truth[k + 1][i] < truth[k][i] + U32
  }

  // Ticks that passed in intervals of zero length, which the loop skips.
  function Skipped(readings: seq<Reading>, truth: seq<Counters>, i: nat): int
    requires |truth| == |readings| && i < COUNTERS
    decreases |readings|
  {
    if |readings| <= 1 then 0
    else
      var n := |readings| - 1;
      Skipped(readings[..n], truth[..n], i) +
        if readings[n].time == readings[n - 1].time then truth[n][i] as int - truth[n - 1][i] as int else 0
  }

  lemma DeltaIsTrueAdvance(a: nat, b: nat)
    requires a <= b < a + U32
    ensures Delta(b % U32, a % U32) == b - a
  {
    var qa, qb := a / U32, b / U32;
    assert a == qa * U32 + a % U32 && b == qb * U32 + b % U32;
    assert qb == qa || qb == qa + 1;
  }

  lemma TotalStep(total: nat, sum: int, d: nat)
    requires total == sum % U64
    ensures (total + d) % U64 == (sum + d) % U64
  {
    var q := sum / U64;
    assert sum == q * U64 + total;
    assert sum + d == q * U64 + (total + d);
    ModShift(q, total + d);
  }

  lemma ModShift(q: int, a: int)
    ensures (q * U64 + a) % U64 == a % U64
  {
  }

  // The registers at the two ends of an interval show the counters x and y.
  predicate Registers(a: Reading, b: Reading, i: nat, x: nat, y: nat) {
    i < COUNTERS && a.ticks[i] == x % U32 && b.ticks[i] == y % U32 && x <= y < x + U32
  }

  lemma CountsBefore(readings: seq<Reading>, truth: seq<Counters>, i: nat)
    requires |readings| > 1 && Counts(readings, truth) && i < COUNTERS
    ensures var n := |readings| - 1;
            && Counts(readings[..n], truth[..n])
            && Registers(readings[n - 1], readings[n], i, truth[n - 1][i], truth[n][i])
  {
    var n := |readings| - 1;
    assert forall k, j :: 0 <= k < n - 1 && 0 <= j < COUNTERS ==> Near(truth, k, j) ==> Near(truth[..n], k, j);
    assert Near(truth, n - 1, i);
  }

  // The true advance of counter i, less what passed in skipped intervals.
  function Unskipped(readings: seq<Reading>, truth: seq<Counters>, i: nat): int
    requires |truth| == |readings| > 0 && i < COUNTERS
  {
    truth[|readings| - 1][i] - truth[0][i] - Skipped(readings, truth, i)
  }

  // Ticks of one interval that count.
  function Kept(a: Reading, b: Reading, x: nat, y: nat): int { if a.time == b.time then 0 else y - x }

  lemma UnskippedSnoc(readings: seq<Reading>, truth: seq<Counters>, i: nat)
    requires |truth| == |readings| > 1 && i < COUNTERS
    ensures var n := |readings| - 1;
            Unskipped(readings, truth, i) ==
            Unskipped(readings[..n], truth[..n], i) + Kept(readings[n - 1], readings[n], truth[n - 1][i], truth[n][i])
  {
  }

  predicate TotalIs(total: nat, sum: int) { total == sum % U64 }

  // The counted total after one more interval, given the true counters at its ends.
  lemma CountedStep(s: Stats, a: Reading, b: Reading, i: nat, sum: int, x: nat, y: nat)
    requires a.time <= b.time && Registers(a, b, i, x, y) && TotalIs(s.total, sum)
    ensures TotalIs(Counted(s, a, b, i).total, sum + Kept(a, b, x, y))
  {
    DeltaIsTrueAdvance(x, y);
    TotalStep(s.total, sum, y - x);
  }

  /** The total is the true advance of the counter, less what passed in skipped
      intervals, modulo 2^64: wrap-around of the 32-bit registers loses nothing. */
  lemma {:induction false} TotalsAreExact(readings: seq<Reading>, truth: seq<Counters>, interval: nat, i: nat)
    requires readings != [] && Monotone(readings) && Counts(readings, truth) && i < COUNTERS
    ensures TotalIs(Run(readings, interval).stats[i].total, Unskipped(readings, truth, i))
    decreases |readings|
  {
    var n := |readings| - 1;
    if n > 0 {
      Before(readings);
      CountsBefore(readings, truth, i);
      TotalsAreExact(readings[..n], truth[..n], interval, i);
      TotalsStep(readings, truth, interval, i);
    } else {
      assert Unskipped(readings, truth, i) == 0;
    }
  }

  lemma {:induction false} TotalsStep(readings: seq<Reading>, truth: seq<Counters>, interval: nat, i: nat)
    requires |truth| == |readings| > 1 && Monotone(readings) && Monotone(readings[..|readings| - 1]) && i < COUNTERS
    requires var n := |readings| - 1;
             && Registers(readings[n - 1], readings[n], i, truth[n - 1][i], truth[n][i])
             && TotalIs(Run(readings[..n], interval).stats[i].total, Unskipped(readings[..n], truth[..n], i))
    ensures TotalIs(Run(readings, interval).stats[i].total, Unskipped(readings, truth, i))
  {
    var n := |readings| - 1;
    StatsSnoc(readings, interval, i);
    UnskippedSnoc(readings, truth, i);
    CountedStep(Run(readings[..n], interval).stats[i], readings[n - 1], readings[n], i,
                Unskipped(readings[..n], truth[..n], i), truth[n - 1][i], truth[n][i]);
  }

  // ----- the cadence -----

  /** Every reading after the first was taken at or after the deadline slept for. */
  ghost predicate Slept(readings: seq<Reading>, interval: nat)
    requires readings != [] && Monotone(readings)
  {
    forall k {:trigger readings[k]} :: 0 < k < |readings| ==> Run(readings[..k], interval).deadline <= readings[k].time
  }

  /** The deadline is always in the future of the last reading. */
  lemma {:induction false} DeadlineAhead(readings: seq<Reading>, interval: nat)
    requires readings != [] && Monotone(readings) && interval > 0
    ensures readings[|readings| - 1].time < Run(readings, interval).deadline
    decreases |readings|
  {
    var n := |readings| - 1;
    if n > 0 { DeadlineAhead(readings[..n], interval); }
  }

  // The deadline against the first reading (at `start`), the last, and the interval.
  ghost predicate OnCadence(s: State, start: nat, n: nat, interval: nat) {
    && s.number == n
    && s.previous.time < s.deadline <= s.previous.time + interval
    && start + n * interval <= s.previous.time
    && start + n * interval + interval <= s.deadline
  }

  lemma CadenceStep(p: State, r: Reading, start: nat, n: nat, interval: nat)
    requires interval > 0 && OnCadence(p, start, n, interval) && p.deadline <= r.time
    ensures OnCadence(Step(p, r, interval), start, n + 1, interval)
  {
    assert (n + 1) * interval == n * interval + interval;
  }

  lemma {:induction false} SleptBefore(readings: seq<Reading>, interval: nat)
    requires |readings| > 1 && Monotone(readings) && Slept(readings, interval)
    ensures var n := |readings| - 1;
            && Monotone(readings[..n]) && Slept(readings[..n], interval)
            && Run(readings[..n], interval).deadline <= readings[n].time
  {
    var before := readings[..|readings| - 1];
    assert forall k :: 0 < k < |before| ==> before[..k] == readings[..k] && before[k] == readings[k];
  }

  /** With sleeps that honour the deadline no interval is skipped, the next wait is
      positive and at most one interval, and late readings never cause a burst: n
      samples take at least n intervals. */
  lemma {:induction false} CadenceHolds(readings: seq<Reading>, interval: nat)
    requires readings != [] && Monotone(readings) && interval > 0 && Slept(readings, interval)
    ensures OnCadence(Run(readings, interval), readings[0].time, |readings| - 1, interval)
    decreases |readings|
  {
    if |readings| == 1 {
      assert 0 * interval == 0;
    } else {
      Before(readings);
      SleptBefore(readings, interval);
      RunSnoc(readings, interval);
      var before := readings[..|readings| - 1];
      CadenceHolds(before, interval);
      CadenceStep(Run(before, interval), readings[|readings| - 1], before[0].time, |before| - 1, interval);
    }
  }

  /** Readings less than one interval late keep the deadlines on the grid of the first reading;
      a later one starts a new grid at itself. */
  lemma {:induction false} OnTimeKeepsGrid(readings: seq<Reading>, interval: nat)
    requires readings != [] && Monotone(readings) && interval > 0 && Slept(readings, interval)
    requires forall k {:trigger readings[k]} :: 0 < k < |readings| ==>
               readings[k].time < Run(readings[..k], interval).deadline + interval
    ensures Run(readings, interval).deadline == readings[0].time + |readings| * interval
    decreases |readings|
  {
    if |readings| > 1 {
      var n := |readings| - 1;
      var before := readings[..n];
      Before(readings);
      SleptBefore(readings, interval);
      OnTimeBefore(readings, interval);
      RunSnoc(readings, interval);
      OnTimeKeepsGrid(before, interval);
      DeadlineAhead(before, interval);
      OnTimeLast(readings, interval);
      OnTimeStep(Run(before, interval), readings[n], interval);
      NextOnGrid(readings[0].time, n, interval);
    }
  }

  lemma NextOnGrid(start: nat, n: nat, interval: nat)
    ensures start + n * interval + interval == start + (n + 1) * interval
  {
  }

  lemma OnTimeLast(readings: seq<Reading>, interval: nat)
    requires |readings| > 1 && Monotone(readings) && Monotone(readings[..|readings| - 1])
    requires forall k {:trigger readings[k]} :: 0 < k < |readings| ==>
               readings[k].time < Run(readings[..k], interval).deadline + interval
    ensures var n := |readings| - 1; readings[n].time < Run(readings[..n], interval).deadline + interval
  {
  }

  lemma OnTimeBefore(readings: seq<Reading>, interval: nat)
    requires |readings| > 1 && Monotone(readings) && Monotone(readings[..|readings| - 1])
    requires forall k {:trigger readings[k]} :: 0 < k < |readings| ==>
               readings[k].time < Run(readings[..k], interval).deadline + interval
    ensures var before := readings[..|readings| - 1];
            forall k {:trigger before[k]} :: 0 < k < |before| ==>
              before[k].time < Run(before[..k], interval).deadline + interval
  {
    var before := readings[..|readings| - 1];
    assert forall k :: 0 < k < |before| ==> before[..k] == readings[..k] && before[k] == readings[k];
  }

  lemma OnTimeStep(p: State, r: Reading, interval: nat)
    requires p.previous.time < p.deadline <= r.time
    ensures Step(p, r, interval).deadline ==
            if r.time < p.deadline + interval then p.deadline + interval else r.time + interval
  {
  }

  // Without a skipped interval the total is the whole true advance.
  lemma {:induction false} NothingSkipped(readings: seq<Reading>, truth: seq<Counters>, i: nat)
    requires |truth| == |readings| && i < COUNTERS
    requires forall k :: 0 < k < |readings| ==> readings[k - 1].time != readings[k].time
    ensures Skipped(readings, truth, i) == 0
    decreases |readings|
  {
    if |readings| > 1 { NothingSkipped(readings[..|readings| - 1], truth[..|readings| - 1], i); }
  }

  /** With sleeps that honour the deadline the total is the whole true advance. */
  lemma {:induction false} HonouredSleepsLoseNothing(readings: seq<Reading>, truth: seq<Counters>,
                                                     interval: nat, i: nat)
    requires readings != [] && Monotone(readings) && interval > 0 && Slept(readings, interval)
    requires Counts(readings, truth) && i < COUNTERS
    ensures Run(readings, interval).stats[i].total == (truth[|readings| - 1][i] - truth[0][i]) % U64
  {
    forall k | 0 < k < |readings|
      ensures readings[k - 1].time != readings[k].time
    {
      DeadlineAhead(readings[..k], interval);
      assert Run(readings[..k], interval).deadline <= readings[k].time;
    }
    NothingSkipped(readings, truth, i);
    TotalsAreExact(readings, truth, interval, i);
  }

  // ----- the program -----

  /** One sample into entry i of the table, field by field. */
  method Add(table: array<Stats>, i: nat, ticks: nat, elapsed: nat)
    requires i < table.Length && elapsed > 0
    modifies table
    ensures table[..] == old(table[..])[i := Added(old(table[i]), ticks, Rate(ticks, elapsed))]
  {
    var s := table[i];
    var rate := Rate(ticks, elapsed);
    s := s.(samples := s.samples + 1);
    s := s.(total := (s.total + ticks) % U64);
    var delta := rate - s.mean;
    s := s.(mean := s.mean + delta / s.samples as real);
    s := s.(m2 := s.m2 + delta * (rate - s.mean));
    if s.minimum == None || rate < s.minimum.value { s := s.(minimum := Some(rate)); }
    if s.maximum == None || rate > s.maximum.value { s := s.(maximum := Some(rate)); }
    assert s == Added(table[i], ticks, rate);
    table[i] := s;
  }

  /** One sample of every counter. */
  method AddAll(table: array<Stats>, current: Counters, previous: Counters, elapsed: nat)
    requires table.Length == COUNTERS && elapsed > 0
    modifies table
    ensures table[..] == Advanced(old(table[..]), current, previous, elapsed)
  {
    ghost var was: Table := table[..];
    ghost var goal := Advanced(was, current, previous, elapsed);
    for i := 0 to COUNTERS
      invariant forall k :: 0 <= k < i ==> table[k] == goal[k]
      invariant forall k :: i <= k < COUNTERS ==> table[k] == was[k]
    {
      ghost var now := table[..];
      Add(table, i, Delta(current[i], previous[i]), elapsed);
      assert forall k :: 0 <= k < COUNTERS ==> table[k] == if k == i then goal[i] else now[k];
    }
    assert table[..] == goal;
  }

  class Sampler {
    const interval: nat
    const stats: array<Stats>
    var previous: Reading
    var deadline: nat
    var number: nat
    var elapsed: nat

    ghost predicate Valid()
      reads this, stats
    {
      stats.Length == COUNTERS
    }

    ghost function View(): State
      requires Valid()
      reads this, stats
    {
      State(previous, deadline, number, elapsed, stats[..])
    }

    constructor (first: Reading, interval: nat)
      ensures Valid() && fresh(stats) && this.interval == interval && View() == Initial(first, interval)
    {
      this.interval := interval;
      stats := new Stats[4](_ => EMPTY);
      previous := first;
      deadline := first.time + interval;
      number, elapsed := 0, 0;
      new;
      assert stats[..] == [EMPTY, EMPTY, EMPTY, EMPTY];
    }

    /** One turn of the loop, with the reading taken after the sleep. */
    method Turn(current: Reading)
      requires Valid() && previous.time <= current.time
      modifies this, stats
      ensures Valid() && View() == Step(old(View()), current, interval)
    {
      var span := current.time - previous.time;
      if span == 0 {
        previous := current;
        deadline := current.time + interval;
        return;
      }
      number, elapsed := number + 1, elapsed + span;
      AddAll(stats, current.ticks, previous.ticks, span);
      previous := current;
      deadline := deadline + interval;
      if deadline <= current.time { deadline := current.time + interval; }
    }
  }
}
