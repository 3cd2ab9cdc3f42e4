/** The drift-bounded tick scheduler: an anchor that advances by whole ticks of
    den/num seconds, in integer microseconds. Two classes of the program implement it;
    both are proved to be the same scheduler. */
module TickScheduler {

  // Division of signed integers as the machine does it: truncated toward zero.
  function TruncDiv(a: int, b: int): int
    requires b != 0
  {
    if (a >= 0) == (b > 0) then (if a >= 0 then a / b else (-a) / (-b))
    else if a >= 0 then -(a / (-b)) else -((-a) / b)
  }

  function Micros(den: int): int { den * 1000000 }

  function Ticks(anchor: int, t: int, num: int, d: int): int
    requires d != 0
  {
    TruncDiv((t - anchor) * num, d)
  }

  function NextAnchor(anchor: int, t: int, num: int, d: int): int
    requires num != 0 && d != 0
  {
    anchor + TruncDiv(Ticks(anchor, t, num, d) * d, num)
  }

  // How long to wait for the next tick.
  function Delay(anchor: int, t: int, num: int, d: int): int
    requires num != 0 && d != 0
  {
    anchor + TruncDiv((Ticks(anchor, t, num, d) + 1) * d, num) - t
  }

  // ----- one step with a clock that has not gone back -----

  lemma DivBounds(a: int, b: int)
    requires a >= 0 && b > 0
    ensures TruncDiv(a, b) == a / b && 0 <= a / b && a / b * b <= a < (a / b + 1) * b
  {
  }

  lemma Distributes(a: int, b: int, c: int)
    ensures (a + b) * c == a * c + b * c
  {
  }

  lemma MulLess(a: int, b: int, c: int)
    requires c > 0
    ensures a < b <==> a * c < b * c
    ensures a <= b <==> a * c <= b * c
  {
  }

  /** With ticks k, tick length d/num and x = floor(k*d/num): the anchor moves by x and
      stays at or before t, less than a tick and a microsecond behind it. */
  lemma StepBounds(anchor: int, t: int, num: int, d: int)
    requires anchor <= t && num > 0 && d > 0
    ensures var k := Ticks(anchor, t, num, d);
            var a := NextAnchor(anchor, t, num, d);
            && k >= 0 && a <= t
            && k * d - num < (a - anchor) * num <= k * d
            && (t - a) * num < d + num
  {
    var k := Ticks(anchor, t, num, d);
    assert (t - anchor) * num >= 0;
    DivBounds((t - anchor) * num, d);
    assert k * d >= 0;
    DivBounds(k * d, num);
    var x := NextAnchor(anchor, t, num, d) - anchor;
    assert x == k * d / num && (x + 1) * num == x * num + num && (k + 1) * d == k * d + d;
    MulLess(x, t - anchor, num);
    assert (t - anchor - x) * num == (t - anchor) * num - x * num;
  }

  /** ... and the delay is between zero and one tick length. */
  lemma DelayBounds(anchor: int, t: int, num: int, d: int)
    requires anchor <= t && num > 0 && d > 0
    ensures 0 <= Delay(anchor, t, num, d) <= d / num
  {
    var k, m := Ticks(anchor, t, num, d), t - anchor;
    assert m * num >= 0;
    DivBounds(m * num, d);
    Distributes(k, 1, d);
    assert k * d >= 0;
    DivBounds((k + 1) * d, num);
    DelayArithmetic(m, num, d, k, (k + 1) * d / num);
  }

  /** What ticks and delay mean: k is the number of whole ticks since the anchor, and the delay
      ends at the tick after those, rounded down to a microsecond. */
  lemma DelayIsNextTick(anchor: int, t: int, num: int, d: int)
    requires anchor <= t && num > 0 && d > 0
    ensures var k := Ticks(anchor, t, num, d);
            var due := t + Delay(anchor, t, num, d) - anchor;
            && k * d <= (t - anchor) * num < (k + 1) * d
            && due * num <= (k + 1) * d < (due + 1) * num
  {
    var k, m := Ticks(anchor, t, num, d), t - anchor;
    assert m * num >= 0;
    DivBounds(m * num, d);
    Distributes(k, 1, d);
    assert k * d >= 0;
    DivBounds((k + 1) * d, num);
  }

  // With y = floor((k+1)*d/num) and m less than k+1 ticks but at least k.
  lemma DelayArithmetic(m: int, num: int, d: int, k: int, y: int)
    requires num > 0 && d > 0 && k * d <= m * num < k * d + d
    requires y * num <= k * d + d < (y + 1) * num
    ensures 0 <= y - m <= d / num
  {
    DivBounds(d, num);
    Distributes(d / num, 1, num);
    Distributes(m, d / num + 1, num);
    MulLess(m, y + 1, num);
    MulLess(y, m + (d / num + 1), num);
  }

  // ----- whole runs -----

  ghost predicate Monotone(start: int, clock: seq<int>) {
    && (clock != [] ==> start <= clock[0])
    && (forall i :: 0 <= i < |clock| - 1 ==> clock[i] <= clock[i + 1])
  }

  // The anchor, and the ticks counted, after the given clock readings.
  function Anchor(start: int, clock: seq<int>, num: int, d: int): int
    requires num != 0 && d != 0
  {
    if clock == [] then start
    else NextAnchor(Anchor(start, clock[..|clock| - 1], num, d), clock[|clock| - 1], num, d)
  }

  function TotalTicks(start: int, clock: seq<int>, num: int, d: int): int
    requires num != 0 && d != 0
  {
    if clock == [] then 0
    else
      var before := clock[..|clock| - 1];
      TotalTicks(start, before, num, d) + Ticks(Anchor(start, before, num, d), clock[|clock| - 1], num, d)
  }

  /** Drift bound. For every monotone clock: after n calls that counted T ticks, the
      anchor lies in (start + T*d/num - n, start + T*d/num], and so the schedule loses
      less than a microsecond per call and never runs ahead; and the anchor is never
      after the clock and trails it by less than a tick and a microsecond. */
  lemma {:induction false} DriftBound(start: int, clock: seq<int>, num: int, d: int)
    requires num > 0 && d > 0 && Monotone(start, clock)
    ensures var a, ticks := Anchor(start, clock, num, d), TotalTicks(start, clock, num, d);
            && ticks >= 0
            && ticks * d - |clock| * num <= (a - start) * num <= ticks * d
            && (clock != [] ==> ticks * d - |clock| * num < (a - start) * num)
            && (clock != [] ==> a <= clock[|clock| - 1] && (clock[|clock| - 1] - a) * num < d + num)
  {
    if clock != [] {
      var before, t := clock[..|clock| - 1], clock[|clock| - 1];
      assert Monotone(start, before);
      DriftBound(start, before, num, d);
      var b, p := Anchor(start, before, num, d), TotalTicks(start, before, num, d);
      assert b <= t by {
        if before != [] { assert before[|before| - 1] <= t; }
      }
      StepBounds(b, t, num, d);
      DriftStep(start, b, NextAnchor(b, t, num, d), p, Ticks(b, t, num, d), |before|, num, d);
    }
  }

  lemma DriftStep(start: int, b: int, a: int, p: int, k: int, n: int, num: int, d: int)
    requires p * d - n * num <= (b - start) * num <= p * d
    requires k * d - num < (a - b) * num <= k * d
    ensures (p + k) * d - (n + 1) * num < (a - start) * num <= (p + k) * d
  {
    assert (p + k) * d == p * d + k * d && (n + 1) * num == n * num + num;
    assert (a - start) * num == (b - start) * num + (a - b) * num;
  }

  // The delays returned for the given clock readings.
  function Delays(start: int, clock: seq<int>, num: int, d: int): (r: seq<int>)
    requires num != 0 && d != 0
    ensures |r| == |clock|
  {
    if clock == [] then []
    else
      var before := clock[..|clock| - 1];
      Delays(start, before, num, d) + [Delay(Anchor(start, before, num, d), clock[|clock| - 1], num, d)]
  }

  /** Every returned delay lies between zero and one tick. */
  lemma {:induction false} DelaysBounded(start: int, clock: seq<int>, num: int, d: int, i: nat)
    requires num > 0 && d > 0 && Monotone(start, clock) && i < |clock|
    ensures 0 <= Delays(start, clock, num, d)[i] <= d / num
  {
    var before, t := clock[..|clock| - 1], clock[|clock| - 1];
    assert Monotone(start, before);
    if i < |before| {
      DelaysBounded(start, before, num, d, i);
    } else {
      DriftBound(start, before, num, d);
      assert before != [] ==> before[|before| - 1] <= t;
      DelayBounds(Anchor(start, before, num, d), t, num, d);
    }
  }

  lemma {:induction false} DelaysSnoc(start: int, clock: seq<int>, t: int, num: int, d: int)
    requires num != 0 && d != 0
    ensures Delays(start, clock + [t], num, d) ==
              Delays(start, clock, num, d) + [Delay(Anchor(start, clock, num, d), t, num, d)]
  {
    assert (clock + [t])[..|clock|] == clock;
  }

  // ----- a clock that goes back -----

  lemma BackTicks(anchor: int, t: int, num: int, d: int)
    requires t < anchor && num > 0 && d > 0
    ensures var m := anchor - t; (t - anchor) * num == -(m * num) && m * num > 0
    ensures Ticks(anchor, t, num, d) == -((anchor - t) * num / d)
  {
    var a := (anchor - t) * num;
    assert a > 0 && (t - anchor) * num == -a;
  }

  // Division truncates toward zero, so going back by k ticks is going forward by k, negated.
  lemma TruncNegated(a: int, b: int)
    requires a >= 0 && b > 0
    ensures TruncDiv(-a, b) == -(a / b)
  {
  }

  lemma BackAnchor(anchor: int, t: int, num: int, d: int, k: int)
    requires t < anchor && num > 0 && d > 0 && k == (anchor - t) * num / d
    ensures k >= 0 && k * d >= 0 && NextAnchor(anchor, t, num, d) == anchor - k * d / num
  {
    BackTicks(anchor, t, num, d);
    assert k >= 0;
    assert k * d >= 0 && -k * d == -(k * d);
    TruncNegated(k * d, num);
  }

  // Rounding m down to whole ticks and back gives m exactly when m is whole ticks.
  lemma WholeTicks(m: int, num: int, d: int, k: int)
    requires m > 0 && num > 0 && d > 0 && k == m * num / d && k * d >= 0
    ensures k * d / num >= m <==> m * num % d == 0
  {
    var a, x := m * num, k * d / num;
    assert a == k * d + a % d;
    DivBounds(k * d, num);
    MulLess(m, x + 1, num);
    MulLess(m, x, num);
  }

  /** The anchor stays at or before the clock if and only if the clock is not before it,
      or went back by a whole number of ticks. */
  lemma AnchorBoundExact(anchor: int, t: int, num: int, d: int)
    requires num > 0 && d > 0
    ensures NextAnchor(anchor, t, num, d) <= t <==> anchor <= t || (anchor - t) * num % d == 0
  {
    if anchor <= t {
      StepBounds(anchor, t, num, d);
    } else {
      var k := (anchor - t) * num / d;
      BackAnchor(anchor, t, num, d, k);
      WholeTicks(anchor - t, num, d, k);
    }
  }

  lemma BackDelay(anchor: int, t: int, num: int, d: int, k: int)
    requires t < anchor && num > 0 && d > 0 && k == (anchor - t) * num / d
    ensures k >= 0
    ensures k == 0 ==> Delay(anchor, t, num, d) == anchor - t + d / num
    ensures k > 0 ==> (k - 1) * d >= 0 && Delay(anchor, t, num, d) == anchor - t - (k - 1) * d / num
  {
    BackTicks(anchor, t, num, d);
    assert k >= 0;
    OneFewerBack(Ticks(anchor, t, num, d), k, d);
    if k > 0 {
      TruncNegated((k - 1) * d, num);
    } else {
      DivBounds(d, num);
    }
  }

  lemma OneFewerBack(ticks: int, k: int, d: int)
    requires ticks == -k && k >= 0 && d > 0
    ensures (ticks + 1) * d == -((k - 1) * d)
    ensures k > 0 ==> (k - 1) * d >= 0
    ensures k == 0 ==> (ticks + 1) * d == d
  {
  }

  // The remainder of the way back, against one tick.
  lemma WholeDelay(m: int, num: int, d: int, k: int)
    requires m > 0 && num > 0 && d > 0 && k == m * num / d && k > 0 && (k - 1) * d >= 0
    ensures 0 <= m - (k - 1) * d / num
    ensures m - (k - 1) * d / num <= d / num <==> m * num % d == 0 && d % num == 0
  {
    var a, y, z := m * num, (k - 1) * d / num, d / num;
    Splits(a, d);
    Distributes(k - 1, 1, d);
    DivBounds((k - 1) * d, num);
    Splits(d, num);
    Distributes(y, 1, num);
    Distributes(y, z, num);
    Distributes(y + z, 1, num);
    MulLess(y, m, num);
    MulLess(m, y + z + 1, num);
    MulLess(m, y + z, num);
  }

  lemma Splits(a: int, b: int)
    requires a >= 0 && b > 0
    ensures a == a / b * b + a % b && 0 <= a % b < b
  {
  }

  /** The delay lies between zero and one tick if and only if the clock is not before the
      anchor, or went back by a whole number of ticks and a tick is a whole number of
      microseconds. It is never negative. */
  lemma DelayBoundExact(anchor: int, t: int, num: int, d: int)
    requires num > 0 && d > 0
    ensures Delay(anchor, t, num, d) >= 0
    ensures Delay(anchor, t, num, d) <= d / num <==> anchor <= t || ((anchor - t) * num % d == 0 && d % num == 0)
  {
    if anchor <= t {
      DelayBounds(anchor, t, num, d);
    } else {
      var k := (anchor - t) * num / d;
      BackDelay(anchor, t, num, d, k);
      if k > 0 { WholeDelay(anchor - t, num, d, k); } else { ShortWayBack(anchor - t, num, d); }
    }
  }

  lemma ShortWayBack(m: int, num: int, d: int)
    requires m > 0 && num > 0 && d > 0 && m * num / d == 0
    ensures m * num % d != 0 && d / num >= 0
  {
    assert m * num > 0;
  }

  // With one tick a second: a clock behind the anchor by a microsecond breaks both bounds, by
  // a whole second neither.
  lemma BackwardClocks()
    ensures NextAnchor(1000000, 999999, 1, Micros(1)) > 999999 && Delay(1000000, 999999, 1, Micros(1)) > Micros(1) / 1
    ensures NextAnchor(1000000, 0, 1, Micros(1)) <= 0 && Delay(1000000, 0, 1, Micros(1)) <= Micros(1) / 1
  {
    AnchorBoundExact(1000000, 999999, 1, Micros(1));
    DelayBoundExact(1000000, 999999, 1, Micros(1));
    AnchorBoundExact(1000000, 0, 1, Micros(1));
    DelayBoundExact(1000000, 0, 1, Micros(1));
  }

  lemma {:induction false} AnchorSnoc(start: int, clock: seq<int>, t: int, num: int, d: int)
    requires num != 0 && d != 0
    ensures Anchor(start, clock + [t], num, d) == NextAnchor(Anchor(start, clock, num, d), t, num, d)
  {
    assert (clock + [t])[..|clock|] == clock;
  }

  // ----- the two objects -----

  class TickControl {
    var num: int
    var den: int
    var denSecs: int
    var timer: int
    ghost var start: int
    ghost var clock: seq<int>  // the readings given to Advance since Start

    ghost predicate Valid()
      reads this
    {
      num != 0 && denSecs != 0 && timer == Anchor(start, clock, num, denSecs)
    }

    constructor (num: int, den: int)
      ensures this.num == num && this.den == den
    {
      this.num, this.den := num, den;
    }

    method Start(t: int)
      requires num != 0 && den != 0
      modifies this
      ensures Valid() && start == t && clock == [] && denSecs == den * 1000000 && num == old(num) && den == old(den)
    {
      denSecs := den * 1000000;
      timer := t;
      start, clock := t, [];
    }

    method Advance(t: int) returns (delay: int)
      requires Valid()
      modifies this`timer, this`clock
      ensures Valid() && clock == old(clock) + [t]
      ensures delay == Delay(old(timer), t, num, denSecs)
    {
      var diff := t - timer;
      var ticks := TruncDiv(diff * num, denSecs);
      var next := timer + TruncDiv((ticks + 1) * denSecs, num);
      timer := timer + TruncDiv(ticks * denSecs, num);
      delay := next - t;
      AnchorSnoc(start, clock, t, num, denSecs);
      clock := clock + [t];
    }
  }

  // Copies num when started, so a later change of it has no effect until the next start.
  class FpsControl {
    var num: int
    var den: int
    var startedNum: int
    var denSecs: int
    var timer: int
    ghost var start: int
    ghost var clock: seq<int>

    ghost predicate Valid()
      reads this
    {
      startedNum != 0 && denSecs != 0 && timer == Anchor(start, clock, startedNum, denSecs)
    }

    constructor (num: int, den: int)
      ensures this.num == num && this.den == den
    {
      this.num, this.den := num, den;
    }

    method Start(t: int)
      requires num != 0 && den != 0
      modifies this
      ensures Valid() && start == t && clock == [] && denSecs == Micros(den)
              && startedNum == num == old(num) && den == old(den)
    {
      startedNum := num;
      denSecs := den * 1000000;
      timer := t;
      start, clock := t, [];
    }

    method Advance(t: int) returns (delay: int)
      requires Valid()
      modifies this`timer, this`clock
      ensures Valid() && clock == old(clock) + [t]
      ensures delay == Delay(old(timer), t, startedNum, denSecs)
    {
      var diff := t - timer;
      var ticks := TruncDiv(diff * startedNum, denSecs);
      var next := timer + TruncDiv((ticks + 1) * denSecs, startedNum);
      delay := next - t;
      timer := timer + TruncDiv(ticks * denSecs, startedNum);
      AnchorSnoc(start, clock, t, startedNum, denSecs);
      clock := clock + [t];
    }
  }

  /** Both schedulers, started alike and given the same clock, return the same delays
      and keep the same anchor. */
  method SameRun(num: int, den: int, start: int, clock: seq<int>) returns (a: seq<int>, b: seq<int>)
    requires num != 0 && den != 0
    ensures a == b == Delays(start, clock, num, Micros(den))
  {
    var x := new TickControl(num, den);
    var y := new FpsControl(num, den);
    x.Start(start);
    y.Start(start);
    a, b := [], [];
    for i := 0 to |clock|
      invariant x.Valid() && y.Valid() && x.num == y.startedNum == num && x.denSecs == y.denSecs == Micros(den)
      invariant x.start == y.start == start && x.clock == y.clock == clock[..i]
      invariant a == b == Delays(start, clock[..i], num, Micros(den))
    {
      DelaysSnoc(start, clock[..i], clock[i], num, Micros(den));
      assert clock[..i + 1] == clock[..i] + [clock[i]];
      var p := x.Advance(clock[i]);
      var q := y.Advance(clock[i]);
      a, b := a + [p], b + [q];
    }
    assert clock[..|clock|] == clock;
  }
}
