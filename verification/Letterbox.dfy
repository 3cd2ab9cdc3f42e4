/** The destination rectangle that shows a source picture in an output mode with its
    aspect ratio preserved, centred, and with even sides. */
module Letterbox {
  import opened Basics

  const U32 := 0x1_0000_0000

  datatype Rect = Rect(x: nat, y: nat, w: nat, h: nat)

  predicate Wider(w: nat, h: nat, outW: nat, outH: nat) { w * outH > h * outW }

  function Even(n: nat): nat { n - n % 2 }

  function Margin(out: nat, side: nat): nat { (out - side) % U32 / 2 }

  // The quotients are 64-bit values stored in 32-bit variables, and the margins are
  // differences of 32-bit values: both wrap, unless proved otherwise.
  function Width(w: nat, h: nat, outW: nat, outH: nat): nat
    requires h != 0
  {
    Even(if Wider(w, h, outW, outH) then outW else outH * w / h % U32)
  }

  function Height(w: nat, h: nat, outW: nat, outH: nat): nat
    requires w != 0
  {
    Even(if Wider(w, h, outW, outH) then outW * h / w % U32 else outH)
  }

  function FitRect(w: nat, h: nat, outW: nat, outH: nat): Option<Rect> {
    if w == 0 || h == 0 || outW == 0 || outH == 0 then None
    else Placed(outW, outH, Width(w, h, outW, outH), Height(w, h, outW, outH))
  }

  function Placed(outW: nat, outH: nat, rw: nat, rh: nat): Option<Rect> {
    if rw == 0 || rh == 0 then None else Some(Rect(Margin(outW, rw), Margin(outH, rh), rw, rh))
  }

  lemma DivBounds(a: nat, b: nat)
    requires b > 0
    ensures a / b * b <= a < (a / b + 1) * b
  {
  }

  // If a < b * c then a / b < c.
  lemma DivBelow(a: nat, b: nat, c: nat)
    requires b > 0 && a < c * b
    ensures a / b < c
  {
    DivBounds(a, b);
    if a / b >= c { MulMonotone(c, a / b, b); }
  }

  lemma MulMonotone(a: nat, b: nat, c: nat)
    requires a <= b
    ensures a * c <= b * c
  {
  }

  lemma DivAtLeast(a: nat, b: nat, c: nat)
    requires b > 0
    ensures a / b >= c <==> a >= c * b
  {
    DivBounds(a, b);
    if a < c * b { DivBelow(a, b, c); }
    if a / b < c { MulMonotone(a / b + 1, c, b); }
  }

  // The exact scaled length never exceeds the side it has to fit, so nothing is truncated.
  lemma ScaledFits(w: nat, h: nat, outW: nat, outH: nat)
    requires w > 0 && h > 0 && outW < U32 && outH < U32
    ensures Wider(w, h, outW, outH) ==> outW * h / w < outH && outW * h / w % U32 == outW * h / w
    ensures !Wider(w, h, outW, outH) ==> outH * w / h <= outW && outH * w / h % U32 == outH * w / h
  {
    if Wider(w, h, outW, outH) {
      DivBelow(outW * h, w, outH);
    } else {
      DivAtLeast(outH * w, h, outW + 1);
      assert (outW + 1) * h == outW * h + h;
    }
  }

  lemma EvenLength(a: nat, b: nat)
    requires b > 0
    ensures Even(a / b) * b <= a < (Even(a / b) + 2) * b
  {
    DivBounds(a, b);
    var q := a / b;
    MulMonotone(Even(q), q, b);
    MulMonotone(q + 1, Even(q) + 2, b);
  }

  // Inside the output, with margins that differ by at most one.
  predicate Centred(r: Rect, outW: nat, outH: nat) {
    && r.w > 0 && r.h > 0 && r.x + r.w <= outW && r.y + r.h <= outH
    && 0 <= (outW - r.w - r.x) - r.x <= 1 && 0 <= (outH - r.h - r.y) - r.y <= 1
  }

  // Even sides: one full up to evenness, the other less than two below the exact length.
  predicate Proportional(rw: nat, rh: nat, w: nat, h: nat, outW: nat, outH: nat) {
    && rw % 2 == 0 && rh % 2 == 0
    && if Wider(w, h, outW, outH)
       then outW - 1 <= rw <= outW && rh * w <= outW * h < (rh + 2) * w
       else outH - 1 <= rh <= outH && rw * h <= outH * w < (rw + 2) * h
  }

  lemma PlacedFits(outW: nat, outH: nat, rw: nat, rh: nat)
    requires rw <= outW < U32 && rh <= outH < U32 && Placed(outW, outH, rw, rh).Some?
    ensures var r := Placed(outW, outH, rw, rh).value; r.w == rw && r.h == rh && Centred(r, outW, outH)
  {
    assert (outW - rw) % U32 == outW - rw && (outH - rh) % U32 == outH - rh;
  }

  lemma EvenBelow(n: nat)
    ensures n - 1 <= Even(n) <= n && Even(n) % 2 == 0
  {
  }

  lemma WideSides(w: nat, h: nat, outW: nat, outH: nat)
    requires 0 < w < U32 && 0 < h < U32 && outW < U32 && outH < U32 && Wider(w, h, outW, outH)
    ensures var rw, rh := Width(w, h, outW, outH), Height(w, h, outW, outH);
            rw <= outW && rh <= outH && Proportional(rw, rh, w, h, outW, outH)
  {
    ScaledFits(w, h, outW, outH);
    var q := outW * h / w;
    assert Height(w, h, outW, outH) == Even(q) && Width(w, h, outW, outH) == Even(outW);
    EvenBelow(q);
    EvenBelow(outW);
    EvenLength(outW * h, w);
  }

  lemma TallSides(w: nat, h: nat, outW: nat, outH: nat)
    requires 0 < w < U32 && 0 < h < U32 && outW < U32 && outH < U32 && !Wider(w, h, outW, outH)
    ensures var rw, rh := Width(w, h, outW, outH), Height(w, h, outW, outH);
            rw <= outW && rh <= outH && Proportional(rw, rh, w, h, outW, outH)
  {
    ScaledFits(w, h, outW, outH);
    var q := outH * w / h;
    assert Width(w, h, outW, outH) == Even(q) && Height(w, h, outW, outH) == Even(outH);
    EvenBelow(q);
    EvenBelow(outH);
    EvenLength(outH * w, h);
  }

  // Both sides fit, and the scaled one is the exact length rounded down to an even number.
  lemma SidesFit(w: nat, h: nat, outW: nat, outH: nat)
    requires 0 < w < U32 && 0 < h < U32 && outW < U32 && outH < U32
    ensures var rw, rh := Width(w, h, outW, outH), Height(w, h, outW, outH);
            rw <= outW && rh <= outH && Proportional(rw, rh, w, h, outW, outH)
  {
    if Wider(w, h, outW, outH) { WideSides(w, h, outW, outH); } else { TallSides(w, h, outW, outH); }
  }

  // An output without extent leaves no rectangle.
  lemma NoOutput(w: nat, h: nat, outW: nat, outH: nat)
    requires 0 < w < U32 && 0 < h < U32 && outW < U32 && outH < U32 && (outW == 0 || outH == 0)
    ensures Width(w, h, outW, outH) == 0 || Height(w, h, outW, outH) == 0
  {
    SidesFit(w, h, outW, outH);
  }

  /** For all 32-bit sizes: where the rectangle exists, its sides are even, it lies
      inside the output, its margins differ by at most one, one side is the full
      output side up to evenness, and the other falls short of the exact
      aspect-preserving length by less than two and never exceeds it. No check in the
      program says that it fits; it follows from the choice of the side to scale. */
  lemma RectFits(w: nat, h: nat, outW: nat, outH: nat)
    requires w < U32 && h < U32 && outW < U32 && outH < U32
    ensures match FitRect(w, h, outW, outH)
            case None => true
            case Some(r) => Centred(r, outW, outH) && Proportional(r.w, r.h, w, h, outW, outH)
  {
    if FitRect(w, h, outW, outH).Some? {
      SidesFit(w, h, outW, outH);
      PlacedFits(outW, outH, Width(w, h, outW, outH), Height(w, h, outW, outH));
    }
  }

  /** It exists exactly when all sizes are positive and both the full side and the
      exact scaled side are at least two. */
  lemma RectExists(w: nat, h: nat, outW: nat, outH: nat)
    requires w < U32 && h < U32 && outW < U32 && outH < U32
    ensures FitRect(w, h, outW, outH).Some? <==>
            && w > 0 && h > 0 && outW > 0 && outH > 0
            && (if Wider(w, h, outW, outH) then outW >= 2 && outW * h >= 2 * w else outH >= 2 && outH * w >= 2 * h)
  {
    if w > 0 && h > 0 && outW > 0 && outH > 0 {
      ScaledFits(w, h, outW, outH);
      DivAtLeast(outW * h, w, 2);
      DivAtLeast(outH * w, h, 2);
    }
  }
}
