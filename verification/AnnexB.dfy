/** H.264 byte streams (Annex B of ITU-T H.264): the start-code scanner of the
    decode fixture, the IDR detector of the receiver, and the writer of the avcC
    configuration record (ISO/IEC 14496-15, section 5.3.3.1, base record). */
module AnnexB {
  import opened Basics

  // Bytes 00 00 01 at q.
  predicate Code(d: seq<Byte>, q: nat) {
    q + 3 <= |d| && d[q] == 0 && d[q + 1] == 0 && d[q + 2] == 1
  }

  // Bytes 00 00 00 01 at q.
  predicate LongCode(d: seq<Byte>, q: nat) {
    q + 4 <= |d| && d[q] == 0 && d[q + 1] == 0 && d[q + 2] == 0 && d[q + 3] == 1
  }

  // Length of the start code at i, or 0.
  function CodeLength(d: seq<Byte>, i: nat): nat {
    if Code(d, i) then 3 else if LongCode(d, i) then 4 else 0
  }

  // Position p is the first payload byte behind a start code.
  predicate PayloadAt(d: seq<Byte>, p: nat) {
    3 <= p < |d| && Code(d, p - 3)
  }

  datatype Mark = Mark(start: nat, payload: nat)

  // `kind` is nal_unit_type.
  datatype Nal = Nal(start: nat, payload: nat, end: nat, kind: nat)

  function Kind(d: seq<Byte>, i: nat): nat
    requires i < |d|
  {
    d[i] % 32
  }

  // The type is the low five bits of the header, below a zero bit and two of nal_ref_idc.
  lemma KindIsTypeField(d: seq<Byte>, i: nat, refIdc: nat, kind: nat)
    requires i < |d| && refIdc < 4 && kind < 32 && d[i] == 32 * refIdc + kind
    ensures Kind(d, i) == kind
  {
  }

  // The scanner, which jumps over each start code it recognises.
  function ScanFrom(d: seq<Byte>, i: nat): seq<Mark>
    decreases |d| - i
  {
    if i + 3 >= |d| then []
    else
      var n := CodeLength(d, i);
      if n == 0 then ScanFrom(d, i + 1)
      else (if i + n < |d| then [Mark(i, i + n)] else []) + ScanFrom(d, i + n)
  }

  ghost predicate InBounds(d: seq<Byte>, m: seq<Mark>) {
    forall k :: 0 <= k < |m| ==> m[k].start < m[k].payload < |d|
  }

  // Each NAL unit ends where the next one's start code begins.
  function Closed(d: seq<Byte>, m: seq<Mark>): (n: seq<Nal>)
    requires InBounds(d, m)
    ensures |n| == |m|
  {
    seq(|m|, k requires 0 <= k < |m| =>
      Nal(m[k].start, m[k].payload, if k + 1 < |m| then m[k + 1].start else |d|, Kind(d, m[k].payload)))
  }

  lemma {:induction false} ScanInBounds(d: seq<Byte>, i: nat)
    ensures InBounds(d, ScanFrom(d, i))
    decreases |d| - i
  {
    if i + 3 < |d| {
      var n := CodeLength(d, i);
      ScanInBounds(d, if n == 0 then i + 1 else i + n);
    }
  }

  function Scan(d: seq<Byte>): (n: seq<Nal>)
    ensures forall k :: 0 <= k < |n| ==> n[k].payload < |d|
  {
    ScanInBounds(d, 0);
    Closed(d, ScanFrom(d, 0))
  }

  /** The scanning loop, and the pass that fills in the ends. */
  method ScanAnnexB(d: seq<Byte>) returns (nals: seq<Nal>)
    ensures nals == Scan(d)
  {
    var marks := MarkStartCodes(d);
    ScanInBounds(d, 0);
    nals := [];
    for k := 0 to |marks|
      invariant nals == Scan(d)[..k]
    {
      var end := if k + 1 < |marks| then marks[k + 1].start else |d|;
      nals := nals + [Nal(marks[k].start, marks[k].payload, end, Kind(d, marks[k].payload))];
    }
  }

  method StartCodeAt(d: seq<Byte>, i: nat) returns (n: nat)
    requires i + 3 < |d|
    ensures n == CodeLength(d, i)
  {
    n := 0;
    if d[i] == 0 && d[i + 1] == 0 {
      if d[i + 2] == 1 { n := 3; }
      else if d[i + 2] == 0 && d[i + 3] == 1 { n := 4; }
    }
  }

  method MarkStartCodes(d: seq<Byte>) returns (marks: seq<Mark>)
    ensures marks == ScanFrom(d, 0)
  {
    marks := [];
    var i := 0;
    while i + 3 < |d|
      invariant marks + ScanFrom(d, i) == ScanFrom(d, 0)
      decreases |d| - i
    {
      var n := StartCodeAt(d, i);
      ScanStep(d, i, marks);
      if n == 0 {
        i := i + 1;
      } else {
        var payload := i + n;
        if payload < |d| { marks := marks + [Mark(i, payload)]; }
        i := payload;
      }
    }
  }

  // The marks so far and the scan still to come, across one step.
  lemma ScanStep(d: seq<Byte>, i: nat, marks: seq<Mark>)
    requires i + 3 < |d|
    ensures var n := CodeLength(d, i);
            if n == 0 then ScanFrom(d, i) == ScanFrom(d, i + 1)
            else marks + ScanFrom(d, i) ==
                 (if i + n < |d| then marks + [Mark(i, i + n)] else marks) + ScanFrom(d, i + n)
  {
  }

  // ----- the scanner finds exactly the start codes -----

  /** The plain definition: one payload offset q+3 for every 00 00 01 at q that is
      followed by at least one byte, found by trying every position. */
  function Offsets(d: seq<Byte>, q: nat): seq<nat>
    decreases |d| - q
  {
    if q + 3 >= |d| then [] else (if Code(d, q) then [q + 3] else []) + Offsets(d, q + 1)
  }

  function Payloads(m: seq<Mark>): (p: seq<nat>)
    ensures |p| == |m| && forall k :: 0 <= k < |p| ==> p[k] == m[k].payload
  {
    if m == [] then [] else [m[0].payload] + Payloads(m[1..])
  }

  // Behind a recognised start code nothing is skipped that the plain search would find.
  lemma SkipOverCode(d: seq<Byte>, i: nat)
    requires i + 3 < |d| && CodeLength(d, i) != 0
    ensures var n := CodeLength(d, i);
            Offsets(d, i) == (if i + n < |d| then [i + n] else []) + Offsets(d, i + n)
  {
    assert Offsets(d, i) == (if Code(d, i) then [i + 3] else []) + Offsets(d, i + 1);
    if Code(d, i) {
      assert Offsets(d, i + 1) == Offsets(d, i + 2) == Offsets(d, i + 3);
    } else if i + 4 < |d| {
      assert Offsets(d, i + 1) == [i + 4] + Offsets(d, i + 2);
      assert Offsets(d, i + 2) == Offsets(d, i + 3) == Offsets(d, i + 4);
    }
  }

  lemma {:induction false} ScanFindsOffsets(d: seq<Byte>, i: nat)
    ensures Payloads(ScanFrom(d, i)) == Offsets(d, i)
    decreases |d| - i
  {
    if i + 3 < |d| {
      var n := CodeLength(d, i);
      if n == 0 {
        ScanFindsOffsets(d, i + 1);
      } else {
        ScanFindsOffsets(d, i + n);
        SkipOverCode(d, i);
        assert Payloads(ScanFrom(d, i)) == (if i + n < |d| then [i + n] else []) + Payloads(ScanFrom(d, i + n));
      }
    }
  }

  lemma {:induction false} OffsetsAreExact(d: seq<Byte>, q: nat)
    ensures forall p: nat :: p in Offsets(d, q) <==> q + 3 <= p && PayloadAt(d, p)
    decreases |d| - q
  {
    if q + 3 < |d| {
      OffsetsAreExact(d, q + 1);
      assert Offsets(d, q) == (if Code(d, q) then [q + 3] else []) + Offsets(d, q + 1);
    }
  }

  lemma {:induction false} OffsetsIncrease(d: seq<Byte>, q: nat, i: nat, j: nat)
    requires i < j < |Offsets(d, q)|
    ensures Offsets(d, q)[i] < Offsets(d, q)[j]
    decreases |d| - q
  {
    var rest := Offsets(d, q + 1);
    if !Code(d, q) {
      OffsetsIncrease(d, q + 1, i, j);
    } else if i == 0 {
      OffsetsAreExact(d, q + 1);
      assert rest[j - 1] in rest;
    } else {
      OffsetsIncrease(d, q + 1, i - 1, j - 1);
    }
  }

  /** The scanner refines the plain definition: for every byte string its payload
      offsets are, in order, exactly the positions behind a 00 00 01. */
  lemma {:induction false} ScanIsExact(d: seq<Byte>)
    ensures |Scan(d)| == |Offsets(d, 0)|
    ensures forall k :: 0 <= k < |Scan(d)| ==>
          && Scan(d)[k].payload == Offsets(d, 0)[k]
          && Scan(d)[k].kind == Kind(d, Scan(d)[k].payload)
    ensures forall k :: 0 <= k < |Scan(d)| ==> PayloadAt(d, Scan(d)[k].payload)
    ensures forall p: nat :: PayloadAt(d, p) ==> exists k :: 0 <= k < |Scan(d)| && Scan(d)[k].payload == p
    ensures forall i, j :: 0 <= i < j < |Scan(d)| ==> Scan(d)[i].payload < Scan(d)[j].payload
  {
    ScanInBounds(d, 0);
    ScanFindsOffsets(d, 0);
    OffsetsAreExact(d, 0);
    var n, m, o := Scan(d), ScanFrom(d, 0), Offsets(d, 0);
    forall k | 0 <= k < |n| ensures n[k].payload == o[k] && PayloadAt(d, n[k].payload) {
      assert Payloads(m)[k] == m[k].payload;
      assert o[k] in o;
    }
    forall i, j | 0 <= i < j < |n| ensures n[i].payload < n[j].payload {
      OffsetsIncrease(d, 0, i, j);
    }
    forall p: nat | PayloadAt(d, p) ensures exists k :: 0 <= k < |n| && n[k].payload == p {
      assert p in o;
      var k :| 0 <= k < |o| && o[k] == p;
      assert n[k].payload == p;
    }
  }

  // ----- NAL units tile the stream -----

  ghost predicate Ordered(d: seq<Byte>, m: seq<Mark>, from: nat) {
    && (forall k :: 0 <= k < |m| ==>
          && from <= m[k].start < m[k].payload < |d|
          && m[k].payload == m[k].start + CodeLength(d, m[k].start))
    && (forall k :: 0 <= k < |m| - 1 ==> m[k].payload <= m[k + 1].start)
  }

  lemma {:induction false} ScanOrdered(d: seq<Byte>, i: nat)
    ensures Ordered(d, ScanFrom(d, i), i)
    decreases |d| - i
  {
    if i + 3 < |d| {
      var n := CodeLength(d, i);
      if n == 0 { ScanOrdered(d, i + 1); } else { ScanOrdered(d, i + n); }
    }
  }

  // The first unit starts at the first start code.
  lemma {:induction false} ScanStartsAtFirstCode(d: seq<Byte>, i: nat, q: nat)
    requires i <= q && q + 3 < |d| && Code(d, q)
    ensures var m := ScanFrom(d, i); m != [] && m[0].start <= q
    decreases |d| - i
  {
    var n := CodeLength(d, i);
    if n == 0 {
      assert q != i;
      ScanStartsAtFirstCode(d, i + 1, q);
    }
  }

  /** Units are ordered and, from the first start code on, tile the stream: each is
      its start code plus a payload, and ends where the next one begins. */
  lemma NalsTile(d: seq<Byte>)
    ensures var n := Scan(d);
            && (forall k :: 0 <= k < |n| ==>
                  && n[k].start < n[k].payload <= n[k].end <= |d|
                  && n[k].payload == n[k].start + CodeLength(d, n[k].start))
            && (forall k :: 0 <= k < |n| ==> n[k].end == if k + 1 < |n| then n[k + 1].start else |d|)
            && (forall q: nat :: q + 3 < |d| && Code(d, q) ==> n != [] && n[0].start <= q)
  {
    ScanInBounds(d, 0);
    ScanOrdered(d, 0);
    forall q: nat | q + 3 < |d| && Code(d, q) ensures Scan(d) != [] && Scan(d)[0].start <= q {
      ScanStartsAtFirstCode(d, 0, q);
    }
  }

  // ----- the receiver's IDR detector -----

  ghost predicate HasKind(d: seq<Byte>, kind: nat) {
    exists k :: 0 <= k < |Scan(d)| && Scan(d)[k].kind == kind
  }

  // Stated on the bytes: some 00 00 01 is followed by a byte of that type.
  lemma HasKindOnBytes(d: seq<Byte>, kind: nat)
    ensures HasKind(d, kind) <==> exists p: nat :: PayloadAt(d, p) && Kind(d, p) == kind
  {
    ScanIsExact(d);
    if HasKind(d, kind) {
      var k :| 0 <= k < |Scan(d)| && Scan(d)[k].kind == kind;
      assert PayloadAt(d, Scan(d)[k].payload) && Kind(d, Scan(d)[k].payload) == kind;
    }
    if exists p: nat :: PayloadAt(d, p) && Kind(d, p) == kind {
      var p: nat :| PayloadAt(d, p) && Kind(d, p) == kind;
      var k :| 0 <= k < |Scan(d)| && Scan(d)[k].payload == p;
      assert Scan(d)[k].kind == kind;
    }
  }

  /** The receiver tries every position and looks behind short and long start codes
      alike; it reports an IDR slice exactly when the scanned units contain one. */
  method HasIdr(d: seq<Byte>) returns (idr: bool)
    ensures idr <==> HasKind(d, 5)
  {
    idr := false;
    var i := 0;
    while i + 3 < |d|
      invariant idr ==> exists p: nat :: PayloadAt(d, p) && Kind(d, p) == 5
      invariant !idr ==> forall p: nat :: PayloadAt(d, p) && p < i + 3 ==> Kind(d, p) != 5
      decreases |d| - i
    {
      if d[i] == 0 && d[i + 1] == 0 && (d[i + 2] == 1 || (d[i + 2] == 0 && d[i + 3] == 1)) {
        var off := if d[i + 2] == 1 then i + 3 else i + 4;
        if off < |d| {
          assert PayloadAt(d, off);
          if Kind(d, off) == 5 { idr := true; }
        }
      }
      i := i + 1;
    }
    HasKindOnBytes(d, 5);
  }

  // ----- printing and scanning -----

  // A unit to print: its bytes, and whether it gets a four-byte start code.
  datatype Unit = Unit(long: bool, bytes: seq<Byte>)

  function CodeBytes(u: Unit): seq<Byte> {
    if u.long then [0, 0, 0, 1] else [0, 0, 1]
  }

  // What an encoder guarantees of a NAL unit: no start code inside, no trailing zero.
  ghost predicate WellFormed(u: Unit) {
    u.bytes != [] && u.bytes[|u.bytes| - 1] != 0 && forall q: nat :: !Code(u.bytes, q)
  }

  function Print(units: seq<Unit>): seq<Byte> {
    if units == [] then [] else CodeBytes(units[0]) + units[0].bytes + Print(units[1..])
  }

  // Where the printed units begin when printing starts at `base`.
  function MarksAt(units: seq<Unit>, base: nat): (m: seq<Mark>)
    ensures |m| == |units| && (units != [] ==> m[0].start == base)
  {
    if units == [] then []
    else
      var p := base + |CodeBytes(units[0])|;
      [Mark(base, p)] + MarksAt(units[1..], p + |units[0].bytes|)
  }

  // No start code, short or long, begins inside the bytes of a well-formed unit.
  lemma NoCodeInside(pre: seq<Byte>, u: Unit, post: seq<Byte>, i: nat)
    requires WellFormed(u) && |pre| <= i < |pre| + |u.bytes|
    ensures CodeLength(pre + u.bytes + post, i) == 0
  {
    var d := pre + u.bytes + post;
    var j := i - |pre|;
    assert forall k :: 0 <= k < |u.bytes| ==> d[|pre| + k] == u.bytes[k];
    assert !Code(u.bytes, j) && !Code(u.bytes, j + 1);
    assert d[|pre| + |u.bytes| - 1] != 0;
  }

  // So the scanner passes over them.
  lemma {:induction false} ScanPasses(pre: seq<Byte>, u: Unit, post: seq<Byte>, i: nat)
    requires WellFormed(u) && |pre| <= i <= |pre| + |u.bytes|
    ensures var d := pre + u.bytes + post; ScanFrom(d, i) == ScanFrom(d, |pre| + |u.bytes|)
    decreases |pre| + |u.bytes| - i
  {
    if i < |pre| + |u.bytes| {
      NoCodeInside(pre, u, post, i);
      ScanPasses(pre, u, post, i + 1);
      ScanFromEnd(pre + u.bytes + post, i + 1);
    }
  }

  lemma {:induction false} ScanFromEnd(d: seq<Byte>, i: nat)
    ensures i + 3 > |d| ==> ScanFrom(d, i) == []
  {
  }

  lemma {:induction false} PrintStep(pre: seq<Byte>, units: seq<Unit>)
    requires units != []
    ensures var u := units[0];
            pre + Print(units) == (pre + CodeBytes(u) + u.bytes) + Print(units[1..])
  {
  }

  lemma CodeRecognised(pre: seq<Byte>, u: Unit, post: seq<Byte>)
    requires u.bytes != []
    ensures var d := (pre + CodeBytes(u)) + u.bytes + post;
            CodeLength(d, |pre|) == |CodeBytes(u)| && |pre| + |CodeBytes(u)| < |d|
  {
    var d := (pre + CodeBytes(u)) + u.bytes + post;
    assert forall k :: 0 <= k < |CodeBytes(u)| ==> d[|pre| + k] == CodeBytes(u)[k];
  }

  lemma {:induction false} ScanFirstUnit(pre: seq<Byte>, u: Unit, post: seq<Byte>, next: seq<Byte>)
    requires WellFormed(u) && next == pre + CodeBytes(u) + u.bytes
    ensures ScanFrom(next + post, |pre|) == [Mark(|pre|, |pre| + |CodeBytes(u)|)] + ScanFrom(next + post, |next|)
  {
    assert next + post == (pre + CodeBytes(u)) + u.bytes + post;
    CodeRecognised(pre, u, post);
    ScanPasses(pre + CodeBytes(u), u, post, |pre| + |CodeBytes(u)|);
  }

  lemma MarksStep(units: seq<Unit>, base: nat)
    requires units != []
    ensures var p := base + |CodeBytes(units[0])|;
            MarksAt(units, base) == [Mark(base, p)] + MarksAt(units[1..], p + |units[0].bytes|)
  {
  }

  lemma {:induction false} MarksThen(units: seq<Unit>, base: nat, next: nat)
    requires units != [] && next == base + |CodeBytes(units[0])| + |units[0].bytes|
    ensures MarksAt(units, base) == [Mark(base, base + |CodeBytes(units[0])|)] + MarksAt(units[1..], next)
  {
    MarksStep(units, base);
  }

  lemma {:induction false} ScanPrinted(pre: seq<Byte>, units: seq<Unit>)
    requires forall u :: u in units ==> WellFormed(u)
    ensures ScanFrom(pre + Print(units), |pre|) == MarksAt(units, |pre|)
    decreases |units|
  {
    if units == [] {
      ScanFromEnd(pre + Print(units), |pre|);
    } else {
      var next := pre + CodeBytes(units[0]) + units[0].bytes;
      assert units[0] in units;
      PrintStep(pre, units);
      ScanFirstUnit(pre, units[0], Print(units[1..]), next);
      ScanPrinted(next, units[1..]);
      MarksThen(units, |pre|, |next|);
    }
  }

  function EndOf(d: seq<Byte>, m: seq<Mark>, k: nat): nat
    requires k < |m|
  {
    if k + 1 < |m| then m[k + 1].start else |d|
  }

  // The printed unit k is what lies between the marks.
  ghost predicate UnitBetween(d: seq<Byte>, m: seq<Mark>, k: nat, u: Unit)
    requires k < |m|
  {
    && m[k].start <= m[k].payload <= EndOf(d, m, k) <= |d|
    && d[m[k].start..m[k].payload] == CodeBytes(u)
    && d[m[k].payload..EndOf(d, m, k)] == u.bytes
  }

  lemma BetweenLaterMarks(d: seq<Byte>, first: Mark, m: seq<Mark>, k: nat, u: Unit)
    requires k < |m| && UnitBetween(d, m, k, u)
    ensures UnitBetween(d, [first] + m, k + 1, u)
  {
  }

  lemma {:induction false} PrintedBetweenMarks(pre: seq<Byte>, units: seq<Unit>, k: nat)
    requires k < |units|
    ensures UnitBetween(pre + Print(units), MarksAt(units, |pre|), k, units[k])
    decreases |units|
  {
    var u, rest := units[0], units[1..];
    var next := pre + CodeBytes(u) + u.bytes;
    PrintStep(pre, units);
    MarksThen(units, |pre|, |next|);
    if k == 0 {
      FirstUnitBetween(pre, u, rest);
    } else {
      PrintedBetweenMarks(next, rest, k - 1);
      BetweenLaterMarks(next + Print(rest), Mark(|pre|, |pre| + |CodeBytes(u)|),
                        MarksAt(rest, |next|), k - 1, rest[k - 1]);
    }
  }

  lemma {:induction false} FirstUnitBetween(pre: seq<Byte>, u: Unit, rest: seq<Unit>)
    ensures var next := pre + CodeBytes(u) + u.bytes;
            UnitBetween(next + Print(rest), [Mark(|pre|, |pre| + |CodeBytes(u)|)] + MarksAt(rest, |next|), 0, u)
  {
    var next := pre + CodeBytes(u) + u.bytes;
    assert rest == [] ==> next + Print(rest) == next;
  }

  // NAL unit n of the stream d is u: its start code and its bytes.
  ghost predicate IsUnit(d: seq<Byte>, n: Nal, u: Unit) {
    && n.start <= n.payload <= n.end <= |d|
    && d[n.start..n.payload] == CodeBytes(u)
    && d[n.payload..n.end] == u.bytes
  }

  lemma {:induction false} ScannedUnit(units: seq<Unit>, k: nat)
    requires k < |units| && ScanFrom(Print(units), 0) == MarksAt(units, 0)
    ensures IsUnit(Print(units), Scan(Print(units))[k], units[k])
  {
    var d := Print(units);
    ScanInBounds(d, 0);
    PrintedBetweenMarks([], units, k);
    assert [] + d == d;
    ClosedUnit(d, ScanFrom(d, 0), k, units[k]);
  }

  // A unit between the marks is a unit of the closed list.
  lemma ClosedUnit(d: seq<Byte>, m: seq<Mark>, k: nat, u: Unit)
    requires InBounds(d, m) && k < |m| && UnitBetween(d, m, k, u)
    ensures IsUnit(d, Closed(d, m)[k], u)
  {
    assert Closed(d, m)[k].end == EndOf(d, m, k);
  }

  /** Round trip: print any list of well-formed units, each with a three- or
      four-byte start code, and the scanner returns that list -- the same bytes
      behind the same start codes, nothing more. */
  lemma {:induction false} ScanOfPrint(units: seq<Unit>)
    requires forall u :: u in units ==> WellFormed(u)
    ensures |Scan(Print(units))| == |units|
    ensures forall k :: 0 <= k < |units| ==> IsUnit(Print(units), Scan(Print(units))[k], units[k])
  {
    ScanPrinted([], units);
    assert [] + Print(units) == Print(units);
    forall k | 0 <= k < |units| ensures IsUnit(Print(units), Scan(Print(units))[k], units[k]) {
      ScannedUnit(units, k);
    }
  }

  // ----- the avcC record -----

  // The first unit of the given type.
  function FirstOf(n: seq<Nal>, kind: nat): Option<Nal> {
    if n == [] then None
    else if n[0].kind == kind then Some(n[0])
    else FirstOf(n[1..], kind)
  }

  lemma {:induction false} FirstOfIsFirst(n: seq<Nal>, kind: nat)
    ensures match FirstOf(n, kind)
            case None => forall k :: 0 <= k < |n| ==> n[k].kind != kind
            case Some(x) =>
              exists k :: 0 <= k < |n| && n[k] == x && x.kind == kind && forall j :: 0 <= j < k ==> n[j].kind != kind
  {
    if n != [] && n[0].kind != kind {
      FirstOfIsFirst(n[1..], kind);
      match FirstOf(n[1..], kind)
      case None =>
        forall k | 0 <= k < |n| ensures n[k].kind != kind { assert k > 0 ==> n[k] == n[1..][k - 1]; }
      case Some(x) =>
        var k :| 0 <= k < |n[1..]| && n[1..][k] == x && x.kind == kind
               && forall j :: 0 <= j < k ==> n[1..][j].kind != kind;
        assert n[k + 1] == x;
        forall j | 0 <= j < k + 1 ensures n[j].kind != kind { assert j > 0 ==> n[j] == n[1..][j - 1]; }
    }
  }

  // The bytes of a unit of this stream.
  function UnitBytes(d: seq<Byte>, n: Nal): seq<Byte> {
    if n.payload <= n.end <= |d| then d[n.payload..n.end] else []
  }

  predicate FitsAvcc(sps: seq<Byte>, pps: seq<Byte>) {
    4 <= |sps| <= 0xFFFF && 1 <= |pps| <= 0xFFFF
  }

  function Avcc(sps: seq<Byte>, pps: seq<Byte>): seq<Byte>
    requires FitsAvcc(sps, pps)
  {
    [1, sps[1], sps[2], sps[3], 0xFF, 0xE1, |sps| / 256, |sps| % 256] + sps + [1, |pps| / 256, |pps| % 256] + pps
  }

  /** A reader of the record: it trusts only the length fields. */
  function ParseAvcc(a: seq<Byte>): Option<(seq<Byte>, seq<Byte>)> {
    if |a| < 8 || a[0] != 1 || a[5] % 32 != 1 then None
    else
      var n := U16(a[6], a[7]);
      if |a| < 11 + n || a[8 + n] != 1 then None
      else
        var m := U16(a[9 + n], a[10 + n]);
        if |a| != 11 + n + m then None else Some((a[8..8 + n], a[11 + n..]))
  }

  function U16(high: int, low: int): int { 256 * high + low }

  // Version 1, the profile bytes of the SPS, four-byte NAL lengths, one SPS; reserved bits are ones.
  ghost predicate RecordHead(a: seq<Byte>, sps: seq<Byte>) {
    && 8 <= |a| && 4 <= |sps| && a[0] == 1 && a[1..4] == sps[1..4]
    && a[4] == 0xFC + (4 - 1) && a[5] == 0xE0 + 1
  }

  lemma ParseOfAvcc(sps: seq<Byte>, pps: seq<Byte>)
    requires FitsAvcc(sps, pps)
    ensures ParseAvcc(Avcc(sps, pps)) == Some((sps, pps))
    ensures RecordHead(Avcc(sps, pps), sps)
  {
    var a := Avcc(sps, pps);
    assert a[8..8 + |sps|] == sps && a[11 + |sps|..] == pps;
    assert a[8 + |sps|] == 1 && a[9 + |sps|] == |pps| / 256 && a[10 + |sps|] == |pps| % 256;
  }

  function MadeAvcc(d: seq<Byte>): Option<seq<Byte>> {
    match (FirstOf(Scan(d), 7), FirstOf(Scan(d), 8))
    case (Some(sps), Some(pps)) =>
      if FitsAvcc(UnitBytes(d, sps), UnitBytes(d, pps)) then Some(Avcc(UnitBytes(d, sps), UnitBytes(d, pps))) else None
    case _ => None
  }

  /** Whenever a record is made, reading it back gives exactly the bytes of the
      first SPS and the first PPS of the stream; and none is made exactly when one
      of the two is missing or has a length the record cannot hold: under four bytes or
      none at all, or over 65535. */
  lemma AvccRoundTrip(d: seq<Byte>)
    ensures var sps, pps := FirstOf(Scan(d), 7), FirstOf(Scan(d), 8);
            match MadeAvcc(d)
            case Some(a) =>
              && sps.Some? && pps.Some? && RecordHead(a, UnitBytes(d, sps.value))
              && ParseAvcc(a) == Some((UnitBytes(d, sps.value), UnitBytes(d, pps.value)))
            case None =>
              || sps.None? || pps.None?
              || |UnitBytes(d, sps.value)| < 4 || |UnitBytes(d, sps.value)| > 65535
              || |UnitBytes(d, pps.value)| < 1 || |UnitBytes(d, pps.value)| > 65535
  {
    match (FirstOf(Scan(d), 7), FirstOf(Scan(d), 8))
    case (Some(sps), Some(pps)) =>
      if FitsAvcc(UnitBytes(d, sps), UnitBytes(d, pps)) { ParseOfAvcc(UnitBytes(d, sps), UnitBytes(d, pps)); }
    case _ =>
  }

  method MakeAvcc(d: seq<Byte>, nals: seq<Nal>) returns (avcc: Option<seq<Byte>>)
    requires nals == Scan(d)
    ensures avcc == MadeAvcc(d)
  {
    var sps: Option<Nal>, pps: Option<Nal> := None, None;
    for i := 0 to |nals|
      invariant FirstOf(nals, 7) == if sps.Some? then sps else FirstOf(nals[i..], 7)
      invariant FirstOf(nals, 8) == if pps.Some? then pps else FirstOf(nals[i..], 8)
      invariant sps.Some? ==> sps.value in nals
      invariant pps.Some? ==> pps.value in nals
    {
      assert nals[i..][1..] == nals[i + 1..];
      if nals[i].kind == 7 && sps.None? { sps := Some(nals[i]); }
      if nals[i].kind == 8 && pps.None? { pps := Some(nals[i]); }
    }
    if sps.None? || pps.None? { return None; }
    avcc := RecordOf(d, sps.value, pps.value);
  }

  // The size checks and the record, for the selected units.
  method RecordOf(d: seq<Byte>, sps: Nal, pps: Nal) returns (avcc: Option<seq<Byte>>)
    requires sps in Scan(d) && pps in Scan(d)
    requires FirstOf(Scan(d), 7) == Some(sps) && FirstOf(Scan(d), 8) == Some(pps)
    ensures avcc == MadeAvcc(d)
  {
    NalsTile(d);
    var spsSize := sps.end - sps.payload;
    var ppsSize := pps.end - pps.payload;
    if spsSize < 4 || ppsSize < 1 || spsSize > 0xFFFF || ppsSize > 0xFFFF { return None; }
    var out := WriteAvcc(UnitBytes(d, sps), UnitBytes(d, pps));
    return Some(out);
  }

  // The record is written field by field into a buffer of the final size.
  method WriteAvcc(sps: seq<Byte>, pps: seq<Byte>) returns (record: seq<Byte>)
    requires FitsAvcc(sps, pps)
    ensures record == Avcc(sps, pps)
  {
    var out := new Byte[11 + |sps| + |pps|](_ => 0);
    out[0], out[1], out[2], out[3] := 1, sps[1], sps[2], sps[3];
    out[4], out[5], out[6], out[7] := 0xFF, 0xE1, |sps| / 256, |sps| % 256;
    ghost var head := out[..8];
    assert head == [1, sps[1], sps[2], sps[3], 0xFF, 0xE1, |sps| / 256, |sps| % 256];
    CopyInto(out, 8, sps);
    var offset := 8 + |sps|;
    assert out[..offset] == head + sps;
    WriteTail(out, offset, pps);
    return out[..];
  }

  method WriteTail(out: array<Byte>, offset: nat, pps: seq<Byte>)
    requires |pps| <= 0xFFFF && offset + 3 + |pps| == out.Length
    modifies out
    ensures out[..] == old(out[..offset]) + [1, |pps| / 256, |pps| % 256] + pps
  {
    out[offset], out[offset + 1], out[offset + 2] := 1, |pps| / 256, |pps| % 256;
    assert out[..offset + 3] == old(out[..offset]) + [1, |pps| / 256, |pps| % 256];
    CopyInto(out, offset + 3, pps);
    assert out[..] == out[..offset + 3] + out[offset + 3..offset + 3 + |pps|];
  }

  method CopyInto(out: array<Byte>, at: nat, src: seq<Byte>)
    requires at + |src| <= out.Length
    modifies out
    ensures out[..at] == old(out[..at]) && out[at..at + |src|] == src && out[at + |src|..] == old(out[at + |src|..])
  {
    for i := 0 to |src|
      invariant out[..at] == old(out[..at]) && out[at..at + i] == src[..i]
                && out[at + |src|..] == old(out[at + |src|..])
    {
      out[at + i] := src[i];
      assert out[at..at + i + 1] == out[at..at + i] + [src[i]];
    }
  }
}
