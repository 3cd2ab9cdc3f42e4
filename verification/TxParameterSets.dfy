/** The transmitter's parameter-set cache: SPS and PPS seen in the encoder output are
    remembered and put in front of keyframes that lack them, so that a receiver can
    join at any keyframe. */
module TxParameterSets {
  import opened Basics
  import opened AnnexB

  const SPS := 7
  const PPS := 8
  const IDR := 5

  // The end search goes on past position i.
  predicate Quiet(d: seq<Byte>, i: nat) { i + 3 < |d| && CodeLength(d, i) == 0 }

  // Where the search for the end of a NAL unit, started at e, stops.
  function FindEnd(d: seq<Byte>, e: nat): (r: nat)
    ensures e <= r && (e <= |d| ==> r <= |d|)
    ensures !Quiet(d, r) && forall i :: e <= i < r ==> Quiet(d, i)
    decreases |d| - e
  {
    if Quiet(d, e) then FindEnd(d, e + 1) else e
  }

  // ----- which start codes the scan finds -----

  /** A start code with a byte behind it is found unless it stands directly behind a
      found one: the search for the end of a unit skips the unit's first byte, and with
      it a three-byte start code that begins there. */
  predicate Found(d: seq<Byte>, q: nat) {
    Code(d, q) && q + 3 < |d| && (q < 3 || d[q - 1] == 0 || !Found(d, q - 3))
  }

  // The first bytes of the found units from q on, in order.
  function FoundFrom(d: seq<Byte>, q: nat): seq<nat>
    decreases |d| - q
  {
    if q + 3 >= |d| then [] else (if Found(d, q) then [q + 3] else []) + FoundFrom(d, q + 1)
  }

  // The access unit ends in a four-byte start code with nothing behind it.
  predicate BareEnd(d: seq<Byte>) { |d| >= 4 && LongCode(d, |d| - 4) }

  // ... which the scan does not skip.
  predicate Overruns(d: seq<Byte>) { BareEnd(d) && !(|d| >= 7 && Found(d, |d| - 7)) }

  // The positions whose byte the scan reads as a NAL header.
  function HeaderReads(d: seq<Byte>, pos: nat): seq<nat>
    decreases |d| - pos
  {
    if pos + 4 > |d| then []
    else
      var n := CodeLength(d, pos);
      if n == 0 then HeaderReads(d, pos + 1)
      else [pos + n] + HeaderReads(d, FindEnd(d, pos + n + 1))
  }

  // The scan at pos is not inside a found start code, nor on the byte behind one.
  ghost predicate Clear(d: seq<Byte>, pos: nat) {
    forall q :: 0 <= q < pos && pos <= q + 3 ==> !Found(d, q)
  }

  // Nothing is found from i up to j.
  ghost predicate NoneFound(d: seq<Byte>, i: nat, j: nat) { forall q :: i <= q < j ==> !Found(d, q) }

  lemma {:induction false} FoundFromSkips(d: seq<Byte>, i: nat, j: nat)
    requires i <= j && NoneFound(d, i, j)
    ensures FoundFrom(d, i) == FoundFrom(d, j)
    decreases j - i
  {
    if i < j {
      FoundFromSkips(d, i + 1, j);
    }
  }

  // A start code met by the scan with a byte behind it is found, and hides what follows up to the end of its unit.
  lemma {:induction false} UnitHides(d: seq<Byte>, pos: nat)
    requires Clear(d, pos) && pos + 4 <= |d| && CodeLength(d, pos) != 0 && pos + CodeLength(d, pos) < |d|
    ensures var nal := pos + CodeLength(d, pos);
            var end := FindEnd(d, nal + 1);
            && Found(d, nal - 3) && NoneFound(d, pos, nal - 3) && NoneFound(d, nal - 2, end) && Clear(d, end)
  {
    var nal := pos + CodeLength(d, pos);
    var end := FindEnd(d, nal + 1);
    assert Found(d, nal - 3);
    assert d[nal - 1] == 1 && !Found(d, nal);
    forall q: nat | nal - 2 <= q < end ensures !Found(d, q) {
      if q > nal { assert Quiet(d, q); }
    }
  }

  lemma UnitFound(d: seq<Byte>, pos: nat)
    requires Clear(d, pos) && pos + 4 <= |d| && CodeLength(d, pos) != 0 && pos + CodeLength(d, pos) < |d|
    ensures var nal := pos + CodeLength(d, pos);
            var end := FindEnd(d, nal + 1);
            Clear(d, end) && FoundFrom(d, pos) == [nal] + FoundFrom(d, end)
  {
    UnitHides(d, pos);
    var nal := pos + CodeLength(d, pos);
    var end := FindEnd(d, nal + 1);
    FoundFromSkips(d, pos, nal - 3);
    FoundFromSkips(d, nal - 2, end);
  }

  function Behind(d: seq<Byte>, pos: nat): seq<nat> { if Overruns(d) && pos + 4 <= |d| then [|d|] else [] }

  lemma {:induction false} ReadsFromClear(d: seq<Byte>, pos: nat)
    requires Clear(d, pos)
    ensures HeaderReads(d, pos) == FoundFrom(d, pos) + Behind(d, pos)
    decreases |d| - pos
  {
    if pos + 4 <= |d| {
      var n := CodeLength(d, pos);
      if n == 0 {
        ReadsFromClear(d, pos + 1);
        NothingAt(d, pos);
      } else if pos + n < |d| {
        var end := FindEnd(d, pos + n + 1);
        UnitFound(d, pos);
        ReadsFromClear(d, end);
        UnitReads(d, pos);
      } else {
        BareEndReads(d, pos);
      }
    }
  }

  // A bare start code at the end is still to come unless the unit hides it.
  lemma BareEndAfterUnit(d: seq<Byte>, pos: nat)
    requires Clear(d, pos) && pos + 4 <= |d| && CodeLength(d, pos) != 0 && pos + CodeLength(d, pos) < |d|
    ensures Behind(d, pos) == Behind(d, FindEnd(d, pos + CodeLength(d, pos) + 1))
  {
    var nal := pos + CodeLength(d, pos);
    if Overruns(d) {
      UnitHides(d, pos);
      assert d[nal - 1] == 1;
      assert !Quiet(d, |d| - 4);
    }
  }

  lemma UnitReads(d: seq<Byte>, pos: nat)
    requires Clear(d, pos) && pos + 4 <= |d| && CodeLength(d, pos) != 0 && pos + CodeLength(d, pos) < |d|
    requires var end := FindEnd(d, pos + CodeLength(d, pos) + 1);
             HeaderReads(d, end) == FoundFrom(d, end) + Behind(d, end)
    ensures HeaderReads(d, pos) == FoundFrom(d, pos) + Behind(d, pos)
  {
    var nal := pos + CodeLength(d, pos);
    var end := FindEnd(d, nal + 1);
    UnitFound(d, pos);
    BareEndAfterUnit(d, pos);
    Regroup(nal, FoundFrom(d, end), Behind(d, end));
    assert HeaderReads(d, pos) == [nal] + HeaderReads(d, end);
  }

  lemma Regroup(x: nat, a: seq<nat>, b: seq<nat>)
    ensures [x] + (a + b) == [x] + a + b
  {
  }

  lemma NothingAt(d: seq<Byte>, pos: nat)
    requires pos + 4 <= |d| && CodeLength(d, pos) == 0
    ensures FoundFrom(d, pos) == FoundFrom(d, pos + 1) && Behind(d, pos) == Behind(d, pos + 1)
    ensures HeaderReads(d, pos) == HeaderReads(d, pos + 1)
  {
    assert !Found(d, pos);
  }

  lemma {:induction false} BareEndReads(d: seq<Byte>, pos: nat)
    requires Clear(d, pos) && pos + 4 == |d| && LongCode(d, pos)
    ensures HeaderReads(d, pos) == [|d|] && FoundFrom(d, pos) == [] && Overruns(d)
  {
    assert HeaderReads(d, FindEnd(d, |d| + 1)) == [];
    assert FoundFrom(d, pos + 1) == [];
  }

  /** For every access unit, the header reads are the bytes behind the found start codes,
      in order, and the byte behind the buffer exactly when a bare start code at the end
      is not hidden; so they stay inside if and only if there is no such end. */
  lemma {:induction false} ReadsStayInside(d: seq<Byte>)
    ensures HeaderReads(d, 0) == FoundFrom(d, 0) + (if Overruns(d) then [|d|] else [])
    ensures (forall r :: r in HeaderReads(d, 0) ==> r < |d|) <==> !Overruns(d)
  {
    ReadsFromClear(d, 0);
    var f := FoundFrom(d, 0);
    forall r | r in f ensures r < |d| { FoundFromIsExact(d, 0, r); }
    if Overruns(d) {
      assert HeaderReads(d, 0)[|f|] == |d|;
      assert |d| in HeaderReads(d, 0);
    }
  }

  // A position is in the list exactly when it is behind a found start code.
  lemma {:induction false} FoundFromIsExact(d: seq<Byte>, q: nat, r: nat)
    ensures r in FoundFrom(d, q) <==> q + 3 <= r && Found(d, r - 3)
    decreases |d| - q
  {
    if q + 3 < |d| {
      FoundFromIsExact(d, q + 1, r);
    }
  }

  lemma {:induction false} FoundFromIncreases(d: seq<Byte>, q: nat, i: nat, j: nat)
    requires i < j < |FoundFrom(d, q)|
    ensures FoundFrom(d, q)[i] < FoundFrom(d, q)[j]
    decreases |d| - q
  {
    var rest := FoundFrom(d, q + 1);
    if !Found(d, q) {
      FoundFromIncreases(d, q + 1, i, j);
    } else if i > 0 {
      FoundFromIncreases(d, q + 1, i - 1, j - 1);
    } else {
      FoundFromIsExact(d, q + 1, rest[j - 1]);
    }
  }

  lemma BareStartCodeOverruns()
    ensures HeaderReads([0, 0, 0, 1], 0) == [4]
  {
    var d: seq<Byte> := [0, 0, 0, 1];
    assert !Code(d, 0) && LongCode(d, 0);
    assert FindEnd(d, 5) == 5;
    assert HeaderReads(d, 5) == [];
  }

  /** All start codes with a byte behind them are found if and only if none of them stands
      directly behind another. */
  lemma {:induction false} AllFound(d: seq<Byte>)
    ensures (forall q: nat :: Code(d, q) && q + 3 < |d| ==> Found(d, q)) <==> NoCodeBehindCode(d)
  {
    if forall q: nat :: Code(d, q) && q + 3 < |d| ==> Found(d, q) {
      forall q: nat | 3 <= q && q + 3 < |d| && Code(d, q) ensures !Code(d, q - 3) {
        assert Found(d, q);
      }
    }
  }

  ghost predicate NoCodeBehindCode(d: seq<Byte>) {
    forall q: nat :: 3 <= q && q + 3 < |d| && Code(d, q) ==> !Code(d, q - 3)
  }

  // ----- the scan -----

  datatype TxNal = TxNal(nal: nat, end: nat, kind: nat)

  // It stops where it would leave the buffer; see ReadsStayInside.
  function TxScan(d: seq<Byte>, pos: nat): seq<TxNal>
    decreases |d| - pos
  {
    if pos + 4 > |d| then []
    else
      var n := CodeLength(d, pos);
      if n == 0 then TxScan(d, pos + 1)
      else
        var nal := pos + n;
        var end := FindEnd(d, nal + 1);
        if nal >= |d| then [] else [TxNal(nal, end, Kind(d, nal))] + TxScan(d, end)
  }

  function Nals(n: seq<TxNal>): (r: seq<nat>)
    ensures |r| == |n| && forall k :: 0 <= k < |n| ==> r[k] == n[k].nal
  {
    if n == [] then [] else [n[0].nal] + Nals(n[1..])
  }

  /** The scanned units are exactly the found ones. */
  lemma {:induction false} ScanFindsFound(d: seq<Byte>, pos: nat)
    requires Clear(d, pos)
    ensures Nals(TxScan(d, pos)) == FoundFrom(d, pos)
    decreases |d| - pos
  {
    if pos + 4 <= |d| {
      var n := CodeLength(d, pos);
      if n == 0 {
        ScanFindsFound(d, pos + 1);
      } else if pos + n < |d| {
        UnitFound(d, pos);
        var end := FindEnd(d, pos + n + 1);
        ScanFindsFound(d, end);
        assert TxScan(d, pos)[1..] == TxScan(d, end);
      } else {
        BareEndReads(d, pos);
      }
    }
  }

  ghost predicate Sound(d: seq<Byte>, n: seq<TxNal>) {
    forall k :: 0 <= k < |n| ==> PayloadAt(d, n[k].nal) && n[k].nal < n[k].end <= |d| && n[k].kind == Kind(d, n[k].nal)
  }

  lemma {:induction false} TxScanSound(d: seq<Byte>, pos: nat)
    ensures Sound(d, TxScan(d, pos))
    decreases |d| - pos
  {
    if pos + 4 <= |d| {
      var n := CodeLength(d, pos);
      if n == 0 {
        TxScanSound(d, pos + 1);
      } else if pos + n < |d| {
        TxScanSound(d, FindEnd(d, pos + n + 1));
        assert PayloadAt(d, pos + n);
      }
    }
  }

  predicate Carries(n: seq<TxNal>, kind: nat) { exists k :: 0 <= k < |n| && n[k].kind == kind }

  predicate IsSet(kind: nat) { kind == SPS || kind == PPS }

  // The parameter sets among the units, each behind a four-byte start code.
  function Collect(d: seq<Byte>, n: seq<TxNal>): seq<Byte>
    requires Sound(d, n)
  {
    if n == [] then []
    else
      var last := n[|n| - 1];
      Collect(d, n[..|n| - 1]) + if IsSet(last.kind) then [0, 0, 0, 1] + d[last.nal..last.end] else []
  }

  predicate HasBoth(d: seq<Byte>) { Carries(TxScan(d, 0), SPS) && Carries(TxScan(d, 0), PPS) }

  function SetsOf(d: seq<Byte>): seq<Byte> {
    TxScanSound(d, 0);
    Collect(d, TxScan(d, 0))
  }

  // An access unit as the encoder hands it over.
  datatype Au = Au(bytes: seq<Byte>, key: bool)

  predicate IsKeyframe(a: Au) { a.key || Carries(TxScan(a.bytes, 0), IDR) }

  function NewCache(cache: seq<Byte>, a: Au): seq<Byte> {
    if HasBoth(a.bytes) then SetsOf(a.bytes) else cache
  }

  // What is sent for this access unit; nothing for an empty one.
  function Emitted(cache: seq<Byte>, a: Au): seq<Byte> {
    if a.bytes != [] && IsKeyframe(a) && !HasBoth(a.bytes) then NewCache(cache, a) + a.bytes else a.bytes
  }

  // The runs on which the program stays inside its buffers.
  ghost predicate Safe(aus: seq<Au>) { forall i :: 0 <= i < |aus| ==> !Overruns(aus[i].bytes) }

  function Cache(aus: seq<Au>): seq<Byte> {
    if aus == [] then [] else NewCache(Cache(aus[..|aus| - 1]), aus[|aus| - 1])
  }

  // ----- what the scan sees, stated on the bytes -----

  // Some found start code is followed by a byte of that type.
  ghost predicate FoundKind(d: seq<Byte>, kind: nat) {
    exists q: nat :: Found(d, q) && Kind(d, q + 3) == kind
  }

  ghost predicate FoundBoth(d: seq<Byte>) { FoundKind(d, 7) && FoundKind(d, 8) }

  lemma {:induction false} ScannedIsFound(d: seq<Byte>, k: nat)
    requires k < |TxScan(d, 0)|
    ensures var u := TxScan(d, 0)[k]; 3 <= u.nal && Found(d, u.nal - 3) && u.kind == Kind(d, u.nal)
  {
    TxScanSound(d, 0);
    ScanFindsFound(d, 0);
    FoundFromIsExact(d, 0, Nals(TxScan(d, 0))[k]);
  }

  lemma FoundIsScanned(d: seq<Byte>, q: nat) returns (k: nat)
    requires Found(d, q)
    ensures k < |TxScan(d, 0)| && TxScan(d, 0)[k].nal == q + 3
  {
    ScanFindsFound(d, 0);
    FoundFromIsExact(d, 0, q + 3);
    k :| 0 <= k < |FoundFrom(d, 0)| && FoundFrom(d, 0)[k] == q + 3;
  }

  /** The transmitter sees a type exactly when a found start code is followed by it. */
  lemma {:induction false} SeesExactlyFound(d: seq<Byte>, kind: nat)
    ensures Carries(TxScan(d, 0), kind) <==> FoundKind(d, kind)
  {
    if Carries(TxScan(d, 0), kind) {
      var k :| 0 <= k < |TxScan(d, 0)| && TxScan(d, 0)[k].kind == kind;
      ScannedIsFound(d, k);
      var q := TxScan(d, 0)[k].nal - 3;
      assert Found(d, q) && Kind(d, q + 3) == kind;
    }
    if FoundKind(d, kind) {
      var q: nat :| Found(d, q) && Kind(d, q + 3) == kind;
      var k := FoundIsScanned(d, q);
      ScannedIsFound(d, k);
    }
  }

  /** What it sees is in the bytes; and where no start code stands directly behind another,
      it sees all that is. */
  lemma FoundAgainstScan(d: seq<Byte>, kind: nat)
    ensures FoundKind(d, kind) ==> HasKind(d, kind)
    ensures NoCodeBehindCode(d) ==> (FoundKind(d, kind) <==> HasKind(d, kind))
  {
    HasKindOnBytes(d, kind);
    AllFound(d);
    if FoundKind(d, kind) {
      var q: nat :| Found(d, q) && Kind(d, q + 3) == kind;
      assert PayloadAt(d, q + 3);
    }
    if NoCodeBehindCode(d) && HasKind(d, kind) {
      var p: nat :| PayloadAt(d, p) && Kind(d, p) == kind;
      assert Found(d, p - 3) && Kind(d, p - 3 + 3) == kind;
    }
  }

  // ----- every keyframe carries the parameter sets -----

  lemma HasKindInLonger(pre: seq<Byte>, d: seq<Byte>, post: seq<Byte>, kind: nat)
    requires HasKind(d, kind)
    ensures HasKind(pre + d + post, kind)
  {
    HasKindOnBytes(d, kind);
    var p: nat :| PayloadAt(d, p) && Kind(d, p) == kind;
    var e := pre + d + post;
    assert forall i :: 0 <= i < |d| ==> e[|pre| + i] == d[i];
    assert PayloadAt(e, |pre| + p) && Kind(e, |pre| + p) == kind;
    HasKindOnBytes(e, kind);
  }

  lemma SetHasKind(d: seq<Byte>, n: TxNal)
    requires n.nal < n.end <= |d| && n.kind == Kind(d, n.nal)
    ensures HasKind([0, 0, 0, 1] + d[n.nal..n.end], n.kind)
  {
    var s: seq<Byte> := [0, 0, 0, 1] + d[n.nal..n.end];
    assert s[4] == d[n.nal];
    assert PayloadAt(s, 4) && Kind(s, 4) == n.kind;
    HasKindOnBytes(s, n.kind);
  }

  lemma {:induction false} CollectHasKind(d: seq<Byte>, n: seq<TxNal>, k: nat)
    requires Sound(d, n) && k < |n| && IsSet(n[k].kind)
    ensures HasKind(Collect(d, n), n[k].kind)
  {
    var last := n[|n| - 1];
    var shorter := Collect(d, n[..|n| - 1]);
    var more := if IsSet(last.kind) then [0, 0, 0, 1] + d[last.nal..last.end] else [];
    if k == |n| - 1 {
      SetHasKind(d, last);
    } else {
      CollectHasKind(d, n[..|n| - 1], k);
    }
    HasKindInEither(shorter, more, n[k].kind);
  }

  lemma HasKindInEither(a: seq<Byte>, b: seq<Byte>, kind: nat)
    ensures HasKind(a, kind) || HasKind(b, kind) ==> HasKind(a + b, kind)
  {
    if HasKind(a, kind) {
      HasKindInLonger([], a, b, kind);
      assert [] + a + b == a + b;
    }
    if HasKind(b, kind) {
      HasKindInLonger(a, b, [], kind);
      assert a + b + [] == a + b;
    }
  }

  lemma {:induction false} SetsHaveKind(d: seq<Byte>, kind: nat)
    requires IsSet(kind) && Carries(TxScan(d, 0), kind)
    ensures HasKind(SetsOf(d), kind)
  {
    TxScanSound(d, 0);
    var k :| 0 <= k < |TxScan(d, 0)| && TxScan(d, 0)[k].kind == kind;
    CollectHasKind(d, TxScan(d, 0), k);
  }

  // Some access unit carried both parameter sets, where the scan finds them.
  ghost predicate Announced(aus: seq<Au>) { exists i :: 0 <= i < |aus| && FoundBoth(aus[i].bytes) }

  ghost predicate Keyframe(a: Au) { a.bytes != [] && (a.key || FoundKind(a.bytes, 5)) }

  lemma BothExactlyFound(d: seq<Byte>)
    ensures HasBoth(d) <==> FoundBoth(d)
  {
    SeesExactlyFound(d, SPS);
    SeesExactlyFound(d, PPS);
  }

  lemma AnnouncedSnoc(aus: seq<Au>)
    requires aus != []
    ensures Announced(aus) <==> Announced(aus[..|aus| - 1]) || FoundBoth(aus[|aus| - 1].bytes)
  {
    var before := aus[..|aus| - 1];
    if Announced(aus) {
      var i :| 0 <= i < |aus| && FoundBoth(aus[i].bytes);
      if i < |before| { assert before[i] == aus[i]; }
    }
    if Announced(before) {
      var i :| 0 <= i < |before| && FoundBoth(before[i].bytes);
      assert aus[i] == before[i];
    }
  }

  // Once announced, both parameter sets stay in the cache; before, it is empty.
  lemma {:induction false} CacheHoldsBoth(aus: seq<Au>)
    requires Safe(aus)
    ensures Announced(aus) ==> BothIn(Cache(aus))
    ensures !Announced(aus) ==> Cache(aus) == []
  {
    if aus != [] {
      var before, d := aus[..|aus| - 1], aus[|aus| - 1].bytes;
      CacheHoldsBoth(before);
      AnnouncedSnoc(aus);
      BothExactlyFound(d);
      if HasBoth(d) {
        SetsHaveKind(d, SPS);
        SetsHaveKind(d, PPS);
      }
    }
  }

  // What is sent differs from the access unit exactly when the cache goes in front.
  lemma {:induction false} SentUnchanged(aus: seq<Au>, a: Au)
    requires Safe(aus) && !Overruns(a.bytes)
    ensures Emitted(Cache(aus), a) ==
            if Keyframe(a) && !FoundBoth(a.bytes) && Announced(aus) then Cache(aus) + a.bytes else a.bytes
    ensures Announced(aus) ==> Cache(aus) != []
  {
    CacheHoldsBoth(aus);
    BothExactlyFound(a.bytes);
    SeesExactlyFound(a.bytes, IDR);
    assert [] + a.bytes == a.bytes;
  }

  ghost predicate BothIn(d: seq<Byte>) { HasKind(d, 7) && HasKind(d, 8) }

  /** Over any run of access units: the access unit itself is always the tail of what is
      sent, and all of it exactly unless it is a keyframe that lacks a set and both sets
      were announced; and what is sent holds both sets, as the exhaustive scan finds
      them, exactly when the access unit holds both, or it is a keyframe and both sets
      were announced. "Keyframe" and "announced" count found start codes only. */
  lemma {:induction false} KeyframesAreDecodable(aus: seq<Au>, a: Au)
    requires Safe(aus) && !Overruns(a.bytes)
    ensures var out := Emitted(Cache(aus), a);
            && |a.bytes| <= |out| && out[|out| - |a.bytes|..] == a.bytes
            && (out != a.bytes <==> Keyframe(a) && !FoundBoth(a.bytes) && Announced(aus))
            && (BothIn(out) <==> BothIn(a.bytes) || (Keyframe(a) && Announced(aus)))
  {
    SentUnchanged(aus, a);
    if Keyframe(a) && Announced(aus) { KeyframeHasBoth(aus, a); }
  }

  lemma {:induction false} KeyframeHasBoth(aus: seq<Au>, a: Au)
    requires Safe(aus) && !Overruns(a.bytes) && Keyframe(a) && Announced(aus)
    ensures BothIn(Emitted(Cache(aus), a))
  {
    SentUnchanged(aus, a);
    if FoundBoth(a.bytes) {
      FoundAgainstScan(a.bytes, SPS);
      FoundAgainstScan(a.bytes, PPS);
    } else {
      CacheHoldsBoth(aus);
      BothInLonger(Cache(aus), a.bytes);
    }
  }

  lemma BothInLonger(c: seq<Byte>, d: seq<Byte>)
    requires BothIn(c)
    ensures BothIn(c + d)
  {
    assert [] + c + d == c + d;
    HasKindInLonger([], c, d, SPS);
    HasKindInLonger([], c, d, PPS);
  }

  /** In terms of the exhaustive scan alone, where no start code stands directly behind
      another: once some access unit held both sets, every later access unit that is
      flagged as a keyframe or holds an IDR slice is sent with both. */
  lemma {:induction false} KeyframesAfterSets(aus: seq<Au>, a: Au, i: nat)
    requires Safe(aus) && !Overruns(a.bytes) && i < |aus|
    requires NoCodeBehindCode(aus[i].bytes) && NoCodeBehindCode(a.bytes)
    requires BothIn(aus[i].bytes) && a.bytes != [] && (a.key || HasKind(a.bytes, 5))
    ensures BothIn(Emitted(Cache(aus), a))
  {
    FoundAgainstScan(aus[i].bytes, SPS);
    FoundAgainstScan(aus[i].bytes, PPS);
    FoundAgainstScan(a.bytes, IDR);
    KeyframesAreDecodable(aus, a);
  }

  /** Without that condition it fails: an SPS directly behind a bare three-byte start code
      is not seen, so the sets are not announced and the next keyframe is sent without. */
  lemma HiddenSetIsNotCached(d: seq<Byte>, a: Au)
    requires d == [0, 0, 1, 0, 0, 1, 0x67, 0, 0, 1, 0x68] && a == Au([0, 0, 1, 0x65], true)
    ensures !Overruns(d) && !Overruns(a.bytes) && BothIn(d) && !NoCodeBehindCode(d)
    ensures Emitted(Cache([Au(d, true)]), a) == a.bytes && !BothIn(a.bytes)
  {
    HiddenSetInBytes(d);
    HiddenSetNotFound(d);
    NoSetInBareSlice(a.bytes);
    var aus := [Au(d, true)];
    assert !FoundBoth(aus[0].bytes);
    SentUnchanged(aus, a);
  }

  lemma HiddenSetInBytes(d: seq<Byte>)
    requires d == [0, 0, 1, 0, 0, 1, 0x67, 0, 0, 1, 0x68]
    ensures BothIn(d)
  {
    assert PayloadAt(d, 6) && Kind(d, 6) == SPS;
    assert PayloadAt(d, 10) && Kind(d, 10) == PPS;
    HasKindOnBytes(d, SPS);
    HasKindOnBytes(d, PPS);
  }

  lemma HiddenSetNotFound(d: seq<Byte>)
    requires d == [0, 0, 1, 0, 0, 1, 0x67, 0, 0, 1, 0x68]
    ensures !Overruns(d) && !NoCodeBehindCode(d) && !FoundKind(d, SPS)
  {
    assert Code(d, 0) && Code(d, 3) && Found(d, 0);
    forall q: nat | Found(d, q) ensures Kind(d, q + 3) != SPS {
      assert Code(d, q);
      assert q == 0 || q == 3 || q == 7;
    }
  }

  lemma NoSetInBareSlice(d: seq<Byte>)
    requires d == [0, 0, 1, 0x65]
    ensures !BothIn(d) && !Overruns(d)
  {
    HasKindOnBytes(d, SPS);
    assert forall p: nat :: PayloadAt(d, p) ==> p == 3;
  }

  // ----- which cached sets are exact -----

  // Every unit has at least one byte.
  ghost predicate NoEmptyUnit(d: seq<Byte>) {
    forall k :: 0 <= k < |Scan(d)| ==> Scan(d)[k].payload < Scan(d)[k].end
  }

  // No start code with a byte behind it directly follows another one.
  ghost predicate NoAdjacentCodes(d: seq<Byte>) {
    forall p: nat :: 3 <= p && p + 3 < |d| && Code(d, p - 3) ==> CodeLength(d, p) == 0 || p + CodeLength(d, p) == |d|
  }

  // Nothing is marked between i and the next start code.
  lemma {:induction false} ScanSkips(d: seq<Byte>, i: nat, j: nat)
    requires i <= j && forall k :: i <= k < j ==> Quiet(d, k)
    ensures ScanFrom(d, i) == ScanFrom(d, j)
    decreases j - i
  {
    if i < j {
      assert Quiet(d, i);
      ScanSkips(d, i + 1, j);
    }
  }

  function LastEnd(d: seq<Byte>, nal: nat): nat { if nal + 1 + 3 < |d| then |d| - 3 else nal + 1 }

  /** How the transmitter's units relate to the scanned ones: the same payloads; the
      same ends, except that the last unit ends up to three bytes early. */
  ghost predicate Matches(d: seq<Byte>, t: seq<TxNal>, m: seq<Mark>) {
    && |t| == |m|
    && (forall k :: 0 <= k < |t| ==> t[k].nal == m[k].payload)
    && (forall k :: 0 <= k < |t| ==> t[k].end == if k + 1 < |m| then m[k + 1].start else LastEnd(d, t[k].nal))
  }

  lemma MatchesCons(d: seq<Byte>, x: TxNal, y: Mark, t: seq<TxNal>, m: seq<Mark>)
    requires Matches(d, t, m) && x.nal == y.payload
    requires x.end == if m != [] then m[0].start else LastEnd(d, x.nal)
    ensures Matches(d, [x] + t, [y] + m)
  {
  }

  lemma ScanAtCode(d: seq<Byte>, i: nat)
    requires i + 3 < |d| && CodeLength(d, i) != 0 && i + CodeLength(d, i) < |d|
    ensures ScanFrom(d, i) == [Mark(i, i + CodeLength(d, i))] + ScanFrom(d, i + CodeLength(d, i))
  {
  }

  // A bare start code at the end is hidden behind a three-byte one.
  ghost predicate EndHidden(d: seq<Byte>) { BareEnd(d) ==> |d| >= 7 && Code(d, |d| - 7) }

  // So an end search does not stop at it.
  lemma EndNotBare(d: seq<Byte>, nal: nat)
    requires EndHidden(d) && 3 <= nal && nal + 3 < |d| && Code(d, nal - 3) && CodeLength(d, nal) == 0
    ensures var end := FindEnd(d, nal + 1); end + 3 < |d| ==> end + CodeLength(d, end) < |d|
  {
    if BareEnd(d) {
      assert d[nal - 1] == 1;
      assert nal < |d| - 7;
      assert !Quiet(d, |d| - 7);
    }
  }

  // The end search stops at the next mark, or three bytes before the end of the data.
  lemma EndIsNextStart(d: seq<Byte>, nal: nat)
    requires EndHidden(d) && 3 <= nal < |d| && Code(d, nal - 3)
    requires nal + 3 < |d| ==> CodeLength(d, nal) == 0 || nal + CodeLength(d, nal) == |d|
    ensures var end := FindEnd(d, nal + 1);
            var m := ScanFrom(d, nal);
            m == ScanFrom(d, end) && end == if m != [] then m[0].start else LastEnd(d, nal)
  {
    var end := FindEnd(d, nal + 1);
    if nal + 3 < |d| {
      if CodeLength(d, nal) == 0 {
        assert Quiet(d, nal);
        ScanSkips(d, nal, end);
        EndNotBare(d, nal);
        if end + 3 < |d| {
          ScanAtCode(d, end);
        } else {
          assert end > nal + 1 ==> Quiet(d, end - 1);
        }
      } else {
        assert ScanFrom(d, |d|) == [] && ScanFrom(d, nal) == [] && end == nal + 1;
      }
    }
  }

  lemma {:induction false} TxMatchesScan(d: seq<Byte>, pos: nat)
    requires EndHidden(d) && NoAdjacentCodes(d)
    ensures Matches(d, TxScan(d, pos), ScanFrom(d, pos))
    decreases |d| - pos
  {
    if pos + 4 <= |d| {
      var n := CodeLength(d, pos);
      if n == 0 {
        TxMatchesScan(d, pos + 1);
      } else if pos + n < |d| {
        var nal := pos + n;
        var end := FindEnd(d, nal + 1);
        ScanAtCode(d, pos);
        assert Code(d, nal - 3);
        EndIsNextStart(d, nal);
        TxMatchesScan(d, end);
        MatchesCons(d, TxNal(nal, end, Kind(d, nal)), Mark(pos, nal), TxScan(d, end), ScanFrom(d, end));
      } else {
        assert ScanFrom(d, |d|) == [];
      }
    }
  }

  lemma DropOfCons(x: Mark, m: seq<Mark>, k: nat)
    requires k <= |m|
    ensures ([x] + m)[k + 1..] == m[k..] && ([x] + m)[k] == if k == 0 then x else m[k - 1]
  {
  }

  // Behind mark k, the scan goes on from its payload.
  lemma {:induction false} RestOfMarks(d: seq<Byte>, i: nat, k: nat)
    requires k < |ScanFrom(d, i)|
    ensures ScanFrom(d, i)[k + 1..] == ScanFrom(d, ScanFrom(d, i)[k].payload)
    decreases |d| - i
  {
    var n := CodeLength(d, i);
    var m := ScanFrom(d, i);
    if n == 0 {
      RestOfMarks(d, i + 1, k);
    } else if i + n >= |d| {
      RestOfMarks(d, i + n, k);
    } else {
      var rest := ScanFrom(d, i + n);
      assert m == [Mark(i, i + n)] + rest;
      DropOfCons(Mark(i, i + n), rest, k);
      if k > 0 { RestOfMarks(d, i + n, k - 1); }
    }
  }

  lemma NoEmptyMeansNoAdjacent(d: seq<Byte>)
    requires NoEmptyUnit(d)
    ensures NoAdjacentCodes(d)
  {
    ScanIsExact(d);
    forall p: nat | 3 <= p && p + 3 < |d| && Code(d, p - 3)
      ensures CodeLength(d, p) == 0 || p + CodeLength(d, p) == |d|
    {
      assert PayloadAt(d, p);
      var k :| 0 <= k < |Scan(d)| && Scan(d)[k].payload == p;
      if CodeLength(d, p) != 0 && p + CodeLength(d, p) < |d| { AdjacentMeansEmpty(d, k); }
    }
  }

  lemma AdjacentMeansEmpty(d: seq<Byte>, k: nat)
    requires k < |Scan(d)|
    requires var p := Scan(d)[k].payload; p + 3 < |d| && CodeLength(d, p) != 0 && p + CodeLength(d, p) < |d|
    ensures Scan(d)[k].end == Scan(d)[k].payload
  {
    ScanInBounds(d, 0);
    var m := ScanFrom(d, 0);
    var p := m[k].payload;
    RestOfMarks(d, 0, k);
    ScanAtCode(d, p);
    assert m[k + 1..][0] == m[k + 1];
  }

  /** In an access unit without empty units the transmitter finds exactly the scanned
      units, and what it would cache of one is byte-exact if and only if another unit
      follows it or it is a single byte; otherwise its last bytes are cut off. */
  lemma {:induction false} CachedUnitExact(d: seq<Byte>, k: nat)
    requires !Overruns(d) && NoEmptyUnit(d) && k < |Scan(d)|
    ensures |TxScan(d, 0)| == |Scan(d)|
    ensures var t, n := TxScan(d, 0)[k], Scan(d)[k];
            && t.nal == n.payload && t.kind == n.kind && t.nal < t.end <= |d|
            && (d[t.nal..t.end] == UnitBytes(d, n) <==> k + 1 < |Scan(d)| || |UnitBytes(d, n)| == 1)
  {
    NoEmptyMeansNoAdjacent(d);
    TxMatchesScan(d, 0);
    TxScanSound(d, 0);
    ScanInBounds(d, 0);
    NalsTile(d);
    var t, n := TxScan(d, 0)[k], Scan(d)[k];
    assert n == Closed(d, ScanFrom(d, 0))[k];
    assert UnitBytes(d, n) == d[n.payload..n.end];
    if k + 1 < |Scan(d)| {
      assert t.end == n.end;
    } else {
      assert n.end == |d| && t.end == LastEnd(d, t.nal);
      assert |d[t.nal..t.end]| == t.end - t.nal;
    }
  }

  // The scanned parameter sets, complete, each behind a four-byte start code.
  function ExactSets(d: seq<Byte>, n: seq<Nal>): seq<Byte> {
    if n == [] then []
    else
      var last := n[|n| - 1];
      ExactSets(d, n[..|n| - 1]) + if last.kind in {7, 8} then [0, 0, 0, 1] + UnitBytes(d, last) else []
  }

  lemma {:induction false} CollectIsExact(d: seq<Byte>, t: seq<TxNal>, n: seq<Nal>)
    requires Sound(d, t) && |t| == |n|
    requires forall k :: 0 <= k < |t| ==> SameSet(d, t, n, k)
    ensures Collect(d, t) == ExactSets(d, n)
  {
    if t != [] {
      var l := |t| - 1;
      forall k | 0 <= k < l ensures SameSet(d, t[..l], n[..l], k) { assert SameSet(d, t, n, k); }
      CollectIsExact(d, t[..l], n[..l]);
      assert SameSet(d, t, n, l);
    }
  }

  // The cached bytes of the unit at k, and the scanned ones, agree.
  ghost predicate SameSet(d: seq<Byte>, t: seq<TxNal>, n: seq<Nal>, k: nat)
    requires k < |t| && k < |n| && Sound(d, t)
  {
    t[k].kind == n[k].kind && (IsSet(t[k].kind) ==> d[t[k].nal..t[k].end] == UnitBytes(d, n[k]))
  }

  // Two collections that agree but for the last unit are equal exactly when that agrees too.
  lemma {:induction false} CollectDecidedByLast(d: seq<Byte>, t: seq<TxNal>, n: seq<Nal>)
    requires Sound(d, t) && |t| == |n| > 0 && t[|t| - 1].kind == n[|n| - 1].kind
    requires forall k :: 0 <= k < |t| - 1 ==> SameSet(d, t, n, k)
    ensures Collect(d, t) == ExactSets(d, n) <==> SameSet(d, t, n, |t| - 1)
  {
    var l := |t| - 1;
    var t', n' := t[..l], n[..l];
    forall k | 0 <= k < l ensures SameSet(d, t', n', k) { assert SameSet(d, t, n, k); }
    CollectIsExact(d, t', n');
    if IsSet(t[l].kind) {
      var shared, x, y := Collect(d, t'), [0, 0, 0, 1] + d[t[l].nal..t[l].end], [0, 0, 0, 1] + UnitBytes(d, n[l]);
      CommonPrefix(shared, x, y);
      CommonPrefix([0, 0, 0, 1], d[t[l].nal..t[l].end], UnitBytes(d, n[l]));
    }
  }

  lemma CommonPrefix(s: seq<Byte>, x: seq<Byte>, y: seq<Byte>)
    ensures s + x == s + y <==> x == y
  {
    if s + x == s + y {
      assert x == (s + x)[|s|..] == (s + y)[|s|..] == y;
    }
  }

  /** After an access unit that carried both sets and has no empty NAL unit, the cache is
      exactly its parameter sets if and only if its last unit is not one, or is a single
      byte. */
  lemma CacheIsExact(aus: seq<Au>)
    requires Safe(aus) && aus != []
    requires var d := aus[|aus| - 1].bytes; FoundBoth(d) && NoEmptyUnit(d)
    ensures var d := aus[|aus| - 1].bytes;
            && Scan(d) != []
            && var last := Scan(d)[|Scan(d)| - 1];
               Cache(aus) == ExactSets(d, Scan(d)) <==> last.kind !in {7, 8} || |UnitBytes(d, last)| == 1
  {
    var d := aus[|aus| - 1].bytes;
    BothExactlyFound(d);
    FoundAgainstScan(d, SPS);
    assert Scan(d) != [];
    CollectedExactly(d);
  }

  lemma {:induction false} CollectedExactly(d: seq<Byte>)
    requires !Overruns(d) && NoEmptyUnit(d) && Scan(d) != []
    ensures var last := Scan(d)[|Scan(d)| - 1];
            SetsOf(d) == ExactSets(d, Scan(d)) <==> last.kind !in {7, 8} || |UnitBytes(d, last)| == 1
  {
    var t, n := TxScan(d, 0), Scan(d);
    TxScanSound(d, 0);
    CachedUnitExact(d, |n| - 1);
    forall k | 0 <= k < |n| - 1 ensures SameSet(d, t, n, k) { CachedUnitExact(d, k); }
    CollectDecidedByLast(d, t, n);
  }

  /** A PPS that ends the access unit is cut off in the cache. */
  lemma {:induction false} LastSetIsTruncated(d: seq<Byte>)
    requires d == [0, 0, 1, 8, 21, 22, 23]
    ensures !Overruns(d) && TxScan(d, 0) == [TxNal(3, 4, PPS)] && ScanFrom(d, 0) == [Mark(0, 3)]
  {
    assert Code(d, 0) && CodeLength(d, 3) == 0;
    assert TxScan(d, 4) == [];
    assert ScanFrom(d, 4) == [] && ScanFrom(d, 3) == [];
  }

  // ----- the object the program keeps -----

  class Transmitter {
    var parameterSets: seq<Byte>

    constructor ()
      ensures parameterSets == Cache([])
    {
      parameterSets := [];
    }

    method OnVenc(a: Au) returns (out: seq<Byte>)
      requires !Overruns(a.bytes)
      modifies this
      ensures parameterSets == NewCache(old(parameterSets), a)
      ensures out == Emitted(old(parameterSets), a)
    {
      var r := ScanAccessUnit(a.bytes);
      if r.sps && r.pps { parameterSets := r.sets; }
      out := a.bytes;
      if a.bytes == [] { return; }
      if (a.key || r.idr) && !(r.sps && r.pps) && parameterSets != [] {
        out := parameterSets + a.bytes;
      } else {
        assert [] + a.bytes == a.bytes;
      }
    }
  }

  // What the scan gathers.
  datatype Gathered = Gathered(sets: seq<Byte>, sps: bool, pps: bool, idr: bool)

  const NOTHING := Gathered([], false, false, false)

  function Took(g: Gathered, kind: nat, bytes: seq<Byte>): Gathered {
    Gathered(g.sets + (if IsSet(kind) then [0, 0, 0, 1] + bytes else []),
             g.sps || kind == SPS, g.pps || kind == PPS, g.idr || kind == IDR)
  }

  // The rest of the scanning loop, from pos with g gathered.
  function Rest(d: seq<Byte>, pos: nat, g: Gathered): Gathered
    decreases |d| - pos
  {
    if pos + 4 > |d| then g
    else
      var n := CodeLength(d, pos);
      if n == 0 then Rest(d, pos + 1, g)
      else
        var nal := pos + n;
        var end := FindEnd(d, nal + 1);
        if nal >= |d| then g else Rest(d, end, Took(g, Kind(d, nal), d[nal..end]))
  }

  // The results of scanning the units n.
  ghost predicate Collected(d: seq<Byte>, n: seq<TxNal>, g: Gathered) {
    && Sound(d, n) && g.sets == Collect(d, n)
    && g.sps == Carries(n, SPS) && g.pps == Carries(n, PPS) && g.idr == Carries(n, IDR)
  }

  lemma CarriesSnoc(n: seq<TxNal>, unit: TxNal, kind: nat)
    ensures Carries(n + [unit], kind) <==> Carries(n, kind) || kind == unit.kind
  {
    if Carries(n, kind) {
      var i :| 0 <= i < |n| && n[i].kind == kind;
      assert (n + [unit])[i].kind == kind;
    }
    assert (n + [unit])[|n|] == unit;
  }

  lemma {:induction false} CollectSnoc(d: seq<Byte>, n: seq<TxNal>, u: TxNal)
    requires Sound(d, n) && PayloadAt(d, u.nal) && u.nal < u.end <= |d| && u.kind == Kind(d, u.nal)
    ensures Sound(d, n + [u])
    ensures Collect(d, n + [u]) == Collect(d, n) + if IsSet(u.kind) then [0, 0, 0, 1] + d[u.nal..u.end] else []
  {
    assert (n + [u])[..|n|] == n;
  }

  lemma CollectOne(d: seq<Byte>, n: seq<TxNal>, u: TxNal, g: Gathered)
    requires Collected(d, n, g) && PayloadAt(d, u.nal) && u.nal < u.end <= |d| && u.kind == Kind(d, u.nal)
    ensures Collected(d, n + [u], Took(g, u.kind, d[u.nal..u.end]))
  {
    CarriesSnoc(n, u, SPS);
    CarriesSnoc(n, u, PPS);
    CarriesSnoc(n, u, IDR);
    CollectSnoc(d, n, u);
  }

  // One unit of the scan and of the loop.
  lemma RestAtUnit(d: seq<Byte>, pos: nat, g: Gathered)
    requires pos + 4 <= |d| && CodeLength(d, pos) != 0 && pos + CodeLength(d, pos) < |d|
    ensures var nal := pos + CodeLength(d, pos);
            var end := FindEnd(d, nal + 1);
            && nal < end <= |d| && PayloadAt(d, nal)
            && TxScan(d, pos) == [TxNal(nal, end, Kind(d, nal))] + TxScan(d, end)
            && Rest(d, pos, g) == Rest(d, end, Took(g, Kind(d, nal), d[nal..end]))
  {
  }

  lemma RestAtNothing(d: seq<Byte>, pos: nat, g: Gathered)
    requires pos + 4 <= |d| && CodeLength(d, pos) == 0
    ensures TxScan(d, pos) == TxScan(d, pos + 1) && Rest(d, pos, g) == Rest(d, pos + 1, g)
  {
  }

  // What the units n add, one after the other.
  function Folded(d: seq<Byte>, g: Gathered, n: seq<TxNal>): Gathered
    requires Sound(d, n)
  {
    if n == [] then g
    else
      var last := n[|n| - 1];
      Took(Folded(d, g, n[..|n| - 1]), last.kind, d[last.nal..last.end])
  }

  lemma {:induction false} FoldedCons(d: seq<Byte>, g: Gathered, u: TxNal, n: seq<TxNal>)
    requires Sound(d, [u] + n) && Sound(d, n) && u.nal < u.end <= |d|
    ensures Folded(d, g, [u] + n) == Folded(d, Took(g, u.kind, d[u.nal..u.end]), n)
  {
    var m := [u] + n;
    if n == [] {
      assert m[..0] == [] && m[0] == u;
    } else {
      assert m[..|m| - 1] == [u] + n[..|n| - 1];
      FoldedCons(d, g, u, n[..|n| - 1]);
    }
  }

  lemma {:induction false} FoldedCollects(d: seq<Byte>, n: seq<TxNal>)
    requires Sound(d, n)
    ensures Collected(d, n, Folded(d, NOTHING, n))
  {
    if n != [] {
      var before, last := n[..|n| - 1], n[|n| - 1];
      FoldedCollects(d, before);
      CollectOne(d, before, last, Folded(d, NOTHING, before));
      assert before + [last] == n;
    }
  }

  /** The loop gathers what the scanned units add. */
  lemma {:induction false} RestIsFolded(d: seq<Byte>, pos: nat, g: Gathered)
    ensures Sound(d, TxScan(d, pos)) && Rest(d, pos, g) == Folded(d, g, TxScan(d, pos))
    decreases |d| - pos
  {
    TxScanSound(d, pos);
    var nal := pos + CodeLength(d, pos);
    if pos + 4 <= |d| && nal == pos {
      RestAtNothing(d, pos, g);
      RestIsFolded(d, pos + 1, g);
    } else if pos + 4 <= |d| && nal < |d| {
      RestAtUnit(d, pos, g);
      var end := FindEnd(d, nal + 1);
      RestIsFolded(d, end, Took(g, Kind(d, nal), d[nal..end]));
      FoldedAtUnit(d, g, TxNal(nal, end, Kind(d, nal)), TxScan(d, pos), TxScan(d, end));
    }
  }

  lemma {:induction false} FoldedAtUnit(d: seq<Byte>, g: Gathered, u: TxNal, m: seq<TxNal>, n: seq<TxNal>)
    requires Sound(d, m) && Sound(d, n) && m == [u] + n && u.nal < u.end <= |d|
    ensures Folded(d, g, m) == Folded(d, Took(g, u.kind, d[u.nal..u.end]), n)
  {
    FoldedCons(d, g, u, n);
  }

  method ScanAccessUnit(d: seq<Byte>) returns (g: Gathered)
    requires !Overruns(d)
    ensures Collected(d, TxScan(d, 0), g)
  {
    g := NOTHING;
    var pos := 0;
    while pos + 4 <= |d|
      invariant Clear(d, pos) && Rest(d, pos, g) == Rest(d, 0, NOTHING)
      decreases |d| - pos
    {
      var prefix := StartCodeAt(d, pos);
      if prefix == 0 {
        pos := pos + 1;
        continue;
      }
      var nal := pos + prefix;
      HeaderInside(d, pos);
      var end := SearchEnd(d, nal + 1);
      g := TakeUnit(g, Kind(d, nal), d[nal..end]);
      pos := end;
    }
    RestIsFolded(d, 0, NOTHING);
    FoldedCollects(d, TxScan(d, 0));
  }

  // What one unit adds.
  method TakeUnit(before: Gathered, kind: nat, bytes: seq<Byte>) returns (g: Gathered)
    ensures g == Took(before, kind, bytes)
  {
    g := before;
    if kind == SPS || kind == PPS {
      g := if kind == SPS then g.(sps := true) else g.(pps := true);
      g := g.(sets := g.sets + ([0, 0, 0, 1] + bytes));
    } else if kind == IDR {
      g := g.(idr := true);
    }
  }

  lemma {:induction false} HeaderInside(d: seq<Byte>, pos: nat)
    requires !Overruns(d) && Clear(d, pos) && pos + 4 <= |d| && CodeLength(d, pos) != 0
    ensures var nal := pos + CodeLength(d, pos); nal < |d| && Clear(d, FindEnd(d, nal + 1))
  {
    if pos + CodeLength(d, pos) >= |d| { BareEndReads(d, pos); }
    UnitHides(d, pos);
  }

  method SearchEnd(d: seq<Byte>, from: nat) returns (end: nat)
    ensures end == FindEnd(d, from)
  {
    end := from;
    while end + 3 < |d|
          && !(d[end] == 0 && d[end + 1] == 0 && (d[end + 2] == 1 || (d[end + 2] == 0 && d[end + 3] == 1)))
      invariant from <= end && FindEnd(d, end) == FindEnd(d, from)
      decreases |d| - end
    {
      assert Quiet(d, end);
      end := end + 1;
    }
  }
}
