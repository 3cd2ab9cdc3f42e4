/** The decode fixture: it splits an Annex B file into access units and pushes them,
    one per timer tick, into a decoder that may be full, fail, or report frames at
    any time. The results cover every interleaving of ticks and decoder events and
    every answer of the packet pool, the decoder and the clock. */
module DecodeFixture {
  import opened Basics
  import opened AnnexB

  const AUD := 9
  const DRAIN_US := 5000000

  // ----- splitting the file at access unit delimiters -----

  function DelimiterStarts(n: seq<Nal>): seq<nat> {
    if n == [] then []
    else (if n[0].kind == AUD then [n[0].start] else []) + DelimiterStarts(n[1..])
  }

  function AuStarts(d: seq<Byte>): (s: seq<nat>)
    ensures s != [] && s[0] == 0
  {
    var s := DelimiterStarts(Scan(d));
    if s == [] then [0] else if s[0] != 0 then [0] + s else s
  }

  function AuEnd(d: seq<Byte>, starts: seq<nat>, i: nat): nat
    requires i < |starts|
  {
    if i + 1 < |starts| then starts[i + 1] else |d|
  }

  ghost predicate CutPoints(d: seq<Byte>, starts: seq<nat>) {
    && (forall i :: 0 <= i < |starts| ==> starts[i] < |d|)
    && (forall i :: 0 <= i < |starts| - 1 ==> starts[i] < starts[i + 1])
  }

  // Starts of delimiters are where their NAL units start, so they are ordered as those are.
  lemma {:induction false} DelimitersOrdered(d: seq<Byte>, n: seq<Nal>)
    requires forall k :: 0 <= k < |n| ==> n[k].start < |d|
    requires forall k :: 0 <= k < |n| - 1 ==> n[k].start < n[k + 1].start
    ensures CutPoints(d, DelimiterStarts(n))
    ensures DelimiterStarts(n) != [] ==> n != [] && n[0].start <= DelimiterStarts(n)[0]
  {
    if n != [] {
      DelimitersOrdered(d, n[1..]);
    }
  }

  lemma NalStartsIncrease(d: seq<Byte>)
    ensures forall k :: 0 <= k < |Scan(d)| ==> Scan(d)[k].start < |d|
    ensures forall k :: 0 <= k < |Scan(d)| - 1 ==> Scan(d)[k].start < Scan(d)[k + 1].start
  {
    NalsTile(d);
  }

  lemma CutAtZero(d: seq<Byte>, s: seq<nat>)
    requires d != [] && CutPoints(d, s)
    ensures CutPoints(d, if s == [] then [0] else if s[0] != 0 then [0] + s else s)
  {
  }

  lemma StartsAreCutPoints(d: seq<Byte>)
    requires d != []
    ensures CutPoints(d, AuStarts(d))
  {
    NalStartsIncrease(d);
    DelimitersOrdered(d, Scan(d));
    CutAtZero(d, DelimiterStarts(Scan(d)));
  }

  lemma {:induction false} DelimiterStartsExact(n: seq<Nal>, p: nat)
    ensures p in DelimiterStarts(n) <==> exists k :: 0 <= k < |n| && n[k].start == p && n[k].kind == 9
  {
    if n != [] {
      DelimiterStartsExact(n[1..], p);
      if p in DelimiterStarts(n[1..]) {
        var k :| 0 <= k < |n[1..]| && n[1..][k].start == p && n[1..][k].kind == 9;
        assert n[k + 1] == n[1..][k];
      }
      if exists k :: 0 <= k < |n| && n[k].start == p && n[k].kind == 9 {
        var k :| 0 <= k < |n| && n[k].start == p && n[k].kind == 9;
        if k > 0 { assert n[1..][k - 1] == n[k]; }
      }
    }
  }

  // A unit of type 9, an access unit delimiter, starts at p.
  ghost predicate DelimiterAt(d: seq<Byte>, p: nat) {
    exists k :: 0 <= k < |Scan(d)| && Scan(d)[k].start == p && Scan(d)[k].kind == 9
  }

  /** An access unit starts at a position if and only if it is the start of the file or of
      an access unit delimiter, NAL unit type 9. */
  lemma StartsAreDelimiters(d: seq<Byte>, p: nat)
    ensures p in AuStarts(d) <==> p == 0 || DelimiterAt(d, p)
  {
    DelimiterStartsExact(Scan(d), p);
    DelimiterStartsExact(Scan(d), 0);
    var s := DelimiterStarts(Scan(d));
    assert p in [0] + s <==> p == 0 || p in s;
  }

  /** So no access unit contains a delimiter, except at its beginning. */
  lemma DelimitersOnlyFirst(d: seq<Byte>, i: nat, p: nat)
    requires d != [] && i < |AuStarts(d)| && DelimiterAt(d, p)
    requires AuStarts(d)[i] <= p < AuEnd(d, AuStarts(d), i)
    ensures p == AuStarts(d)[i]
  {
    StartsAreDelimiters(d, p);
    StartsAreCutPoints(d);
    var s := AuStarts(d);
    var j :| 0 <= j < |s| && s[j] == p;
    if j < i { StartsOrdered(d, s, j, i); }
    if i + 1 < j { StartsOrdered(d, s, i + 1, j); }
  }

  lemma {:induction false} StartsOrdered(d: seq<Byte>, s: seq<nat>, i: nat, j: nat)
    requires CutPoints(d, s) && i < j < |s|
    ensures s[i] < s[j]
    decreases j - i
  {
    if i + 1 < j { StartsOrdered(d, s, i + 1, j); }
  }

  // The piece of the file that is access unit i.
  function Au(d: seq<Byte>, starts: seq<nat>, i: nat): seq<Byte>
    requires i < |starts|
  {
    if starts[i] <= AuEnd(d, starts, i) <= |d| then d[starts[i]..AuEnd(d, starts, i)] else []
  }

  function Aus(d: seq<Byte>): (a: seq<seq<Byte>>)
    ensures a != []
  {
    var s := AuStarts(d);
    seq(|s|, i requires 0 <= i < |s| => Au(d, s, i))
  }

  function Concat(a: seq<seq<Byte>>): seq<Byte> {
    if a == [] then [] else Concat(a[..|a| - 1]) + a[|a| - 1]
  }

  lemma ConcatSnoc(a: seq<seq<Byte>>, k: nat)
    requires k < |a|
    ensures Concat(a[..k + 1]) == Concat(a[..k]) + a[k]
  {
    assert a[..k + 1][..k] == a[..k];
  }

  lemma AuNonempty(d: seq<Byte>, i: nat)
    requires d != [] && i < |AuStarts(d)|
    ensures AuStarts(d)[i] < AuEnd(d, AuStarts(d), i) <= |d|
    ensures Au(d, AuStarts(d), i) != []
    ensures d[..AuStarts(d)[i]] + Au(d, AuStarts(d), i) == d[..AuEnd(d, AuStarts(d), i)]
  {
    StartsAreCutPoints(d);
  }

  // Where unit k starts; the file's end for k behind the last unit.
  function CutAt(d: seq<Byte>, k: nat): nat
    requires k <= |AuStarts(d)|
  {
    if k < |AuStarts(d)| then AuStarts(d)[k] else |d|
  }

  lemma {:induction false} ConcatUpTo(d: seq<Byte>, k: nat)
    requires d != [] && k <= |Aus(d)|
    ensures CutAt(d, k) <= |d| && Concat(Aus(d)[..k]) == d[..CutAt(d, k)]
  {
    if k == 0 {
    } else {
      ConcatUpTo(d, k - 1);
      ConcatSnoc(Aus(d), k - 1);
      AuNonempty(d, k - 1);
    }
  }

  /** The access units are a partition of the file into nonempty consecutive pieces. */
  lemma AusPartitionFile(d: seq<Byte>)
    requires d != []
    ensures Concat(Aus(d)) == d
    ensures forall i :: 0 <= i < |Aus(d)| ==> Aus(d)[i] != []
  {
    ConcatUpTo(d, |Aus(d)|);
    assert Aus(d)[..|Aus(d)|] == Aus(d) && d[..|d|] == d;
    forall i | 0 <= i < |Aus(d)| ensures Aus(d)[i] != [] { AuNonempty(d, i); }
  }

  /** The splitting loops: unit starts, then unit sizes. */
  method SplitAus(d: seq<Byte>, nals: seq<Nal>) returns (starts: seq<nat>, sizes: seq<nat>)
    requires d != [] && nals == Scan(d)
    ensures starts == AuStarts(d) && |sizes| == |starts|
    ensures forall i :: 0 <= i < |starts| ==> starts[i] + sizes[i] == AuEnd(d, starts, i) && sizes[i] > 0
  {
    starts := FindStarts(nals);
    if starts == [] { starts := [0]; }
    if starts[0] != 0 { starts := [0] + starts; }
    StartsAreCutPoints(d);
    sizes := FindSizes(d, starts);
  }

  method FindSizes(d: seq<Byte>, starts: seq<nat>) returns (sizes: seq<nat>)
    requires CutPoints(d, starts)
    ensures |sizes| == |starts|
    ensures forall i :: 0 <= i < |starts| ==> starts[i] + sizes[i] == AuEnd(d, starts, i) && sizes[i] > 0
  {
    sizes := [];
    for i := 0 to |starts|
      invariant |sizes| == i
      invariant forall j :: 0 <= j < i ==> starts[j] + sizes[j] == AuEnd(d, starts, j) && sizes[j] > 0
    {
      var end := if i + 1 < |starts| then starts[i + 1] else |d|;
      sizes := sizes + [end - starts[i]];
    }
  }

  method FindStarts(nals: seq<Nal>) returns (starts: seq<nat>)
    ensures starts == DelimiterStarts(nals)
  {
    starts := [];
    for i := 0 to |nals|
      invariant starts + DelimiterStarts(nals[i..]) == DelimiterStarts(nals)
    {
      assert nals[i..][1..] == nals[i + 1..];
      if nals[i].kind == AUD { starts := starts + [nals[i].start]; }
    }
  }

  // ----- pushing -----

  datatype Code = Ok | Timeout | Error

  datatype Packet = Data(bytes: seq<Byte>) | Eos

  /** The runtime state, with the packets the decoder has accepted so far. */
  datatype State = State(
    pushed: nat, popped: nat, allPushed: bool, flushSent: bool, failed: bool, done: bool,
    deadline: int, accepted: seq<Packet>)

  const START := State(0, 0, false, false, false, false, 0, [])

  /** `Tick` carries everything the outside world answers during one timer callback;
      `Frames` is a decoder event that delivers so many frames. */
  datatype Event =
    | Tick(timerOk: bool, pool: Code, bufferOk: bool, push: Code, flush: Code, flushTime: int, checkTime: int)
    | Frames(count: nat)

  function Fail(s: State): State { s.(failed := true, done := true) }

  function Flush(s: State, e: Event): State
    requires e.Tick?
  {
    if !s.allPushed || s.flushSent then s
    else if e.flush != Ok then Fail(s)
    else s.(flushSent := true, deadline := e.flushTime + DRAIN_US, accepted := s.accepted + [Eos])
  }

  function CheckDone(s: State, n: nat, e: Event): State
    requires e.Tick?
  {
    if !s.flushSent || s.done then s
    else if s.popped >= n then s.(done := true)
    else if e.checkTime >= s.deadline then Fail(s)
    else s
  }

  function OnTick(s: State, aus: seq<seq<Byte>>, e: Event): State
    requires e.Tick?
  {
    if !e.timerOk then s
    else if !s.allPushed && s.pushed < |aus| then
      if e.pool == Timeout then s
      else if e.pool == Error || !e.bufferOk then Fail(s)
      else if e.push == Timeout then s
      else if e.push == Error then Fail(s)
      else
        var t := s.(pushed := s.pushed + 1, allPushed := s.pushed + 1 >= |aus|,
                    accepted := s.accepted + [Data(aus[s.pushed])]);
        CheckDone(Flush(t, e), |aus|, e)
    else CheckDone(Flush(s, e), |aus|, e)
  }

  function Step(s: State, aus: seq<seq<Byte>>, e: Event): State {
    if e.Frames? then s.(popped := s.popped + e.count) else OnTick(s, aus, e)
  }

  function Run(aus: seq<seq<Byte>>, events: seq<Event>): State {
    if events == [] then START
    else Step(Run(aus, events[..|events| - 1]), aus, events[|events| - 1])
  }

  function Units(aus: seq<seq<Byte>>): seq<Packet> {
    seq(|aus|, i requires 0 <= i < |aus| => Data(aus[i]))
  }

  ghost predicate Inv(s: State, aus: seq<seq<Byte>>) {
    && s.pushed <= |aus|
    && (s.allPushed <==> s.pushed == |aus|)
    && (s.flushSent ==> s.allPushed)
    && s.accepted == Units(aus[..s.pushed]) + (if s.flushSent then [Eos] else [])
    && (s.done && !s.failed ==> s.flushSent && s.popped >= |aus|)
  }

  lemma FinishKeepsInv(s: State, aus: seq<seq<Byte>>, e: Event)
    requires Inv(s, aus) && e.Tick?
    ensures Inv(CheckDone(Flush(s, e), |aus|, e), aus)
  {
  }

  lemma PushKeepsInv(s: State, aus: seq<seq<Byte>>)
    requires Inv(s, aus) && !s.allPushed && s.pushed < |aus|
    ensures Inv(s.(pushed := s.pushed + 1, allPushed := s.pushed + 1 >= |aus|,
                   accepted := s.accepted + [Data(aus[s.pushed])]), aus)
  {
    assert Units(aus[..s.pushed]) + [Data(aus[s.pushed])] == Units(aus[..s.pushed + 1]);
  }

  lemma StepKeepsInv(s: State, aus: seq<seq<Byte>>, e: Event)
    requires Inv(s, aus)
    ensures Inv(Step(s, aus, e), aus)
  {
    if e.Tick? && e.timerOk {
      if !s.allPushed && s.pushed < |aus| {
        if e.pool == Ok && e.bufferOk && e.push == Ok {
          var t := s.(pushed := s.pushed + 1, allPushed := s.pushed + 1 >= |aus|,
                      accepted := s.accepted + [Data(aus[s.pushed])]);
          PushKeepsInv(s, aus);
          FinishKeepsInv(t, aus, e);
        }
      } else {
        FinishKeepsInv(s, aus, e);
      }
    }
  }

  lemma {:induction false} RunKeepsInv(aus: seq<seq<Byte>>, events: seq<Event>)
    requires aus != []
    ensures Inv(Run(aus, events), aus)
  {
    if events == [] {
      assert Units(aus[..0]) == [];
    } else {
      RunKeepsInv(aus, events[..|events| - 1]);
      StepKeepsInv(Run(aus, events[..|events| - 1]), aus, events[|events| - 1]);
    }
  }

  /** Over any run of ticks and decoder events, timeouts and failures included: the
      decoder has accepted a prefix of the access units, in order and once each, and
      end-of-stream at most once and only behind all of them; and a run that ended
      without failure pushed everything and saw at least as many frames. */
  lemma {:induction false} AcceptedIsPrefix(d: seq<Byte>, events: seq<Event>)
    requires d != []
    ensures var s := Run(Aus(d), events);
            && s.pushed <= |Aus(d)|
            && s.accepted == Units(Aus(d)[..s.pushed]) + (if s.flushSent then [Eos] else [])
            && (s.flushSent ==> s.pushed == |Aus(d)|)
            && (s.done && !s.failed ==> s.flushSent && s.popped >= |Aus(d)|)
  {
    RunKeepsInv(Aus(d), events);
  }

  // ----- when the machine fails, and when it is done -----

  // An access unit is offered at this tick and ...
  predicate Offers(s: State, n: nat, e: Event)
    requires e.Tick?
  {
    e.timerOk && s.pushed < n
  }

  // ... taken,
  predicate Takes(s: State, n: nat, e: Event)
    requires e.Tick?
  {
    Offers(s, n, e) && e.pool == Ok && e.bufferOk && e.push == Ok
  }

  // ... or lost for good; a time out only puts it off.
  predicate Breaks(s: State, n: nat, e: Event)
    requires e.Tick?
  {
    Offers(s, n, e) && (e.pool == Error || (e.pool == Ok && (!e.bufferOk || e.push == Error)))
  }

  // By this tick everything is pushed, and the tick goes on.
  predicate AllIn(s: State, n: nat, e: Event)
    requires e.Tick?
  {
    e.timerOk && (s.pushed >= n || (s.pushed + 1 == n && Takes(s, n, e)))
  }

  predicate EndSent(s: State, n: nat, e: Event)
    requires e.Tick?
  {
    AllIn(s, n, e) && (s.flushSent || e.flush == Ok)
  }

  // The drain has taken five seconds since end-of-stream was sent.
  predicate TimesOut(s: State, n: nat, e: Event)
    requires e.Tick?
  {
    && EndSent(s, n, e) && !s.done && s.popped < n
    && e.checkTime >= (if s.flushSent then s.deadline else e.flushTime + 5000000)
  }

  predicate FailsAt(s: State, n: nat, e: Event) {
    e.Tick? && (Breaks(s, n, e) || (AllIn(s, n, e) && !s.flushSent && e.flush != Ok) || TimesOut(s, n, e))
  }

  predicate CompletesAt(s: State, n: nat, e: Event) {
    e.Tick? && EndSent(s, n, e) && !s.done && s.popped >= n
  }

  /** One event, by what the outside world answered. */
  lemma StepExactly(s: State, aus: seq<seq<Byte>>, e: Event)
    requires (s.allPushed <==> s.pushed >= |aus|) && (s.flushSent ==> s.allPushed)
    ensures var t := Step(s, aus, e);
            && (t.failed <==> s.failed || FailsAt(s, |aus|, e))
            && (t.done <==> s.done || FailsAt(s, |aus|, e) || CompletesAt(s, |aus|, e))
            && t.pushed == s.pushed + (if e.Tick? && Takes(s, |aus|, e) then 1 else 0)
            && (t.flushSent <==> s.flushSent || (e.Tick? && EndSent(s, |aus|, e)))
            && (s.flushSent ==> t.deadline == s.deadline)
            && (!s.flushSent && t.flushSent ==> t.deadline == e.flushTime + 5000000)
            && t.popped == s.popped + (if e.Frames? then e.count else 0)
  {
  }

  ghost predicate FailsIn(aus: seq<seq<Byte>>, events: seq<Event>, k: nat)
    requires k < |events|
  {
    FailsAt(Run(aus, events[..k]), |aus|, events[k])
  }

  ghost predicate CompletesIn(aus: seq<seq<Byte>>, events: seq<Event>, k: nat)
    requires k < |events|
  {
    CompletesAt(Run(aus, events[..k]), |aus|, events[k])
  }

  ghost predicate FailedSome(aus: seq<seq<Byte>>, events: seq<Event>) {
    exists k :: 0 <= k < |events| && FailsIn(aus, events, k)
  }

  ghost predicate CompletedSome(aus: seq<seq<Byte>>, events: seq<Event>) {
    exists k :: 0 <= k < |events| && CompletesIn(aus, events, k)
  }

  lemma SameBefore(aus: seq<seq<Byte>>, events: seq<Event>, k: nat)
    requires k < |events| - 1
    ensures FailsIn(aus, events, k) <==> FailsIn(aus, events[..|events| - 1], k)
    ensures CompletesIn(aus, events, k) <==> CompletesIn(aus, events[..|events| - 1], k)
  {
    assert events[..|events| - 1][..k] == events[..k];
  }

  lemma FailedSnoc(aus: seq<seq<Byte>>, events: seq<Event>)
    requires events != []
    ensures var n := |events| - 1;
            FailedSome(aus, events) <==> FailedSome(aus, events[..n]) || FailsIn(aus, events, n)
  {
    var before := events[..|events| - 1];
    forall k | 0 <= k < |before| ensures FailsIn(aus, events, k) <==> FailsIn(aus, before, k) {
      SameBefore(aus, events, k);
    }
  }

  lemma CompletedSnoc(aus: seq<seq<Byte>>, events: seq<Event>)
    requires events != []
    ensures var n := |events| - 1;
            CompletedSome(aus, events) <==> CompletedSome(aus, events[..n]) || CompletesIn(aus, events, n)
  {
    var before := events[..|events| - 1];
    forall k | 0 <= k < |before| ensures CompletesIn(aus, events, k) <==> CompletesIn(aus, before, k) {
      SameBefore(aus, events, k);
    }
  }

  // Ticks at which pool, buffer and decoder all accept what is offered.
  function Chances(events: seq<Event>): nat {
    if events == [] then 0
    else
      var e := events[|events| - 1];
      Chances(events[..|events| - 1]) +
        if e.Tick? && e.timerOk && e.pool == Ok && e.bufferOk && e.push == Ok then 1 else 0
  }

  function Popped(events: seq<Event>): nat {
    if events == [] then 0
    else Popped(events[..|events| - 1]) + if events[|events| - 1].Frames? then events[|events| - 1].count else 0
  }

  /** Over any run: it has failed exactly if at some tick an access unit was refused other
      than by a time out, end-of-stream was refused, or the drain took five seconds; it is
      done exactly if it has failed or at some tick everything was sent and enough frames
      had come back; it has pushed one access unit for every tick at which everything
      accepted one, as long as there were any; and every frame is counted. */
  lemma {:induction false} OutcomeExactly(aus: seq<seq<Byte>>, events: seq<Event>)
    requires aus != []
    ensures var s := Run(aus, events);
            && (s.failed <==> FailedSome(aus, events))
            && (s.done <==> FailedSome(aus, events) || CompletedSome(aus, events))
            && s.pushed == (if Chances(events) < |aus| then Chances(events) else |aus|)
            && s.popped == Popped(events)
  {
    if events != [] {
      var before, e := events[..|events| - 1], events[|events| - 1];
      OutcomeExactly(aus, before);
      RunKeepsInv(aus, before);
      StepExactly(Run(aus, before), aus, e);
      FailedSnoc(aus, events);
      CompletedSnoc(aus, events);
    }
  }

  /** The drain's deadline is five seconds after end-of-stream was sent. */
  lemma {:induction false} DeadlineFromFlush(aus: seq<seq<Byte>>, events: seq<Event>) returns (k: nat)
    requires aus != [] && Run(aus, events).flushSent
    ensures k < |events| && events[k].Tick? && events[k].flush == Ok && !Run(aus, events[..k]).flushSent
    ensures Run(aus, events).deadline == events[k].flushTime + 5000000
  {
    var before, e := events[..|events| - 1], events[|events| - 1];
    RunKeepsInv(aus, before);
    StepExactly(Run(aus, before), aus, e);
    if Run(aus, before).flushSent {
      k := DeadlineFromFlush(aus, before);
      assert before[..k] == events[..k];
    } else {
      k := |before|;
    }
  }

  // The exit verdict, taken once the run is done.
  predicate Verdict(s: State, n: nat) { !s.failed && s.pushed == n && s.popped == n }

  function DataBytes(p: seq<Packet>): seq<Byte> {
    if p == [] then []
    else DataBytes(p[..|p| - 1]) + if p[|p| - 1].Data? then p[|p| - 1].bytes else []
  }

  lemma {:induction false} DataBytesOfUnits(aus: seq<seq<Byte>>)
    ensures DataBytes(Units(aus)) == Concat(aus)
  {
    if aus != [] {
      DataBytesOfUnits(aus[..|aus| - 1]);
      assert Units(aus)[..|aus| - 1] == Units(aus[..|aus| - 1]);
    }
  }

  // End-of-stream carries no bytes of the file.
  lemma {:induction false} DataBytesOfAccepted(aus: seq<seq<Byte>>, flushed: bool)
    ensures DataBytes(Units(aus) + if flushed then [Eos] else []) == Concat(aus)
  {
    var u := Units(aus);
    DataBytesOfUnits(aus);
    assert u + [] == u && (u + [Eos])[..|u|] == u;
  }

  lemma ConcatIsPrefix(d: seq<Byte>, k: nat)
    requires d != [] && k <= |Aus(d)|
    ensures Concat(Aus(d)[..k]) <= d && (k == |Aus(d)| ==> Concat(Aus(d)[..k]) == d)
  {
    ConcatUpTo(d, k);
  }

  /** What the decoder has been given is always a prefix of the file, cut at an access
      unit; and the verdict on a run that is done passes exactly if nothing failed, the
      decoder was given the whole file, which is then followed by end-of-stream, and it
      returned one frame per access unit. */
  lemma {:induction false} DecoderSawFile(d: seq<Byte>, events: seq<Event>)
    requires d != []
    ensures var s := Run(Aus(d), events);
            && DataBytes(s.accepted) <= d
            && (s.done ==>
                  (Verdict(s, |Aus(d)|) <==> !s.failed && DataBytes(s.accepted) == d && s.popped == |Aus(d)|))
            && (s.done && !s.failed ==> s.accepted == Units(Aus(d)) + [Eos])
  {
    AcceptedIsPrefix(d, events);
    var s := Run(Aus(d), events);
    DataBytesOfAccepted(Aus(d)[..s.pushed], s.flushSent);
    ConcatIsPrefix(d, s.pushed);
    assert s.pushed == |Aus(d)| ==> Aus(d)[..s.pushed] == Aus(d);
  }

  // ----- the object the program keeps -----

  class Fixture {
    const aus: seq<seq<Byte>>
    var pushed: nat
    var popped: nat
    var allPushed: bool
    var flushSent: bool
    var failed: bool
    var done: bool
    var deadline: int
    ghost var accepted: seq<Packet>

    ghost function View(): (s: State)
      reads this
    {
      State(pushed, popped, allPushed, flushSent, failed, done, deadline, accepted)
    }

    constructor (aus: seq<seq<Byte>>)
      ensures this.aus == aus && View() == START
    {
      this.aus := aus;
      pushed, popped, allPushed, flushSent, failed, done, deadline := 0, 0, false, false, false, false, 0;
      accepted := [];
    }

    method OnTimer(e: Event)
      requires e.Tick?
      modifies this
      ensures View() == Step(old(View()), aus, e)
    {
      if !e.timerOk { return; }
      if !allPushed {
        if pushed < |aus| {
          if e.pool != Ok {
            if e.pool == Timeout { return; }
            failed, done := true, true;
            return;
          }
          if !e.bufferOk {
            failed, done := true, true;
            return;
          }
          if e.push != Ok {
            if e.push == Timeout { return; }
            failed, done := true, true;
            return;
          }
          accepted := accepted + [Data(aus[pushed])];
          pushed := pushed + 1;
          if pushed >= |aus| { allPushed := true; }
        }
      }
      Finish(e);
    }

    method Finish(e: Event)
      requires e.Tick?
      modifies this
      ensures View() == CheckDone(Flush(old(View()), e), |aus|, e)
    {
      if allPushed && !flushSent {
        if e.flush != Ok {
          failed, done := true, true;
        } else {
          flushSent := true;
          deadline := e.flushTime + DRAIN_US;
          accepted := accepted + [Eos];
        }
      }
      if flushSent && !done {
        if popped >= |aus| {
          done := true;
        } else if e.checkTime >= deadline {
          failed, done := true, true;
        }
      }
    }

    // Pops until the decoder has nothing more to give; `pops` are its answers.
    method OnVdecEvent(pops: seq<Code>)
      modifies this
      ensures View() == Step(old(View()), aus, Frames(LeadingOks(pops)))
    {
      var i := 0;
      while i < |pops| && pops[i] == Ok
        invariant 0 <= i <= |pops|
        invariant LeadingOks(pops) == i + LeadingOks(pops[i..])
        invariant View() == old(View()).(popped := old(popped) + i)
      {
        popped := popped + 1;
        assert pops[i..][1..] == pops[i + 1..];
        i := i + 1;
      }
    }
  }

  function LeadingOks(pops: seq<Code>): nat {
    if pops == [] || pops[0] != Ok then 0 else 1 + LeadingOks(pops[1..])
  }
}
