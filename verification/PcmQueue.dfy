/** The bounded PCM queue between the audio callbacks and a nonblocking device.

    Callbacks append converted frames; each callback then drains the queue into a
    device that may accept a write in full or in part, stall, report an error or
    claim more than it was offered. The main result is conservation over whole
    runs: every frame ever queued is accepted once and in order, counted as
    dropped, discarded by closing the sink, or still pending. */
module PcmQueue {
  import opened Basics

  // A frame is 8 bytes: two channels, a 32-bit slot each.
  const CHUNK: nat := 960
  const MAX_FRAMES: nat := 7680
  const MAX_ATTEMPTS: nat := 16

  const EINTR := 4
  const EAGAIN := 11
  const EPIPE := 32
  const ESTRPIPE := 86

  datatype Stats = Stats(
    accepted: nat, again: nat, shortWrites: nat, xruns: nat,
    suspended: nat, errors: nat, recoveryErrors: nat, dropped: nat)

  const NO_STATS := Stats(0, 0, 0, 0, 0, 0, 0, 0)

  /** A drain call under way. `delivered` is what the device took during the call
      and `writes` how often it was called. */
  datatype Drain = Drain(pending: seq<Byte>, shortTail: bool, stats: Stats, delivered: seq<Byte>, writes: nat) {
    function Available(): nat { |pending| / 8 }
    predicate Stopped() { Available() == 0 || (!shortTail && Available() < CHUNK) }
    function Requested(): nat { if Available() < CHUNK then Available() else CHUNK }
  }

  // What the device answers to write number k of a call; a short script stalls.
  function Reply(script: seq<int>, k: nat): int {
    if k < |script| then script[k] else 0
  }

  predicate Taken(d: Drain, reply: int) { 0 < reply <= d.Requested() }

  // The write was taken: remove exactly what was accepted.
  function Accept(d: Drain, n: nat): Drain
    requires Taken(d, n)
  {
    var short := n < d.Requested();
    Drain(d.pending[n * 8..], short,
          d.stats.(accepted := d.stats.accepted + n,
                   shortWrites := d.stats.shortWrites + if short then 1 else 0),
          d.delivered + d.pending[..n * 8], d.writes + 1)
  }

  function CountRefusal(s: Stats, reply: int, prepare: int): Stats {
    if reply == 0 || reply == -EINTR then s
    else if reply == -EAGAIN then s.(again := s.again + 1)
    else if reply == -EPIPE || reply == -ESTRPIPE then
      s.(errors := s.errors + 1,
         xruns := s.xruns + (if reply == -EPIPE then 1 else 0),
         suspended := s.suspended + (if reply == -EPIPE then 0 else 1),
         recoveryErrors := s.recoveryErrors + if prepare < 0 then 1 else 0)
    else s.(errors := s.errors + 1)
  }

  // The write was not taken: count why, and keep all data.
  function Refuse(d: Drain, reply: int, prepare: int): Drain {
    d.(writes := d.writes + 1, stats := CountRefusal(d.stats, reply, prepare))
  }

  function Attempts(d: Drain, script: seq<int>, prepare: int, k: nat): Drain
    decreases MAX_ATTEMPTS - k
  {
    if k >= MAX_ATTEMPTS || d.Stopped() then d
    else if Taken(d, Reply(script, k)) then Attempts(Accept(d, Reply(script, k)), script, prepare, k + 1)
    else Refuse(d, Reply(script, k), prepare)
  }

  function Trimmed(pending: seq<Byte>, shortTail: bool): Drain {
    if |pending| > MAX_FRAMES * 8 then
      var excess := |pending| - MAX_FRAMES * 8;
      Drain(pending[excess..], false, NO_STATS.(dropped := excess / 8), [], 0)
    else Drain(pending, shortTail, NO_STATS, [], 0)
  }

  function Drained(pending: seq<Byte>, shortTail: bool, script: seq<int>, prepare: int): Drain {
    Attempts(Trimmed(pending, shortTail), script, prepare, 0)
  }

  // ----- one call -----

  ghost predicate Aligned(s: seq<Byte>) { |s| % 8 == 0 }

  // Between d and e, m frames went from the front of the queue to the device.
  ghost predicate Moved(d: Drain, e: Drain, m: nat) {
    && m * 8 <= |d.pending|
    && e.pending == d.pending[m * 8..]
    && e.delivered == d.delivered + d.pending[..m * 8]
    && e.stats.accepted == d.stats.accepted + m
    && e.stats.dropped == d.stats.dropped
  }

  lemma MovedCompose(d: Drain, a: Drain, e: Drain, n: nat, m: nat)
    requires Moved(d, a, n) && Moved(a, e, m)
    ensures Moved(d, e, n + m)
  {
    var i, j := n * 8, m * 8;
    assert (n + m) * 8 == i + j;
    assert d.pending[i..][j..] == d.pending[i + j..];
    assert d.pending[..i] + d.pending[i..][..j] == d.pending[..i + j];
  }

  lemma AcceptMoves(d: Drain, n: nat)
    requires Aligned(d.pending) && Taken(d, n)
    ensures Moved(d, Accept(d, n), n) && Aligned(Accept(d, n).pending)
  {
  }

  /** The attempts move a whole number of frames from the front of the queue to
      the device and count them; nothing else happens to the data. */
  lemma {:induction false} AttemptsMoveFrames(d: Drain, script: seq<int>, prepare: int, k: nat) returns (m: nat)
    requires Aligned(d.pending)
    ensures Moved(d, Attempts(d, script, prepare, k), m)
    decreases MAX_ATTEMPTS - k
  {
    if k < MAX_ATTEMPTS && !d.Stopped() && Taken(d, Reply(script, k)) {
      var n := Reply(script, k);
      var a := Accept(d, n);
      AcceptMoves(d, n);
      m := AttemptsMoveFrames(a, script, prepare, k + 1);
      MovedCompose(d, a, Attempts(a, script, prepare, k + 1), n, m);
      m := n + m;
    } else {
      m := 0;
    }
  }

  /** Error accounting: at most one stall or error, and a recovery can only fail
      after an error that asks for one. */
  ghost predicate ErrorsWithin(s: Stats, t: Stats) {
    && 0 <= (t.again - s.again) + (t.errors - s.errors) <= 1
    && 0 <= t.recoveryErrors - s.recoveryErrors <= (t.xruns - s.xruns) + (t.suspended - s.suspended)
       <= t.errors - s.errors
  }

  lemma RefusalErrors(s: Stats, reply: int, prepare: int)
    ensures ErrorsWithin(s, CountRefusal(s, reply, prepare))
  {
  }

  lemma {:induction false} AttemptsCount(d: Drain, script: seq<int>, prepare: int, k: nat)
    requires k <= MAX_ATTEMPTS
    ensures ErrorsWithin(d.stats, Attempts(d, script, prepare, k).stats)
    ensures d.writes <= Attempts(d, script, prepare, k).writes <= d.writes + (MAX_ATTEMPTS - k)
    decreases MAX_ATTEMPTS - k
  {
    var reply := Reply(script, k);
    if k < MAX_ATTEMPTS && !d.Stopped() {
      if Taken(d, reply) {
        var a := Accept(d, reply);
        AttemptsCount(a, script, prepare, k + 1);
        assert Attempts(d, script, prepare, k) == Attempts(a, script, prepare, k + 1);
      } else {
        RefusalErrors(d.stats, reply, prepare);
        assert Attempts(d, script, prepare, k) == Refuse(d, reply, prepare);
      }
    }
  }

  /** The call that ended in `e` split the queue it found into the oldest frames
      beyond 7680, which it dropped, a delivered part, and the part it kept -- all in
      whole frames, and all counted. */
  ghost predicate Partitioned(pending: seq<Byte>, e: Drain) {
    var lost := e.stats.dropped * 8;
    && lost == (if |pending| > MAX_FRAMES * 8 then |pending| - MAX_FRAMES * 8 else 0)
    && pending == pending[..lost] + e.delivered + e.pending
    && |e.delivered| == e.stats.accepted * 8
    && Aligned(e.pending) && |e.pending| <= MAX_FRAMES * 8
  }

  ghost predicate CountsConsistent(e: Drain) {
    && e.stats.again + e.stats.errors <= 1
    && e.stats.recoveryErrors <= e.stats.xruns + e.stats.suspended <= e.stats.errors
    && e.writes <= MAX_ATTEMPTS
  }

  /** What one drain call does to any whole-frame queue, with any device. */
  lemma DrainPartitions(pending: seq<Byte>, shortTail: bool, script: seq<int>, prepare: int)
    requires Aligned(pending)
    ensures var e := Drained(pending, shortTail, script, prepare); Partitioned(pending, e) && CountsConsistent(e)
  {
    var d := Trimmed(pending, shortTail);
    TrimDropsOldest(pending, shortTail);
    AttemptsCount(d, script, prepare, 0);
    var m := AttemptsMoveFrames(d, script, prepare, 0);
    TrimThenMove(pending, shortTail, Attempts(d, script, prepare, 0), m);
  }

  lemma TrimThenMove(pending: seq<Byte>, shortTail: bool, e: Drain, m: nat)
    requires Aligned(pending) && Moved(Trimmed(pending, shortTail), e, m)
    ensures Partitioned(pending, e)
  {
    var d := Trimmed(pending, shortTail);
    TrimDropsOldest(pending, shortTail);
    MovedSplits(d, e, m);
    assert pending == pending[..e.stats.dropped * 8] + d.pending;
  }

  lemma MovedSplits(d: Drain, e: Drain, m: nat)
    requires Moved(d, e, m) && d.delivered == [] && d.stats.accepted == 0 && Aligned(d.pending)
    ensures d.pending == e.delivered + e.pending && |e.delivered| == e.stats.accepted * 8 && Aligned(e.pending)
  {
  }

  lemma TrimDropsOldest(pending: seq<Byte>, shortTail: bool)
    requires Aligned(pending)
    ensures var d := Trimmed(pending, shortTail);
            && d.stats == NO_STATS.(dropped := d.stats.dropped)
            && d.stats.dropped * 8 == (if |pending| > MAX_FRAMES * 8 then |pending| - MAX_FRAMES * 8 else 0)
            && d.pending == pending[d.stats.dropped * 8..] && d.delivered == [] && d.writes == 0
            && Aligned(d.pending) && |d.pending| <= MAX_FRAMES * 8
  {
  }

  /** A write the device did not take ends the call with the data untouched. */
  lemma {:induction false} RefusalEndsCall(d: Drain, script: seq<int>, prepare: int, k: nat)
    requires k < MAX_ATTEMPTS && !d.Stopped() && !Taken(d, Reply(script, k))
    ensures var e := Attempts(d, script, prepare, k);
            e.pending == d.pending && e.delivered == d.delivered
            && e.shortTail == d.shortTail && e.writes == d.writes + 1
  {
  }

  // From write k on, the device takes every write of the call in full.
  ghost predicate TakesInFull(d: Drain, script: seq<int>, k: nat)
    decreases MAX_ATTEMPTS - k
  {
    k < MAX_ATTEMPTS && !d.Stopped() ==>
      Reply(script, k) == d.Requested() && TakesInFull(Accept(d, d.Requested()), script, k + 1)
  }

  lemma AcceptInFull(d: Drain)
    requires Aligned(d.pending) && d.Available() > 0
    ensures var a := Accept(d, d.Requested());
            Aligned(a.pending) && a.Available() == d.Available() - d.Requested()
            && !a.shortTail && a.writes == d.writes + 1
  {
  }

  lemma {:induction false} FullWritesEmptyChunks(d: Drain, script: seq<int>, prepare: int, k: nat)
    requires Aligned(d.pending) && !d.shortTail && TakesInFull(d, script, k)
    requires d.Available() / CHUNK + k <= MAX_ATTEMPTS
    ensures var e := Attempts(d, script, prepare, k);
            e.Available() == d.Available() % CHUNK && e.writes == d.writes + d.Available() / CHUNK
    decreases MAX_ATTEMPTS - k
  {
    if !d.Stopped() {
      AcceptInFull(d);
      FullWritesEmptyChunks(Accept(d, CHUNK), script, prepare, k + 1);
    }
  }

  /** Against a device that takes every write in full, at most 8 writes leave only
      the frames that do not fill a chunk -- and a lone short tail is flushed -- so
      the limit of 16 attempts never cuts such a call short. */
  lemma {:induction false} FullDeviceDrainsChunks(pending: seq<Byte>, shortTail: bool, script: seq<int>, prepare: int)
    requires Aligned(pending) && TakesInFull(Trimmed(pending, shortTail), script, 0)
    ensures var d := Trimmed(pending, shortTail);
            var e := Drained(pending, shortTail, script, prepare);
            && e.writes <= 8
            && e.Available() == if d.shortTail && d.Available() < CHUNK then 0 else d.Available() % CHUNK
  {
    var d := Trimmed(pending, shortTail);
    TrimDropsOldest(pending, shortTail);
    if d.Available() > 0 { FullDrain(d, script, prepare); }
  }

  lemma {:induction false} FullDrain(d: Drain, script: seq<int>, prepare: int)
    requires Aligned(d.pending) && 0 < d.Available() <= MAX_FRAMES && TakesInFull(d, script, 0)
    ensures var e := Attempts(d, script, prepare, 0);
            && e.Available() == (if d.shortTail && d.Available() < CHUNK then 0 else d.Available() % CHUNK)
            && e.writes <= d.writes + 8
  {
    if d.shortTail {
      AcceptInFull(d);
      FirstWriteTaken(d, script, prepare);
      FullWritesEmptyChunks(Accept(d, d.Requested()), script, prepare, 1);
      RestOfChunks(d.Available());
    } else {
      FullWritesEmptyChunks(d, script, prepare, 0);
    }
  }

  lemma RestOfChunks(n: nat)
    requires 0 < n <= MAX_FRAMES
    ensures n >= CHUNK ==> (n - CHUNK) % CHUNK == n % CHUNK && (n - CHUNK) / CHUNK <= 7
  {
  }

  lemma {:induction false} FirstWriteTaken(d: Drain, script: seq<int>, prepare: int)
    requires !d.Stopped() && TakesInFull(d, script, 0)
    ensures Attempts(d, script, prepare, 0) == Attempts(Accept(d, d.Requested()), script, prepare, 1)
    ensures TakesInFull(Accept(d, d.Requested()), script, 1)
  {
  }

  // ----- one call, on the replies and frame counts alone -----

  // The frames taken by the first k replies, if all of them were taken.
  function Sum(script: seq<int>, k: nat): int {
    if k == 0 then 0 else Sum(script, k - 1) + Reply(script, k - 1)
  }

  // Frames left before write k of a call that starts with `frames` of them.
  function Left(frames: nat, script: seq<int>, k: nat): int { frames - Sum(script, k) }

  function Offered(left: int): int { if left < 960 then left else 960 }

  predicate ShortAt(frames: nat, script: seq<int>, k: nat) {
    Reply(script, k) < Offered(Left(frames, script, k))
  }

  // Before write k a short write is to be followed up.
  predicate TailAt(frames: nat, tail: bool, script: seq<int>, k: nat) {
    if k == 0 then tail else ShortAt(frames, script, k - 1)
  }

  // There is something to write: a whole chunk, or the rest of a short write.
  predicate Asked(frames: nat, tail: bool, script: seq<int>, k: nat) {
    Left(frames, script, k) >= 960 || (Left(frames, script, k) > 0 && TailAt(frames, tail, script, k))
  }

  predicate TakenAt(frames: nat, script: seq<int>, k: nat) {
    0 < Reply(script, k) <= Offered(Left(frames, script, k))
  }

  function Shorts(frames: nat, script: seq<int>, k: nat): nat {
    if k == 0 then 0 else Shorts(frames, script, k - 1) + if ShortAt(frames, script, k - 1) then 1 else 0
  }

  ghost predicate AllTaken(frames: nat, tail: bool, script: seq<int>, w: nat) {
    forall k :: 0 <= k < w ==> Asked(frames, tail, script, k) && TakenAt(frames, script, k)
  }

  // What a refused write counts as.
  predicate CountedAs(s: Stats, reply: int, prepare: int) {
    && s.again == (if reply == -11 then 1 else 0)
    && s.errors == (if reply == 0 || reply == -11 || reply == -4 then 0 else 1)
    && s.xruns == (if reply == -32 then 1 else 0)
    && s.suspended == (if reply == -86 then 1 else 0)
    && s.recoveryErrors == (if (reply == -32 || reply == -86) && prepare < 0 then 1 else 0)
  }

  predicate NothingRefused(s: Stats) {
    s.again == s.errors == s.xruns == s.suspended == s.recoveryErrors == 0
  }

  /** The call that ended in `e` took exactly w writes, from `frames` frames. */
  ghost predicate EndedAfter(frames: nat, tail: bool, script: seq<int>, prepare: int, e: Drain, w: nat) {
    var refused := w < 16 && Asked(frames, tail, script, w);
    && w <= 16 && AllTaken(frames, tail, script, w)
    && (refused ==> !TakenAt(frames, script, w))
    && |e.pending| == 8 * Left(frames, script, w)
    && e.shortTail == TailAt(frames, tail, script, w)
    && e.stats.accepted == Sum(script, w) && e.stats.shortWrites == Shorts(frames, script, w)
    && e.writes == w + (if refused then 1 else 0)
    && (if refused then CountedAs(e.stats, Reply(script, w), prepare) else NothingRefused(e.stats))
  }

  // The state before write k, all earlier ones having been taken.
  ghost predicate AtWrite(frames: nat, tail: bool, script: seq<int>, d: Drain, k: nat) {
    && k <= 16 && AllTaken(frames, tail, script, k)
    && |d.pending| == 8 * Left(frames, script, k) && d.shortTail == TailAt(frames, tail, script, k)
    && d.stats.accepted == Sum(script, k) && d.stats.shortWrites == Shorts(frames, script, k)
    && d.writes == k && NothingRefused(d.stats)
  }

  lemma AtWriteMeansAsked(frames: nat, tail: bool, script: seq<int>, d: Drain, k: nat)
    requires AtWrite(frames, tail, script, d, k)
    ensures d.Stopped() <==> !Asked(frames, tail, script, k)
    ensures !d.Stopped() ==> d.Requested() == Offered(Left(frames, script, k))
    ensures !d.Stopped() ==> (Taken(d, Reply(script, k)) <==> TakenAt(frames, script, k))
  {
    assert d.Available() == Left(frames, script, k);
  }

  lemma AtNextWrite(frames: nat, tail: bool, script: seq<int>, d: Drain, k: nat)
    requires AtWrite(frames, tail, script, d, k) && k < 16 && !d.Stopped() && Taken(d, Reply(script, k))
    ensures AtWrite(frames, tail, script, Accept(d, Reply(script, k)), k + 1)
  {
    AtWriteMeansAsked(frames, tail, script, d, k);
    var a := Accept(d, Reply(script, k));
    assert Left(frames, script, k + 1) == Left(frames, script, k) - Reply(script, k);
    assert |a.pending| == |d.pending| - 8 * Reply(script, k);
  }

  lemma RefusedAtWrite(frames: nat, tail: bool, script: seq<int>, prepare: int, d: Drain, k: nat)
    requires AtWrite(frames, tail, script, d, k) && k < 16 && !d.Stopped() && !Taken(d, Reply(script, k))
    ensures EndedAfter(frames, tail, script, prepare, Refuse(d, Reply(script, k), prepare), k)
  {
    AtWriteMeansAsked(frames, tail, script, d, k);
  }

  lemma {:induction false} AttemptsEnd(frames: nat, tail: bool, script: seq<int>, prepare: int, d: Drain, k: nat)
    returns (w: nat)
    requires AtWrite(frames, tail, script, d, k)
    ensures EndedAfter(frames, tail, script, prepare, Attempts(d, script, prepare, k), w)
    decreases 16 - k
  {
    AtWriteMeansAsked(frames, tail, script, d, k);
    w := k;
    if k < 16 && !d.Stopped() {
      if Taken(d, Reply(script, k)) {
        AtNextWrite(frames, tail, script, d, k);
        w := AttemptsEnd(frames, tail, script, prepare, Accept(d, Reply(script, k)), k + 1);
      } else {
        RefusedAtWrite(frames, tail, script, prepare, d, k);
      }
    }
  }

  // Frames after the overflow trim, and whether a short write is still to be followed up.
  function Kept(pending: seq<Byte>): nat { if |pending| > 61440 then 7680 else |pending| / 8 }

  predicate KeptTail(pending: seq<Byte>, shortTail: bool) { shortTail && |pending| <= 61440 }

  /** One call on any whole-frame queue, with any device, by its replies alone: for the one
      number w of writes taken, every one of them was asked for and taken; then the queue
      was empty, or held less than a chunk with nothing to follow up, or 16 writes were
      made, or the next write was refused, and counted by its reply. The tail flag is up
      exactly if the last write taken was short, or none was and it was up before without
      an overflow. */
  lemma DrainExactly(pending: seq<Byte>, shortTail: bool, script: seq<int>, prepare: int)
    requires Aligned(pending)
    ensures exists w: nat ::
              EndedAfter(Kept(pending), KeptTail(pending, shortTail), script, prepare,
                         Drained(pending, shortTail, script, prepare), w)
  {
    var w := DrainEnds(pending, shortTail, script, prepare);
  }

  lemma DrainEnds(pending: seq<Byte>, shortTail: bool, script: seq<int>, prepare: int) returns (w: nat)
    requires Aligned(pending)
    ensures EndedAfter(Kept(pending), KeptTail(pending, shortTail), script, prepare,
                       Drained(pending, shortTail, script, prepare), w)
  {
    TrimmedAtWrite(pending, shortTail, script);
    w := AttemptsEnd(Kept(pending), KeptTail(pending, shortTail), script, prepare, Trimmed(pending, shortTail), 0);
  }

  lemma TrimmedAtWrite(pending: seq<Byte>, shortTail: bool, script: seq<int>)
    requires Aligned(pending)
    ensures AtWrite(Kept(pending), KeptTail(pending, shortTail), script, Trimmed(pending, shortTail), 0)
  {
    TrimDropsOldest(pending, shortTail);
    assert Sum(script, 0) == 0;
  }

  /** A device that takes something of every write it is asked for is followed up until less
      than a chunk is left, or 16 writes were made. */
  lemma ShortWritesAreFollowedUp(pending: seq<Byte>, shortTail: bool, script: seq<int>, prepare: int)
    requires Aligned(pending)
    requires forall k :: 0 <= k < 16 && Asked(Kept(pending), KeptTail(pending, shortTail), script, k) ==>
                           TakenAt(Kept(pending), script, k)
    ensures var e := Drained(pending, shortTail, script, prepare); e.writes == 16 || |e.pending| < 960 * 8
  {
    var w := DrainEnds(pending, shortTail, script, prepare);
  }

  /** The drain loop: it may go on after a write the device took, and after nothing
      else. */
  method DrainQueue(queue: seq<Byte>, tail: bool, script: seq<int>, prepare: int) returns (d: Drain)
    ensures d == Drained(queue, tail, script, prepare)
  {
    d := TrimQueue(queue, tail);
    var attempts, more := 0, true;
    while attempts < MAX_ATTEMPTS && more
      invariant more ==> Attempts(d, script, prepare, attempts) == Drained(queue, tail, script, prepare)
      invariant !more ==> d == Drained(queue, tail, script, prepare)
      decreases MAX_ATTEMPTS - attempts
    {
      d, more := WriteOnce(d, Reply(script, attempts), prepare);
      attempts := attempts + 1;
    }
  }

  // One turn of the loop; `more` says whether it goes on.
  method WriteOnce(d: Drain, written: int, prepare: int) returns (e: Drain, more: bool)
    ensures more <==> !d.Stopped() && Taken(d, written)
    ensures e ==
              if d.Stopped() then d else if Taken(d, written) then Accept(d, written) else Refuse(d, written, prepare)
  {
    var available := |d.pending| / 8;
    if available == 0 || (!d.shortTail && available < CHUNK) { return d, false; }
    var requested := if available < CHUNK then available else CHUNK;
    if 0 < written <= requested {
      var stats := d.stats.(accepted := d.stats.accepted + written);
      var shortTail := written < requested;
      if shortTail { stats := stats.(shortWrites := stats.shortWrites + 1); }
      return Drain(d.pending[written * 8..], shortTail, stats,
                   d.delivered + d.pending[..written * 8], d.writes + 1), true;
    }
    var stats := RecordRefusal(d.stats, written, prepare);
    return d.(stats := stats, writes := d.writes + 1), false;
  }

  method TrimQueue(queue: seq<Byte>, tail: bool) returns (d: Drain)
    ensures d == Trimmed(queue, tail)
  {
    var pending, shortTail, stats := queue, tail, NO_STATS;
    if |pending| > MAX_FRAMES * 8 {
      var excess := |pending| - MAX_FRAMES * 8;
      pending := pending[excess..];
      stats := stats.(dropped := excess / 8);
      shortTail := false;
    }
    return Drain(pending, shortTail, stats, [], 0);
  }

  // Why the device did not take a write, and the one recovery attempt that may follow.
  method RecordRefusal(before: Stats, written: int, prepare: int) returns (stats: Stats)
    ensures stats == CountRefusal(before, written, prepare)
  {
    stats := before;
    if written == 0 || written == -EAGAIN || written == -EINTR {
      if written == -EAGAIN { stats := stats.(again := stats.again + 1); }
      return;
    }
    stats := stats.(errors := stats.errors + 1);
    if written == -EPIPE || written == -ESTRPIPE {
      if written == -EPIPE { stats := stats.(xruns := stats.xruns + 1); }
      else { stats := stats.(suspended := stats.suspended + 1); }
      if prepare < 0 { stats := stats.(recoveryErrors := stats.recoveryErrors + 1); }
    }
  }

  // ----- sample conversion -----

  function LittleEndian(b0: int, b1: int, b2: int, b3: int): int {
    b0 + 0x100 * b1 + 0x1_0000 * b2 + 0x100_0000 * b3
  }

  function Signed32(b: seq<Byte>): int
    requires |b| == 4
  {
    var u := LittleEndian(b[0], b[1], b[2], b[3]);
    if u < 0x8000_0000 then u else u - 0x1_0000_0000
  }

  // The low 24 bits of a stored slot, read as a two's complement number.
  function Signed24(b: seq<Byte>): int
    requires |b| == 4
  {
    var u := LittleEndian(b[0], b[1], b[2], 0);
    if u < 0x80_0000 then u else u - 0x100_0000
  }

  // Right-align a 32-bit sample in a 24-bit slot; the divisions are arithmetic shifts.
  function Slot(sample: int): (b: seq<Byte>)
    ensures |b| == 4
  {
    var s := sample / 0x100;
    [s % 0x100, s / 0x100 % 0x100, s / 0x1_0000 % 0x100, 0]
  }

  function Converted(src: seq<Byte>, n: nat): (dst: seq<Byte>)
    requires 4 * n <= |src|
    ensures |dst| == 4 * n
  {
    if n == 0 then [] else Converted(src, n - 1) + Slot(Signed32(src[4 * (n - 1)..4 * n]))
  }

  lemma SlotKeepsHighBits(sample: int)
    requires -0x8000_0000 <= sample < 0x8000_0000
    ensures Signed24(Slot(sample)) == sample / 0x100 && Slot(sample)[3] == 0
  {
    var s := sample / 0x100;
    var mid, high := s / 0x100, s / 0x1_0000;
    assert s == 0x100 * mid + s % 0x100 && mid == 0x100 * high + mid % 0x100;
    assert -0x80 <= high < 0x80;
    assert high % 0x100 == if high >= 0 then high else high + 0x100;
  }

  /** Every stored slot's low 24 bits sign-extend to floor(input / 256). */
  lemma {:induction false} ConvertedSample(src: seq<Byte>, n: nat, i: nat)
    requires 4 * n <= |src| && i < n
    ensures Signed24(Converted(src, n)[4 * i..4 * i + 4]) == Signed32(src[4 * i..4 * i + 4]) / 0x100
  {
    var last := Slot(Signed32(src[4 * (n - 1)..4 * n]));
    if i == n - 1 {
      SlotKeepsHighBits(Signed32(src[4 * i..4 * i + 4]));
      assert Converted(src, n)[4 * i..4 * i + 4] == last;
    } else {
      ConvertedSample(src, n - 1, i);
      assert Converted(src, n)[4 * i..4 * i + 4] == Converted(src, n - 1)[4 * i..4 * i + 4];
    }
  }

  /** The conversion loop: the queue is first extended by n blank slots, which are
      then filled in place. */
  method AppendConverted(queue: seq<Byte>, src: seq<Byte>, n: nat) returns (pending: seq<Byte>)
    requires 4 * n <= |src|
    ensures pending == queue + Converted(src, n)
  {
    var offset := |queue|;
    pending := queue + seq(4 * n, _ => 0);
    var i := 0;
    while i < n
      invariant 0 <= i <= n && |pending| == offset + 4 * n
      invariant pending[..offset + 4 * i] == queue + Converted(src, i)
    {
      pending := StoreNext(pending, queue, src, i);
      i := i + 1;
    }
    assert pending == pending[..offset + 4 * n];
  }

  // Sample i behind the i samples already converted.
  method StoreNext(before: seq<Byte>, queue: seq<Byte>, src: seq<Byte>, i: nat) returns (after: seq<Byte>)
    requires 4 * (i + 1) <= |src| && |queue| + 4 * (i + 1) <= |before|
    requires before[..|queue| + 4 * i] == queue + Converted(src, i)
    ensures |after| == |before| && after[..|queue| + 4 * (i + 1)] == queue + Converted(src, i + 1)
  {
    after := StoreSlot(before, |queue| + 4 * i, Signed32(src[4 * i..4 * i + 4]));
    OneMoreSlot(queue, src, i);
  }

  // One sample into its slot, byte by byte.
  method StoreSlot(before: seq<Byte>, o: nat, sample: int) returns (after: seq<Byte>)
    requires o + 4 <= |before|
    ensures |after| == |before| && after[..o + 4] == before[..o] + Slot(sample)
  {
    var s := sample / 0x100;
    after := before[o := s % 0x100][o + 1 := s / 0x100 % 0x100][o + 2 := s / 0x1_0000 % 0x100][o + 3 := 0];
    SlotWritten(before, o, Slot(sample));
  }

  lemma OneMoreSlot(queue: seq<Byte>, src: seq<Byte>, i: nat)
    requires 4 * (i + 1) <= |src|
    ensures queue + Converted(src, i) + Slot(Signed32(src[4 * i..4 * i + 4])) == queue + Converted(src, i + 1)
  {
  }

  lemma SlotWritten(before: seq<Byte>, o: nat, w: seq<Byte>)
    requires |w| == 4 && o + 4 <= |before|
    ensures var after := before[o := w[0]][o + 1 := w[1]][o + 2 := w[2]][o + 3 := w[3]];
            after[..o + 4] == before[..o] + w
  {
  }

  // ----- the sink: callbacks, opening and closing -----

  datatype Meta = Meta(channels: nat, rate: nat, s32le: bool, samples: nat)

  // A callback's buffer; without metadata it is stereo S32LE at 48 kHz.
  datatype Buffer = Buffer(data: Option<seq<Byte>>, meta: Option<Meta>) {
    function Samples(): nat
      requires data.Some?
    {
      if meta.Some? then meta.value.samples else |data.value| / 8
    }

    predicate Supported()
      requires data.Some?
    {
      && (meta.Some? ==> meta.value.channels == 2 && meta.value.rate == 48000 && meta.value.s32le)
      && 0 < Samples() <= 48000 && |data.value| == Samples() * 8
    }
  }

  datatype Counters = Counters(
    accepted: nat, again: nat, shortWrites: nat, xruns: nat,
    recoveryErrors: nat, dropped: nat, playbackErrors: nat, unsupported: nat)

  datatype Sink = Sink(started: bool, pending: seq<Byte>, shortTail: bool, counters: Counters)

  const CLOSED := Sink(false, [], false, Counters(0, 0, 0, 0, 0, 0, 0, 0))

  function Account(c: Counters, s: Stats): Counters {
    Counters(c.accepted + s.accepted, c.again + s.again, c.shortWrites + s.shortWrites, c.xruns + s.xruns,
             c.recoveryErrors + s.recoveryErrors, c.dropped + s.dropped,
             c.playbackErrors + s.errors + s.recoveryErrors + (if s.dropped > 0 then 1 else 0), c.unsupported)
  }

  /** `script` and `prepare` are what the device will answer to this callback's
      writes and to its recovery request. */
  datatype Event =
    | Open(ok: bool)
    | Close
    | Play(buffer: Buffer, script: seq<int>, prepare: int)

  predicate Plays(s: Sink, e: Event) {
    e.Play? && s.started && e.buffer.data.Some? && e.buffer.Supported()
  }

  // The frames a supported callback adds to the queue.
  function Added(e: Event): seq<Byte>
    requires e.Play? && e.buffer.data.Some? && e.buffer.Supported()
  {
    Converted(e.buffer.data.value, 2 * e.buffer.Samples())
  }

  function PlayDrain(s: Sink, e: Event): Drain
    requires Plays(s, e)
  {
    Drained(s.pending + Added(e), s.shortTail, e.script, e.prepare)
  }

  function SinkStep(s: Sink, e: Event): Sink {
    match e
    case Open(ok) => s.(started := s.started || ok)
    case Close => s.(started := false, pending := [], shortTail := false)
    case Play(b, _, _) =>
      if !s.started || b.data.None? then s
      else if !b.Supported() then s.(counters := s.counters.(unsupported := s.counters.unsupported + 1))
      else
        var d := PlayDrain(s, e);
        Sink(true, d.pending, d.shortTail, Account(s.counters, d.stats))
  }

  // ----- whole runs -----

  /** A run with its history. Frames are numbered in the order they were queued:
      `input` is all their bytes, `device` all bytes the device took, and the first
      `head` frames have left the queue, each by one of three ways. */
  datatype Trace = Trace(
    sink: Sink, input: seq<Byte>, device: seq<Byte>,
    head: nat, taken: seq<nat>, lost: seq<nat>, discarded: seq<nat>)

  function Range(from: nat, to: nat): (r: seq<nat>)
    requires from <= to
    ensures |r| == to - from && forall i :: 0 <= i < |r| ==> r[i] == from + i
  {
    if from == to then [] else Range(from, to - 1) + [to - 1]
  }

  // A drain call on the queue extended by `added` ended in `d`, leaving the sink in `s`.
  function Advance(t: Trace, s: Sink, added: seq<Byte>, d: Drain): Trace {
    var dropped := t.head + d.stats.dropped;
    var gone := dropped + d.stats.accepted;
    Trace(s, t.input + added, t.device + d.delivered, gone,
          t.taken + Range(dropped, gone), t.lost + Range(t.head, dropped), t.discarded)
  }

  function Step(t: Trace, e: Event): Trace {
    if e.Close? then
      var gone := t.head + |t.sink.pending| / 8;
      t.(sink := SinkStep(t.sink, e), head := gone, discarded := t.discarded + Range(t.head, gone))
    else if Plays(t.sink, e) then
      Advance(t, SinkStep(t.sink, e), Added(e), PlayDrain(t.sink, e))
    else t.(sink := SinkStep(t.sink, e))
  }

  function Run(events: seq<Event>): Trace {
    if events == [] then Trace(CLOSED, [], [], 0, [], [], [])
    else Step(Run(events[..|events| - 1]), events[|events| - 1])
  }

  ghost predicate Increasing(s: seq<nat>) {
    forall i, j :: 0 <= i < j < |s| ==> s[i] < s[j]
  }

  ghost predicate Below(s: seq<nat>, n: nat) {
    forall i :: 0 <= i < |s| ==> s[i] < n
  }

  ghost predicate OneOf(a: bool, b: bool, c: bool) {
    (a && !b && !c) || (!a && b && !c) || (!a && !b && c)
  }

  // The bytes of the frames with the given numbers, in that order.
  ghost function Gather(input: seq<Byte>, frames: seq<nat>): (r: seq<Byte>)
    requires Below(frames, |input| / 8)
    ensures |r| == |frames| * 8
  {
    if frames == [] then []
    else
      var k := frames[|frames| - 1];
      Gather(input, frames[..|frames| - 1]) + input[k * 8..k * 8 + 8]
  }

  ghost predicate IsGathered(device: seq<Byte>, input: seq<Byte>, frames: seq<nat>) {
    Below(frames, |input| / 8) && device == Gather(input, frames)
  }

  /** Each of the first `head` frames is in exactly one of three ordered lists. */
  ghost predicate Fates(head: nat, taken: seq<nat>, lost: seq<nat>, discarded: seq<nat>) {
    && Increasing(taken) && Increasing(lost) && Increasing(discarded)
    && Below(taken, head) && Below(lost, head) && Below(discarded, head)
    && (forall k: nat :: k < head ==> OneOf(k in taken, k in lost, k in discarded))
  }

  ghost predicate QueueInv(t: Trace) {
    && Aligned(t.sink.pending) && |t.sink.pending| <= MAX_FRAMES * 8
    && t.head * 8 + |t.sink.pending| == |t.input|
    && t.sink.pending == t.input[t.head * 8..]
  }

  ghost predicate Inv(t: Trace) {
    && QueueInv(t)
    && Fates(t.head, t.taken, t.lost, t.discarded)
    && IsGathered(t.device, t.input, t.taken)
    && t.sink.counters.accepted == |t.taken|
    && t.sink.counters.dropped == |t.lost|
  }

  lemma {:induction false} AppendRange(s: seq<nat>, from: nat, to: nat)
    requires Increasing(s) && Below(s, from) && from <= to
    ensures var r := s + Range(from, to);
            && Increasing(r) && Below(r, to)
            && forall k: nat :: k in r <==> k in s || from <= k < to
  {
    var r := s + Range(from, to);
    assert forall i :: |s| <= i < |r| ==> r[i] == Range(from, to)[i - |s|] == from + (i - |s|);
    forall k: nat | from <= k < to ensures k in r {
      assert r[|s| + k - from] == k;
    }
  }

  lemma {:induction false} GatherOfLonger(input: seq<Byte>, more: seq<Byte>, frames: seq<nat>)
    requires Below(frames, |input| / 8)
    ensures Gather(input + more, frames) == Gather(input, frames)
  {
    if frames != [] {
      var k := frames[|frames| - 1];
      GatherOfLonger(input, more, frames[..|frames| - 1]);
      assert (input + more)[k * 8..k * 8 + 8] == input[k * 8..k * 8 + 8];
    }
  }

  lemma GatheredSnoc(device: seq<Byte>, input: seq<Byte>, frames: seq<nat>, k: nat)
    requires IsGathered(device, input, frames) && k * 8 + 8 <= |input|
    ensures IsGathered(device + input[k * 8..k * 8 + 8], input, frames + [k])
  {
    assert (frames + [k])[..|frames|] == frames;
  }

  lemma Rejoin(s: seq<Byte>, input: seq<Byte>, i: nat, j: nat, k: nat)
    requires i <= j <= k <= |input|
    ensures s + input[i..j] + input[j..k] == s + input[i..k]
  {
  }

  lemma {:induction false} GatheredRange(device: seq<Byte>, input: seq<Byte>, frames: seq<nat>, from: nat, to: nat)
    requires IsGathered(device, input, frames) && from <= to && to * 8 <= |input|
    ensures IsGathered(device + input[from * 8..to * 8], input, frames + Range(from, to))
  {
    if from == to {
      assert frames + Range(from, to) == frames && device + input[from * 8..to * 8] == device;
    } else {
      var k := to - 1;
      GatheredRange(device, input, frames, from, k);
      GatheredSnoc(device + input[from * 8..k * 8], input, frames + Range(from, k), k);
      Rejoin(device, input, from * 8, k * 8, to * 8);
      assert frames + Range(from, to) == frames + Range(from, k) + [k];
    }
  }

  // Frames head..a are dropped and a..b taken.
  lemma {:induction false} FatesAdvance(head: nat, taken: seq<nat>, lost: seq<nat>, discarded: seq<nat>, a: nat, b: nat)
    requires Fates(head, taken, lost, discarded) && head <= a <= b
    ensures Fates(b, taken + Range(a, b), lost + Range(head, a), discarded)
  {
    AppendRange(lost, head, a);
    AppendRange(taken, a, b);
  }

  lemma {:induction false} FatesDiscard(head: nat, taken: seq<nat>, lost: seq<nat>, discarded: seq<nat>, to: nat)
    requires Fates(head, taken, lost, discarded) && head <= to
    ensures Fates(to, taken, lost, discarded + Range(head, to))
  {
    AppendRange(discarded, head, to);
  }

  lemma Slices(input: seq<Byte>, h: nat, a: nat, b: nat, q: seq<Byte>, mid: seq<Byte>, rest: seq<Byte>)
    requires h <= |input| && input[h..] == q && a <= |q| && |mid| == b && q == q[..a] + mid + rest
    ensures h + a + b <= |input| && mid == input[h + a..h + a + b] && rest == input[h + a + b..]
  {
    assert mid == q[a..a + b];
    assert rest == q[a + b..];
  }

  lemma AdvanceKeepsQueue(t: Trace, s: Sink, added: seq<Byte>, d: Drain)
    requires QueueInv(t) && Partitioned(t.sink.pending + added, d) && s.pending == d.pending
    ensures QueueInv(Advance(t, s, added, d))
    ensures var from, to := t.head + d.stats.dropped, t.head + d.stats.dropped + d.stats.accepted;
            to * 8 <= |t.input + added| && d.delivered == (t.input + added)[from * 8..to * 8]
  {
    var input := t.input + added;
    assert input[t.head * 8..] == t.sink.pending + added;
    Slices(input, t.head * 8, d.stats.dropped * 8, d.stats.accepted * 8,
           t.sink.pending + added, d.delivered, d.pending);
  }

  lemma {:induction false} AdvanceKeepsDevice(device: seq<Byte>, input: seq<Byte>, added: seq<Byte>,
                                              taken: seq<nat>, from: nat, to: nat)
    requires IsGathered(device, input, taken) && from <= to && to * 8 <= |input + added|
    ensures IsGathered(device + (input + added)[from * 8..to * 8], input + added, taken + Range(from, to))
  {
    GatherOfLonger(input, added, taken);
    GatheredRange(device, input + added, taken, from, to);
  }

  lemma AdvanceKeepsGathered(t: Trace, s: Sink, added: seq<Byte>, d: Drain)
    requires QueueInv(t) && Partitioned(t.sink.pending + added, d) && s.pending == d.pending
    requires IsGathered(t.device, t.input, t.taken)
    ensures var u := Advance(t, s, added, d); IsGathered(u.device, u.input, u.taken)
  {
    var dropped := t.head + d.stats.dropped;
    AdvanceKeepsQueue(t, s, added, d);
    AdvanceKeepsDevice(t.device, t.input, added, t.taken, dropped, dropped + d.stats.accepted);
  }

  lemma AdvanceKeepsFates(t: Trace, s: Sink, added: seq<Byte>, d: Drain)
    requires Fates(t.head, t.taken, t.lost, t.discarded)
    ensures var u := Advance(t, s, added, d);
            && Fates(u.head, u.taken, u.lost, u.discarded)
            && |u.taken| == |t.taken| + d.stats.accepted && |u.lost| == |t.lost| + d.stats.dropped
  {
    var dropped := t.head + d.stats.dropped;
    FatesAdvance(t.head, t.taken, t.lost, t.discarded, dropped, dropped + d.stats.accepted);
  }

  lemma AdvanceKeepsInv(t: Trace, s: Sink, added: seq<Byte>, d: Drain)
    requires Inv(t) && Partitioned(t.sink.pending + added, d)
    requires s.pending == d.pending && s.counters == Account(t.sink.counters, d.stats)
    ensures Inv(Advance(t, s, added, d))
  {
    AdvanceKeepsQueue(t, s, added, d);
    AdvanceKeepsFates(t, s, added, d);
    AdvanceKeepsGathered(t, s, added, d);
  }

  lemma StepKeepsInv(t: Trace, e: Event)
    requires Inv(t)
    ensures Inv(Step(t, e))
  {
    if e.Close? {
      FatesDiscard(t.head, t.taken, t.lost, t.discarded, t.head + |t.sink.pending| / 8);
    } else if Plays(t.sink, e) {
      PlayKeepsInv(t, e);
    }
  }

  lemma PlayKeepsInv(t: Trace, e: Event)
    requires Inv(t) && Plays(t.sink, e)
    ensures Inv(Step(t, e))
  {
    PlayPartitions(t.sink, e);
    SinkAfterPlay(t.sink, e);
    AdvanceKeepsInv(t, SinkStep(t.sink, e), Added(e), PlayDrain(t.sink, e));
  }

  lemma SinkAfterPlay(s: Sink, e: Event)
    requires Plays(s, e)
    ensures SinkStep(s, e) ==
              Sink(true, PlayDrain(s, e).pending, PlayDrain(s, e).shortTail, Account(s.counters, PlayDrain(s, e).stats))
  {
  }

  lemma QueueAligned(s: Sink, e: Event)
    requires e.Play? && e.buffer.data.Some? && e.buffer.Supported() && Aligned(s.pending)
    ensures Aligned(s.pending + Added(e))
  {
    WholeFrames(|s.pending|, e.buffer.Samples());
    assert |Added(e)| == 8 * e.buffer.Samples();
  }

  lemma WholeFrames(a: nat, n: nat)
    requires a % 8 == 0
    ensures (a + 8 * n) % 8 == 0
  {
  }

  lemma PlayPartitions(s: Sink, e: Event)
    requires Plays(s, e) && Aligned(s.pending)
    ensures Partitioned(s.pending + Added(e), PlayDrain(s, e))
  {
    QueueAligned(s, e);
    DrainPartitions(s.pending + Added(e), s.shortTail, e.script, e.prepare);
  }

  lemma {:induction false} RunKeepsInv(events: seq<Event>)
    ensures Inv(Run(events))
  {
    if events != [] {
      RunKeepsInv(events[..|events| - 1]);
      StepKeepsInv(Run(events[..|events| - 1]), events[|events| - 1]);
    }
  }

  /** Conservation. Over any run of callbacks, openings and closings, with any
      device: every queued frame is pending, or was taken by the device, dropped on
      overflow or discarded by closing -- one of these, never two; frames leave the
      queue oldest first; the device saw exactly the taken frames, in the order they
      were queued; and the public counters are the sizes of those groups. */
  lemma {:induction false} EveryFrameHasOneFate(events: seq<Event>)
    ensures var t := Run(events);
            && Fates(t.head, t.taken, t.lost, t.discarded)
            && t.head * 8 + |t.sink.pending| == |t.input| && t.sink.pending == t.input[t.head * 8..]
            && |t.sink.pending| <= MAX_FRAMES * 8
            && IsGathered(t.device, t.input, t.taken)
            && t.sink.counters.accepted == |t.taken| && t.sink.counters.dropped == |t.lost|
  {
    RunKeepsInv(events);
  }

  /** Nothing is lost while the queue has room: a callback that leaves at most 7680
      frames queued drops none. */
  lemma {:induction false} NoLossWithoutOverflow(events: seq<Event>, e: Event)
    requires Plays(Run(events).sink, e)
    requires |Run(events).sink.pending| + |Added(e)| <= MAX_FRAMES * 8
    ensures PlayDrain(Run(events).sink, e).stats.dropped == 0
  {
    RunKeepsInv(events);
    PlayPartitions(Run(events).sink, e);
  }

  // The sink was opened successfully and not closed since.
  predicate OpenAfter(events: seq<Event>) {
    events != [] &&
      var before, e := events[..|events| - 1], events[|events| - 1];
      match e
      case Open(ok) => ok || OpenAfter(before)
      case Close => false
      case Play(_, _, _) => OpenAfter(before)
  }

  /** The sink is started exactly from a successful opening to the next closing; and then, and
      only then, a callback with a supported buffer adds its frames to the queue. */
  lemma {:induction false} StartedExactly(events: seq<Event>, e: Event)
    ensures Run(events).sink.started <==> OpenAfter(events)
    ensures e.Play? ==>
              Run(events + [e]).input == Run(events).input +
                if OpenAfter(events) && e.buffer.data.Some? && e.buffer.Supported() then Added(e) else []
  {
    assert (events + [e])[..|events|] == events;
    if events != [] {
      StartedExactly(events[..|events| - 1], e);
      StartedAfter(Run(events[..|events| - 1]), events[|events| - 1]);
    }
  }

  lemma StartedAfter(t: Trace, e: Event)
    ensures Step(t, e).sink.started <==>
            match e
            case Open(ok) => t.sink.started || ok
            case Close => false
            case Play(_, _, _) => t.sink.started
  {
    if Plays(t.sink, e) { SinkAfterPlay(t.sink, e); }
  }

  // ----- the counters of whole runs -----

  datatype Field = Again | ShortWrites | Xruns | Recoveries | Playback

  // What one call adds to a public counter: an error that could not be recovered from counts
  // twice among the playback errors, an overflow once.
  function Amount(s: Stats, f: Field): nat {
    match f
    case Again => s.again
    case ShortWrites => s.shortWrites
    case Xruns => s.xruns
    case Recoveries => s.recoveryErrors
    case Playback => s.errors + s.recoveryErrors + if s.dropped > 0 then 1 else 0
  }

  function Counter(c: Counters, f: Field): nat {
    match f
    case Again => c.again
    case ShortWrites => c.shortWrites
    case Xruns => c.xruns
    case Recoveries => c.recoveryErrors
    case Playback => c.playbackErrors
  }

  // The sum over all callbacks of a run that were played.
  function Total(events: seq<Event>, f: Field): nat {
    if events == [] then 0
    else
      var before, e := events[..|events| - 1], events[|events| - 1];
      Total(before, f) + if Plays(Run(before).sink, e) then Amount(PlayDrain(Run(before).sink, e).stats, f) else 0
  }

  // Callbacks of a started sink whose buffer was not supported.
  function Unsupported(events: seq<Event>): nat {
    if events == [] then 0
    else
      var before, e := events[..|events| - 1], events[|events| - 1];
      Unsupported(before) +
        if e.Play? && e.buffer.data.Some? && Run(before).sink.started && !e.buffer.Supported() then 1 else 0
  }

  lemma SinkOfStep(t: Trace, e: Event)
    ensures Step(t, e).sink == SinkStep(t.sink, e)
  {
  }

  lemma CounterAfter(s: Sink, e: Event, f: Field)
    ensures Counter(SinkStep(s, e).counters, f) ==
            Counter(s.counters, f) + if Plays(s, e) then Amount(PlayDrain(s, e).stats, f) else 0
  {
    if Plays(s, e) { SinkAfterPlay(s, e); }
  }

  /** The public counters are the sums of what the single calls counted. */
  lemma {:induction false} CountersAreTotals(events: seq<Event>, f: Field)
    ensures Counter(Run(events).sink.counters, f) == Total(events, f)
  {
    if events != [] {
      var before, e := events[..|events| - 1], events[|events| - 1];
      CountersAreTotals(before, f);
      SinkOfStep(Run(before), e);
      CounterAfter(Run(before).sink, e, f);
    }
  }

  lemma UnsupportedAfter(s: Sink, e: Event)
    ensures SinkStep(s, e).counters.unsupported == s.counters.unsupported +
            if e.Play? && e.buffer.data.Some? && s.started && !e.buffer.Supported() then 1 else 0
  {
    if Plays(s, e) { SinkAfterPlay(s, e); }
  }

  /** ... and the callbacks that were not played for their buffer are counted. */
  lemma {:induction false} UnsupportedAreCounted(events: seq<Event>)
    ensures Run(events).sink.counters.unsupported == Unsupported(events)
  {
    if events != [] {
      var before, e := events[..|events| - 1], events[|events| - 1];
      UnsupportedAreCounted(before);
      SinkOfStep(Run(before), e);
      UnsupportedAfter(Run(before).sink, e);
    }
  }

  /** Without metadata a buffer is played exactly if it is nonempty, whole frames, and at most
      a second; with metadata exactly if it says stereo, 48 kHz, S32LE, and as many
      samples as the buffer holds, of which there may be a second's. */
  lemma SupportedExactly(data: seq<Byte>, meta: Option<Meta>)
    ensures var b := Buffer(Some(data), meta);
            b.Supported() <==>
              match meta
              case None => |data| % 8 == 0 && 0 < |data| <= 384000
              case Some(m) =>
                m.channels == 2 && m.rate == 48000 && m.s32le && |data| == 8 * m.samples && 0 < |data| <= 384000
  {
  }

  // ----- the object the program keeps -----

  class AudioOutput {
    var started: bool
    var pending: seq<Byte>
    var shortTail: bool
    var counters: Counters
    ghost var device: seq<Byte>  // everything the device ever took

    ghost function View(): (s: Sink)
      reads this
    {
      Sink(started, pending, shortTail, counters)
    }

    constructor ()
      ensures View() == CLOSED && device == []
    {
      started, pending, shortTail := false, [], false;
      counters := Counters(0, 0, 0, 0, 0, 0, 0, 0);
      device := [];
    }

    method Playback(buffer: Buffer, script: seq<int>, prepare: int)
      modifies this
      ensures var e := Play(buffer, script, prepare);
              && View() == SinkStep(old(View()), e)
              && device == old(device) + if Plays(old(View()), e) then PlayDrain(old(View()), e).delivered else []
    {
      if !started || buffer.data.None? { return; }
      if !buffer.Supported() {
        counters := counters.(unsupported := counters.unsupported + 1);
        return;
      }
      pending := AppendConverted(pending, buffer.data.value, 2 * buffer.Samples());
      var d := DrainQueue(pending, shortTail, script, prepare);
      pending, shortTail := d.pending, d.shortTail;
      device := device + d.delivered;
      counters := Account(counters, d.stats);
    }

    method OpenSink(ok: bool)
      modifies this
      ensures View() == SinkStep(old(View()), Open(ok)) && device == old(device)
    {
      if !started { started := ok; }
    }

    method CloseSink()
      modifies this
      ensures View() == SinkStep(old(View()), Close) && device == old(device)
    {
      started := false;
      pending := [];
      shortTail := false;
    }
  }
}
