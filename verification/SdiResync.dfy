/** The SDI output watchdog: a debounced, rate-limited trigger for a same-mode
    output reset, and the poll loop that drives it.

    `Observed` and `PollStep` are the transition functions; class `Watchdog` is the
    object the program keeps, each method proved to make exactly one transition.
    The results are about every run of polls, whatever the clock readings, the
    register values and the outcomes of the resets.

    Times are milliseconds, taken as unbounded naturals. */
module SdiResync {

  const SAMPLE_MS: nat := 500
  const DEBOUNCE_MS: nat := 2000
  const COOLDOWN_MS: nat := 5000
  const WINDOW_MS: nat := 60000
  const MAX_ATTEMPTS: nat := 3

  // Sticky lost-alignment bit 11 together with a lag field of exactly 12.
  predicate SuspectAlignmentHistory(status: bv32) {
    status != 0xFFFF_FFFF && status & (1 << 11) != 0 && status >> 16 == 12
  }

  datatype Policy = Policy(
    nextSample: nat, suspectSince: nat, cooldownUntil: nat,
    slots: seq<nat>, samples: nat, attempts: nat, failed: bool)

  const FRESH := Policy(0, 0, 0, [0, 0, 0], 0, 0, false)

  // Number of used ring slots among the first `k` that are younger than the window.
  function Recent(slots: seq<nat>, attempts: nat, now: nat, k: nat): nat
    requires k <= |slots|
  {
    if k == 0 then 0
    else Recent(slots, attempts, now, k - 1) +
         if k - 1 < attempts && now - slots[k - 1] < WINDOW_MS then 1 else 0
  }

  function Observed(p: Policy, now: nat, suspect: bool): (Policy, bool)
    requires |p.slots| == MAX_ATTEMPTS
  {
    if now < p.nextSample then (p, false)
    else
      var kept := if p.nextSample != 0 && now > p.nextSample + 2 * SAMPLE_MS then 0 else p.samples;
      var q := p.(nextSample := now + SAMPLE_MS);
      if p.failed || !suspect || now < p.cooldownUntil then (q.(samples := 0), false)
      else
        var r := q.(samples := kept + 1, suspectSince := if kept == 0 then now else p.suspectSince);
        if r.samples < 5 || now - r.suspectSince < DEBOUNCE_MS then (r, false)
        else if Recent(r.slots, r.attempts, now, MAX_ATTEMPTS) >= MAX_ATTEMPTS then (r, false)
        else (r.(slots := r.slots[r.attempts % MAX_ATTEMPTS := now],
                 attempts := r.attempts + 1,
                 cooldownUntil := now + COOLDOWN_MS,
                 samples := 0), true)
  }

  /** One turn of the main loop. `recovered` is what the output reset would report
      if this poll asks for one. */
  datatype Poll = Poll(now: nat, status: bv32, eligible: bool, recovered: bool) {
    predicate Suspect() { eligible && SuspectAlignmentHistory(status) }
  }

  // A sample the watchdog processed (as opposed to a poll it ignored).
  datatype Entry = Entry(time: nat, suspect: bool, cool: bool, fired: bool) {
    predicate Good() { suspect && !cool }
  }

  datatype Trace = Trace(policy: Policy, log: seq<Entry>)

  predicate Ignored(p: Policy, e: Poll) { p.failed || e.now < p.nextSample }

  function PollPolicy(p: Policy, e: Poll): (Policy, bool)
    requires |p.slots| == MAX_ATTEMPTS
  {
    if Ignored(p, e) then (p, false)
    else
      var (q, fired) := Observed(p, e.now, e.Suspect());
      (if fired then q.(failed := !e.recovered) else q, fired)
  }

  function PollStep(t: Trace, e: Poll): Trace
    requires |t.policy.slots| == MAX_ATTEMPTS
  {
    var (q, fired) := PollPolicy(t.policy, e);
    Trace(q, if Ignored(t.policy, e) then t.log
             else t.log + [Entry(e.now, e.Suspect(), e.now < t.policy.cooldownUntil, fired)])
  }

  function Run(polls: seq<Poll>): (t: Trace)
    ensures |t.policy.slots| == MAX_ATTEMPTS
  {
    if polls == [] then Trace(FRESH, [])
    else PollStep(Run(polls[..|polls| - 1]), polls[|polls| - 1])
  }

  // The times at which a reset was requested, oldest first.
  function Fires(log: seq<Entry>): seq<nat> {
    if log == [] then []
    else
      var last := log[|log| - 1];
      Fires(log[..|log| - 1]) + if last.fired then [last.time] else []
  }

  // ----- the history invariant -----

  ghost predicate Spaced(log: seq<Entry>) {
    forall i :: 0 <= i < |log| - 1 ==> log[i].time + 500 <= log[i + 1].time
  }

  ghost predicate Neighbours(log: seq<Entry>, i: nat)
    requires i + 1 < |log|
  {
    500 <= log[i + 1].time - log[i].time <= 1500
  }

  /** Entries lo..hi are all suspect, outside cooldown, and each is 500 to 1500 ms
      after the one before. */
  ghost predicate Unbroken(log: seq<Entry>, lo: nat, hi: nat)
    requires lo <= hi <= |log|
  {
    && (forall i :: lo <= i < hi ==> log[i].Good())
    && (forall i :: lo <= i < hi - 1 ==> Neighbours(log, i))
  }

  // The run that starts at `k` cannot be extended to the left.
  ghost predicate CutBefore(log: seq<Entry>, k: nat)
    requires k <= |log|
  {
    k > 0 ==> !log[k - 1].Good() || log[k - 1].fired || (k < |log| && !Neighbours(log, k - 1))
  }

  ghost predicate FiresSpread(f: seq<nat>) {
    && (forall i :: 0 <= i < |f| - 1 ==> f[i] + 7000 <= f[i + 1])
    && (forall i :: 0 <= i < |f| - 3 ==> f[i] + 60000 <= f[i + 3])
  }

  // Ring slot k mod 3 holds firing k, for the last three firings.
  ghost predicate RingHolds(slots: seq<nat>, attempts: nat, f: seq<nat>)
    requires |slots| == MAX_ATTEMPTS
  {
    && attempts == |f|
    && (forall k :: 0 <= k < |f| && |f| - 3 <= k ==> slots[k % 3] == f[k])
  }

  ghost predicate ClockInv(p: Policy, log: seq<Entry>) {
    if log == [] then p == FRESH
    else p.nextSample == log[|log| - 1].time + SAMPLE_MS
  }

  ghost predicate CooldownInv(p: Policy, log: seq<Entry>) {
    var f := Fires(log);
    && (f == [] ==> p.cooldownUntil == 0)
    && (f != [] ==> log != [] && p.cooldownUntil == f[|f| - 1] + COOLDOWN_MS && f[|f| - 1] <= log[|log| - 1].time)
    && (log != [] && log[|log| - 1].fired ==> f != [] && f[|f| - 1] == log[|log| - 1].time)
    && (p.samples > 0 ==> p.suspectSince >= p.cooldownUntil)
  }

  ghost predicate FiredThenCool(log: seq<Entry>) {
    forall i :: 0 <= i < |log| - 1 && log[i].fired && log[i + 1].time < log[i].time + COOLDOWN_MS ==> log[i + 1].cool
  }

  ghost predicate DebounceInv(p: Policy, log: seq<Entry>) {
    && p.samples <= |log|
    && Unbroken(log, |log| - p.samples, |log|)
    && CutBefore(log, |log| - p.samples)
    && (p.samples > 0 ==> p.suspectSince == log[|log| - p.samples].time)
  }

  ghost predicate Inv(t: Trace) {
    && |t.policy.slots| == MAX_ATTEMPTS
    && Spaced(t.log)
    && ClockInv(t.policy, t.log)
    && FiresSpread(Fires(t.log))
    && RingHolds(t.policy.slots, t.policy.attempts, Fires(t.log))
    && CooldownInv(t.policy, t.log)
    && FiredThenCool(t.log)
    && DebounceInv(t.policy, t.log)
  }

  lemma {:induction false} FiresOfExtension(log: seq<Entry>, e: Entry)
    ensures Fires(log + [e]) == Fires(log) + if e.fired then [e.time] else []
  {
    assert (log + [e])[..|log|] == log;
  }

  // Fewer than three recent slots means the third-last firing has left the window.
  lemma {:induction false} RecentCountsHistory(slots: seq<nat>, f: seq<nat>, now: nat)
    requires |slots| == MAX_ATTEMPTS && RingHolds(slots, |f|, f) && FiresSpread(f)
    requires f != [] ==> f[|f| - 1] <= now
    ensures Recent(slots, |f|, now, 3) < 3 <==> (|f| < 3 || now - f[|f| - 3] >= WINDOW_MS)
  {
    RecentUnfolded(slots, |f|, now);
    var n := |f|;
    if n >= 3 {
      assert f[n - 3] + 7000 <= f[n - 3 + 1] && f[n - 2] + 7000 <= f[n - 2 + 1];
      assert slots[(n - 3) % 3] == f[n - 3] && slots[(n - 2) % 3] == f[n - 2] && slots[(n - 1) % 3] == f[n - 1];
    }
  }

  lemma {:induction false} RecentUnfolded(slots: seq<nat>, attempts: nat, now: nat)
    requires |slots| == MAX_ATTEMPTS
    ensures Recent(slots, attempts, now, 3) ==
            (if 0 < attempts && now - slots[0] < WINDOW_MS then 1 else 0) +
            (if 1 < attempts && now - slots[1] < WINDOW_MS then 1 else 0) +
            (if 2 < attempts && now - slots[2] < WINDOW_MS then 1 else 0)
  {
    assert Recent(slots, attempts, now, 1) == Recent(slots, attempts, now, 0) +
           if 0 < attempts && now - slots[0] < WINDOW_MS then 1 else 0;
    assert Recent(slots, attempts, now, 2) == Recent(slots, attempts, now, 1) +
           if 1 < attempts && now - slots[1] < WINDOW_MS then 1 else 0;
  }

  // ----- one processed sample keeps every part of the invariant -----

  lemma StepFires(t: Trace, e: Poll)
    requires |t.policy.slots| == MAX_ATTEMPTS && !Ignored(t.policy, e)
    ensures Fires(PollStep(t, e).log) == Fires(t.log) + if PollPolicy(t.policy, e).1 then [e.now] else []
  {
    FiresOfExtension(t.log, Entry(e.now, e.Suspect(), e.now < t.policy.cooldownUntil, PollPolicy(t.policy, e).1));
  }

  // What holds when the policy fires, and what it then records.
  lemma WhenFired(p: Policy, e: Poll)
    requires |p.slots| == MAX_ATTEMPTS && PollPolicy(p, e).1
    ensures e.Suspect() && p.nextSample <= e.now && p.cooldownUntil <= e.now
    ensures p.samples >= 4 && e.now - p.suspectSince >= DEBOUNCE_MS
    ensures p.nextSample != 0 ==> e.now <= p.nextSample + 2 * SAMPLE_MS
    ensures Recent(p.slots, p.attempts, e.now, 3) < 3
    ensures PollPolicy(p, e).0 == Policy(e.now + SAMPLE_MS, p.suspectSince, e.now + COOLDOWN_MS,
                                         p.slots[p.attempts % 3 := e.now], 0, p.attempts + 1, !e.recovered)
  {
  }

  // ... and what stays as it was when it does not.
  lemma WhenQuiet(p: Policy, e: Poll)
    requires |p.slots| == MAX_ATTEMPTS && !Ignored(p, e) && !PollPolicy(p, e).1
    ensures var q := PollPolicy(p, e).0;
            && q.slots == p.slots && q.attempts == p.attempts && q.cooldownUntil == p.cooldownUntil
            && q.nextSample == e.now + SAMPLE_MS && q.failed == p.failed
            && (q.samples > 0 ==>
                q.suspectSince == (if q.samples == 1 then e.now else p.suspectSince) && p.cooldownUntil <= e.now)
            && (q.samples > 1 ==> p.samples > 0)
  {
  }

  lemma SpreadPush(f: seq<nat>, now: nat)
    requires FiresSpread(f)
    requires f != [] ==> f[|f| - 1] + COOLDOWN_MS + DEBOUNCE_MS <= now
    requires |f| >= 3 ==> f[|f| - 3] + WINDOW_MS <= now
    ensures FiresSpread(f + [now])
  {
  }

  lemma RingPush(slots: seq<nat>, f: seq<nat>, now: nat)
    requires |slots| == MAX_ATTEMPTS && RingHolds(slots, |f|, f)
    ensures RingHolds(slots[|f| % 3 := now], |f| + 1, f + [now])
  {
    forall k | 0 <= k <= |f| && |f| - 2 <= k ensures slots[|f| % 3 := now][k % 3] == (f + [now])[k] {
      assert k < |f| ==> k % 3 != |f| % 3;
    }
  }

  lemma StepKeepsRing(t: Trace, e: Poll)
    requires |t.policy.slots| == MAX_ATTEMPTS && !Ignored(t.policy, e)
    requires FiresSpread(Fires(t.log)) && RingHolds(t.policy.slots, t.policy.attempts, Fires(t.log))
             && CooldownInv(t.policy, t.log)
    ensures var u := PollStep(t, e);
            FiresSpread(Fires(u.log)) && RingHolds(u.policy.slots, u.policy.attempts, Fires(u.log))
  {
    StepFires(t, e);
    var f := Fires(t.log);
    if PollPolicy(t.policy, e).1 {
      WhenFired(t.policy, e);
      RecentCountsHistory(t.policy.slots, f, e.now);
      SpreadPush(f, e.now);
      RingPush(t.policy.slots, f, e.now);
    } else {
      WhenQuiet(t.policy, e);
    }
  }

  // A good sample close enough to the last one lengthens the run ...
  lemma RunGrows(log: seq<Entry>, lo: nat, e: Entry)
    requires lo < |log| && Unbroken(log, lo, |log|) && CutBefore(log, lo)
    requires e.Good() && SAMPLE_MS <= e.time - log[|log| - 1].time <= 3 * SAMPLE_MS
    ensures Unbroken(log + [e], lo, |log| + 1) && CutBefore(log + [e], lo)
  {
    var ext := log + [e];
    assert forall i :: 0 <= i < |log| ==> ext[i] == log[i];
    forall i | lo <= i < |log| ensures Neighbours(ext, i) {
      if i < |log| - 1 { assert Neighbours(log, i); }
    }
  }

  // ... and one too late, or after a cut, starts a new run.
  lemma RunStarts(log: seq<Entry>, e: Entry)
    requires e.Good()
    requires log != [] ==> CutBefore(log, |log|) || e.time - log[|log| - 1].time > 3 * SAMPLE_MS
    ensures Unbroken(log + [e], |log|, |log| + 1) && CutBefore(log + [e], |log|)
  {
  }

  lemma StepKeepsDebounce(t: Trace, e: Poll)
    requires |t.policy.slots| == MAX_ATTEMPTS && !Ignored(t.policy, e)
    requires ClockInv(t.policy, t.log) && DebounceInv(t.policy, t.log)
    ensures var u := PollStep(t, e); DebounceInv(u.policy, u.log)
  {
    var entry := Entry(e.now, e.Suspect(), e.now < t.policy.cooldownUntil, PollPolicy(t.policy, e).1);
    var u := PollStep(t, e);
    assert u.log == t.log + [entry];
    if entry.Good() && !entry.fired {
      if u.policy.samples > 1 {
        RunGrows(t.log, |t.log| - t.policy.samples, entry);
      } else {
        RunStarts(t.log, entry);
      }
    }
  }

  lemma StepKeepsClock(t: Trace, e: Poll)
    requires |t.policy.slots| == MAX_ATTEMPTS && !Ignored(t.policy, e)
    requires Spaced(t.log) && ClockInv(t.policy, t.log) && CooldownInv(t.policy, t.log) && FiredThenCool(t.log)
    ensures var u := PollStep(t, e); Spaced(u.log) && ClockInv(u.policy, u.log) && FiredThenCool(u.log)
  {
    var u := PollStep(t, e);
    var n := |t.log|;
    assert forall i :: 0 <= i < n ==> u.log[i] == t.log[i];
    assert n > 0 && t.log[n - 1].fired && e.now < t.log[n - 1].time + COOLDOWN_MS ==> u.log[n].cool;
  }

  lemma StepKeepsCooldown(t: Trace, e: Poll)
    requires |t.policy.slots| == MAX_ATTEMPTS && !Ignored(t.policy, e)
    requires ClockInv(t.policy, t.log) && CooldownInv(t.policy, t.log)
    ensures var u := PollStep(t, e); CooldownInv(u.policy, u.log)
  {
    StepFires(t, e);
    if PollPolicy(t.policy, e).1 {
      WhenFired(t.policy, e);
    } else {
      WhenQuiet(t.policy, e);
    }
  }

  lemma StepKeepsInv(t: Trace, e: Poll)
    requires Inv(t)
    ensures Inv(PollStep(t, e))
  {
    if !Ignored(t.policy, e) {
      StepKeepsClock(t, e);
      StepKeepsCooldown(t, e);
      StepKeepsRing(t, e);
      StepKeepsDebounce(t, e);
    }
  }

  lemma {:induction false} RunKeepsInv(polls: seq<Poll>)
    ensures Inv(Run(polls))
  {
    if polls != [] {
      RunKeepsInv(polls[..|polls| - 1]);
      StepKeepsInv(Run(polls[..|polls| - 1]), polls[|polls| - 1]);
    }
  }

  // ----- results -----

  /** Rate limit: over any run of polls, with any clock, successive resets are at
      least 7 s apart and a reset and the third one after it at least 60 s. */
  lemma {:induction false} ResetsAreSpread(polls: seq<Poll>)
    ensures FiresSpread(Fires(Run(polls).log))
  {
    RunKeepsInv(polls);
  }

  lemma {:induction false} SpreadIsOrdered(f: seq<nat>, i: nat, j: nat)
    requires FiresSpread(f) && i <= j < |f|
    ensures f[i] <= f[j]
    decreases j - i
  {
    if i < j {
      assert f[i] + 7000 <= f[i + 1];
      SpreadIsOrdered(f, i + 1, j);
    }
  }

  ghost function InWindow(f: seq<nat>, from: nat): set<nat> {
    set i: nat | i < |f| && from <= f[i] < from + 60000
  }

  /** At most three resets in any 60 s window, wherever the window starts. */
  lemma {:induction false} AtMostThreePerWindow(polls: seq<Poll>, from: nat)
    ensures |InWindow(Fires(Run(polls).log), from)| <= 3
  {
    ResetsAreSpread(polls);
    var f := Fires(Run(polls).log);
    var w := InWindow(f, from);
    if w != {} {
      var first := FirstInWindow(f, from, 0);
      forall i | i in w ensures i in {first, first + 1, first + 2} {
        if i >= first + 3 {
          assert f[first] + WINDOW_MS <= f[first + 3];
          SpreadIsOrdered(f, first + 3, i);
        }
      }
      SubsetBound(w, {first, first + 1, first + 2});
    }
  }

  lemma {:induction false} SubsetBound(a: set<nat>, b: set<nat>)
    requires a <= b
    ensures |a| <= |b|
  {
    if a != {} {
      var x :| x in a;
      SubsetBound(a - {x}, b - {x});
    }
  }

  lemma {:induction false} FirstInWindow(f: seq<nat>, from: nat, k: nat) returns (first: nat)
    requires InWindow(f, from) != {}
    requires forall i :: i in InWindow(f, from) ==> k <= i
    ensures first in InWindow(f, from) && forall i :: i in InWindow(f, from) ==> first <= i
    decreases |f| - k
  {
    if k in InWindow(f, from) {
      first := k;
    } else {
      var i :| i in InWindow(f, from);
      first := FirstInWindow(f, from, k + 1);
    }
  }

  // Less than the cooldown time has passed since some reset.
  ghost predicate InCooldown(log: seq<Entry>, i: nat)
    requires i < |log|
  {
    exists j :: 0 <= j < i && log[j].fired && log[i].time < log[j].time + 5000
  }

  /** The evidence a reset needs, in terms of the recorded times, samples and resets
      alone: the log ends in at least five consecutive suspect samples outside cooldown,
      each 500 to 1500 ms after the one before, that span the debounce time. */
  ghost predicate Evidence(log: seq<Entry>, lo: nat)
    requires log != []
  {
    && lo + 5 <= |log|
    && (forall i :: lo <= i < |log| ==> log[i].suspect && !InCooldown(log, i))
    && (forall i :: lo <= i < |log| - 1 ==> Neighbours(log, i))
    && log[|log| - 1].time - log[lo].time >= 2000
  }

  // The same in terms of the recorded cooldown flags.
  ghost predicate Witnessed(log: seq<Entry>, lo: nat)
    requires log != []
  {
    && lo + 5 <= |log|
    && Unbroken(log, lo, |log|)
    && log[|log| - 1].time - log[lo].time >= 2000
  }

  ghost predicate CoolIsExact(log: seq<Entry>) {
    forall i :: 0 <= i < |log| ==> (log[i].cool <==> InCooldown(log, i))
  }

  lemma EvidenceIsWitnessed(log: seq<Entry>, lo: nat)
    requires log != [] && CoolIsExact(log)
    ensures Evidence(log, lo) <==> Witnessed(log, lo)
  {
    assert forall i :: 0 <= i < |log| ==> (log[i].Good() <==> log[i].suspect && !InCooldown(log, i));
  }

  lemma {:induction false} LastFire(log: seq<Entry>) returns (j: nat)
    requires Spaced(log) && Fires(log) != []
    ensures j < |log| && log[j].fired && log[j].time == Fires(log)[|Fires(log)| - 1]
    ensures forall k :: 0 <= k < |log| && log[k].fired ==> log[k].time <= log[j].time
  {
    var n := |log| - 1;
    if log[n].fired {
      j := n;
      forall k | 0 <= k < |log| ensures log[k].time <= log[n].time { LogTimesOrdered(log, k, n); }
    } else {
      var before := log[..n];
      j := LastFire(before);
      assert forall k :: 0 <= k < n ==> before[k] == log[k];
    }
  }

  lemma {:induction false} NeverFired(log: seq<Entry>, k: nat)
    requires Fires(log) == [] && k < |log|
    ensures !log[k].fired
  {
    if k < |log| - 1 { NeverFired(log[..|log| - 1], k); }
  }

  // A new sample is inside the recorded cooldown exactly when it is inside that of some reset.
  lemma CoolStep(p: Policy, log: seq<Entry>, e: Entry)
    requires Spaced(log) && CooldownInv(p, log) && e.cool == (e.time < p.cooldownUntil)
    ensures e.cool <==> InCooldown(log + [e], |log|)
  {
    var u := log + [e];
    if Fires(log) == [] {
      forall k | 0 <= k < |log| ensures !u[k].fired { NeverFired(log, k); }
    } else {
      var j := LastFire(log);
      assert u[j] == log[j];
      assert forall k :: 0 <= k < |log| ==> u[k] == log[k];
    }
  }

  lemma CoolExtends(log: seq<Entry>, e: Entry)
    requires CoolIsExact(log) && (e.cool <==> InCooldown(log + [e], |log|))
    ensures CoolIsExact(log + [e])
  {
    var u := log + [e];
    forall i | 0 <= i < |u| ensures u[i].cool <==> InCooldown(u, i) {
      if i < |log| {
        assert forall k :: 0 <= k <= i ==> u[k] == log[k];
        assert InCooldown(u, i) <==> InCooldown(log, i);
      }
    }
  }

  /** A processed sample is recorded as cool exactly when some earlier reset lies less than
      5000 ms before it. */
  lemma {:induction false} CoolExactly(polls: seq<Poll>)
    ensures CoolIsExact(Run(polls).log)
  {
    if polls != [] {
      var before, e := polls[..|polls| - 1], polls[|polls| - 1];
      CoolExactly(before);
      RunKeepsInv(before);
      CoolAfterPoll(Run(before), e);
    }
  }

  lemma CoolAfterPoll(t: Trace, e: Poll)
    requires |t.policy.slots| == MAX_ATTEMPTS && Spaced(t.log) && CooldownInv(t.policy, t.log) && CoolIsExact(t.log)
    ensures CoolIsExact(PollStep(t, e).log)
  {
    if !Ignored(t.policy, e) {
      var entry := PollStep(t, e).log[|t.log|];
      CoolStep(t.policy, t.log, entry);
      CoolExtends(t.log, entry);
    }
  }

  // A reset inside a run would have put the next sample into cooldown.
  lemma NoCutInside(log: seq<Entry>, lo: nat, k: nat)
    requires lo < k <= |log| && Unbroken(log, lo, |log|) && FiredThenCool(log)
    requires !log[|log| - 1].fired
    ensures !CutBefore(log, k)
  {
    assert log[k - 1].Good();
    if k < |log| { assert Neighbours(log, k - 1) && log[k].Good(); }
  }

  // Every unbroken run that ends the log is inside the one the counter counts.
  lemma CounterCoversRun(t: Trace, lo: nat)
    requires Inv(t) && lo < |t.log| && Unbroken(t.log, lo, |t.log|)
    requires !t.log[|t.log| - 1].fired
    ensures t.policy.samples >= |t.log| - lo
  {
    var k := |t.log| - t.policy.samples;
    if k > lo { NoCutInside(t.log, lo, k); }
  }

  /** When a processed sample asks for a reset, in terms of the recorded samples
      alone: exactly when there is evidence for it and the third-last reset has
      left the 60 s window. */
  lemma {:induction false} FiresExactlyWhenJustified(polls: seq<Poll>, e: Poll)
    requires !Ignored(Run(polls).policy, e)
    ensures var t := Run(polls);
            var u := PollStep(t, e);
            var f := Fires(t.log);
            PollPolicy(t.policy, e).1 <==>
            ((exists lo: nat :: Evidence(u.log, lo)) && (|f| < 3 || e.now - f[|f| - 3] >= 60000))
  {
    RunKeepsInv(polls);
    CoolExactly(polls);
    var t := Run(polls);
    var u := PollStep(t, e);
    CoolAfterPoll(t, e);
    RecentCountsHistory(t.policy.slots, Fires(t.log), e.now);
    if PollPolicy(t.policy, e).1 {
      var lo := JustifiedIfFired(t, e);
      EvidenceIsWitnessed(u.log, lo);
    } else if exists lo: nat :: Evidence(u.log, lo) {
      var lo: nat :| Evidence(u.log, lo);
      EvidenceIsWitnessed(u.log, lo);
      HeldBackOnlyByWindow(t, e, lo);
    }
  }

  // With evidence, the only thing that can hold a reset back is the window limit.
  lemma HeldBackOnlyByWindow(t: Trace, e: Poll, lo: nat)
    requires Inv(t) && !Ignored(t.policy, e) && !PollPolicy(t.policy, e).1
    requires Witnessed(PollStep(t, e).log, lo)
    ensures Recent(t.policy.slots, t.policy.attempts, e.now, 3) >= 3
  {
    var u := PollStep(t, e);
    StepKeepsInv(t, e);
    CounterCoversRun(u, lo);
    LogTimesOrdered(u.log, |u.log| - u.policy.samples, lo);
    assert u.log[|u.log| - 1].Good();
    assert u.policy.samples >= 5 && u.policy.suspectSince <= u.log[lo].time;
  }

  lemma {:induction false} LogTimesOrdered(log: seq<Entry>, i: nat, j: nat)
    requires Spaced(log) && i <= j < |log|
    ensures log[i].time <= log[j].time
    decreases j - i
  {
    if i < j { LogTimesOrdered(log, i + 1, j); }
  }

  lemma JustifiedIfFired(t: Trace, e: Poll) returns (lo: nat)
    requires |t.policy.slots| == MAX_ATTEMPTS && !Ignored(t.policy, e) && PollPolicy(t.policy, e).1
    requires ClockInv(t.policy, t.log) && DebounceInv(t.policy, t.log)
    ensures Witnessed(PollStep(t, e).log, lo)
  {
    WhenFired(t.policy, e);
    lo := |t.log| - t.policy.samples;
    RunGrows(t.log, lo, Entry(e.now, true, false, true));
  }

  // Bit 11 is set and the upper half is 12.
  predicate LostAlignment(status: bv32) { status & 0xFFFF_0800 == 0x000C_0800 }

  lemma SuspectExactly(status: bv32)
    ensures SuspectAlignmentHistory(status) <==> LostAlignment(status)
  {
  }

  /** Which polls are processed, and what is recorded of them: after any run a poll is ignored
      exactly if the watchdog is latched or the last processed sample is less than 500 ms
      old; and the record of a processed one is its time, and whether the output was
      eligible and the register showed lost alignment at a lag of 12. */
  lemma {:induction false} ProcessedExactly(polls: seq<Poll>, e: Poll)
    ensures var t := Run(polls);
            var n := |t.log|;
            var u := Run(polls + [e]);
            if t.policy.failed || (n > 0 && e.now < t.log[n - 1].time + 500) then u == t
            else && |u.log| == n + 1 && u.log[..n] == t.log && u.log[n].time == e.now
                 && (u.log[n].suspect <==> e.eligible && LostAlignment(e.status))
  {
    assert (polls + [e])[..|polls|] == polls;
    RunKeepsInv(polls);
    SuspectExactly(e.status);
  }

  /** The failure latch: once a requested reset has failed, no extension of the run
      processes another sample, let alone requests another reset. */
  lemma {:induction false} FailureLatches(polls: seq<Poll>, more: seq<Poll>)
    requires Run(polls).policy.failed
    ensures Run(polls + more) == Run(polls)
  {
    if more == [] {
      assert polls + more == polls;
    } else {
      FailureLatches(polls, more[..|more| - 1]);
      assert (polls + more)[..|polls + more| - 1] == polls + more[..|more| - 1];
    }
  }

  /** ... and the latch is set by exactly the polls whose reset fails. */
  lemma {:induction false} LatchSetByFailedReset(polls: seq<Poll>, e: Poll)
    requires !Run(polls).policy.failed
    ensures Run(polls + [e]).policy.failed <==> (PollPolicy(Run(polls).policy, e).1 && !e.recovered)
  {
    assert (polls + [e])[..|polls|] == polls;
  }

  // ----- the object the program keeps -----

  class Watchdog {
    var nextSampleMs: nat
    var suspectMs: nat
    var cooldownUntilMs: nat
    const attemptsMs: array<nat>
    var samples: nat
    var attempts: nat
    var failed: bool

    ghost predicate Valid()
      reads this, attemptsMs
    {
      attemptsMs.Length == MAX_ATTEMPTS
    }

    ghost function View(): (p: Policy)
      requires Valid()
      reads this, attemptsMs
    {
      Policy(nextSampleMs, suspectMs, cooldownUntilMs, attemptsMs[..], samples, attempts, failed)
    }

    constructor ()
      ensures Valid() && fresh(attemptsMs) && View() == FRESH
    {
      nextSampleMs, suspectMs, cooldownUntilMs := 0, 0, 0;
      attemptsMs := new nat[MAX_ATTEMPTS](_ => 0);
      samples, attempts, failed := 0, 0, false;
      new;
      assert attemptsMs[..] == [0, 0, 0];
    }

    method Observe(now: nat, status: bv32, eligible: bool) returns (fire: bool)
      requires Valid()
      modifies this, attemptsMs
      ensures Valid()
      ensures (View(), fire) == Observed(old(View()), now, eligible && SuspectAlignmentHistory(status))
    {
      if now < nextSampleMs { return false; }
      if nextSampleMs != 0 && now > nextSampleMs + 2 * SAMPLE_MS { samples := 0; }
      nextSampleMs := now + SAMPLE_MS;
      var suspect := eligible && SuspectAlignmentHistory(status);
      if failed || !suspect || now < cooldownUntilMs {
        samples := 0;
        return false;
      }
      if samples == 0 { suspectMs := now; }
      samples := samples + 1;
      if samples < 5 || now - suspectMs < DEBOUNCE_MS { return false; }
      var recent := 0;
      var i := 0;
      while i < attempts && i < MAX_ATTEMPTS
        invariant 0 <= i <= MAX_ATTEMPTS && i <= attempts
        invariant recent == Recent(attemptsMs[..], attempts, now, i)
      {
        if now - attemptsMs[i] < WINDOW_MS { recent := recent + 1; }
        i := i + 1;
      }
      UnusedSlotsNotRecent(attemptsMs[..], attempts, now, i);
      if recent >= MAX_ATTEMPTS { return false; }
      attemptsMs[attempts % MAX_ATTEMPTS] := now;
      attempts := attempts + 1;
      cooldownUntilMs := now + COOLDOWN_MS;
      samples := 0;
      return true;
    }

    method PollOnce(e: Poll) returns (fired: bool)
      requires Valid()
      modifies this, attemptsMs
      ensures Valid() && (View(), fired) == PollPolicy(old(View()), e)
    {
      if failed || e.now < nextSampleMs { return false; }
      fired := Observe(e.now, e.status, e.eligible);
      if fired { failed := !e.recovered; }
    }
  }

  lemma {:induction false} UnusedSlotsNotRecent(slots: seq<nat>, attempts: nat, now: nat, i: nat)
    requires |slots| == MAX_ATTEMPTS && i <= MAX_ATTEMPTS
    requires i == attempts || i == MAX_ATTEMPTS
    ensures Recent(slots, attempts, now, MAX_ATTEMPTS) == Recent(slots, attempts, now, i)
  {
    if i < MAX_ATTEMPTS {
      UnusedSlotsBelow(slots, attempts, now, i, MAX_ATTEMPTS);
    }
  }

  lemma {:induction false} UnusedSlotsBelow(slots: seq<nat>, attempts: nat, now: nat, i: nat, k: nat)
    requires attempts <= i <= k <= |slots|
    ensures Recent(slots, attempts, now, k) == Recent(slots, attempts, now, i)
  {
    if i < k { UnusedSlotsBelow(slots, attempts, now, i, k - 1); }
  }
}
