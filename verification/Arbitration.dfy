/** Selection between the Dante stream (Ultra, shown through the overlay) and the VCU
    decoder (AVH) on one display, over the modeset ledger.

    Each event of the main loop is one transition; the results are about every run of
    events, with arbitrary answers of everything foreign. */
module Arbitration {
  import opened Basics
  import Modeset

  datatype Format = Format(width: nat, height: nat, fps: nat, rgb: bool, interlaced: bool, locked: bool)

  const NO_FORMAT := Format(0, 0, 0, false, false, false)

  /** The fixed mode kept in the context may differ from the one the loop was called
      with: the former follows the monitor at startup. */
  datatype Config = Config(
    settings: Modeset.Settings, fixedMode: bool, forceDante: bool,
    width: nat, height: nat, fps: nat, argWidth: nat, argHeight: nat, argFps: nat)

  datatype State = State(
    display: Modeset.State, avh: bool, pending: bool, blocked: bool, noticed: nat, last: Format, rgb: bool)

  /** One turn of the loop's arbitration: the flow count, the two readings of the decoded
      frame counter, and what each foreign call would answer. `takeover` and `route` are
      the audio embedder's answers while the second output starts and when the audio
      route is set back. */
  datatype Turn = Turn(
    flow: bool, atNotice: nat, decoded: nat, initializing: bool,
    dummy: Modeset.Foreign, output: bool, takeover: Modeset.Toggle, stillFlow: bool, sink: bool,
    route: Modeset.Toggle, restore: Modeset.Foreign)

  datatype Event =
    | Tick(turn: Turn)
    | SetFormat(format: Format, first: Modeset.Foreign, second: Modeset.Foreign)
    | Disconnected(foreign: Modeset.Foreign)
    | Resync(reset: Modeset.ResetForeign)

  // ----- requests -----

  function Dummy(width: nat, height: nat, fps: real): Modeset.Request { Modeset.Request(width, height, fps, false) }

  function LoopDummy(c: Config): Modeset.Request { Dummy(c.argWidth, c.argHeight, c.argFps as real) }

  function SwitchDummy(d: Modeset.State, c: Config): Modeset.Request {
    Dummy(if d.mode.width != 0 then d.mode.width else c.argWidth,
          if d.mode.height != 0 then d.mode.height else c.argHeight, c.argFps as real)
  }

  // The last Ultra format, with the overlay.
  function Restore(last: Format, c: Config): Modeset.Request {
    if c.fixedMode || !last.locked then Modeset.Request(c.width, c.height, c.fps as real, true)
    else Modeset.Request(last.width, last.height, last.fps as real, true)
  }

  function Target(f: Format, c: Config): Modeset.Request {
    if c.fixedMode then Modeset.Request(c.width, c.height, c.fps as real, f.locked)
    else Modeset.Request(f.width, f.height, f.fps as real, f.locked)
  }

  // ----- one turn of the loop -----

  function Noticed(a: State, t: Turn): State {
    if t.flow && !a.pending && !a.avh && !a.blocked then a.(pending := true, noticed := t.atNotice) else a
  }

  function Cleared(a: State, t: Turn): State {
    if t.flow then a else a.(pending := false, blocked := false)
  }

  predicate Ready(a: State, t: Turn) {
    t.flow && a.pending && !a.avh && t.decoded > a.noticed && !t.initializing
  }

  predicate SwitchSucceeds(a: State, t: Turn, c: Config) {
    && Modeset.Applied(a.display, SwitchDummy(a.display, c), t.dummy, c.settings).1
    && t.output && t.stillFlow && t.sink
  }

  // The DUMMY picture, and the second output's start if that was shown.
  function TakenOver(a: State, t: Turn, c: Config): Modeset.State {
    var (dark, ok) := Modeset.Applied(a.display, SwitchDummy(a.display, c), t.dummy, c.settings);
    if ok then Modeset.Rerouted(dark, t.takeover, c.settings) else dark
  }

  // Audio route and picture of the Dante stream.
  function Restored(d: Modeset.State, last: Format, t: Turn, c: Config): Modeset.State {
    Modeset.Applied(Modeset.Rerouted(d, t.route, c.settings), Restore(last, c), t.restore, c.settings).0
  }

  // DANTE to DUMMY to VCU, or back to DANTE.
  function Attempted(a: State, t: Turn, c: Config): State {
    var d := TakenOver(a, t, c);
    if SwitchSucceeds(a, t, c) then a.(display := d, avh := true)
    else a.(display := Restored(d, a.last, t, c), blocked := true, pending := false)
  }

  // VCU to DUMMY to DANTE.
  function Withdrawn(a: State, t: Turn, c: Config): State {
    var dark := Modeset.Applied(a.display, LoopDummy(c), t.dummy, c.settings).0;
    a.(display := Restored(dark, a.last, t, c), avh := false)
  }

  // The bookkeeping at the top of a turn.
  function Primed(a: State, t: Turn): State { Cleared(Noticed(a, t), t) }

  function Turned(a: State, t: Turn, c: Config): State {
    var b := Primed(a, t);
    if Ready(b, t) then Attempted(b, t, c)
    else if !t.flow && b.avh then Withdrawn(b, t, c)
    else b
  }

  // ----- a format report -----

  predicate Rejected(f: Format, c: Config) {
    && c.settings.sdi && f.locked
    && (f.width != c.width || f.height != c.height || f.fps != c.fps || f.interlaced || !f.rgb)
  }

  function Remembered(a: State, f: Format): State {
    if f.locked && f.width != 0 && f.height != 0 && f.fps != 0 then a.(last := f, rgb := f.rgb) else a
  }

  predicate Unchanged(a: State, rgb: bool, f: Format, c: Config) {
    && c.settings.sdi && f.locked && a.display.modeset && a.display.overlay && a.rgb == rgb
    && a.display.mode.width == Target(f, c).width && a.display.mode.height == Target(f, c).height
    && -0.005 < a.display.mode.refresh - Target(f, c).fps < 0.005
  }

  function CurrentDummy(d: Modeset.State): Modeset.Request { Dummy(d.mode.width, d.mode.height, d.mode.refresh) }

  function Retargeted(d: Modeset.State, f: Format, first: Modeset.Foreign,
                      second: Modeset.Foreign, c: Config): Modeset.State {
    var (d1, ok) := Modeset.Applied(d, Target(f, c), first, c.settings);
    if !ok && f.locked && d1.mode.width != 0 then Modeset.Applied(d1, CurrentDummy(d1), second, c.settings).0 else d1
  }

  // An unchanged locked format keeps the running picture.
  function Followed(a: State, rgb: bool, f: Format, first: Modeset.Foreign,
                    second: Modeset.Foreign, c: Config): Modeset.State {
    if Unchanged(a, rgb, f, c) then a.display else Retargeted(a.display, f, first, second, c)
  }

  function Accepted(a: State, f: Format, first: Modeset.Foreign, second: Modeset.Foreign, c: Config): State {
    var b := Remembered(a, f);
    if b.avh || (c.forceDante && !f.locked) then b
    else b.(display := Followed(b, a.rgb, f, first, second, c))
  }

  function Formatted(a: State, f: Format, first: Modeset.Foreign, second: Modeset.Foreign, c: Config): State {
    if Rejected(f, c) then
      a.(display := Modeset.Applied(a.display, Dummy(c.width, c.height, c.fps as real), first, c.settings).0)
    else Accepted(a, f, first, second, c)
  }

  // ----- runs -----

  predicate Eligible(a: State) { a.display.modeset && a.display.overlay && !a.avh }

  function Step(a: State, e: Event, c: Config): State {
    match e
    case Tick(t) => Turned(a, t, c)
    case SetFormat(f, e1, e2) => Formatted(a, f, e1, e2, c)
    case Disconnected(e1) =>
      if a.display.overlay && !a.avh then
        a.(display := Modeset.Applied(a.display, CurrentDummy(a.display), e1, c.settings).0)
      else a
    case Resync(r) => if Eligible(a) then a.(display := Modeset.Reset(a.display, r).0) else a
  }

  // Any startup modeset, then the loop with the Dante source selected.
  datatype Start = Start(plane: bool, request: Modeset.Request, foreign: Modeset.Foreign)

  function Started(s: Start, c: Config): State {
    State(Modeset.Applied(Modeset.Opened(s.plane), s.request, s.foreign, c.settings).0,
          false, false, false, 0, NO_FORMAT, true)
  }

  function Run(s: Start, events: seq<Event>, c: Config): State {
    if events == [] then Started(s, c)
    else Step(Run(s, events[..|events| - 1], c), events[|events| - 1], c)
  }

  // ----- the selection invariant -----

  ghost predicate Selection(a: State) {
    && (a.avh ==> !a.display.overlay)
    && (a.blocked ==> !a.pending && !a.avh)
  }

  // A modeset without overlay never turns it on, and turns it off whenever it reports success.
  lemma DummyDarkens(d: Modeset.State, q: Modeset.Request, e: Modeset.Foreign, c: Modeset.Settings)
    requires !q.overlay
    ensures var (r, ok) := Modeset.Applied(d, q, e, c); (r.overlay ==> d.overlay) && (ok ==> !r.overlay)
  {
  }

  lemma AttemptKeepsSelection(a: State, t: Turn, c: Config)
    requires Selection(a) && Ready(a, t)
    ensures Selection(Attempted(a, t, c))
  {
    DummyDarkens(a.display, SwitchDummy(a.display, c), t.dummy, c.settings);
  }

  lemma FormatKeepsSelection(a: State, f: Format, first: Modeset.Foreign, second: Modeset.Foreign, c: Config)
    requires Selection(a)
    ensures Selection(Formatted(a, f, first, second, c))
  {
    if Rejected(f, c) { DummyDarkens(a.display, Dummy(c.width, c.height, c.fps as real), first, c.settings); }
  }

  lemma StepKeepsSelection(a: State, e: Event, c: Config)
    requires Selection(a)
    ensures Selection(Step(a, e, c))
  {
    match e {
      case Tick(t) => if Ready(Primed(a, t), t) { AttemptKeepsSelection(Primed(a, t), t, c); }
      case SetFormat(f, e1, e2) => FormatKeepsSelection(a, f, e1, e2, c);
      case Disconnected(e1) =>
      case Resync(r) =>
    }
  }

  /** A report that the connector is gone darkens a shown Dante overlay if and only if the
      modeset it asks for commits. That modeset refuses a connector that is not connected,
      so while the connector stays gone the report changes nothing at all. */
  lemma UnplugDarkensExactly(a: State, e: Modeset.Foreign, c: Config)
    ensures !e.connected ==> Step(a, Disconnected(e), c) == a
    ensures a.display.overlay && !a.avh ==>
              var m := a.display.mode;
              var q := Modeset.Request(m.width, m.height, m.refresh, false);
              var commits := Modeset.Commits(a.display, q, e, c.settings);
              (!Step(a, Disconnected(e), c).display.overlay <==> commits) && (commits ==> e.connected)
    ensures !a.display.overlay || a.avh ==> Step(a, Disconnected(e), c) == a
  {
  }

  /** While VCU is selected a format report replaces the Dante frame if and only if the format
      is rejected and the DUMMY modeset of the rejection commits, over the display that the
      decoder is using. Every other report leaves the display alone. */
  lemma ReportDuringVcu(a: State, f: Format, first: Modeset.Foreign, second: Modeset.Foreign, c: Config)
    requires a.avh && Sound(a.display)
    ensures var d := Formatted(a, f, first, second, c).display;
            var q := Dummy(c.width, c.height, c.fps as real);
            && (d.frame != a.display.frame <==> Rejected(f, c) && Modeset.Commits(a.display, q, first, c.settings))
            && (!Rejected(f, c) ==> d == a.display)
  {
    var q := Dummy(c.width, c.height, c.fps as real);
    if Modeset.Commits(a.display, q, first, c.settings) {
      assert first.blob !in a.display.live.blobs;
      assert a.display.frame.blob != 0 ==> a.display.frame.blob in a.display.live.blobs;
    }
  }

  // The report of a locked format is answered with success.
  predicate Succeeds(a: State, f: Format, first: Modeset.Foreign, c: Config) {
    Unchanged(Remembered(a, f), a.rgb, f, c) || Modeset.Applied(a.display, Target(f, c), first, c.settings).1
  }

  /** On SDI with required audio, after a locked format is accepted and its picture shown,
      the audio embedder is on if and only if it was on before or the fast path was not
      taken. */
  lemma AudioAfterReport(a: State, f: Format, first: Modeset.Foreign, second: Modeset.Foreign, c: Config)
    requires c.settings.sdi && !c.settings.audioDisabled && !c.settings.audioOptional
    requires f.locked && !Rejected(f, c) && !a.avh && Succeeds(a, f, first, c)
    ensures var d := Formatted(a, f, first, second, c).display;
            d.overlay ==> (d.embedded <==> a.display.embedded || !Unchanged(Remembered(a, f), a.rgb, f, c))
  {
  }

  // A 1080p60 SDI loop, a format it rejects, and the one it is configured for.
  predicate HdLoop(c: Config) {
    c.settings == Modeset.SDI_ONLY && c.width == 1920 && c.height == 1080 && c.fps == 60
  }

  const HD_START := Start(true, Modeset.HD_REQUEST, Modeset.HdForeign(1, true, Modeset.Obeyed))
  const BAD_FORMAT := Format(1280, 720, 60, true, false, true)
  const HD_FORMAT := Format(1920, 1080, 60, true, false, true)

  // A report of a rejected format, whose DUMMY commit is refused.
  function BadReport(any: Modeset.Foreign): Event {
    SetFormat(BAD_FORMAT, Modeset.HdForeign(3, false, Modeset.Obeyed), any)
  }

  lemma {:induction false} RunOfOne(s: Start, e: Event, c: Config)
    ensures Run(s, [e], c) == Step(Started(s, c), e, c)
  {
    assert [e][..0] == [];
  }

  lemma {:induction false} RunOfTwo(s: Start, e: Event, f: Event, c: Config)
    ensures Run(s, [e, f], c) == Step(Run(s, [e], c), f, c)
  {
    assert [e, f][..1] == [e];
  }

  /** A run that loses its audio for good: a picture with embedded audio, then a report of a
      rejected format whose DUMMY commit is refused. The picture stays, the embedder is off,
      and the next report of the right format is accepted and changes nothing on the display,
      whatever anything foreign would answer. */
  lemma {:induction false} SilencedPictureStaysSilent(
    c: Config, any: Modeset.Foreign, first: Modeset.Foreign, second: Modeset.Foreign)
    requires HdLoop(c)
    ensures var shown := Run(HD_START, [], c);
            var silenced := Run(HD_START, [BadReport(any)], c);
            var after := Run(HD_START, [BadReport(any), SetFormat(HD_FORMAT, first, second)], c);
            && shown.display.overlay && shown.display.embedded
            && silenced == shown.(display := shown.display.(embedded := false))
            && Succeeds(silenced, HD_FORMAT, first, c) && after.display == silenced.display
  {
    Modeset.RefusedCommitSilences();
    RunOfOne(HD_START, BadReport(any), c);
    RunOfTwo(HD_START, BadReport(any), SetFormat(HD_FORMAT, first, second), c);
    RefusedDummySilences(Started(HD_START, c).display);
  }

  // The refused DUMMY commit of that run.
  lemma RefusedDummySilences(d: Modeset.State)
    requires d == Modeset.Applied(Modeset.Opened(true), Modeset.HD_REQUEST,
                              Modeset.HdForeign(1, true, Modeset.Obeyed), Modeset.SDI_ONLY).0
    ensures Modeset.Applied(d, Dummy(1920, 1080, 60.0), Modeset.HdForeign(3, false, Modeset.Obeyed), Modeset.SDI_ONLY).0
         == d.(embedded := false)
  {
    Modeset.RefusedCommitSilences();
  }

  // ----- the ledger over the whole loop -----

  // The ledger is exact and the device is open.
  predicate Sound(d: Modeset.State) { Modeset.Inv(d) && d.open }

  lemma AppliedKeepsInv(d: Modeset.State, q: Modeset.Request, e: Modeset.Foreign, c: Modeset.Settings)
    requires Sound(d)
    ensures Sound(Modeset.Applied(d, q, e, c).0)
  {
    Modeset.AppliedKeepsLedger(d, q, e, c);
    Modeset.AppliedKeepsFlags(d, q, e, c);
  }

  lemma RestoredKeepsInv(d: Modeset.State, last: Format, t: Turn, c: Config)
    requires Sound(d)
    ensures Sound(Restored(d, last, t, c))
  {
    AppliedKeepsInv(Modeset.Rerouted(d, t.route, c.settings), Restore(last, c), t.restore, c.settings);
  }

  lemma TakenOverKeepsInv(a: State, t: Turn, c: Config)
    requires Sound(a.display)
    ensures Sound(TakenOver(a, t, c))
  {
    AppliedKeepsInv(a.display, SwitchDummy(a.display, c), t.dummy, c.settings);
  }

  lemma TurnKeepsInv(a: State, t: Turn, c: Config)
    requires Sound(a.display)
    ensures Sound(Turned(a, t, c).display)
  {
    var b := Primed(a, t);
    TakenOverKeepsInv(b, t, c);
    RestoredKeepsInv(TakenOver(b, t, c), b.last, t, c);
    var dark := Modeset.Applied(b.display, LoopDummy(c), t.dummy, c.settings).0;
    AppliedKeepsInv(b.display, LoopDummy(c), t.dummy, c.settings);
    RestoredKeepsInv(dark, b.last, t, c);
  }

  lemma RetargetKeepsInv(d: Modeset.State, f: Format, first: Modeset.Foreign, second: Modeset.Foreign, c: Config)
    requires Sound(d)
    ensures Sound(Retargeted(d, f, first, second, c))
  {
    var d1 := Modeset.Applied(d, Target(f, c), first, c.settings).0;
    AppliedKeepsInv(d, Target(f, c), first, c.settings);
    AppliedKeepsInv(d1, CurrentDummy(d1), second, c.settings);
  }

  lemma FormatKeepsInv(a: State, f: Format, first: Modeset.Foreign, second: Modeset.Foreign, c: Config)
    requires Sound(a.display)
    ensures Sound(Formatted(a, f, first, second, c).display)
  {
    AppliedKeepsInv(a.display, Dummy(c.width, c.height, c.fps as real), first, c.settings);
    RetargetKeepsInv(a.display, f, first, second, c);
    assert Remembered(a, f).display == a.display;
  }

  lemma ResetKeepsInv(d: Modeset.State, r: Modeset.ResetForeign)
    requires Sound(d)
    ensures Sound(Modeset.Reset(d, r).0)
  {
  }

  lemma StepKeepsInv(a: State, e: Event, c: Config)
    requires Sound(a.display)
    ensures Sound(Step(a, e, c).display)
  {
    match e {
      case Tick(t) => TurnKeepsInv(a, t, c);
      case SetFormat(f, e1, e2) => FormatKeepsInv(a, f, e1, e2, c);
      case Disconnected(e1) => AppliedKeepsInv(a.display, CurrentDummy(a.display), e1, c.settings);
      case Resync(r) => ResetKeepsInv(a.display, r);
    }
  }

  /** Over every run: VCU selected implies the Dante overlay is inactive, a blocked
      arbiter neither waits nor shows VCU, and the modeset ledger is exact. */
  lemma {:induction false} RunKeepsInv(s: Start, events: seq<Event>, c: Config)
    ensures Selection(Run(s, events, c)) && Sound(Run(s, events, c).display)
  {
    if events == [] {
      Modeset.OpenedInv(s.plane);
      AppliedKeepsInv(Modeset.Opened(s.plane), s.request, s.foreign, c.settings);
    } else {
      var before, e := events[..|events| - 1], events[|events| - 1];
      RunKeepsInv(s, before, c);
      StepKeepsSelection(Run(s, before, c), e, c);
      StepKeepsInv(Run(s, before, c), e, c);
    }
  }

  /** The shutdown after any run: one last modeset, then the cleanup; nothing is left. */
  lemma {:induction false} ShutdownLeavesNothing(s: Start, events: seq<Event>, c: Config,
                                               e: Modeset.Foreign, t: Modeset.Toggle)
    ensures var d :=
              Modeset.Closed(Modeset.Applied(Run(s, events, c).display, LoopDummy(c), e, c.settings).0, t, c.settings);
            d.live == Modeset.Live({}, {}, {}) && d.shown.primary == d.shown.overlay == 0
  {
    RunKeepsInv(s, events, c);
    var d := Run(s, events, c).display;
    AppliedKeepsInv(d, LoopDummy(c), e, c.settings);
    Modeset.ClosedKeepsInv(Modeset.Applied(d, LoopDummy(c), e, c.settings).0, t, c.settings);
  }

  // ----- what a switch requires -----

  predicate HasFlow(e: Event) { e.Tick? ==> e.turn.flow }

  // The arbiter before event k.
  function Before(s: Start, events: seq<Event>, c: Config, k: nat): State
    requires k <= |events|
  {
    Run(s, events[..k], c)
  }

  predicate Attempts(s: Start, events: seq<Event>, c: Config, k: nat)
    requires k < |events|
  {
    events[k].Tick? && Ready(Primed(Before(s, events, c, k), events[k].turn), events[k].turn)
  }

  predicate Switches(s: Start, events: seq<Event>, c: Config, k: nat)
    requires k < |events|
  {
    !Before(s, events, c, k).avh && Before(s, events, c, k + 1).avh
  }

  predicate FailedAttempt(s: Start, events: seq<Event>, c: Config, k: nat)
    requires k < |events|
  {
    Attempts(s, events, c, k) && !Switches(s, events, c, k)
  }

  lemma BeforeStep(s: Start, events: seq<Event>, c: Config, k: nat)
    requires k < |events|
    ensures Before(s, events, c, k + 1) == Step(Before(s, events, c, k), events[k], c)
  {
    assert events[..k + 1][..k] == events[..k];
  }

  /** Event j noticed the flow with the count `noticed`, and every turn since saw a flow. */
  ghost predicate NoticedAt(events: seq<Event>, j: nat, k: nat, noticed: nat)
    requires j < k <= |events|
  {
    && events[j].Tick? && events[j].turn.flow && events[j].turn.atNotice == noticed
    && forall i :: j <= i < k ==> HasFlow(events[i])
  }

  // Only a tick changes the waiting state.
  lemma OthersKeepWaiting(a: State, e: Event, c: Config)
    requires !e.Tick?
    ensures var b := Step(a, e, c);
            b.pending == a.pending && b.noticed == a.noticed && b.avh == a.avh && b.blocked == a.blocked
  {
  }

  lemma StartsIdle(s: Start, events: seq<Event>, c: Config)
    ensures !Before(s, events, c, 0).pending && !Before(s, events, c, 0).avh
  {
    assert events[..0] == [];
  }

  lemma PendingStep(a: State, e: Event, c: Config)
    requires Step(a, e, c).pending
    ensures HasFlow(e)
    ensures if a.pending then Step(a, e, c).noticed == a.noticed
            else e.Tick? && e.turn.flow && Step(a, e, c).noticed == e.turn.atNotice
  {
    if !e.Tick? { OthersKeepWaiting(a, e, c); }
  }

  /** While the arbiter waits, an earlier turn noticed the flow and it has been there since. */
  lemma {:induction false} PendingSince(s: Start, events: seq<Event>, c: Config, k: nat) returns (j: nat)
    requires k <= |events| && Before(s, events, c, k).pending
    ensures j < k && NoticedAt(events, j, k, Before(s, events, c, k).noticed)
  {
    StartsIdle(s, events, c);
    BeforeStep(s, events, c, k - 1);
    PendingStep(Before(s, events, c, k - 1), events[k - 1], c);
    if Before(s, events, c, k - 1).pending {
      j := PendingSince(s, events, c, k - 1);
    } else {
      j := k - 1;
    }
  }

  /** Turn j noticed the flow, every turn from j to k saw one, and the frame counter is
      greater at k than it was at j. */
  ghost predicate Justifies(events: seq<Event>, j: nat, k: nat)
    requires j <= k < |events|
  {
    && events[k].Tick? && events[j].Tick? && NoticedAt(events, j, k + 1, events[j].turn.atNotice)
    && events[k].turn.decoded > events[j].turn.atNotice
  }

  /** A switch to VCU happens only after a frame was decoded since the flow was noticed,
      with the flow present at every turn in between. */
  lemma SwitchNeedsDecodedFrame(s: Start, events: seq<Event>, c: Config, k: nat)
    requires k < |events|
    ensures Switches(s, events, c, k) ==> exists j :: 0 <= j <= k && Justifies(events, j, k)
  {
    if Switches(s, events, c, k) {
      BeforeStep(s, events, c, k);
      var a, e := Before(s, events, c, k), events[k];
      if !e.Tick? { OthersKeepWaiting(a, e, c); }
      assert Ready(Primed(a, e.turn), e.turn);
      var j := k;
      if a.pending { j := PendingSince(s, events, c, k); }
      assert Justifies(events, j, k);
    }
  }

  lemma FailureBlocks(a: State, t: Turn, c: Config)
    requires Ready(Primed(a, t), t) && !Turned(a, t, c).avh
    ensures Turned(a, t, c).blocked && !Turned(a, t, c).pending
  {
  }

  lemma BlockedStep(a: State, e: Event, c: Config)
    requires a.blocked && !a.pending && HasFlow(e)
    ensures Step(a, e, c).blocked && !Step(a, e, c).pending
  {
    if !e.Tick? { OthersKeepWaiting(a, e, c); }
  }

  // Blocked stays blocked while every turn sees a flow.
  lemma {:induction false} BlockedPersists(s: Start, events: seq<Event>, c: Config, i: nat, k: nat)
    requires i < k <= |events| && FailedAttempt(s, events, c, i)
    requires forall m :: i < m < k ==> HasFlow(events[m])
    ensures Before(s, events, c, k).blocked && !Before(s, events, c, k).pending
  {
    BeforeStep(s, events, c, k - 1);
    if i == k - 1 {
      FailureBlocks(Before(s, events, c, i), events[i].turn, c);
    } else {
      BlockedPersists(s, events, c, i, k - 1);
      BlockedStep(Before(s, events, c, k - 1), events[k - 1], c);
    }
  }

  /** Between a failed attempt and any later attempt there is a turn that saw no flow. */
  lemma RetryNeedsFlowLoss(s: Start, events: seq<Event>, c: Config, i: nat, k: nat)
    requires i < k < |events| && FailedAttempt(s, events, c, i) && Attempts(s, events, c, k)
    ensures exists m :: i < m < k && !HasFlow(events[m])
  {
    if forall m :: i < m < k ==> HasFlow(events[m]) {
      BlockedPersists(s, events, c, i, k);
      assert false;
    }
  }

  // ----- what is shown when Dante is selected again -----

  // The report is inside the SDI contract.
  predicate InContract(f: Format, c: Config) {
    !c.settings.sdi || !f.locked ||
      (f.width == c.width && f.height == c.height && f.fps == c.fps && !f.interlaced && f.rgb)
  }

  predicate Counts(f: Format, c: Config) {
    f.locked && f.width > 0 && f.height > 0 && f.fps > 0 && InContract(f, c)
  }

  // The last locked, nonempty format inside the contract among the events.
  function LastLocked(events: seq<Event>, c: Config): Option<Format> {
    if events == [] then None
    else
      var e := events[|events| - 1];
      if e.SetFormat? && Counts(e.format, c) then Some(e.format) else LastLocked(events[..|events| - 1], c)
  }

  // The colour format of the overlay.
  function LastRgb(events: seq<Event>, c: Config): bool {
    match LastLocked(events, c) case None => true case Some(f) => f.rgb
  }

  lemma {:induction false} RunRemembers(s: Start, events: seq<Event>, c: Config)
    ensures var a := Run(s, events, c);
            && a.last == (match LastLocked(events, c) case None => NO_FORMAT case Some(f) => f)
            && a.rgb == LastRgb(events, c)
  {
    if events != [] {
      RunRemembers(s, events[..|events| - 1], c);
      StepRemembers(Run(s, events[..|events| - 1], c), events[|events| - 1], c);
    }
  }

  lemma StepRemembers(a: State, e: Event, c: Config)
    ensures var b := Step(a, e, c);
            if e.SetFormat? && Counts(e.format, c) then b.last == e.format && b.rgb == e.format.rgb
            else b.last == a.last && b.rgb == a.rgb
  {
  }

  // The Dante picture after these events: the last locked format, or the configured one, with the overlay.
  function DantePicture(events: seq<Event>, c: Config): Modeset.Request {
    var last := LastLocked(events, c);
    if c.fixedMode || last == None then Modeset.Request(c.width, c.height, c.fps as real, true)
    else Modeset.Request(last.value.width, last.value.height, last.value.fps as real, true)
  }

  lemma {:induction false} RestoreIsDantePicture(s: Start, events: seq<Event>, c: Config)
    ensures Restore(Run(s, events, c).last, c) == DantePicture(events, c)
  {
    RunRemembers(s, events, c);
    LastLockedIsLocked(events, c);
  }

  lemma {:induction false} LastLockedIsLocked(events: seq<Event>, c: Config)
    ensures LastLocked(events, c).Some? ==> LastLocked(events, c).value.locked
  {
    if events != [] { LastLockedIsLocked(events[..|events| - 1], c); }
  }

  /** What r, coming from d by a modeset for q with answers e, shows: if it exchanged the
      resources, the right mode, and the overlay exactly if q asks for it and it was
      granted, centred with q's proportions. */
  ghost predicate Shows(d: Modeset.State, q: Modeset.Request, e: Modeset.Foreign, r: Modeset.State, c: Config) {
    Modeset.Exchanges(d, q, e, c.settings) ==>
      && Modeset.RightMode(r.mode, e, c.settings.sdi)
      && (r.overlay <==> q.overlay && (d.plane ==> Modeset.OverlayNew(d.live, e)))
      && (d.plane && r.overlay ==> r.shown.rect.Some? && Modeset.RightRect(r.shown.rect.value, q, r.mode))
  }

  lemma ShowsIt(d: Modeset.State, q: Modeset.Request, e: Modeset.Foreign, c: Config)
    requires Modeset.Inv(d) && d.open
    ensures Shows(d, q, e, Modeset.Applied(d, q, e, c.settings).0, c)
  {
    if Modeset.Exchanges(d, q, e, c.settings) {
      Modeset.CommitShowsRightMode(d, q, e, c.settings);
      Modeset.OverlayAndAudioExactly(d, q, e, c.settings);
      AppliedKeepsInv(d, q, e, c.settings);
      OverlayHasFrame(d, q, e, c);
    }
  }

  lemma OverlayHasFrame(d: Modeset.State, q: Modeset.Request, e: Modeset.Foreign, c: Config)
    requires Sound(d) && Sound(Modeset.Applied(d, q, e, c.settings).0)
    ensures var r := Modeset.Applied(d, q, e, c.settings).0;
            r.plane == d.plane && (r.plane && r.overlay ==> r.shown.overlay != 0)
  {
  }

  // The loop's dummy modeset, in the size it was called with.
  function AtArguments(d: Modeset.State, t: Turn, c: Config): Modeset.State {
    Modeset.Applied(d, Modeset.Request(c.argWidth, c.argHeight, c.argFps as real, false), t.dummy, c.settings).0
  }

  /** After any run, the first turn without flow while VCU is selected selects Dante again: over
      a dummy picture and with the audio route set back, the modeset for the last locked
      format of the run, or for the configured one under a fixed mode or before any such
      report, shows the Dante picture whenever it commits. */
  lemma ReturnShowsDante(s: Start, events: seq<Event>, c: Config, k: nat)
    requires k < |events| && events[k].Tick? && !events[k].turn.flow && Before(s, events, c, k).avh
    ensures var t := events[k].turn;
            var b := Before(s, events, c, k + 1);
            var d := Modeset.Rerouted(AtArguments(Before(s, events, c, k).display, t, c), t.route, c.settings);
            var q := DantePicture(events[..k], c);
            && !b.avh && b.display == Modeset.Applied(d, q, t.restore, c.settings).0
            && Shows(d, q, t.restore, b.display, c)
  {
    var a, t := Before(s, events, c, k), events[k].turn;
    BeforeStep(s, events, c, k);
    RunKeepsInv(s, events[..k], c);
    RestoreIsDantePicture(s, events[..k], c);
    AppliedKeepsInv(a.display, LoopDummy(c), t.dummy, c.settings);
    var d := Modeset.Rerouted(AtArguments(a.display, t, c), t.route, c.settings);
    WithdrawnIs(a, t, c, DantePicture(events[..k], c));
    ShowsIt(d, DantePicture(events[..k], c), t.restore, c);
  }

  lemma WithdrawnIs(a: State, t: Turn, c: Config, q: Modeset.Request)
    requires !t.flow && a.avh && Restore(a.last, c) == q
    ensures var b := Step(a, Tick(t), c);
            var d := Modeset.Rerouted(AtArguments(a.display, t, c), t.route, c.settings);
            !b.avh && b.display == Modeset.Applied(d, q, t.restore, c.settings).0
  {
  }

  // The switch's dummy modeset, in the current size if there is one.
  function SwitchRequest(d: Modeset.State, c: Config): Modeset.Request {
    Modeset.Request(if d.mode.width > 0 then d.mode.width else c.argWidth,
                    if d.mode.height > 0 then d.mode.height else c.argHeight, c.argFps as real, false)
  }

  /** An attempt selects VCU exactly if its dummy modeset succeeds, the second output starts, the
      flow is still there and the decoder's sink starts; otherwise Dante is selected
      still, and shown again as in ReturnShowsDante. */
  lemma AttemptOutcome(s: Start, events: seq<Event>, c: Config, k: nat)
    requires k < |events| && Attempts(s, events, c, k)
    ensures var t := events[k].turn;
            var b := Before(s, events, c, k + 1);
            var (dark, ok) := Modeset.Applied(Before(s, events, c, k).display,
                                              SwitchRequest(Before(s, events, c, k).display, c), t.dummy, c.settings);
            var taken := if ok then Modeset.Rerouted(dark, t.takeover, c.settings) else dark;
            var d := Modeset.Rerouted(taken, t.route, c.settings);
            var q := DantePicture(events[..k], c);
            && (b.avh <==> ok && t.output && t.stillFlow && t.sink)
            && (b.avh ==> b.display == taken)
            && (!b.avh ==> b.display == Modeset.Applied(d, q, t.restore, c.settings).0)
            && (!b.avh ==> Shows(d, q, t.restore, b.display, c))
  {
    var a, t := Before(s, events, c, k), events[k].turn;
    BeforeStep(s, events, c, k);
    RunKeepsInv(s, events[..k], c);
    RestoreIsDantePicture(s, events[..k], c);
    var q := DantePicture(events[..k], c);
    AttemptedIs(a, t, c, q);
    var (dark, ok) := Modeset.Applied(a.display, SwitchRequest(a.display, c), t.dummy, c.settings);
    AppliedKeepsInv(a.display, SwitchRequest(a.display, c), t.dummy, c.settings);
    var taken := if ok then Modeset.Rerouted(dark, t.takeover, c.settings) else dark;
    ShowsIt(Modeset.Rerouted(taken, t.route, c.settings), q, t.restore, c);
  }

  lemma AttemptedIs(a: State, t: Turn, c: Config, q: Modeset.Request)
    requires Ready(Primed(a, t), t) && Restore(a.last, c) == q
    ensures var b := Step(a, Tick(t), c);
            var (dark, ok) := Modeset.Applied(a.display, SwitchRequest(a.display, c), t.dummy, c.settings);
            var taken := if ok then Modeset.Rerouted(dark, t.takeover, c.settings) else dark;
            var d := Modeset.Rerouted(taken, t.route, c.settings);
            && (b.avh <==> ok && t.output && t.stillFlow && t.sink)
            && (b.avh ==> b.display == taken)
            && (!b.avh ==> b.display == Modeset.Applied(d, q, t.restore, c.settings).0)
  {
    var p := Primed(a, t);
    assert p.display == a.display && p.last == a.last && Step(a, Tick(t), c) == Attempted(p, t, c);
  }

  /** After any run the watchdog's condition is just that the Dante overlay is on: its checks for
      a modeset and for VCU not selected are implied. */
  lemma {:induction false} EligibleExactly(s: Start, events: seq<Event>, c: Config)
    ensures Eligible(Run(s, events, c)) <==> Run(s, events, c).display.overlay
  {
    RunKeepsInv(s, events, c);
  }

  // ----- when a switch is attempted -----

  /** A flow episode runs from turn b to turn k: b saw a flow, so did every turn since, and the
      turn before b, if there was one, did not. */
  ghost predicate Episode(events: seq<Event>, b: nat, k: nat)
    requires b <= k < |events|
  {
    && events[b].Tick? && events[k].Tick?
    && (forall i :: b <= i <= k ==> HasFlow(events[i]))
    && Opens(events, b)
  }

  // The last turn before b, if any, saw no flow.
  ghost predicate Opens(events: seq<Event>, b: nat)
    requires b <= |events|
  {
    forall i :: 0 <= i < b && events[i].Tick? && events[i].turn.flow ==> exists m :: i < m < b && !HasFlow(events[m])
  }

  lemma OpensBefore(events: seq<Event>, b: nat)
    requires 0 < b <= |events| && Opens(events, b) && HasFlow(events[b - 1])
    ensures !events[b - 1].Tick? && Opens(events, b - 1)
  {
    forall i | 0 <= i < b - 1 && events[i].Tick? && events[i].turn.flow
      ensures exists m :: i < m < b - 1 && !HasFlow(events[m])
    {
      var m :| i < m < b && !HasFlow(events[m]);
      assert m != b - 1;
    }
  }

  // Where an episode opens the arbiter neither waits, nor is blocked, nor shows VCU.
  lemma {:induction false} FreshWhereItOpens(s: Start, events: seq<Event>, c: Config, b: nat)
    requires b <= |events| && Opens(events, b)
    ensures var a := Before(s, events, c, b); !a.pending && !a.blocked && !a.avh
  {
    if b == 0 {
      assert events[..0] == [];
    } else {
      BeforeStep(s, events, c, b - 1);
      var e := events[b - 1];
      if HasFlow(e) {
        OpensBefore(events, b);
        FreshWhereItOpens(s, events, c, b - 1);
        OthersKeepWaiting(Before(s, events, c, b - 1), e, c);
      } else {
        NoFlowClears(Before(s, events, c, b - 1), e, c);
      }
    }
  }

  lemma NoFlowClears(a: State, e: Event, c: Config)
    requires !HasFlow(e)
    ensures var b := Step(a, e, c); !b.pending && !b.blocked && !b.avh
  {
  }

  ghost predicate NoAttempt(s: Start, events: seq<Event>, c: Config, b: nat, k: nat)
    requires b <= k <= |events|
  {
    forall i :: b <= i < k ==> !Attempts(s, events, c, i)
  }

  // The arbiter behind turn b of an episode: waiting with b's count, or done with its attempt.
  ghost predicate Within(a: State, noticed: nat, attempted: bool) {
    && (if attempted then a.avh || a.blocked else a.pending && !a.avh && !a.blocked && a.noticed == noticed)
    && (a.blocked ==> !a.pending)
  }

  lemma NoAttemptSnoc(s: Start, events: seq<Event>, c: Config, b: nat, k: nat)
    requires b < k <= |events|
    ensures NoAttempt(s, events, c, b, k) <==> NoAttempt(s, events, c, b, k - 1) && !Attempts(s, events, c, k - 1)
  {
  }

  lemma {:induction false} WithinEpisode(s: Start, events: seq<Event>, c: Config, b: nat, k: nat)
    requires b < k <= |events| && events[b].Tick? && Opens(events, b)
    requires forall i :: b <= i < k ==> HasFlow(events[i])
    ensures Within(Before(s, events, c, k), events[b].turn.atNotice, !NoAttempt(s, events, c, b, k))
  {
    BeforeStep(s, events, c, k - 1);
    NoAttemptSnoc(s, events, c, b, k);
    var a, e := Before(s, events, c, k - 1), events[k - 1];
    RunKeepsInv(s, events[..k - 1], c);
    assert HasFlow(e);
    if k - 1 == b {
      FreshWhereItOpens(s, events, c, b);
      FirstTurn(a, e.turn, c);
    } else {
      WithinEpisode(s, events, c, b, k - 1);
      if e.Tick? {
        LaterTurn(a, e.turn, events[b].turn.atNotice, !NoAttempt(s, events, c, b, k - 1), c);
      } else {
        OthersKeepWaiting(a, e, c);
      }
    }
  }

  lemma FirstTurn(a: State, t: Turn, c: Config)
    requires t.flow && !a.pending && !a.blocked && !a.avh
    ensures Within(Step(a, Tick(t), c), t.atNotice, Ready(Primed(a, t), t))
  {
    FlowStep(a, t, c);
  }

  lemma LaterTurn(a: State, t: Turn, noticed: nat, attempted: bool, c: Config)
    requires t.flow && Selection(a) && Within(a, noticed, attempted)
    ensures Within(Step(a, Tick(t), c), noticed, attempted || Ready(Primed(a, t), t))
  {
    FlowStep(a, t, c);
  }

  lemma FlowStep(a: State, t: Turn, c: Config)
    requires t.flow && Selection(a)
    ensures var u := Step(a, Tick(t), c);
            var ready := Ready(Primed(a, t), t);
            && (ready ==> (u.avh || u.blocked) && !a.avh && !a.blocked && (u.blocked ==> !u.pending))
            && (!ready ==> u.avh == a.avh && u.blocked == a.blocked && u == Primed(a, t))
            && (!ready && !a.avh && !a.blocked ==>
                  u.pending && u.noticed == if a.pending then a.noticed else t.atNotice)
  {
  }

  /** When a switch is attempted. In every flow episode, at most once: at the first turn at which
      no initialization is under way and more frames have been decoded than at the
      episode's first turn. */
  lemma AttemptsExactly(s: Start, events: seq<Event>, c: Config, b: nat, k: nat)
    requires b <= k < |events| && Episode(events, b, k)
    ensures Attempts(s, events, c, k) <==>
            && NoAttempt(s, events, c, b, k)
            && !events[k].turn.initializing && events[k].turn.decoded > events[b].turn.atNotice
  {
    if b == k {
      FreshWhereItOpens(s, events, c, b);
    } else {
      WithinEpisode(s, events, c, b, k);
    }
  }

  /** VCU is left at the first turn without flow and not before. */
  lemma VcuIsLeftExactly(s: Start, events: seq<Event>, c: Config, k: nat)
    requires k < |events| && Before(s, events, c, k).avh
    ensures Before(s, events, c, k + 1).avh <==> HasFlow(events[k])
  {
    BeforeStep(s, events, c, k);
    if HasFlow(events[k]) && !events[k].Tick? { OthersKeepWaiting(Before(s, events, c, k), events[k], c); }
  }

  // ----- what a format report shows -----

  // The size asked for by a report.
  function Asked(f: Format, c: Config): Modeset.Request {
    if c.fixedMode then Modeset.Request(c.width, c.height, c.fps as real, f.locked)
    else Modeset.Request(f.width, f.height, f.fps as real, f.locked)
  }

  // DUMMY in the configured size.
  function Configured(c: Config): Modeset.Request { Modeset.Request(c.width, c.height, c.fps as real, false) }

  // On SDI, the picture of this locked format is already shown.
  predicate AlreadyShown(d: Modeset.State, rgb: bool, now: bool, f: Format, c: Config) {
    && c.settings.sdi && f.locked && d.modeset && d.overlay && rgb == now
    && d.mode.width == Asked(f, c).width && d.mode.height == Asked(f, c).height
    && -0.005 < d.mode.refresh - Asked(f, c).fps < 0.005
  }

  // The modeset of a report, and after the failure of a locked one DUMMY in the current size.
  function ReportShown(
    d: Modeset.State, f: Format, e1: Modeset.Foreign, e2: Modeset.Foreign, c: Config): Modeset.State
  {
    var (r, ok) := Modeset.Applied(d, Asked(f, c), e1, c.settings);
    if ok || !f.locked || r.mode.width == 0 then r
    else Modeset.Applied(r, Modeset.Request(r.mode.width, r.mode.height, r.mode.refresh, false), e2, c.settings).0
  }

  /** What a format report does to the display, after any run. Outside the SDI contract it gets
      DUMMY in the configured size; with VCU selected, unlocked under a forced source, or
      with its picture already shown, nothing; otherwise its own modeset, which shows the
      overlay exactly if the format is locked and the overlay is granted. */
  lemma ReportExactly(s: Start, events: seq<Event>, c: Config, k: nat)
    requires k < |events| && events[k].SetFormat?
    ensures var f, e1, e2 := events[k].format, events[k].first, events[k].second;
            var a, d := Before(s, events, c, k), Before(s, events, c, k + 1).display;
            var rgb := LastRgb(events[..k], c);
            var now := if Counts(f, c) then f.rgb else rgb;
            if !InContract(f, c) then
              d == Modeset.Applied(a.display, Configured(c), e1, c.settings).0
            else if a.avh || (c.forceDante && !f.locked) || AlreadyShown(a.display, rgb, now, f, c) then d == a.display
            else d == ReportShown(a.display, f, e1, e2, c) &&
                 Shows(a.display, Asked(f, c), e1, Modeset.Applied(a.display, Asked(f, c), e1, c.settings).0, c)
  {
    var a := Before(s, events, c, k);
    BeforeStep(s, events, c, k);
    RunKeepsInv(s, events[..k], c);
    RunRemembers(s, events[..k], c);
    ShowsIt(a.display, Asked(events[k].format, c), events[k].first, c);
    FormattedIs(a, events[k].format, events[k].first, events[k].second, c);
  }

  lemma FormattedIs(a: State, f: Format, e1: Modeset.Foreign, e2: Modeset.Foreign, c: Config)
    ensures var d := Formatted(a, f, e1, e2, c).display;
            var now := if Counts(f, c) then f.rgb else a.rgb;
            if !InContract(f, c) then
              d == Modeset.Applied(a.display, Configured(c), e1, c.settings).0
            else if a.avh || (c.forceDante && !f.locked) || AlreadyShown(a.display, a.rgb, now, f, c) then
              d == a.display
            else d == ReportShown(a.display, f, e1, e2, c)
  {
    assert Remembered(a, f).display == a.display && Target(f, c) == Asked(f, c);
  }

  // ----- the program -----

  class Arbiter {
    const config: Config
    const display: Modeset.Display
    var avh: bool
    var pending: bool
    var blocked: bool
    var noticed: nat
    var last: Format
    var rgb: bool

    ghost predicate Valid()
      reads this, display
    {
      display.settings == config.settings && Modeset.Inv(display.View())
    }

    ghost function View(): State
      reads this, display
    {
      State(display.View(), avh, pending, blocked, noticed, last, rgb)
    }

    constructor (display: Modeset.Display, config: Config)
      requires display.settings == config.settings && Modeset.Inv(display.View())
      ensures Valid() && this.display == display && this.config == config
      ensures View() == State(display.View(), false, false, false, 0, NO_FORMAT, true)
    {
      this.display, this.config := display, config;
      avh, pending, blocked, noticed := false, false, false, 0;
      last, rgb := NO_FORMAT, true;
    }

    // The audio route, then the last Ultra format.
    method RestoreUltra(t: Turn)
      requires Valid()
      modifies display
      ensures Valid() && display.View() == Restored(old(display.View()), last, t, config)
    {
      display.Reroute(t.route);
      var width, height, fps := config.width, config.height, config.fps;
      if !config.fixedMode && last.locked {
        width, height, fps := last.width, last.height, last.fps;
      }
      var _ := display.Apply(Modeset.Request(width, height, fps as real, true), t.restore);
    }

    method TakeOver(t: Turn) returns (ok: bool)
      requires Valid()
      modifies display
      ensures Valid() && display.View() == TakenOver(old(View()), t, config)
      ensures ok ==
              Modeset.Applied(old(display.View()), SwitchDummy(old(display.View()), config), t.dummy, config.settings).1
    {
      var w, h := config.argWidth, config.argHeight;
      if display.mode.width != 0 { w := display.mode.width; }
      if display.mode.height != 0 { h := display.mode.height; }
      ok := display.Apply(Dummy(w, h, config.argFps as real), t.dummy);
      if ok { display.Reroute(t.takeover); }
    }

    method Attempt(t: Turn)
      requires Valid() && !avh
      modifies this`avh, this`blocked, this`pending, display
      ensures Valid() && View() == Attempted(old(View()), t, config)
    {
      var ok := TakeOver(t);
      if ok && t.output && t.stillFlow && t.sink {
        avh := true;
      }
      if !avh {
        RestoreUltra(t);
        blocked, pending := true, false;
      }
    }

    method Withdraw(t: Turn)
      requires Valid()
      modifies this`avh, display
      ensures Valid() && View() == Withdrawn(old(View()), t, config)
    {
      var _ := display.Apply(LoopDummy(config), t.dummy);
      avh := false;
      RestoreUltra(t);
    }

    /** The arbitration at the top of the main loop. */
    method Arbitrate(t: Turn)
      requires Valid()
      modifies this, display
      ensures Valid() && View() == Turned(old(View()), t, config)
    {
      if t.flow && !pending && !avh && !blocked {
        pending, noticed := true, t.atNotice;
      }
      if !t.flow {
        pending, blocked := false, false;
      }
      if t.flow && pending && !avh && t.decoded > noticed && !t.initializing {
        Attempt(t);
      }
      if !t.flow && avh {
        Withdraw(t);
      }
    }

    method Retarget(f: Format, first: Modeset.Foreign, second: Modeset.Foreign)
      requires Valid()
      modifies display
      ensures Valid() && display.View() == Retargeted(old(display.View()), f, first, second, config)
    {
      var ok := display.Apply(Target(f, config), first);
      if !ok && f.locked && display.mode.width != 0 {
        var _ := display.Apply(Dummy(display.mode.width, display.mode.height, display.mode.refresh), second);
      }
    }

    /** A report of the Ultra input's format. */
    method OnFormat(f: Format, first: Modeset.Foreign, second: Modeset.Foreign)
      requires Valid()
      modifies this, display
      ensures Valid() && View() == Formatted(old(View()), f, first, second, config)
    {
      if Rejected(f, config) {
        Refuse(first);
        return;
      }
      Accept(f, first, second);
    }

    method Refuse(e: Modeset.Foreign)
      requires Valid()
      modifies display
      ensures Valid()
      ensures display.View() ==
              Modeset.Applied(old(display.View()), Dummy(config.width, config.height, config.fps as real), e,
                              config.settings).0
    {
      var _ := display.Apply(Dummy(config.width, config.height, config.fps as real), e);
    }

    method Remember(f: Format)
      modifies this`last, this`rgb
      ensures View() == Remembered(old(View()), f)
    {
      if f.locked && f.width != 0 && f.height != 0 && f.fps != 0 {
        last, rgb := f, f.rgb;
      }
    }

    method Accept(f: Format, first: Modeset.Foreign, second: Modeset.Foreign)
      requires Valid()
      modifies this`last, this`rgb, display
      ensures Valid() && View() == Accepted(old(View()), f, first, second, config)
    {
      var previous := rgb;
      Remember(f);
      if avh || (config.forceDante && !f.locked) { return; }
      ghost var b := View();
      Follow(previous, f, first, second);
      assert View() == b.(display := display.View());
    }

    method Follow(previous: bool, f: Format, first: Modeset.Foreign, second: Modeset.Foreign)
      requires Valid()
      modifies display
      ensures Valid() && display.View() == Followed(old(View()), previous, f, first, second, config)
    {
      var target := Target(f, config);
      if config.settings.sdi && f.locked && display.modeset && display.overlay && previous == rgb
         && display.mode.width == target.width && display.mode.height == target.height
         && -0.005 < display.mode.refresh - target.fps < 0.005 {
        return;
      }
      Retarget(f, first, second);
    }

    /** The connector reports that it is no longer connected; see UnplugDarkensExactly. */
    method OnDisconnected(e: Modeset.Foreign)
      requires Valid()
      modifies display
      ensures Valid() && View() == Step(old(View()), Disconnected(e), config)
    {
      if display.overlay && !avh {
        var _ := display.Apply(Dummy(display.mode.width, display.mode.height, display.mode.refresh), e);
      }
    }

    /** The watchdog asks for a reset, which it does only while the arbiter is eligible. */
    method OnResync(r: Modeset.ResetForeign) returns (ok: bool)
      requires Valid() && Eligible(View())
      modifies display
      ensures Valid() && View() == Step(old(View()), Resync(r), config)
      ensures ok == Modeset.Reset(old(display.View()), r).1
    {
      ok := display.Reinitialize(r);
    }
  }
}
