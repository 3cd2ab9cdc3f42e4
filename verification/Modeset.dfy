/** The transactional display modeset and its ledger of kernel resources.

    Every modeset acquires a mode blob, a primary framebuffer with its dumb buffer and
    possibly the same for the overlay, commits them, and only then gives the previous
    ones back; a failure before the commit gives the new ones back. `Applied` says what
    that amounts to; class `Display` does it step by step. */
module Modeset {
  import opened Basics
  import Letterbox

  type Size = n: nat | n < 0x1_0000

  // One display mode; `sdi` says that it is one of the two SDI timings.
  datatype Mode = Mode(width: Size, height: Size, clock: nat, refresh: real, interlaced: bool, sdi: bool)

  const NO_MODE := Mode(0, 0, 0, 0.0, false, false)

  // How the program was started.
  datatype Settings = Settings(sdi: bool, audioDisabled: bool, audioOptional: bool)

  datatype Request = Request(width: nat, height: nat, fps: real, overlay: bool)

  // The identifiers the kernel hands out for one dumb buffer and its framebuffer.
  datatype Dumb = Dumb(bo: nat, fb: nat)

  /** The answer to switching the SDI audio embedder: done, or a failure that leaves the
      switch in either position. */
  datatype Toggle = Obeyed | Failed(left: bool)

  /** What every foreign call answers during one modeset. An identifier that is zero or
      already in use stands for a failed allocation. `disable` and `enable` are the
      answers of the audio embedder before and after the commit. */
  datatype Foreign = Foreign(
    connected: bool, exact: Option<Mode>, modes: seq<Mode>,
    blob: nat, primary: Dumb, overlay: Dumb,
    request: bool, source: bool, disable: Toggle, commit: bool, enable: Toggle)

  // ----- choosing the mode -----

  predicate Compatible(m: Mode, sdi: bool) {
    && (sdi ==> m.sdi)
    && 0 < m.width <= 3840 && 0 < m.height <= 2160
    && m.clock <= 594000 && 0.0 < m.refresh <= 60.5 && !m.interlaced
  }

  function Area(m: Mode): nat { m.width * m.height }

  predicate Better(a: Mode, b: Mode) {
    Area(a) > Area(b) || (Area(a) == Area(b) && a.refresh > b.refresh)
  }

  // The compatible mode of greatest area, then refresh rate; the first of equals.
  function Best(modes: seq<Mode>, sdi: bool): Option<Mode> {
    if modes == [] then None
    else
      var b, m := Best(modes[..|modes| - 1], sdi), modes[|modes| - 1];
      if Compatible(m, sdi) && (b == None || Better(m, b.value)) then Some(m) else b
  }

  /** The search finds a compatible mode exactly when there is one, and no compatible
      mode is better than the one found. */
  lemma {:induction false} BestIsGreatest(modes: seq<Mode>, sdi: bool)
    ensures Best(modes, sdi) == None <==> forall m :: m in modes ==> !Compatible(m, sdi)
    ensures Best(modes, sdi).Some? ==>
              var b := Best(modes, sdi).value;
              b in modes && Compatible(b, sdi) && forall m :: m in modes && Compatible(m, sdi) ==> !Better(m, b)
  {
    if modes != [] {
      var rest, last := modes[..|modes| - 1], modes[|modes| - 1];
      BestIsGreatest(rest, sdi);
      assert forall m :: m in modes <==> m in rest || m == last;
    }
  }

  predicate SdiSize(width: nat, height: nat) {
    (width == 1920 && height == 1080) || (width == 3840 && height == 2160)
  }

  predicate SdiRequest(q: Request) {
    SdiSize(q.width, q.height) && -0.005 < q.fps - 60.0 < 0.005
  }

  predicate UsableExact(exact: Option<Mode>, sdi: bool) {
    exact.Some? && (sdi ==> exact.value.sdi) && exact.value.clock <= 594000 && exact.value.refresh <= 60.5
  }

  function Chosen(q: Request, e: Foreign, sdi: bool): Option<Mode> {
    if sdi && !SdiRequest(q) then None
    else if UsableExact(e.exact, sdi) then e.exact
    else Best(e.modes, sdi)
  }

  // The mode, and the rectangle of the overlay in it.
  datatype Plan = Plan(mode: Mode, rect: Letterbox.Rect)

  function Planned(q: Request, e: Foreign, sdi: bool): Option<Plan> {
    if q.width == 0 || q.height == 0 || q.width > 3840 || q.height > 2160 || !e.connected then None
    else match Chosen(q, e, sdi)
      case None => None
      case Some(m) =>
        match Letterbox.FitRect(q.width, q.height, m.width, m.height)
        case None => None
        case Some(r) => Some(Plan(m, r))
  }

  // ----- the ledger -----

  datatype Live = Live(fbs: set<nat>, bos: set<nat>, blobs: set<nat>)

  // The identifiers a context records; zero where there is none.
  datatype Frame = Frame(primary: Dumb, overlay: Dumb, blob: nat)

  const NO_FRAME := Frame(Dumb(0, 0), Dumb(0, 0), 0)

  function Ids(a: nat, b: nat): set<nat> { {a, b} - {0} }

  function Plus(l: Live, f: Frame): Live {
    Live(l.fbs + Ids(f.primary.fb, f.overlay.fb), l.bos + Ids(f.primary.bo, f.overlay.bo), l.blobs + Ids(f.blob, 0))
  }

  function Minus(l: Live, f: Frame): Live {
    Live(l.fbs - Ids(f.primary.fb, f.overlay.fb), l.bos - Ids(f.primary.bo, f.overlay.bo), l.blobs - Ids(f.blob, 0))
  }

  /** What the context last committed to the display: the framebuffers of its planes, where
      the overlay is, whether the overlay takes the live input, and whether it is lit. */
  datatype Scanout = Scanout(primary: nat, overlay: nat, rect: Option<Letterbox.Rect>, source: bool, lit: bool)

  const DARK := Scanout(0, 0, None, false, false)

  // Removing a framebuffer that is being shown turns its plane off.
  function Without(o: Scanout, fb: nat): Scanout {
    o.(primary := if o.primary == fb then 0 else o.primary,
       overlay := if o.overlay == fb then 0 else o.overlay)
  }

  datatype State = State(
    open: bool, plane: bool, frame: Frame, live: Live, shown: Scanout,
    modeset: bool, overlay: bool, mode: Mode, embedded: bool)

  function Opened(plane: bool): State {
    State(true, plane, NO_FRAME, Live({}, {}, {}), DARK, false, false, NO_MODE, false)
  }

  predicate Matched(d: Dumb) { d.bo == 0 <==> d.fb == 0 }

  /** The live resources are exactly the recorded ones, and what is shown is recorded. */
  predicate Ledger(s: State) {
    && s.live == Plus(Live({}, {}, {}), s.frame)
    && Matched(s.frame.primary) && Matched(s.frame.overlay)
    && s.shown.primary == s.frame.primary.fb && s.shown.overlay == s.frame.overlay.fb
  }

  /** The flags agree with the resources while the device is open. */
  predicate FlagsAgree(s: State) {
    s.open ==>
      && (s.modeset <==> s.frame.primary.fb != 0) && (s.modeset <==> s.frame.blob != 0)
      && (s.modeset <==> s.mode.width != 0) && (!s.modeset ==> !s.overlay)
      && (s.plane ==> s.shown.source == s.overlay && (s.overlay <==> s.frame.overlay.fb != 0))
      && (!s.plane ==> s.frame.overlay.fb == 0)
  }

  predicate Inv(s: State) { Ledger(s) && FlagsAgree(s) }

  // ----- one modeset -----

  predicate Granted(live: set<nat>, id: nat) { id != 0 && id !in live }

  predicate DumbGranted(l: Live, d: Dumb) { Granted(l.bos, d.bo) && Granted(l.fbs, d.fb) }

  predicate OverlayGranted(s: State, q: Request, e: Foreign) {
    q.overlay && s.plane && DumbGranted(Plus(s.live, Frame(e.primary, Dumb(0, 0), e.blob)), e.overlay)
  }

  function Acquired(s: State, q: Request, e: Foreign): Frame {
    Frame(e.primary, if OverlayGranted(s, q, e) then e.overlay else Dumb(0, 0), e.blob)
  }

  // The overlay stays requested unless its buffer was refused.
  predicate OverlayOn(s: State, q: Request, e: Foreign) {
    q.overlay && (s.plane ==> OverlayGranted(s, q, e))
  }

  predicate AcquisitionSucceeds(s: State, e: Foreign) {
    Granted(s.live.blobs, e.blob) && DumbGranted(s.live, e.primary)
  }

  // Where the embedder's switch stands after a call that should bring it to `to`; only SDI has one.
  function Switched(embedded: bool, to: bool, t: Toggle, sdi: bool): bool {
    if !sdi then embedded else if t.Obeyed? then to else t.left
  }

  // The modeset gets as far as turning the embedder off, just before the commit.
  predicate Reaches(s: State, q: Request, e: Foreign, c: Settings) {
    && s.open && Planned(q, e, c.sdi).Some? && AcquisitionSucceeds(s, e)
    && e.request && (s.plane ==> e.source)
  }

  predicate CommitSucceeds(e: Foreign, c: Settings) { (c.sdi ==> e.disable.Obeyed?) && e.commit }

  predicate Commits(s: State, q: Request, e: Foreign, c: Settings) {
    Reaches(s, q, e, c) && CommitSucceeds(e, c)
  }

  // What a commit of f shows; without an overlay plane the overlay is not touched.
  function Shown(plane: bool, o: Scanout, f: Frame, overlay: bool, rect: Letterbox.Rect): Scanout {
    if plane then
      Scanout(f.primary.fb, f.overlay.fb, if f.overlay.fb != 0 then Some(rect) else None, overlay, true)
    else o.(primary := f.primary.fb, lit := true)
  }

  predicate WantsAudio(on: bool, c: Settings) { c.sdi && on && !c.audioDisabled }

  // The audio embedder is switched on after the commit; its refusal fails the call unless optional.
  predicate AudioRefused(on: bool, e: Foreign, c: Settings) {
    WantsAudio(on, c) && !e.enable.Obeyed? && !c.audioOptional
  }

  predicate AudioFails(s: State, q: Request, e: Foreign, c: Settings) { AudioRefused(OverlayOn(s, q, e), e, c) }

  // The embedder after a commit.
  function Embedded(embedded: bool, on: bool, e: Foreign, c: Settings): bool {
    var off := Switched(embedded, false, e.disable, c.sdi);
    if WantsAudio(on, c) then Switched(off, true, e.enable, c.sdi) else off
  }

  /** The new state and whether the call reports success. Either the old resources are
      exchanged for the new, or none changes; but the audio embedder has been turned off
      on every path that reaches the commit. */
  function Applied(s: State, q: Request, e: Foreign, c: Settings): (State, bool) {
    if !Reaches(s, q, e, c) then (s, false)
    else Committed(s, Acquired(s, q, e), OverlayOn(s, q, e), Planned(q, e, c.sdi).value, e, c)
  }

  // From the embedder on, with the new frame f at hand.
  function Committed(s: State, f: Frame, on: bool, p: Plan, e: Foreign, c: Settings): (State, bool) {
    if !CommitSucceeds(e, c) then (s.(embedded := Switched(s.embedded, false, e.disable, c.sdi)), false)
    else
      (Swapped(s.(live := Plus(s.live, f)), f, on, p).(embedded := Embedded(s.embedded, on, e, c)),
       !AudioRefused(on, e, c))
  }

  // The exchange, once the new frame has been acquired.
  function Swapped(s: State, f: Frame, on: bool, p: Plan): State {
    s.(frame := f, live := Minus(s.live, s.frame), shown := Shown(s.plane, s.shown, f, on, p.rect),
       modeset := true, overlay := on, mode := p.mode)
  }

  function Closed(s: State, disable: Toggle, c: Settings): State {
    if !s.open then s
    else s.(open := false, frame := NO_FRAME, live := Minus(s.live, s.frame), modeset := false,
            shown := Without(Without(s.shown, s.frame.primary.fb), s.frame.overlay.fb),
            embedded := Switched(s.embedded, false, disable, c.sdi))
  }

  // Selecting another audio route turns the embedder off first.
  function Rerouted(s: State, disable: Toggle, c: Settings): State {
    s.(embedded := Switched(s.embedded, false, disable, c.sdi))
  }

  // ----- the same-mode reset of the watchdog -----

  // What the property reads, allocations and commits answer during a reset.
  datatype ResetForeign = ResetForeign(
    properties: bool, sameBlob: bool, blob: nat, request: bool, testOn: bool, testOff: bool,
    off: bool, on: bool, rollback: bool)

  predicate ResetAllowed(s: State, r: ResetForeign) {
    && s.shown.lit && r.properties && s.shown.primary == s.frame.primary.fb != 0
    && s.shown.overlay == s.frame.overlay.fb != 0 && s.shown.source
    && r.sameBlob && s.mode.sdi && Granted(s.live.blobs, r.blob)
  }

  /** The output is turned off and on again; nothing is kept but, after a failed
      rollback, a dark display. */
  function Reset(s: State, r: ResetForeign): (State, bool) {
    if !ResetAllowed(s, r) || !r.request || !r.testOn || !r.testOff then (s, false)
    else (s.(shown := s.shown.(lit := !r.off || r.on || r.rollback)), r.off && r.on)
  }

  // ----- every operation keeps the ledger -----

  lemma PlusThenMinus(f: Frame, g: Frame)
    requires Ids(g.primary.fb, g.overlay.fb) !! Ids(f.primary.fb, f.overlay.fb)
    requires Ids(g.primary.bo, g.overlay.bo) !! Ids(f.primary.bo, f.overlay.bo)
    requires Ids(g.blob, 0) !! Ids(f.blob, 0)
    ensures Minus(Plus(Plus(Live({}, {}, {}), f), g), f) == Plus(Live({}, {}, {}), g)
  {
    assert Ids(f.primary.fb, f.overlay.fb) + Ids(g.primary.fb, g.overlay.fb) - Ids(f.primary.fb, f.overlay.fb)
        == Ids(g.primary.fb, g.overlay.fb);
    assert Ids(f.primary.bo, f.overlay.bo) + Ids(g.primary.bo, g.overlay.bo) - Ids(f.primary.bo, f.overlay.bo)
        == Ids(g.primary.bo, g.overlay.bo);
    assert Ids(f.blob, 0) + Ids(g.blob, 0) - Ids(f.blob, 0) == Ids(g.blob, 0);
  }

  lemma MinusPlus(l: Live, f: Frame)
    requires l.fbs !! Ids(f.primary.fb, f.overlay.fb) && l.bos !! Ids(f.primary.bo, f.overlay.bo)
             && l.blobs !! Ids(f.blob, 0)
    ensures Minus(Plus(l, f), f) == l
  {
    assert l.fbs + Ids(f.primary.fb, f.overlay.fb) - Ids(f.primary.fb, f.overlay.fb) == l.fbs;
    assert l.bos + Ids(f.primary.bo, f.overlay.bo) - Ids(f.primary.bo, f.overlay.bo) == l.bos;
    assert l.blobs + Ids(f.blob, 0) - Ids(f.blob, 0) == l.blobs;
  }

  // None of the acquired identifiers was in use.
  predicate Disjoint(l: Live, f: Frame) {
    l.fbs !! Ids(f.primary.fb, f.overlay.fb) && l.bos !! Ids(f.primary.bo, f.overlay.bo) && l.blobs !! Ids(f.blob, 0)
  }

  lemma AcquiredIsNew(s: State, q: Request, e: Foreign)
    requires AcquisitionSucceeds(s, e)
    ensures Disjoint(s.live, Acquired(s, q, e))
    ensures Matched(Acquired(s, q, e).primary) && Matched(Acquired(s, q, e).overlay)
  {
  }

  predicate ShowsLive(o: Scanout, l: Live) {
    (o.primary != 0 ==> o.primary in l.fbs) && (o.overlay != 0 ==> o.overlay in l.fbs)
  }

  // Giving back identifiers that were not in use changes nothing on the display.
  lemma RollbackShows(o: Scanout, l: Live, f: Frame)
    requires ShowsLive(o, l) && Disjoint(l, f)
    ensures Without(Without(o, f.primary.fb), f.overlay.fb) == o
  {
    assert f.primary.fb != 0 ==> f.primary.fb in Ids(f.primary.fb, f.overlay.fb);
    assert f.overlay.fb != 0 ==> f.overlay.fb in Ids(f.primary.fb, f.overlay.fb);
  }

  // Giving back the old identifiers after the commit does not touch the new ones.
  lemma CommitShows(plane: bool, o: Scanout, l: Live, was: Frame, f: Frame, on: bool, r: Letterbox.Rect)
    requires l == Plus(Live({}, {}, {}), was) && Disjoint(l, f)
    requires o.overlay == was.overlay.fb && (!plane ==> o.overlay == 0)
    ensures var n := Shown(plane, o, f, on, r);
            Without(Without(n, was.primary.fb), was.overlay.fb) == n
  {
    assert f.primary.fb != 0 ==> f.primary.fb in Ids(f.primary.fb, f.overlay.fb);
    assert f.overlay.fb != 0 ==> f.overlay.fb in Ids(f.primary.fb, f.overlay.fb);
    assert was.primary.fb != 0 ==> was.primary.fb in l.fbs;
    assert was.overlay.fb != 0 ==> was.overlay.fb in l.fbs;
  }

  lemma AppliedKeepsLedger(s: State, q: Request, e: Foreign, c: Settings)
    requires Inv(s)
    ensures Ledger(Applied(s, q, e, c).0)
  {
    if Commits(s, q, e, c) {
      AcquiredIsNew(s, q, e);
      PlusThenMinus(s.frame, Acquired(s, q, e));
    }
  }

  lemma AppliedKeepsFlags(s: State, q: Request, e: Foreign, c: Settings)
    requires FlagsAgree(s)
    ensures FlagsAgree(Applied(s, q, e, c).0)
  {
  }

  lemma ClosedKeepsInv(s: State, disable: Toggle, c: Settings)
    requires Inv(s)
    ensures var t := Closed(s, disable, c);
            Inv(t) && (s.open ==> t.live == Live({}, {}, {}) && t.shown.primary == t.shown.overlay == 0)
  {
    if s.open {
      var none := Live({}, {}, {});
      assert Plus(none, NO_FRAME) == none;
      MinusPlus(none, s.frame);
    }
  }

  // ----- whole runs -----

  datatype Op =
    | Apply(request: Request, foreign: Foreign)
    | Resync(reset: ResetForeign)
    | Reroute(route: Toggle)
    | Close(disable: Toggle)

  function Step(s: State, op: Op, c: Settings): State {
    match op
    case Apply(q, e) => Applied(s, q, e, c).0
    case Resync(r) => Reset(s, r).0
    case Reroute(t) => Rerouted(s, t, c)
    case Close(t) => Closed(s, t, c)
  }

  function Run(plane: bool, ops: seq<Op>, c: Settings): State {
    if ops == [] then Opened(plane) else Step(Run(plane, ops[..|ops| - 1], c), ops[|ops| - 1], c)
  }

  lemma OpenedInv(plane: bool)
    ensures Inv(Opened(plane))
  {
    assert Plus(Live({}, {}, {}), NO_FRAME) == Live({}, {}, {});
  }

  /** After any sequence of modesets, resets and cleanups, with any pattern of foreign
      failures, the live framebuffers, dumb buffers and blobs are exactly the recorded
      ones, the planes show recorded framebuffers, and the flags agree with them. */
  lemma {:induction false} RunKeepsInv(plane: bool, ops: seq<Op>, c: Settings)
    ensures Inv(Run(plane, ops, c))
  {
    if ops == [] {
      OpenedInv(plane);
    } else {
      var before, op := ops[..|ops| - 1], ops[|ops| - 1];
      RunKeepsInv(plane, before, c);
      var s := Run(plane, before, c);
      match op {
        case Apply(q, e) => AppliedKeepsLedger(s, q, e, c); AppliedKeepsFlags(s, q, e, c);
        case Resync(r) =>
        case Reroute(t) =>
        case Close(t) => ClosedKeepsInv(s, t, c);
      }
    }
  }

  /** A run that ends with the cleanup leaves no live resource and shows none. */
  lemma {:induction false} CleanupLeavesNothing(plane: bool, ops: seq<Op>, c: Settings, t: Toggle)
    ensures var s := Run(plane, ops + [Close(t)], c);
            s.live == Live({}, {}, {}) && s.frame == NO_FRAME && !s.open && s.shown.primary == s.shown.overlay == 0
  {
    assert (ops + [Close(t)])[..|ops|] == ops;
    RunKeepsInv(plane, ops, c);
    var s := Run(plane, ops, c);
    ClosedKeepsInv(s, t, c);
    if !s.open { ClosedIsEmpty(plane, ops, c); }
  }

  // Once closed, nothing is ever acquired again.
  lemma {:induction false} ClosedIsEmpty(plane: bool, ops: seq<Op>, c: Settings)
    requires !Run(plane, ops, c).open
    ensures var s := Run(plane, ops, c);
            s.live == Live({}, {}, {}) && s.frame == NO_FRAME && s.shown.primary == s.shown.overlay == 0
  {
    if ops != [] {
      var before, op := ops[..|ops| - 1], ops[|ops| - 1];
      RunKeepsInv(plane, before, c);
      if Run(plane, before, c).open {
        ClosedKeepsInv(Run(plane, before, c), op.disable, c);
      } else {
        ClosedIsEmpty(plane, before, c);
      }
    }
  }

  // The commit was refused after the embedder's switch had been moved.
  predicate LosesAudio(s: State, q: Request, e: Foreign, c: Settings) {
    && c.sdi && Reaches(s, q, e, c) && !CommitSucceeds(e, c)
    && (if e.disable.Obeyed? then s.embedded else e.disable.left != s.embedded)
  }

  /** A reported failure leaves everything as it was exactly when neither the embedder
      refused after the commit, nor the commit after the embedder had been switched. */
  lemma FailureIsTransactional(s: State, q: Request, e: Foreign, c: Settings)
    requires Inv(s) && !Applied(s, q, e, c).1
    ensures Applied(s, q, e, c).0 == s <==> !(Commits(s, q, e, c) && AudioFails(s, q, e, c)) && !LosesAudio(s, q, e, c)
    ensures !c.sdi ==> Applied(s, q, e, c).0 == s
  {
    if Commits(s, q, e, c) {
      assert e.blob !in s.live.blobs && Acquired(s, q, e).blob == e.blob;
      assert s.frame.blob != 0 ==> s.frame.blob in s.live.blobs;
    }
  }

  /** The picture and its resources alone: a failure without a commit changes nothing but
      the embedder, and without overlay, or with audio disabled or optional, every failure
      is one. */
  lemma FailureKeepsPicture(s: State, q: Request, e: Foreign, c: Settings)
    requires Inv(s) && !Applied(s, q, e, c).1
    ensures var r := Applied(s, q, e, c).0;
            r == s.(embedded := r.embedded) <==> !(Commits(s, q, e, c) && AudioFails(s, q, e, c))
    ensures !c.sdi || !q.overlay || c.audioDisabled || c.audioOptional ==> !Commits(s, q, e, c)
  {
    if Commits(s, q, e, c) {
      assert e.blob !in s.live.blobs && Acquired(s, q, e).blob == e.blob;
      assert s.frame.blob != 0 ==> s.frame.blob in s.live.blobs;
    }
  }

  // ----- which modeset commits, and what it shows -----

  // Within what the output hardware can do.
  predicate WithinLimits(m: Mode, sdi: bool) {
    (sdi ==> m.sdi) && m.clock <= 594000 && m.refresh <= 60.5
  }

  // A listed mode the fallback may take.
  predicate Usable(m: Mode, sdi: bool) {
    WithinLimits(m, sdi) && 0 < m.width <= 3840 && 0 < m.height <= 2160 && m.refresh > 0.0 && !m.interlaced
  }

  // a is worse than b: smaller, or as large at a lower refresh rate.
  predicate Worse(a: Mode, b: Mode) {
    a.width * a.height < b.width * b.height || (a.width * a.height == b.width * b.height && a.refresh < b.refresh)
  }

  // Entry i of the list is usable, no usable one is better, and those before it are worse.
  ghost predicate FirstBestAt(modes: seq<Mode>, i: nat, sdi: bool)
    requires i < |modes|
  {
    && Usable(modes[i], sdi)
    && (forall k :: 0 <= k < |modes| && Usable(modes[k], sdi) ==> !Worse(modes[i], modes[k]))
    && (forall k :: 0 <= k < i && Usable(modes[k], sdi) ==> Worse(modes[k], modes[i]))
  }

  ghost predicate FirstBest(m: Mode, modes: seq<Mode>, sdi: bool) {
    exists i :: 0 <= i < |modes| && modes[i] == m && FirstBestAt(modes, i, sdi)
  }

  /** The mode a request gets: the exact match if that is within limits, otherwise the best
      usable listed one, the first of equals. */
  ghost predicate RightMode(m: Mode, e: Foreign, sdi: bool) {
    if e.exact.Some? && WithinLimits(e.exact.value, sdi) then m == e.exact.value else FirstBest(m, e.modes, sdi)
  }

  predicate RightSize(q: Request, sdi: bool) {
    && 0 < q.width <= 3840 && 0 < q.height <= 2160
    && (sdi ==> (q.width, q.height) in {(1920, 1080), (3840, 2160)} && 59.995 < q.fps < 60.005)
  }

  lemma BetterIsNotWorse(a: Mode, b: Mode, sdi: bool)
    ensures Better(a, b) <==> Worse(b, a)
    ensures Compatible(a, sdi) <==> Usable(a, sdi)
  {
  }

  // A new last entry is the first best one exactly if it is usable and all usable ones before are worse.
  lemma {:induction false} BestIsFirstBest(modes: seq<Mode>, sdi: bool)
    ensures match Best(modes, sdi)
            case None => forall k :: 0 <= k < |modes| ==> !Usable(modes[k], sdi)
            case Some(b) => FirstBest(b, modes, sdi)
  {
    if modes != [] {
      var n := |modes| - 1;
      var rest, last := modes[..n], modes[n];
      BestIsFirstBest(rest, sdi);
      BetterIsNotWorse(last, last, sdi);
      match Best(rest, sdi)
      case None =>
        if Usable(last, sdi) { assert FirstBestAt(modes, n, sdi); }
      case Some(b) =>
        var i :| 0 <= i < |rest| && rest[i] == b && FirstBestAt(rest, i, sdi);
        BetterIsNotWorse(last, b, sdi);
        AppendBest(modes, i, sdi);
    }
  }

  lemma AppendBest(modes: seq<Mode>, i: nat, sdi: bool)
    requires i < |modes| - 1 && FirstBestAt(modes[..|modes| - 1], i, sdi)
    ensures var n := |modes| - 1;
            if Usable(modes[n], sdi) && Worse(modes[i], modes[n]) then FirstBestAt(modes, n, sdi)
            else FirstBestAt(modes, i, sdi)
  {
    var n := |modes| - 1;
    var rest := modes[..n];
    assert forall k :: 0 <= k < n ==> rest[k] == modes[k];
    forall k | 0 <= k < n && Usable(modes[k], sdi) && Worse(modes[i], modes[n])
      ensures Worse(modes[k], modes[n]) && !Worse(modes[n], modes[k])
    {
      WorseChains(modes[k], modes[i], modes[n]);
    }
  }

  // What is not better than b is worse than what b is worse than.
  lemma WorseChains(a: Mode, b: Mode, c: Mode)
    requires !Worse(b, a) && Worse(b, c)
    ensures Worse(a, c) && !Worse(c, a)
  {
  }

  lemma FirstBestIsOne(modes: seq<Mode>, sdi: bool, a: Mode, b: Mode)
    requires FirstBest(a, modes, sdi) && FirstBest(b, modes, sdi)
    ensures a == b
  {
    var i :| 0 <= i < |modes| && modes[i] == a && FirstBestAt(modes, i, sdi);
    var j :| 0 <= j < |modes| && modes[j] == b && FirstBestAt(modes, j, sdi);
  }

  lemma ChosenExactly(q: Request, e: Foreign, sdi: bool, m: Mode)
    requires RightSize(q, sdi)
    ensures Chosen(q, e, sdi) == Some(m) <==> RightMode(m, e, sdi)
  {
    BestIsFirstBest(e.modes, sdi);
    if !UsableExact(e.exact, sdi) {
      match Best(e.modes, sdi)
      case None => NoFirstBest(e.modes, sdi, m);
      case Some(b) => if FirstBest(m, e.modes, sdi) { FirstBestIsOne(e.modes, sdi, m, b); }
    }
  }

  lemma NoFirstBest(modes: seq<Mode>, sdi: bool, m: Mode)
    requires forall k :: 0 <= k < |modes| ==> !Usable(modes[k], sdi)
    ensures !FirstBest(m, modes, sdi)
  {
  }

  // A modeset has exchanged the recorded resources.
  predicate Exchanges(s: State, q: Request, e: Foreign, c: Settings) { Applied(s, q, e, c).0.frame != s.frame }

  lemma ExchangesIfCommits(s: State, q: Request, e: Foreign, c: Settings)
    requires Inv(s)
    ensures Exchanges(s, q, e, c) <==> Commits(s, q, e, c)
  {
    if Commits(s, q, e, c) {
      assert e.blob !in s.live.blobs && Acquired(s, q, e).blob == e.blob;
      assert s.frame.blob != 0 ==> s.frame.blob in s.live.blobs;
    }
  }

  // The overlay rectangle: centred in the mode, with the proportions of the request.
  predicate RightRect(r: Letterbox.Rect, q: Request, m: Mode) {
    Letterbox.Centred(r, m.width, m.height) && Letterbox.Proportional(r.w, r.h, q.width, q.height, m.width, m.height)
  }

  /** Whenever a modeset exchanges the resources, the request was of a size the output can
      take and the recorded mode is the exact match if there is one within 594 MHz and
      60.5 Hz (and an SDI timing on SDI), otherwise a listed mode within the limits that no
      other such mode exceeds in area, then refresh rate; the display is lit, and a shown
      overlay is centred in that mode with the proportions of the request. */
  lemma CommitShowsRightMode(s: State, q: Request, e: Foreign, c: Settings)
    requires Inv(s)
    ensures Exchanges(s, q, e, c) ==>
              var r := Applied(s, q, e, c).0;
              && RightSize(q, c.sdi) && e.connected && RightMode(r.mode, e, c.sdi) && r.shown.lit
              && (s.plane && r.shown.overlay != 0 ==> r.shown.rect.Some? && RightRect(r.shown.rect.value, q, r.mode))
  {
    ExchangesIfCommits(s, q, e, c);
    PlannedIsRight(q, e, c.sdi);
  }

  lemma PlannedIsRight(q: Request, e: Foreign, sdi: bool)
    ensures match Planned(q, e, sdi)
            case None => true
            case Some(p) =>
              RightSize(q, sdi) && e.connected && RightMode(p.mode, e, sdi) && RightRect(p.rect, q, p.mode)
  {
    if Planned(q, e, sdi).Some? {
      var m := Chosen(q, e, sdi).value;
      ChosenExactly(q, e, sdi, m);
      Letterbox.RectFits(q.width, q.height, m.width, m.height);
    }
  }

  // Both sides of the rectangle reach two in this mode.
  predicate RoomFor(q: Request, m: Mode) {
    && m.width > 0 && m.height > 0
    && if q.width * m.height > q.height * m.width then m.width >= 2 && m.width * q.height >= 2 * q.width
       else m.height >= 2 && m.height * q.width >= 2 * q.height
  }

  // An identifier, zero or one that is in use being none.
  predicate New(ids: set<nat>, id: nat) { id != 0 && id !in ids }

  /** When a modeset exchanges the resources: exactly if the device is open, the size is one
      the output can take, the connector is connected, there is a right mode with room for
      the picture, the kernel grants the blob, the primary buffer and the request, the
      overlay plane has its source property, the embedder can be turned off, and the
      kernel accepts the commit. */
  lemma ExchangesExactly(s: State, q: Request, e: Foreign, c: Settings)
    requires Inv(s)
    ensures Exchanges(s, q, e, c) <==>
            && s.open && RightSize(q, c.sdi) && e.connected
            && (exists m :: RightMode(m, e, c.sdi) && RoomFor(q, m))
            && New(s.live.blobs, e.blob) && New(s.live.bos, e.primary.bo) && New(s.live.fbs, e.primary.fb)
            && e.request && (s.plane ==> e.source) && (c.sdi ==> e.disable == Obeyed) && e.commit
  {
    ExchangesIfCommits(s, q, e, c);
    PlannedExactly(q, e, c.sdi);
  }

  lemma PlannedExactly(q: Request, e: Foreign, sdi: bool)
    ensures Planned(q, e, sdi).Some? <==>
            RightSize(q, sdi) && e.connected && exists m :: RightMode(m, e, sdi) && RoomFor(q, m)
  {
    if Planned(q, e, sdi).Some? {
      PlannedIsRight(q, e, sdi);
      var m := Planned(q, e, sdi).value.mode;
      Letterbox.RectExists(q.width, q.height, m.width, m.height);
      assert RightMode(m, e, sdi) && RoomFor(q, m);
    }
    if RightSize(q, sdi) && e.connected && exists m :: RightMode(m, e, sdi) && RoomFor(q, m) {
      var m :| RightMode(m, e, sdi) && RoomFor(q, m);
      ChosenExactly(q, e, sdi, m);
      Letterbox.RectExists(q.width, q.height, m.width, m.height);
    }
  }

  // The overlay's identifiers are new beside those of the primary.
  predicate OverlayNew(l: Live, e: Foreign) {
    New(l.bos + {e.primary.bo}, e.overlay.bo) && New(l.fbs + {e.primary.fb}, e.overlay.fb)
  }

  /** After an exchange the overlay is on exactly if it was asked for and, on a context with an
      overlay plane, both its buffer and its framebuffer were granted; and if its switch
      obeys, the embedder is on exactly on SDI with the overlay on and audio not disabled. */
  lemma OverlayAndAudioExactly(s: State, q: Request, e: Foreign, c: Settings)
    requires Inv(s)
    ensures Exchanges(s, q, e, c) ==>
              var r := Applied(s, q, e, c).0;
              && (r.overlay <==> q.overlay && (s.plane ==> OverlayNew(s.live, e)))
              && (e.disable == Obeyed && e.enable == Obeyed && c.sdi ==>
                    (r.embedded <==> r.overlay && !c.audioDisabled))
  {
    ExchangesIfCommits(s, q, e, c);
  }

  /** A reset succeeds only with the output turned off and on again, and leaves it dark exactly
      if turning it on failed and so did the rollback; nothing else changes. */
  lemma ResetExactly(s: State, r: ResetForeign)
    ensures var (u, ok) := Reset(s, r);
            && u == s.(shown := s.shown.(lit := u.shown.lit))
            && (ok ==> u.shown.lit && r.properties && r.sameBlob && r.request && r.testOn && r.testOff && r.off && r.on)
            && (s.shown.lit && !u.shown.lit ==> r.off && !r.on && !r.rollback)
    ensures var (u, ok) := Reset(s, r);
            s.shown.lit && s.shown.source && s.mode.sdi && r.properties && r.sameBlob
            && s.shown.primary == s.frame.primary.fb != 0 && s.shown.overlay == s.frame.overlay.fb != 0
            && New(s.live.blobs, r.blob) && r.request && r.testOn && r.testOff ==>
              (ok <==> r.off && r.on) && (!u.shown.lit <==> r.off && !r.on && !r.rollback)
  {
  }

  const HD_MODE := Mode(1920, 1080, 148500, 60.0, false, true)
  const HD_REQUEST := Request(1920, 1080, 60.0, true)
  const SDI_ONLY := Settings(true, false, false)

  function HdForeign(n: nat, commit: bool, enable: Toggle): Foreign {
    Foreign(true, Some(HD_MODE), [HD_MODE], n, Dumb(n, n), Dumb(n + 1, n + 1), true, true, Obeyed, commit, enable)
  }

  /** A 1080p60 SDI request whose commit succeeds and whose call reports failure. */
  lemma FailureCanFollowCommit()
    ensures var r := Applied(Opened(true), HD_REQUEST, HdForeign(1, true, Failed(false)), SDI_ONLY);
            !r.1 && r.0.modeset && r.0.overlay && r.0.frame == Frame(Dumb(1, 1), Dumb(2, 2), 1)
  {
    Letterbox.RectExists(1920, 1080, 1920, 1080);
  }

  /** A commit refused over a running picture leaves the picture and silences it: the same
      request, first accepted with its audio embedded, then refused. */
  lemma RefusedCommitSilences()
    ensures var s := Applied(Opened(true), HD_REQUEST, HdForeign(1, true, Obeyed), SDI_ONLY);
            && s.1 && s.0.overlay && s.0.embedded && s.0.mode == HD_MODE
            && Applied(s.0, HD_REQUEST, HdForeign(3, false, Obeyed), SDI_ONLY) == (s.0.(embedded := false), false)
  {
    Letterbox.RectExists(1920, 1080, 1920, 1080);
  }

  /** Where the watchdog's conditions hold (a modeset with an active overlay), the
      framebuffer and source checks of the reset pass: only foreign answers can refuse it. */
  lemma ResetChecksPass(s: State, r: ResetForeign)
    requires Inv(s) && s.open && s.plane && s.modeset && s.overlay
    ensures ResetAllowed(s, r) <==>
              s.shown.lit && r.properties && r.sameBlob && s.mode.sdi && Granted(s.live.blobs, r.blob)
  {
  }

  // ----- the object -----

  // The loop over the connector's modes.
  method SearchBest(modes: seq<Mode>, sdi: bool) returns (best: Option<Mode>)
    ensures best == Best(modes, sdi)
  {
    var mode, found := NO_MODE, false;
    for i := 0 to |modes|
      invariant Best(modes[..i], sdi) == if found then Some(mode) else None
    {
      assert modes[..i + 1][..i] == modes[..i];
      var m := modes[i];
      if Compatible(m, sdi) && (!found || Better(m, mode)) {
        mode, found := m, true;
      }
    }
    assert modes[..|modes|] == modes;
    return if found then Some(mode) else None;
  }

  // Mode and rectangle, or a refusal before anything is acquired.
  method MakePlan(q: Request, e: Foreign, sdi: bool) returns (plan: Option<Plan>)
    ensures plan == Planned(q, e, sdi)
  {
    if q.width == 0 || q.height == 0 || q.width > 3840 || q.height > 2160 { return None; }
    if !e.connected { return None; }
    if sdi && !SdiRequest(q) { return None; }
    var chosen := e.exact;
    if !UsableExact(e.exact, sdi) { chosen := SearchBest(e.modes, sdi); }
    if chosen == None { return None; }
    var r := FitOverlay(q.width, q.height, chosen.value.width, chosen.value.height);
    if r == None { return None; }
    return Some(Plan(chosen.value, r.value));
  }

  // The second copy of the rectangle code.
  method FitOverlay(w: nat, h: nat, outW: Size, outH: Size) returns (r: Option<Letterbox.Rect>)
    requires 0 < w <= 3840 && 0 < h <= 2160
    ensures r == Letterbox.FitRect(w, h, outW, outH)
  {
    var rectW: nat, rectH: nat := outW, outH;
    if Letterbox.Wider(w, h, outW, outH) {
      rectH := outW * h / w % Letterbox.U32;
    } else {
      rectW := outH * w / h % Letterbox.U32;
    }
    rectW, rectH := Letterbox.Even(rectW), Letterbox.Even(rectH);
    assert rectW == Letterbox.Width(w, h, outW, outH) && rectH == Letterbox.Height(w, h, outW, outH);
    if outW == 0 || outH == 0 { Letterbox.NoOutput(w, h, outW, outH); }
    if rectW == 0 || rectH == 0 { return None; }
    return Some(Letterbox.Rect(Letterbox.Margin(outW, rectW), Letterbox.Margin(outH, rectH), rectW, rectH));
  }

  class Display {
    const plane: bool
    const settings: Settings
    var open: bool
    var frame: Frame
    var live: Live
    var shown: Scanout
    var modeset: bool
    var overlay: bool
    var mode: Mode
    var embedded: bool

    ghost function View(): State
      reads this
    {
      State(open, plane, frame, live, shown, modeset, overlay, mode, embedded)
    }

    constructor (plane: bool, settings: Settings)
      ensures View() == Opened(plane) && this.settings == settings
    {
      this.plane, this.settings := plane, settings;
      open, frame, live, shown := true, NO_FRAME, Live({}, {}, {}), DARK;
      modeset, overlay, mode, embedded := false, false, NO_MODE, false;
    }

    // A dumb buffer and its framebuffer; the buffer is given back if the framebuffer is refused.
    method CreateDumb(d: Dumb) returns (ok: bool, got: Dumb)
      modifies this`live
      ensures ok == DumbGranted(old(live), d)
      ensures ok ==> got == d && live == Plus(old(live), Frame(d, Dumb(0, 0), 0))
      ensures !ok ==> got == Dumb(0, 0) && live == old(live)
    {
      if !Granted(live.bos, d.bo) { return false, Dumb(0, 0); }
      ghost var before := live;
      live := live.(bos := live.bos + {d.bo});
      if !Granted(live.fbs, d.fb) {
        live := live.(bos := live.bos - {d.bo});
        assert live.bos == before.bos;
        return false, Dumb(0, 0);
      }
      live := live.(fbs := live.fbs + {d.fb});
      assert live == Plus(before, Frame(d, Dumb(0, 0), 0));
      return true, d;
    }

    method DestroyDumb(d: Dumb)
      modifies this`live, this`shown
      ensures live == Minus(old(live), Frame(d, Dumb(0, 0), 0))
      ensures shown == Without(old(shown), d.fb)
    {
      ghost var before := live;
      if d.fb != 0 {
        live := live.(fbs := live.fbs - {d.fb});
        shown := Without(shown, d.fb);
      }
      if d.bo != 0 {
        live := live.(bos := live.bos - {d.bo});
      }
      assert live == Minus(before, Frame(d, Dumb(0, 0), 0));
    }

    // The three releases that end every path, in the program's order.
    method Release(f: Frame)
      modifies this`live, this`shown
      ensures live == Minus(old(live), f)
      ensures shown == Without(Without(old(shown), f.primary.fb), f.overlay.fb)
    {
      ghost var before := live;
      DestroyDumb(f.primary);
      DestroyDumb(f.overlay);
      if f.blob != 0 { live := live.(blobs := live.blobs - {f.blob}); }
      assert live == Minus(before, f);
    }

    /** Blob, primary and overlay, or nothing at all. */
    method Acquire(q: Request, e: Foreign) returns (ok: bool, f: Frame, on: bool)
      modifies this`live
      ensures ok == AcquisitionSucceeds(old(View()), e)
      ensures ok ==>
                f == Acquired(old(View()), q, e) && live == Plus(old(live), f) && on == OverlayOn(old(View()), q, e)
      ensures !ok ==> live == old(live)
    {
      ghost var before := live;
      f, on := NO_FRAME, q.overlay;
      if !Granted(live.blobs, e.blob) { return false, f, on; }
      live := live.(blobs := live.blobs + {e.blob});
      var granted, primary := CreateDumb(e.primary);
      if !granted {
        live := live.(blobs := live.blobs - {e.blob});
        assert live == before;
        return false, f, on;
      }
      assert live == Plus(before, Frame(e.primary, Dumb(0, 0), e.blob));
      var over := Dumb(0, 0);
      if on && plane {
        on, over := CreateDumb(e.overlay);
      }
      f := Frame(primary, over, e.blob);
      assert live == Plus(before, f);
      return true, f, on;
    }

    // Commit the new frame, then give the old one back.
    method Swap(f: Frame, on: bool, p: Plan, ghost before: Live)
      requires before == Plus(Live({}, {}, {}), frame) && Disjoint(before, f)
      requires shown.overlay == frame.overlay.fb && (!plane ==> shown.overlay == 0)
      modifies this
      ensures View() == Swapped(old(View()), f, on, p)
    {
      CommitShows(plane, shown, before, frame, f, on, p.rect);
      shown := Shown(plane, shown, f, on, p.rect);
      Release(frame);
      frame := f;
      modeset, overlay, mode := true, on, p.mode;
    }

    // A failure after the acquisition.
    method Rollback(f: Frame, ghost before: Live)
      requires live == Plus(before, f) && Disjoint(before, f) && ShowsLive(shown, before)
      modifies this`live, this`shown
      ensures live == before && shown == old(shown)
    {
      MinusPlus(before, f);
      RollbackShows(shown, before, f);
      Release(f);
    }

    // Moves the embedder's switch, or tries to; outputs without one have nothing to move.
    method SetPassthrough(to: bool, t: Toggle) returns (ok: bool)
      modifies this`embedded
      ensures ok == (!settings.sdi || t.Obeyed?) && embedded == Switched(old(embedded), to, t, settings.sdi)
    {
      if !settings.sdi { return true; }
      embedded := if t.Obeyed? then to else t.left;
      return t.Obeyed?;
    }

    // Selecting an audio route; the route itself is not part of this context.
    method Reroute(t: Toggle)
      modifies this`embedded
      ensures View() == Rerouted(old(View()), t, settings)
    {
      var _ := SetPassthrough(false, t);
    }

    // The commit between the two moves of the embedder's switch; `s` is the state before the acquisition.
    method Commit(f: Frame, on: bool, plan: Plan, e: Foreign, ghost s: State) returns (ok: bool)
      requires Inv(s) && s.open && Disjoint(s.live, f) && View() == s.(live := Plus(s.live, f))
      modifies this
      ensures (View(), ok) == Committed(s, f, on, plan, e, settings)
    {
      ok := SetPassthrough(false, e.disable);
      if !ok || !e.commit {
        Rollback(f, s.live);
        return false;
      }
      Swap(f, on, plan, s.live);
      if settings.sdi && on && !settings.audioDisabled {
        ok := SetPassthrough(true, e.enable);
        if !ok && !settings.audioOptional { return false; }
      }
      return true;
    }

    // From the acquisition on.
    method Transact(q: Request, e: Foreign, plan: Plan) returns (ok: bool)
      requires Inv(View()) && open && Planned(q, e, settings.sdi) == Some(plan)
      modifies this
      ensures (View(), ok) == Applied(old(View()), q, e, settings)
    {
      ghost var s := View();
      var got, f, on := Acquire(q, e);
      if !got { return false; }
      AcquiredIsNew(s, q, e);
      if !e.request || (plane && !e.source) {
        Rollback(f, s.live);
        return false;
      }
      ok := Commit(f, on, plan, e, s);
    }

    /** One modeset. */
    method Apply(q: Request, e: Foreign) returns (ok: bool)
      requires Inv(View())
      modifies this
      ensures Inv(View())
      ensures (View(), ok) == Applied(old(View()), q, e, settings)
    {
      if !open { return false; }
      var plan := MakePlan(q, e, settings.sdi);
      if plan == None { return false; }
      AppliedKeepsLedger(View(), q, e, settings);
      AppliedKeepsFlags(View(), q, e, settings);
      ok := Transact(q, e, plan.value);
    }

    method Close(t: Toggle)
      requires Inv(View())
      modifies this
      ensures Inv(View())
      ensures View() == Closed(old(View()), t, settings)
    {
      ClosedKeepsInv(View(), t, settings);
      if !open { return; }
      var _ := SetPassthrough(false, t);
      Release(frame);
      frame := NO_FRAME;
      open, modeset := false, false;
    }

    /** The watchdog's reset: the blob it creates is given back on every path. */
    method Reinitialize(r: ResetForeign) returns (ok: bool)
      modifies this`live, this`shown
      ensures (View(), ok) == Reset(old(View()), r)
    {
      if !shown.lit || !r.properties || shown.primary != frame.primary.fb || shown.primary == 0
         || shown.overlay != frame.overlay.fb || shown.overlay == 0 || !shown.source {
        return false;
      }
      if !r.sameBlob || !mode.sdi { return false; }
      if !Granted(live.blobs, r.blob) { return false; }
      ghost var before := live;
      live := live.(blobs := live.blobs + {r.blob});
      ok := r.request && r.testOn && r.testOff;
      if ok {
        if r.off { shown := shown.(lit := false); }
        ok := r.off && r.on;
        if ok || r.rollback { shown := shown.(lit := true); }
      }
      live := live.(blobs := live.blobs - {r.blob});
      assert live == before;
    }
  }
}
