/** How the receiver admits packets to its asynchronously created decoder.

    Feeder threads, initialization threads and format observers share a few flags and
    one mutex. The model interleaves their steps: a step reads or writes at most one
    flag that is shared outside the mutex. A thread that cannot go on (the mutex is
    taken, the thread it joins still runs) takes a step that changes nothing. */
module DecoderAdmission {
  import opened Basics

  // What the decoder is configured from; [] and 0 stand for not known yet.
  datatype Config = Config(avcc: seq<Byte>, width: nat, height: nat) {
    predicate Complete() { avcc != [] && width != 0 && height != 0 }
  }

  // A packet on its way in, before its feeder holds the mutex.
  datatype Feeder = Feeder(phase: FeederPhase, key: bool, drop: bool)
  datatype FeederPhase = Arriving | Waiting

  /** Inside the mutex a feeder re-checks the initializing flag, then decides where its
      packet goes; a packet that starts an initialization passes through the last four. */
  datatype HolderPhase = Recheck | Route | Submit | Join | RaiseInitializing | RaiseWait | Spawn

  // An initialization thread; `Failing` and `Finishing` are its last two stores, and
  // `Leaving` is past them.
  datatype InitPhase = Preparing | WantLock | Starting | Failing | Finishing | Leaving | Exited

  datatype Lock = Free | Holder(id: nat, key: bool, phase: HolderPhase) | InitHolder(thread: nat)

  datatype Outcome = Pushed | PoolDropped | BadBuffer | PushFailed

  // A packet offered to a decoder, and whether the decoder took it.
  datatype Offer = Offer(key: bool, taken: bool)

  /** `waiting` is every packet that ever waited for configuration or a keyframe; the
      program's own counter, `noSps`, starts again when an initialization is scheduled. */
  datatype Counters = Counters(
    entered: nat, pushed: nat, dropped: nat, waiting: nat, triggers: nat,
    poolDropped: nat, pushFailed: nat, noSps: nat)

  /** `inits` are all initialization threads ever started, `handle` the one that is
      still joinable; `offers` lists, per decoder instance, what it was offered;
      `scheduled` is the configuration the latest initialization was scheduled with. */
  datatype State = State(
    lock: Lock, initializing: bool, waitForIdr: bool, started: bool,
    config: Config, scheduled: Config,
    feeders: map<nat, Feeder>, inits: seq<InitPhase>, handle: Option<nat>,
    offers: seq<seq<Offer>>, count: Counters, crashed: bool)

  const INITIAL := State(
    Free, false, false, false, Config([], 0, 0), Config([], 0, 0),
    map[], [], None, [], Counters(0, 0, 0, 0, 0, 0, 0, 0), false)

  datatype Event =
    | Arrive(id: nat, key: bool, drop: bool)   // a feeder enters with a packet
    | Feed(id: nat)                            // a feeder outside the mutex goes on
    | Hold(outcome: Outcome)                   // the feeder inside the mutex goes on
    | Init(thread: nat, ok: bool)              // an initialization thread goes on
    | Caps(config: Config)                     // the parser reports a format
    | Fallback(width: nat, height: nat)        // the session reports a format
    | Stop                                     // the decoder is stopped

  // ----- steps -----

  function Dropped(c: Counters): Counters { c.(dropped := c.dropped + 1) }

  function ArriveStep(s: State, e: Event): State
    requires e.Arrive?
  {
    if e.id in s.feeders || (s.lock.Holder? && s.lock.id == e.id) then s
    else s.(feeders := s.feeders[e.id := Feeder(Arriving, e.key, e.drop)],
            count := s.count.(entered := s.count.entered + 1))
  }

  // The first check of the flag, without the mutex; then waiting for the mutex.
  function FeedStep(s: State, e: Event): State
    requires e.Feed?
  {
    if e.id !in s.feeders then s
    else
      var f := s.feeders[e.id];
      match f.phase
      case Arriving =>
        if s.initializing then s.(feeders := s.feeders - {e.id}, count := Dropped(s.count))
        else s.(feeders := s.feeders[e.id := f.(phase := Waiting)])
      case Waiting =>
        if s.lock != Free then s
        else if f.drop then s.(feeders := s.feeders - {e.id}, count := Dropped(s.count))
        else s.(feeders := s.feeders - {e.id}, lock := Holder(e.id, f.key, Recheck))
  }

  function Goto(s: State, p: HolderPhase): State
    requires s.lock.Holder?
  {
    s.(lock := s.lock.(phase := p))
  }

  function RouteStep(s: State): State
    requires s.lock.Holder?
  {
    if s.started then
      if !s.waitForIdr then Goto(s, Submit)
      else if s.lock.key then Goto(s.(waitForIdr := false), Submit)
      else s.(lock := Free, count := Dropped(s.count))
    else if !s.config.Complete() || !s.lock.key then
      s.(lock := Free, count := s.count.(waiting := s.count.waiting + 1, noSps := s.count.noSps + 1))
    else Goto(s.(scheduled := s.config, count := s.count.(noSps := 0)), Join)
  }

  function Outcounted(c: Counters, o: Outcome): Counters {
    match o
    case Pushed => c.(pushed := c.pushed + 1)
    case PoolDropped => c.(dropped := c.dropped + 1, poolDropped := c.poolDropped + 1)
    case BadBuffer => c.(dropped := c.dropped + 1)
    case PushFailed => c.(dropped := c.dropped + 1, pushFailed := c.pushFailed + 1)
  }

  function WithOffer(offers: seq<seq<Offer>>, o: Offer): seq<seq<Offer>> {
    if offers == [] then [] else offers[|offers| - 1 := offers[|offers| - 1] + [o]]
  }

  function HoldStep(s: State, e: Event): State
    requires e.Hold?
  {
    if !s.lock.Holder? then s
    else
      match s.lock.phase
      case Recheck =>
        if s.initializing then s.(lock := Free, count := Dropped(s.count)) else Goto(s, Route)
      case Route => RouteStep(s)
      case Submit =>
        s.(lock := Free, offers := WithOffer(s.offers, Offer(s.lock.key, e.outcome == Pushed)),
           count := Outcounted(s.count, e.outcome))
      case Join =>
        if s.handle.None? then Goto(s, RaiseInitializing)
        else if s.handle.value < |s.inits| && s.inits[s.handle.value] == Exited then
          Goto(s.(handle := None), RaiseInitializing)
        else s
      case RaiseInitializing => Goto(s.(initializing := true), RaiseWait)
      case RaiseWait => Goto(s.(waitForIdr := true), Spawn)
      case Spawn =>
        // assigning to a joinable thread object would end the process
        s.(lock := Free, inits := s.inits + [Preparing], handle := Some(|s.inits|),
           crashed := s.crashed || s.handle.Some?,
           count := s.count.(triggers := s.count.triggers + 1))
  }

  function InitStep(s: State, e: Event): State
    requires e.Init?
  {
    if e.thread >= |s.inits| then s
    else
      match s.inits[e.thread]
      case Preparing => s.(inits := s.inits[e.thread := if e.ok then WantLock else Failing])
      case WantLock =>
        if s.lock != Free then s else s.(lock := InitHolder(e.thread), inits := s.inits[e.thread := Starting])
      case Starting =>
        if e.ok then s.(lock := Free, started := true,
                        offers := s.offers + [[]], inits := s.inits[e.thread := Finishing])
        else s.(lock := Free, inits := s.inits[e.thread := Failing])
      case Failing => s.(waitForIdr := false, inits := s.inits[e.thread := Finishing])
      case Finishing => s.(initializing := false, inits := s.inits[e.thread := Leaving])
      case Leaving => s.(inits := s.inits[e.thread := Exited])
      case Exited => s
  }

  // Runs inside the mutex, and reads the flag once.
  function CapsStep(s: State, e: Event): State
    requires e.Caps?
  {
    if s.lock != Free || !e.config.Complete() || s.started || s.initializing then s else s.(config := e.config)
  }

  function FallbackStep(s: State, e: Event): State
    requires e.Fallback?
  {
    if s.lock != Free || e.width == 0 || e.height == 0 || s.started then s
    else s.(config := s.config.(width := if s.config.width == 0 then e.width else s.config.width,
                                height := if s.config.height == 0 then e.height else s.config.height))
  }

  /** Stopping joins the initialization thread first and is called on the feeding thread
      or after feeding has ended, so no packet is under way. */
  function StopStep(s: State): State {
    if s.feeders != map[] || s.lock != Free then s
    else if s.handle.Some? && s.handle.value < |s.inits| && s.inits[s.handle.value] != Exited then s
    else s.(handle := None, started := false)
  }

  function Step(s: State, e: Event): State {
    match e
    case Arrive(_, _, _) => ArriveStep(s, e)
    case Feed(_) => FeedStep(s, e)
    case Hold(_) => HoldStep(s, e)
    case Init(_, _) => InitStep(s, e)
    case Caps(_) => CapsStep(s, e)
    case Fallback(_, _) => FallbackStep(s, e)
    case Stop => StopStep(s)
  }

  function Run(events: seq<Event>): State {
    if events == [] then INITIAL
    else Step(Run(events[..|events| - 1]), events[|events| - 1])
  }

  // ----- what every step keeps -----

  // Only the newest initialization thread can be alive, and it is the joinable one.
  ghost predicate ThreadInv(s: State) {
    && (forall i :: 0 <= i < |s.inits| && s.inits[i] != Exited ==> i == |s.inits| - 1)
    && (s.handle.Some? ==> |s.inits| > 0 && s.handle.value == |s.inits| - 1)
    && (s.handle.None? ==> Newest(s) == Exited)
    && (Alive(s) ==> s.initializing)
    && (s.initializing ==> Alive(s) || (s.lock.Holder? && s.lock.phase in {RaiseWait, Spawn}))
    && (s.lock.InitHolder? <==> Alive(s) && Newest(s) == Starting)
    && (s.lock.InitHolder? ==> s.lock.thread == |s.inits| - 1)
    && !s.crashed
  }

  // The newest thread still has a store to make.
  predicate Alive(s: State) { Newest(s) !in {Leaving, Exited} }

  function Newest(s: State): InitPhase { if |s.inits| > 0 then s.inits[|s.inits| - 1] else Exited }

  // What the feeder inside the mutex can rely on.
  ghost predicate HolderInv(s: State) {
    s.lock.Holder? ==>
      var p := s.lock.phase;
      && (p in {Route, Submit, Join, RaiseInitializing} ==> !s.initializing)
      && (p in {RaiseInitializing, RaiseWait, Spawn} ==> s.handle.None?)
      && (p in {RaiseWait, Spawn} ==> s.initializing)
      && (p == Spawn ==> s.waitForIdr)
      && (p == Submit ==> s.started && !s.waitForIdr)
      && (p in {Join, RaiseInitializing, RaiseWait, Spawn} ==>
          !s.started && s.config == s.scheduled && s.config.Complete())
  }

  ghost predicate KeyFirst(o: seq<Offer>) { o != [] ==> o[0].key }

  ghost predicate DecoderInv(s: State) {
    && (Newest(s) in {Preparing, WantLock, Starting} ==> s.waitForIdr && !s.started)
    && (Newest(s) == Failing ==> !s.started)
    && (s.started && s.initializing ==> s.waitForIdr)
    && (s.started ==> s.offers != [])
    && (s.started && s.waitForIdr ==> s.offers[|s.offers| - 1] == [])
    && (s.started && !s.waitForIdr && s.offers[|s.offers| - 1] == [] ==>
        s.lock.Holder? && s.lock.phase == Submit && s.lock.key)
    && (forall i :: 0 <= i < |s.offers| ==> KeyFirst(s.offers[i]))
  }

  ghost predicate ConfigInv(s: State) {
    s.initializing || s.started ==> s.config == s.scheduled && s.config.Complete()
  }

  // Every packet that entered is counted once, or is one of `inFlight` still under way.
  ghost predicate Balanced(c: Counters, inFlight: nat) {
    && c.entered == c.pushed + c.dropped + c.waiting + c.triggers + inFlight
    && c.dropped >= c.poolDropped + c.pushFailed && c.noSps <= c.waiting
  }

  function InFlight(s: State): nat { |s.feeders| + if s.lock.Holder? then 1 else 0 }

  ghost predicate CountInv(s: State) { Balanced(s.count, InFlight(s)) }

  ghost predicate FlagsInv(s: State) {
    ThreadInv(s) && HolderInv(s) && DecoderInv(s) && ConfigInv(s)
  }

  ghost predicate Inv(s: State) { FlagsInv(s) && CountInv(s) }

  // ----- the flags: feeders outside the mutex -----

  lemma ArriveKeepsFlags(s: State, e: Event)
    requires FlagsInv(s) && e.Arrive?
    ensures FlagsInv(Step(s, e))
  {
  }

  lemma FlagsIgnorePackets(s: State, feeders: map<nat, Feeder>, count: Counters)
    requires FlagsInv(s)
    ensures FlagsInv(s.(feeders := feeders, count := count))
  {
  }

  lemma EnterKeepsFlags(s: State, id: nat, key: bool)
    requires FlagsInv(s) && s.lock == Free
    ensures FlagsInv(s.(lock := Holder(id, key, Recheck)))
  {
  }

  lemma FeedKeepsFlags(s: State, e: Event)
    requires FlagsInv(s) && e.Feed?
    ensures FlagsInv(Step(s, e))
  {
    var u := FeedStep(s, e);
    if u.lock == s.lock {
      FlagsIgnorePackets(s, u.feeders, u.count);
      assert u == s.(feeders := u.feeders, count := u.count);
    } else {
      EnterKeepsFlags(s, u.lock.id, u.lock.key);
      FlagsIgnorePackets(s.(lock := u.lock), u.feeders, u.count);
    }
  }

  // ----- the flags: the feeder inside the mutex -----

  lemma RouteKeepsFlags(s: State, e: Event)
    requires FlagsInv(s) && e.Hold? && s.lock.Holder? && s.lock.phase in {Recheck, Route}
    ensures FlagsInv(Step(s, e))
  {
  }

  lemma OfferKeepsKeyFirst(offers: seq<seq<Offer>>, o: Offer)
    requires forall i :: 0 <= i < |offers| ==> KeyFirst(offers[i])
    requires offers != [] && (offers[|offers| - 1] == [] ==> o.key)
    ensures var w := WithOffer(offers, o);
            |w| == |offers| && w[|w| - 1] != [] && forall i :: 0 <= i < |w| ==> KeyFirst(w[i])
  {
  }

  lemma SubmitKeepsFlags(s: State, e: Event)
    requires FlagsInv(s) && e.Hold? && s.lock.Holder? && s.lock.phase == Submit
    ensures FlagsInv(Step(s, e))
  {
    OfferKeepsKeyFirst(s.offers, Offer(s.lock.key, e.outcome == Pushed));
  }

  lemma RaiseKeepsFlags(s: State, e: Event)
    requires FlagsInv(s) && e.Hold? && s.lock.Holder? && s.lock.phase in {Join, RaiseInitializing, RaiseWait}
    ensures FlagsInv(Step(s, e))
  {
  }

  lemma SpawnKeepsFlags(s: State, e: Event)
    requires FlagsInv(s) && e.Hold? && s.lock.Holder? && s.lock.phase == Spawn
    ensures FlagsInv(Step(s, e))
  {
    var u := Step(s, e);
    assert !Alive(s);
    assert forall i :: 0 <= i < |s.inits| ==> u.inits[i] == s.inits[i];
  }

  lemma HoldKeepsFlags(s: State, e: Event)
    requires FlagsInv(s) && e.Hold?
    ensures FlagsInv(Step(s, e))
  {
    if s.lock.Holder? {
      match s.lock.phase
      case Recheck => RouteKeepsFlags(s, e);
      case Route => RouteKeepsFlags(s, e);
      case Submit => SubmitKeepsFlags(s, e);
      case Join => RaiseKeepsFlags(s, e);
      case RaiseInitializing => RaiseKeepsFlags(s, e);
      case RaiseWait => RaiseKeepsFlags(s, e);
      case Spawn => SpawnKeepsFlags(s, e);
    }
  }

  // ----- the flags: initialization threads -----

  // A thread that does anything is the newest one.
  lemma InitKeepsThreads(s: State, e: Event)
    requires FlagsInv(s) && e.Init?
    ensures ThreadInv(Step(s, e))
  {
  }

  lemma InitKeepsDecoder(s: State, e: Event)
    requires FlagsInv(s) && e.Init?
    ensures HolderInv(Step(s, e)) && DecoderInv(Step(s, e)) && ConfigInv(Step(s, e))
  {
    if e.thread < |s.inits| && s.inits[e.thread] != Exited {
      assert e.thread == |s.inits| - 1;
    }
  }

  // ----- the flags: formats and stopping -----

  lemma ConfigKeepsFlags(s: State, e: Event)
    requires FlagsInv(s) && (e.Caps? || e.Fallback? || e.Stop?)
    ensures FlagsInv(Step(s, e))
  {
  }

  // ----- the counters -----

  lemma RemoveOne(m: map<nat, Feeder>, id: nat)
    requires id in m
    ensures |m - {id}| == |m| - 1
  {
    assert (m - {id}).Keys == m.Keys - {id};
  }

  lemma ArriveKeepsCount(s: State, e: Event)
    requires CountInv(s) && e.Arrive?
    ensures CountInv(Step(s, e))
  {
  }

  lemma ArrivingKeepsCount(s: State, e: Event)
    requires CountInv(s) && e.Feed? && e.id in s.feeders && s.feeders[e.id].phase == Arriving
    ensures CountInv(FeedStep(s, e))
  {
    RemoveOne(s.feeders, e.id);
    assert s.feeders[e.id := s.feeders[e.id].(phase := Waiting)].Keys == s.feeders.Keys;
  }

  lemma WaitingKeepsCount(s: State, e: Event)
    requires CountInv(s) && e.Feed? && e.id in s.feeders && s.feeders[e.id].phase == Waiting
    ensures CountInv(FeedStep(s, e))
  {
    RemoveOne(s.feeders, e.id);
  }

  lemma FeedKeepsCount(s: State, e: Event)
    requires CountInv(s) && e.Feed?
    ensures CountInv(FeedStep(s, e))
  {
    if e.id in s.feeders {
      if s.feeders[e.id].phase == Arriving { ArrivingKeepsCount(s, e); } else { WaitingKeepsCount(s, e); }
    }
  }

  lemma OutcomeBalanced(c: Counters, n: nat, o: Outcome)
    requires Balanced(c, n + 1)
    ensures Balanced(Outcounted(c, o), n)
  {
  }

  lemma RouteKeepsCount(s: State)
    requires CountInv(s) && s.lock.Holder?
    ensures CountInv(RouteStep(s))
  {
  }

  lemma LeaveKeepsCount(s: State, e: Event)
    requires CountInv(s) && e.Hold? && s.lock.Holder? && s.lock.phase in {Recheck, Submit, Spawn}
    ensures CountInv(HoldStep(s, e))
  {
    OutcomeBalanced(s.count, |s.feeders|, e.outcome);
  }

  lemma HoldKeepsCount(s: State, e: Event)
    requires CountInv(s) && e.Hold?
    ensures CountInv(HoldStep(s, e))
  {
    if s.lock.Holder? {
      if s.lock.phase == Route { RouteKeepsCount(s); }
      else if s.lock.phase in {Recheck, Submit, Spawn} { LeaveKeepsCount(s, e); }
      else { ScheduleKeepsCount(s, e); }
    }
  }

  lemma ScheduleKeepsCount(s: State, e: Event)
    requires CountInv(s) && e.Hold? && s.lock.Holder? && s.lock.phase in {Join, RaiseInitializing, RaiseWait}
    ensures CountInv(HoldStep(s, e))
  {
    var u := HoldStep(s, e);
    assert u.count == s.count && u.feeders == s.feeders && u.lock.Holder?;
  }

  lemma InitMovesNoPacket(s: State, e: Event)
    requires ThreadInv(s) && e.Init?
    ensures var u := InitStep(s, e);
            u.count == s.count && u.feeders == s.feeders && (u.lock.Holder? <==> s.lock.Holder?)
  {
  }

  lemma InitKeepsCount(s: State, e: Event)
    requires CountInv(s) && ThreadInv(s) && e.Init?
    ensures CountInv(Step(s, e))
  {
    InitMovesNoPacket(s, e);
  }

  lemma ConfigKeepsCount(s: State, e: Event)
    requires CountInv(s) && (e.Caps? || e.Fallback? || e.Stop?)
    ensures CountInv(Step(s, e))
  {
  }

  // ----- whole runs -----

  lemma StepKeepsInv(s: State, e: Event)
    requires Inv(s)
    ensures Inv(Step(s, e))
  {
    match e
    case Arrive(_, _, _) => ArriveKeepsFlags(s, e); ArriveKeepsCount(s, e);
    case Feed(_) => FeedKeepsFlags(s, e); FeedKeepsCount(s, e);
    case Hold(_) => HoldKeepsFlags(s, e); HoldKeepsCount(s, e);
    case Init(_, _) => InitKeepsThreads(s, e); InitKeepsDecoder(s, e); InitKeepsCount(s, e);
    case Caps(_) => ConfigKeepsFlags(s, e); ConfigKeepsCount(s, e);
    case Fallback(_, _) => ConfigKeepsFlags(s, e); ConfigKeepsCount(s, e);
    case Stop => ConfigKeepsFlags(s, e); ConfigKeepsCount(s, e);
  }

  lemma {:induction false} RunKeepsInv(events: seq<Event>)
    ensures Inv(Run(events))
  {
    if events != [] {
      RunKeepsInv(events[..|events| - 1]);
      StepKeepsInv(Run(events[..|events| - 1]), events[|events| - 1]);
    }
  }

  /** At most one initialization is in flight, whatever the interleaving; the flag is
      up until its last store; and the thread object is never overwritten while joinable. */
  lemma {:induction false} OneInitialization(events: seq<Event>)
    ensures var s := Run(events);
            && (forall i, j | 0 <= i < |s.inits| && 0 <= j < |s.inits| ::
                  s.inits[i] != Exited && s.inits[j] != Exited ==> i == j)
            && (forall i :: 0 <= i < |s.inits| && s.inits[i] != Exited ==> s.handle == Some(i))
            && (forall i :: 0 <= i < |s.inits| && s.inits[i] !in {Leaving, Exited} ==> s.initializing)
            && !s.crashed
  {
    RunKeepsInv(events);
    OneThread(Run(events));
  }

  lemma OneThread(s: State)
    requires ThreadInv(s)
    ensures forall i, j | 0 <= i < |s.inits| && 0 <= j < |s.inits| ::
              s.inits[i] != Exited && s.inits[j] != Exited ==> i == j
    ensures forall i :: 0 <= i < |s.inits| && s.inits[i] != Exited ==> s.handle == Some(i)
    ensures forall i :: 0 <= i < |s.inits| && s.inits[i] !in {Leaving, Exited} ==> s.initializing
  {
  }

  /** The join done inside the mutex never waits for a thread that could need it: every
      thread is past its last store, the joined one can leave whatever the others do, and
      once it has left the joining feeder goes on. */
  lemma {:induction false} JoinNeverWaits(events: seq<Event>, o: Outcome, ok: bool)
    requires var s := Run(events); s.lock.Holder? && s.lock.phase == Join
    ensures var s := Run(events);
            && (forall i :: 0 <= i < |s.inits| ==> s.inits[i] in {Leaving, Exited})
            && var t := if s.handle.Some? then Step(s, Init(s.handle.value, ok)) else s;
               && (forall i :: 0 <= i < |t.inits| ==> t.inits[i] == Exited)
               && Step(t, Hold(o)) == t.(lock := s.lock.(phase := RaiseInitializing), handle := None)
  {
    RunKeepsInv(events);
    JoinStep(Run(events), o, ok);
  }

  lemma JoinStep(s: State, o: Outcome, ok: bool)
    requires ThreadInv(s) && HolderInv(s) && s.lock.Holder? && s.lock.phase == Join
    ensures forall i :: 0 <= i < |s.inits| ==> s.inits[i] in {Leaving, Exited}
    ensures var t := if s.handle.Some? then Step(s, Init(s.handle.value, ok)) else s;
            && (forall i :: 0 <= i < |t.inits| ==> t.inits[i] == Exited)
            && Step(t, Hold(o)) == t.(lock := s.lock.(phase := RaiseInitializing), handle := None)
  {
    assert !Alive(s);
  }

  /** No decoder instance is offered a packet before it was offered a keyframe. */
  lemma {:induction false} KeyframeOfferedFirst(events: seq<Event>)
    ensures forall i :: 0 <= i < |Run(events).offers| ==> KeyFirst(Run(events).offers[i])
  {
    RunKeepsInv(events);
  }

  /** From the moment an initialization is scheduled until its decoder fails or stops,
      no step changes the avcC, the width or the height it was scheduled with. */
  lemma {:induction false} ConfigFrozen(events: seq<Event>, e: Event)
    requires Run(events).initializing || Run(events).started
    ensures var s := Run(events); s.config == s.scheduled && s.config.Complete()
    ensures Step(Run(events), e).config == Run(events).config
  {
    RunKeepsInv(events);
  }

  /** Packet conservation: every packet that entered is counted exactly once -- pushed,
      dropped, waiting for configuration or a keyframe, or the trigger of an
      initialization -- or is still under way; and pool and push failures are among
      the drops. */
  lemma {:induction false} PacketsConserved(events: seq<Event>)
    ensures var s := Run(events);
            Balanced(s.count, |s.feeders| + if s.lock.Holder? then 1 else 0)
  {
    RunKeepsInv(events);
  }

  // ----- what becomes of the packets -----

  /** What an event means for a packet: it enters, it is turned away with the flag up, for its
      drop mark or at a closed gate, it finds no decoder, it is offered to one, or it starts
      an initialization; or nothing is decided yet. */
  datatype Fate =
    Nothing | Entering | FlagUp | DropMark | GateClosed | NoDecoder | Offered(outcome: Outcome) | Trigger

  function FeedFate(s: State, e: Event): Fate
    requires e.Feed?
  {
    if e.id !in s.feeders then Nothing
    else if s.feeders[e.id].phase == Arriving then if s.initializing then FlagUp else Nothing
    else if s.lock == Free && s.feeders[e.id].drop then DropMark else Nothing
  }

  function HoldFate(s: State, e: Event): Fate
    requires e.Hold? && s.lock.Holder?
  {
    match s.lock.phase
    case Recheck => if s.initializing then FlagUp else Nothing
    case Route =>
      if s.started then if s.waitForIdr && !s.lock.key then GateClosed else Nothing
      else if s.lock.key && s.config.avcc != [] && s.config.width > 0 && s.config.height > 0 then Nothing
      else NoDecoder
    case Submit => Offered(e.outcome)
    case Spawn => Trigger
    case _ => Nothing
  }

  function FateOf(s: State, e: Event): Fate {
    match e
    case Arrive(id, _, _) =>
      if id in s.feeders || (s.lock.Holder? && s.lock.id == id) then Nothing else Entering
    case Feed(_) => FeedFate(s, e)
    case Hold(_) => if s.lock.Holder? then HoldFate(s, e) else Nothing
    case _ => Nothing
  }

  // How many events of a run have that meaning.
  function Count(events: seq<Event>, f: Fate): nat {
    if events == [] then 0
    else
      var before := events[..|events| - 1];
      Count(before, f) + if FateOf(Run(before), events[|events| - 1]) == f then 1 else 0
  }

  predicate NotTaken(f: Fate) { f.Offered? && f != Offered(Pushed) }

  // The counters after one event with that meaning, but for noSps.
  predicate CountedAs(c: Counters, u: Counters, f: Fate) {
    && u.entered == c.entered + (if f == Entering then 1 else 0)
    && u.pushed == c.pushed + (if f == Offered(Pushed) then 1 else 0)
    && u.dropped == c.dropped + (if f in {FlagUp, DropMark, GateClosed} || NotTaken(f) then 1 else 0)
    && u.poolDropped == c.poolDropped + (if f == Offered(PoolDropped) then 1 else 0)
    && u.pushFailed == c.pushFailed + (if f == Offered(PushFailed) then 1 else 0)
    && u.waiting == c.waiting + (if f == NoDecoder then 1 else 0)
    && u.triggers == c.triggers + (if f == Trigger then 1 else 0)
  }

  lemma StepCounts(s: State, e: Event)
    ensures CountedAs(s.count, Step(s, e).count, FateOf(s, e))
  {
    if e.Hold? && s.lock.Holder? { HoldCounts(s, e); }
  }

  lemma HoldCounts(s: State, e: Event)
    requires e.Hold? && s.lock.Holder?
    ensures CountedAs(s.count, HoldStep(s, e).count, HoldFate(s, e))
  {
    match s.lock.phase
    case Submit => SubmitCounts(s, e);
    case Route => RouteCounts(s, e);
    case _ =>
  }

  lemma SubmitCounts(s: State, e: Event)
    requires e.Hold? && s.lock.Holder? && s.lock.phase == Submit
    ensures CountedAs(s.count, HoldStep(s, e).count, HoldFate(s, e))
  {
    assert HoldStep(s, e).count == Outcounted(s.count, e.outcome);
  }

  lemma RouteCounts(s: State, e: Event)
    requires e.Hold? && s.lock.Holder? && s.lock.phase == Route
    ensures CountedAs(s.count, HoldStep(s, e).count, HoldFate(s, e))
  {
    assert s.config.Complete() <==> s.config.avcc != [] && s.config.width > 0 && s.config.height > 0;
  }

  /** Which counter a packet goes to. After every run: `pushed` are the offers the decoder
      took; a drop is a packet turned away with the flag up, for its mark or at a closed
      gate, or an offer that was not taken, and pool drops and push failures are those with
      that outcome; `waiting` are the packets that found no decoder and could not start
      one; and `triggers` those that did. */
  lemma {:induction false} CountersFromFates(events: seq<Event>)
    ensures var c := Run(events).count;
            && c.entered == Count(events, Entering)
            && c.pushed == Count(events, Offered(Pushed))
            && c.dropped == Count(events, FlagUp) + Count(events, DropMark) + Count(events, GateClosed)
                 + Count(events, Offered(PoolDropped)) + Count(events, Offered(BadBuffer))
                 + Count(events, Offered(PushFailed))
            && c.poolDropped == Count(events, Offered(PoolDropped))
            && c.pushFailed == Count(events, Offered(PushFailed))
            && c.waiting == Count(events, NoDecoder)
            && c.triggers == Count(events, Trigger)
  {
    if events != [] {
      var before, e := events[..|events| - 1], events[|events| - 1];
      CountersFromFates(before);
      StepCounts(Run(before), e);
    }
  }

  // The offers that were taken, over all decoder instances.
  function Taken(offers: seq<seq<Offer>>): nat {
    if offers == [] then 0 else Taken(offers[..|offers| - 1]) + |TakenOf(offers[|offers| - 1])|
  }

  lemma {:induction false} TakenWithOffer(offers: seq<seq<Offer>>, x: Offer)
    requires offers != []
    ensures Taken(WithOffer(offers, x)) == Taken(offers) + if x.taken then 1 else 0
  {
    var n := |offers| - 1;
    var w := WithOffer(offers, x);
    assert w[..n] == offers[..n];
    TakenSnoc(offers[n], x);
  }

  lemma {:induction false} TakenWithInstance(offers: seq<seq<Offer>>)
    ensures Taken(offers + [[]]) == Taken(offers)
  {
    assert (offers + [[]])[..|offers|] == offers;
    assert TakenOf([]) == [];
  }

  // What one event does to the offers and the threads.
  lemma StepOffers(s: State, e: Event)
    requires FlagsInv(s)
    ensures Taken(Step(s, e).offers) == Taken(s.offers) + (if FateOf(s, e) == Offered(Pushed) then 1 else 0)
    ensures |Step(s, e).inits| == |s.inits| + (if FateOf(s, e) == Trigger then 1 else 0)
  {
    match e {
      case Hold(_) => if s.lock.Holder? { HoldOffers(s, e); }
      case Init(_, _) => InitOffers(s, e);
      case _ => OthersOffer(s, e);
    }
  }

  lemma HoldOffers(s: State, e: Event)
    requires FlagsInv(s) && e.Hold? && s.lock.Holder?
    ensures Taken(HoldStep(s, e).offers) == Taken(s.offers) + (if HoldFate(s, e) == Offered(Pushed) then 1 else 0)
    ensures |HoldStep(s, e).inits| == |s.inits| + (if HoldFate(s, e) == Trigger then 1 else 0)
  {
    if s.lock.phase == Submit {
      TakenWithOffer(s.offers, Offer(s.lock.key, e.outcome == Pushed));
    } else {
      assert HoldStep(s, e).offers == s.offers;
    }
  }

  lemma InitOffers(s: State, e: Event)
    requires e.Init?
    ensures Taken(InitStep(s, e).offers) == Taken(s.offers) && |InitStep(s, e).inits| == |s.inits|
  {
    TakenWithInstance(s.offers);
    if e.thread < |s.inits| && s.inits[e.thread] == Starting { StartingOffers(s, e); } else { NotStartingOffers(s, e); }
  }

  lemma StartingOffers(s: State, e: Event)
    requires e.Init? && e.thread < |s.inits| && s.inits[e.thread] == Starting
    ensures var u := InitStep(s, e); |u.inits| == |s.inits| && u.offers in {s.offers, s.offers + [[]]}
  {
  }

  lemma NotStartingOffers(s: State, e: Event)
    requires e.Init? && !(e.thread < |s.inits| && s.inits[e.thread] == Starting)
    ensures var u := InitStep(s, e); |u.inits| == |s.inits| && u.offers == s.offers
  {
  }

  lemma OthersOffer(s: State, e: Event)
    requires !e.Hold? && !e.Init?
    ensures Step(s, e).offers == s.offers && Step(s, e).inits == s.inits && FateOf(s, e) !in {Trigger, Offered(Pushed)}
  {
  }

  /** The pushed packets are the offers that decoders took, over all instances; and there is
      one initialization thread for every trigger. */
  lemma {:induction false} PushedAreTaken(events: seq<Event>)
    ensures var s := Run(events); s.count.pushed == Taken(s.offers) && s.count.triggers == |s.inits|
  {
    if events != [] {
      var before, e := events[..|events| - 1], events[|events| - 1];
      PushedAreTaken(before);
      RunKeepsInv(before);
      StepCounts(Run(before), e);
      StepOffers(Run(before), e);
    }
  }

  // Packets that found no decoder since an initialization was last scheduled.
  function SinceScheduled(events: seq<Event>): nat {
    if events == [] then 0
    else
      var before, e := events[..|events| - 1], events[|events| - 1];
      if Schedules(Run(before), e) then 0
      else SinceScheduled(before) + if FateOf(Run(before), e) == NoDecoder then 1 else 0
  }

  predicate Schedules(s: State, e: Event) {
    e.Hold? && s.lock.Holder? && s.lock.phase == Route && !s.started && HoldFate(s, e) == Nothing
  }

  /** The program's own waiting counter counts those. */
  lemma {:induction false} WaitingSinceScheduled(events: seq<Event>)
    ensures Run(events).count.noSps == SinceScheduled(events)
  {
    if events != [] {
      var before, e := events[..|events| - 1], events[|events| - 1];
      WaitingSinceScheduled(before);
      NoSpsStep(Run(before), e);
    }
  }

  lemma NoSpsStep(s: State, e: Event)
    ensures Step(s, e).count.noSps ==
            if Schedules(s, e) then 0 else s.count.noSps + if FateOf(s, e) == NoDecoder then 1 else 0
  {
    if e.Hold? && s.lock.Holder? {
      if s.lock.phase == Route { NoSpsAtRoute(s); } else { NoSpsElsewhere(s, e); }
    }
  }

  lemma NoSpsAtRoute(s: State)
    requires s.lock.Holder? && s.lock.phase == Route
    ensures var e := Hold(Pushed);
            RouteStep(s).count.noSps ==
            if Schedules(s, e) then 0 else s.count.noSps + if HoldFate(s, e) == NoDecoder then 1 else 0
  {
    assert s.config.Complete() <==> s.config.avcc != [] && s.config.width > 0 && s.config.height > 0;
  }

  lemma NoSpsElsewhere(s: State, e: Event)
    requires e.Hold? && s.lock.Holder? && s.lock.phase != Route
    ensures HoldStep(s, e).count.noSps == s.count.noSps && HoldFate(s, e) != NoDecoder
  {
  }

  // ----- where the format comes from -----

  // The whole format is one that the parser reported.
  ghost predicate Reported(events: seq<Event>, c: Config) {
    exists k :: 0 <= k < |events| && events[k] == Caps(c)
  }

  lemma ReportedBefore(events: seq<Event>, c: Config)
    requires events != [] && Reported(events[..|events| - 1], c)
    ensures Reported(events, c)
  {
    var k :| 0 <= k < |events| - 1 && events[..|events| - 1][k] == Caps(c);
    assert events[k] == Caps(c);
  }

  lemma FormatStep(s: State, e: Event)
    requires s.config.avcc != [] ==> s.config.Complete()
    ensures var u := Step(s, e).config;
            && (u.avcc != [] ==> u.Complete())
            && (u.avcc != [] ==> u == s.config || e == Caps(u))
  {
    if !e.Caps? && !e.Fallback? { FormatKept(s, e); }
  }

  lemma FormatKept(s: State, e: Event)
    requires !e.Caps? && !e.Fallback?
    ensures Step(s, e).config == s.config
  {
    if e.Hold? && s.lock.Holder? { HoldKeepsFormat(s, e); }
    if e.Init? { InitKeepsFormat(s, e); }
  }

  lemma HoldKeepsFormat(s: State, e: Event)
    requires e.Hold? && s.lock.Holder?
    ensures HoldStep(s, e).config == s.config
  {
  }

  lemma InitKeepsFormat(s: State, e: Event)
    requires e.Init?
    ensures InitStep(s, e).config == s.config
  {
  }

  /** Once there is an avcC, the format is complete and, width, height and avcC together, one
      that the parser reported; a decoder is never configured from any other. */
  lemma {:induction false} FormatWasReported(events: seq<Event>)
    ensures var s := Run(events);
            && (s.config.avcc != [] ==> s.config.Complete() && Reported(events, s.config))
            && (s.initializing || s.started ==> Reported(events, s.scheduled))
  {
    RunKeepsInv(events);
    FormatSeen(events);
  }

  lemma {:induction false} FormatSeen(events: seq<Event>)
    ensures var c := Run(events).config; c.avcc != [] ==> c.Complete() && Reported(events, c)
  {
    if events != [] {
      var before, e := events[..|events| - 1], events[|events| - 1];
      FormatSeen(before);
      FormatStep(Run(before), e);
      var c := Run(events).config;
      if c.avcc != [] && c == Run(before).config { ReportedBefore(events, c); }
      if e == Caps(c) { assert events[|events| - 1] == Caps(c); }
    }
  }

  /** A complete format reported while nobody holds the mutex, no initialization is under way
      and no decoder runs is the one used from then on; a session's format only fills in
      what is not known yet. */
  lemma LatestFormatIsUsed(s: State, c: Config, width: nat, height: nat)
    requires s.lock == Free && !s.started && width > 0 && height > 0
    ensures c.Complete() && !s.initializing ==> Step(s, Caps(c)) == s.(config := c)
    ensures var u := Step(s, Fallback(width, height)).config;
            && u.avcc == s.config.avcc
            && u.width == (if s.config.width > 0 then s.config.width else width)
            && u.height == (if s.config.height > 0 then s.config.height else height)
  {
  }

  /** A failed initialization takes down both flags and leaves no decoder, so that a keyframe
      can start the next one. */
  lemma {:induction false} FailedInitReopens(events: seq<Event>)
    requires Newest(Run(events)) == Failing
    ensures var s := Run(events);
            var u := Step(Step(s, Init(|s.inits| - 1, false)), Init(|s.inits| - 1, false));
            !u.initializing && !u.waitForIdr && !u.started && u.config == s.config
  {
    RunKeepsInv(events);
    FailureReopens(Run(events));
  }

  /** A stop with no packet and no thread under way ends the decoder. */
  lemma {:induction false} StopEnds(events: seq<Event>)
    ensures StopWorks(Run(events))
  {
    RunKeepsThreads(events);
    StopReopens(Run(events));
  }

  ghost predicate StopWorks(s: State) {
    s.feeders == map[] && s.lock == Free && Newest(s) == Exited ==>
      !Step(s, Stop).started && Step(s, Stop).handle.None? && !Step(s, Stop).initializing
  }

  lemma {:induction false} RunKeepsThreads(events: seq<Event>)
    ensures ThreadInv(Run(events))
  {
    RunKeepsInv(events);
  }

  lemma FailureReopens(s: State)
    requires Newest(s) == Failing && DecoderInv(s)
    ensures var u := Step(Step(s, Init(|s.inits| - 1, false)), Init(|s.inits| - 1, false));
            !u.initializing && !u.waitForIdr && !u.started && u.config == s.config
  {
    var n := |s.inits| - 1;
    var t := InitStep(s, Init(n, false));
    assert t == s.(waitForIdr := false, inits := s.inits[n := Finishing]);
    assert t.inits[n] == Finishing;
  }

  lemma StopReopens(s: State)
    requires ThreadInv(s)
    ensures StopWorks(s)
  {
  }

  // ----- what is not guaranteed -----

  // The packets an instance took, in order.
  function TakenOf(o: seq<Offer>): seq<Offer> {
    if o == [] then [] else TakenOf(o[..|o| - 1]) + if o[|o| - 1].taken then [o[|o| - 1]] else []
  }

  lemma {:induction false} FirstTaken(o: seq<Offer>)
    requires o != [] && o[0].taken
    ensures TakenOf(o) != [] && TakenOf(o)[0] == o[0]
  {
    if |o| > 1 { FirstTaken(o[..|o| - 1]); }
    else { assert TakenOf(o[..0]) == []; }
  }

  /** The keyframe that opens the gate may itself be lost in the packet pool. If it is
      taken, the first packet the decoder takes is a keyframe ... */
  lemma {:induction false} KeyframeTakenFirst(events: seq<Event>, i: nat)
    requires i < |Run(events).offers| && Run(events).offers[i] != [] && Run(events).offers[i][0].taken
    ensures var t := TakenOf(Run(events).offers[i]); t != [] && t[0].key
  {
    KeyframeOfferedFirst(events);
    assert KeyFirst(Run(events).offers[i]);
    FirstTaken(Run(events).offers[i]);
  }

  function RunFrom(s: State, events: seq<Event>): State
    decreases |events|
  {
    if events == [] then s else RunFrom(Step(s, events[0]), events[1..])
  }

  lemma {:induction false} RunFromConcat(s: State, a: seq<Event>, b: seq<Event>)
    ensures RunFrom(s, a + b) == RunFrom(RunFrom(s, a), b)
    decreases |a|
  {
    if a == [] {
      assert a + b == b;
    } else {
      assert (a + b)[1..] == a[1..] + b;
      RunFromConcat(Step(s, a[0]), a[1..], b);
    }
  }

  lemma {:induction false} RunIsRunFrom(events: seq<Event>)
    ensures Run(events) == RunFrom(INITIAL, events)
  {
    if events != [] {
      var before, last := events[..|events| - 1], events[|events| - 1];
      RunIsRunFrom(before);
      RunFromConcat(INITIAL, before, [last]);
      assert before + [last] == events && [last][1..] == [];
    }
  }

  lemma {:induction false} Two(s: State, a: Event, b: Event)
    ensures RunFrom(s, [a, b]) == Step(Step(s, a), b)
  {
    assert [a, b][1..] == [b] && [b][1..] == [];
    assert RunFrom(s, [a, b]) == RunFrom(Step(s, a), [b]);
  }

  lemma {:induction false} Four(s: State, a: Event, b: Event, c: Event, d: Event)
    ensures RunFrom(s, [a, b, c, d]) == Step(Step(Step(Step(s, a), b), c), d)
  {
    assert [a, b, c, d] == [a, b] + [c, d];
    RunFromConcat(s, [a, b], [c, d]);
    Two(s, a, b);
    Two(Step(Step(s, a), b), c, d);
  }

  // A packet's path to the mutex, and through it.
  function Enter(id: nat, key: bool): seq<Event> { [Arrive(id, key, false), Feed(id), Feed(id), Hold(Pushed)] }

  function Submission(id: nat, key: bool, o: Outcome): seq<Event> { Enter(id, key) + [Hold(o), Hold(o)] }

  predicate Idle(s: State) { !s.initializing && s.lock == Free && s.feeders == map[] }

  lemma {:induction false} EnterEffect(s: State, id: nat, key: bool)
    requires Idle(s)
    ensures RunFrom(s, Enter(id, key)) ==
            s.(lock := Holder(id, key, Route), count := s.count.(entered := s.count.entered + 1))
  {
    Four(s, Arrive(id, key, false), Feed(id), Feed(id), Hold(Pushed));
    var s2 := Step(Step(s, Arrive(id, key, false)), Feed(id));
    assert s2.feeders == map[id := Feeder(Waiting, key, false)];
    assert s2.feeders - {id} == map[];
  }

  lemma {:induction false} SubmissionEffect(s: State, id: nat, key: bool, o: Outcome)
    requires Idle(s) && s.started && (s.waitForIdr ==> key)
    ensures var u := RunFrom(s, Submission(id, key, o));
            && Idle(u) && u.started && !u.waitForIdr
            && u.offers == WithOffer(s.offers, Offer(key, o == Pushed))
  {
    var t := RunFrom(s, Enter(id, key));
    EnterEffect(s, id, key);
    RunFromConcat(s, Enter(id, key), [Hold(o), Hold(o)]);
    Two(t, Hold(o), Hold(o));
  }

  // A delta frame at a closed gate is dropped.
  lemma {:induction false} SubmissionDropped(s: State, id: nat, o: Outcome)
    requires Idle(s) && s.started && s.waitForIdr
    ensures RunFrom(s, Submission(id, false, o)).offers == s.offers
  {
    var t := RunFrom(s, Enter(id, false));
    EnterEffect(s, id, false);
    RunFromConcat(s, Enter(id, false), [Hold(o), Hold(o)]);
    Two(t, Hold(o), Hold(o));
  }

  // What the current instance was offered.
  function Current(s: State): seq<Offer>
    requires s.offers != []
  {
    s.offers[|s.offers| - 1]
  }

  lemma {:induction false} TakenSnoc(o: seq<Offer>, x: Offer)
    ensures TakenOf(o + [x]) == TakenOf(o) + if x.taken then [x] else []
  {
    assert (o + [x])[..|o|] == o;
  }

  /** The exact condition. In every reachable idle state with a decoder that has taken
      nothing yet, a delta frame pushed next is the first packet it takes if and only if
      the gate is open; and there the gate is open exactly when the decoder was offered
      something, all of which was lost. */
  lemma {:induction false} DeltaFirstExactly(events: seq<Event>, b: nat)
    requires var s := Run(events); Idle(s) && s.started && s.offers != [] && TakenOf(Current(s)) == []
    ensures var s := Run(events);
            var u := RunFrom(s, Submission(b, false, Pushed));
            && (!s.waitForIdr <==> Current(s) != [])
            && u.offers != []
            && (TakenOf(Current(u)) == [Offer(false, true)] <==> !s.waitForIdr)
            && (s.waitForIdr ==> u.offers == s.offers)
  {
    RunKeepsInv(events);
    DeltaFirst(Run(events), b);
  }

  lemma {:induction false} DeltaFirst(s: State, b: nat)
    requires DecoderInv(s) && Idle(s) && s.started && s.offers != [] && TakenOf(Current(s)) == []
    ensures var u := RunFrom(s, Submission(b, false, Pushed));
            && (!s.waitForIdr <==> Current(s) != [])
            && u.offers != []
            && (TakenOf(Current(u)) == [Offer(false, true)] <==> !s.waitForIdr)
            && (s.waitForIdr ==> u.offers == s.offers)
  {
    if s.waitForIdr {
      SubmissionDropped(s, b, Pushed);
    } else {
      SubmissionEffect(s, b, false, Pushed);
      TakenSnoc(Current(s), Offer(false, true));
    }
  }

  /** ... but if it is lost, the decoder's first packet can be a delta frame: after a
      keyframe that any instance loses, a delta frame is pushed to a decoder that has none. */
  lemma {:induction false} LostKeyframeStartsOnDelta(s: State, a: nat, b: nat, loss: Outcome)
    requires Idle(s) && s.started && s.waitForIdr && s.offers != [] && Current(s) == [] && loss != Pushed
    ensures var u := RunFrom(RunFrom(s, Submission(a, true, loss)), Submission(b, false, Pushed));
            u.offers == s.offers[|s.offers| - 1 := [Offer(true, false), Offer(false, true)]]
  {
    SubmissionEffect(s, a, true, loss);
    var t := RunFrom(s, Submission(a, true, loss));
    assert Current(t) == [Offer(true, false)];
    SubmissionEffect(t, b, false, Pushed);
    assert [Offer(true, false)] + [Offer(false, true)] == [Offer(true, false), Offer(false, true)];
  }

  // From nothing to a started decoder: a format, a keyframe, an initialization.
  function Schedule(): seq<Event> { [Hold(Pushed), Hold(Pushed), Hold(Pushed), Hold(Pushed)] }

  function Startup(c: Config): seq<Event> {
    [Caps(c)] + Enter(0, true) + Schedule() + [Hold(Pushed), Init(0, true)]
    + [Init(0, true), Init(0, true)] + [Init(0, true)]
  }

  // From the spawn to the thread's last store but one.
  lemma {:induction false} ThreadStarts(s: State)
    requires s.lock.Holder? && s.lock.phase == Spawn && s.inits == [] && s.handle.None? && !s.started && s.offers == []
    ensures var i := Init(0, true);
            var u := RunFrom(RunFrom(s, [Hold(Pushed), i]), [i, i]);
            && u.inits == [Finishing] && u.started && u.offers == [[]] && u.lock == Free
            && u.waitForIdr == s.waitForIdr && u.feeders == s.feeders
  {
    var i := Init(0, true);
    Two(s, Hold(Pushed), i);
    var s4 := RunFrom(s, [Hold(Pushed), i]);
    assert s4.inits == [WantLock] && s4.lock == Free;
    Two(s4, i, i);
  }

  lemma StartupEffect(c: Config)
    requires c.Complete()
    ensures var s := RunFrom(INITIAL, Startup(c)); Idle(s) && s.started && s.waitForIdr && s.offers == [[]]
  {
    var h := Hold(Pushed);
    var i := Init(0, true);
    var s1 := Step(INITIAL, Caps(c));
    assert s1 == INITIAL.(config := c) && [Caps(c)][1..] == [];
    EnterEffect(s1, 0, true);
    var s2 := RunFrom(s1, Enter(0, true));
    Four(s2, h, h, h, h);
    var s3 := RunFrom(s2, Schedule());
    assert s3.lock == Holder(0, true, Spawn) && s3.initializing && s3.waitForIdr
           && s3.inits == [] && s3.feeders == map[];
    ThreadStarts(s3);
    var s4 := RunFrom(s3, [h, i]);
    var s5 := RunFrom(s4, [i, i]);
    assert [i][1..] == [];
    StartupSplit(c, s1, s2, s3, s4, s5);
  }

  lemma {:induction false} StartupSplit(c: Config, s1: State, s2: State, s3: State, s4: State, s5: State)
    requires s1 == Step(INITIAL, Caps(c)) && s2 == RunFrom(s1, Enter(0, true)) && s3 == RunFrom(s2, Schedule())
    requires s4 == RunFrom(s3, [Hold(Pushed), Init(0, true)]) && s5 == RunFrom(s4, [Init(0, true), Init(0, true)])
    ensures RunFrom(INITIAL, Startup(c)) == RunFrom(s5, [Init(0, true)])
  {
    var i := Init(0, true);
    var a, b, d := [Caps(c)] + Enter(0, true), Schedule(), [Hold(Pushed), i];
    assert [Caps(c)][1..] == [] && RunFrom(INITIAL, [Caps(c)]) == s1;
    RunFromConcat(INITIAL, [Caps(c)], Enter(0, true));
    RunFromConcat(INITIAL, a, b);
    RunFromConcat(INITIAL, a + b, d);
    RunFromConcat(INITIAL, a + b + d, [i, i]);
    RunFromConcat(INITIAL, a + b + d + [i, i], [i]);
  }

  /** Such a run exists, for every format. */
  lemma FirstPacketCanBeDelta(c: Config)
    requires c.Complete()
    ensures var events := Startup(c) + Submission(0, true, PoolDropped) + Submission(0, false, Pushed);
            Run(events).offers == [[Offer(true, false), Offer(false, true)]]
  {
    var a, b, d := Startup(c), Submission(0, true, PoolDropped), Submission(0, false, Pushed);
    RunIsRunFrom(a + b + d);
    RunFromConcat(INITIAL, a + b, d);
    RunFromConcat(INITIAL, a, b);
    StartupEffect(c);
    LostKeyframeStartsOnDelta(RunFrom(INITIAL, a), 0, 0, PoolDropped);
  }
}
