/** The half-duplex mode switch: which of the two dynamic configurations
    (the PC listener, which drives the repeaters and the host link, and the
    receiver, which listens on the four child ports) is loaded, as a log of
    hardware events replayed from the start. */
module Modes {

  /** Values of STATE; 0 means no configuration is known yet. */
  const NoMode: int := 0
  const PcMode: int := 1
  const RxMode: int := 2

  datatype Config = PcListener | Receiver

  /** What the mode switch and the reply waits do to the hardware. */
  datatype HwEvent =
    | ReleaseBus        // disconnect from the global bus, pin held high
    | EngageBus         // reconnect to the global bus
    | Load(c: Config)
    | Unload(c: Config)
    | StopRxTimer

  predicate IsMode(m: int)
  {
    m == PcMode || m == RxMode
  }

  function ConfigOf(m: int): Config
    requires IsMode(m)
  {
    if m == PcMode then PcListener else Receiver
  }

  /** `unloadConfig(n)`: unloads the configuration numbered `n`, nothing for another number. */
  function UnloadConfigEvents(n: int): (evs: seq<HwEvent>)
    ensures forall c :: Unload(c) in evs <==> IsMode(n) && c == ConfigOf(n)
    ensures forall e | e in evs :: e.Unload?
  {
    if n == PcMode then [Unload(PcListener)]
    else if n == RxMode then [Unload(Receiver)]
    else []
  }

  /** `unloadAllConfigs`: unloads both configurations. */
  function UnloadAllEvents(): (evs: seq<HwEvent>)
    ensures Unload(PcListener) in evs && Unload(Receiver) in evs
    ensures forall e | e in evs :: e.Unload?
  {
    [Unload(PcListener), Unload(Receiver)]
  }

  /** What `configToggle` unloads: the configuration of the current STATE, or
      both when STATE is 0. */
  function UnloadEvents(state: int): (evs: seq<HwEvent>)
    ensures state == NoMode ==> Unload(PcListener) in evs && Unload(Receiver) in evs
    ensures state != NoMode ==> forall c :: Unload(c) in evs <==> IsMode(state) && c == ConfigOf(state)
    ensures forall e | e in evs :: e.Unload?
  {
    if state != NoMode then UnloadConfigEvents(state) else UnloadAllEvents()
  }

  /** What `configToggle(mode)` loads: the configuration of `mode`, nothing for another value. */
  function LoadEvents(mode: int): (evs: seq<HwEvent>)
    ensures forall c :: Load(c) in evs <==> IsMode(mode) && c == ConfigOf(mode)
    ensures forall e | e in evs :: e.Load?
  {
    if mode == PcMode then [Load(PcListener)]
    else if mode == RxMode then [Load(Receiver)]
    else []
  }

  /** The hardware events of one `configToggle(mode)` from STATE `state`. */
  function ToggleEvents(state: int, mode: int): seq<HwEvent>
  {
    [ReleaseBus] + UnloadEvents(state) + LoadEvents(mode) + [EngageBus]
  }

  /** STATE after `configToggle(mode)`: the new mode, or unchanged for another value. */
  function ToggledState(state: int, mode: int): (s: int)
    ensures IsMode(mode) ==> s == mode
    ensures !IsMode(mode) ==> s == state
  {
    if IsMode(mode) then mode else state
  }

  /* ---------------- Replaying the log ---------------- */

  function Apply(loaded: set<Config>, e: HwEvent): set<Config>
  {
    match e
    case Load(c) => loaded + {c}
    case Unload(c) => loaded - {c}
    case _ => loaded
  }

  function Replay(loaded: set<Config>, log: seq<HwEvent>): set<Config>
    decreases |log|
  {
    if log == [] then loaded else Replay(Apply(loaded, log[0]), log[1..])
  }

  /** The configurations loaded after the events of `log`, starting from none. */
  function Loaded(log: seq<HwEvent>): set<Config>
  {
    Replay({}, log)
  }

  lemma {:induction false} ReplayAppend(loaded: set<Config>, xs: seq<HwEvent>, ys: seq<HwEvent>)
    ensures Replay(loaded, xs + ys) == Replay(Replay(loaded, xs), ys)
    decreases |xs|
  {
    if xs == [] {
      assert xs + ys == ys;
    } else {
      assert (xs + ys)[1..] == xs[1..] + ys;
      ReplayAppend(Apply(loaded, xs[0]), xs[1..], ys);
    }
  }

  /** Configurations a set of unload events removes. */
  function UnloadedBy(state: int): (cs: set<Config>)
    ensures cs == set c | Unload(c) in UnloadEvents(state)
  {
    if state == NoMode then {PcListener, Receiver}
    else if IsMode(state) then {ConfigOf(state)}
    else {}
  }

  /** Configurations a set of load events adds. */
  function LoadedBy(mode: int): (cs: set<Config>)
    ensures cs == set c | Load(c) in LoadEvents(mode)
  {
    if IsMode(mode) then {ConfigOf(mode)} else {}
  }

  lemma {:induction false} ReplayUnloads(loaded: set<Config>, evs: seq<HwEvent>)
    requires forall e | e in evs :: e.Unload?
    ensures Replay(loaded, evs) == loaded - set c | Unload(c) in evs
    decreases |evs|
  {
    if evs != [] {
      assert evs[0] in evs;
      ReplayUnloads(Apply(loaded, evs[0]), evs[1..]);
      assert (set c | Unload(c) in evs) == {evs[0].c} + set c | Unload(c) in evs[1..];
    } else {
      assert (set c | Unload(c) in evs) == {};
    }
  }

  lemma {:induction false} ReplayLoads(loaded: set<Config>, evs: seq<HwEvent>)
    requires forall e | e in evs :: e.Load?
    ensures Replay(loaded, evs) == loaded + set c | Load(c) in evs
    decreases |evs|
  {
    if evs != [] {
      assert evs[0] in evs;
      ReplayLoads(Apply(loaded, evs[0]), evs[1..]);
      assert (set c | Load(c) in evs) == {evs[0].c} + set c | Load(c) in evs[1..];
    } else {
      assert (set c | Load(c) in evs) == {};
    }
  }

  /** The effect of one toggle on the loaded configurations: first the
      configuration of the old STATE (both when STATE is 0) goes, then the
      configuration of the new mode comes. */
  lemma ToggleEffect(log: seq<HwEvent>, state: int, mode: int)
    ensures Loaded(log + ToggleEvents(state, mode)) == (Loaded(log) - UnloadedBy(state)) + LoadedBy(mode)
  {
    var u := UnloadEvents(state);
    var l := LoadEvents(mode);
    assert log + ToggleEvents(state, mode) == log + ([ReleaseBus] + (u + (l + [EngageBus])));
    ReplayAppend({}, log, [ReleaseBus] + (u + (l + [EngageBus])));
    ReplayAppend(Loaded(log), [ReleaseBus], u + (l + [EngageBus]));
    ReplayAppend(Loaded(log), u, l + [EngageBus]);
    ReplayUnloads(Loaded(log), u);
    ReplayAppend(Loaded(log) - UnloadedBy(state), l, [EngageBus]);
    ReplayLoads(Loaded(log) - UnloadedBy(state), l);
  }

  /** The configuration invariant of the switch: with no STATE nothing is
      loaded, otherwise exactly the configuration of STATE. */
  predicate OneConfigLoaded(log: seq<HwEvent>, state: int)
  {
    if state == NoMode then Loaded(log) == {}
    else IsMode(state) && Loaded(log) == {ConfigOf(state)}
  }

  /** Switching to PC or RX mode keeps the invariant: afterwards exactly the
      configuration of the new mode is loaded. */
  lemma ToggleLoadsOne(log: seq<HwEvent>, state: int, mode: int)
    requires OneConfigLoaded(log, state) && IsMode(mode)
    ensures OneConfigLoaded(log + ToggleEvents(state, mode), ToggledState(state, mode))
    ensures Loaded(log + ToggleEvents(state, mode)) == {ConfigOf(mode)}
  {
    ToggleEffect(log, state, mode);
  }

  /** Toggling to the mode already in force changes nothing about what is
      loaded or the resulting STATE. */
  lemma ToggleIdempotent(log: seq<HwEvent>, state: int, mode: int)
    requires OneConfigLoaded(log, state) && IsMode(mode)
    ensures var once := log + ToggleEvents(state, mode);
      && ToggledState(ToggledState(state, mode), mode) == ToggledState(state, mode)
      && Loaded(once + ToggleEvents(mode, mode)) == Loaded(once)
  {
    var once := log + ToggleEvents(state, mode);
    ToggleLoadsOne(log, state, mode);
    ToggleLoadsOne(once, mode, mode);
  }

  /** Stopping the receive timer leaves the loaded configurations alone. */
  lemma StopTimerKeepsConfigs(log: seq<HwEvent>, state: int)
    ensures Loaded(log + [StopRxTimer]) == Loaded(log)
    ensures OneConfigLoaded(log + [StopRxTimer], state) == OneConfigLoaded(log, state)
  {
    ReplayAppend({}, log, [StopRxTimer]);
  }
}
