/** The device configuration store: one record a MAC address. */
module Config {
  import opened Common
  import opened MacAddress
  import opened Estimator
  import opened RawLog

  datatype DeviceConfig = DeviceConfig(address: string, deviceType: string, name: string, location: string)

  type ConfigStore = map<string, DeviceConfig>

  /** Every record is stored under its own address, in canonical spelling. */
  ghost predicate Matching(store: ConfigStore) {
    forall a :: a in store ==> store[a].address == a && Normalize(a) == Ok(a)
  }

  /** Empty types and locations read as the defaults. */
  function Completed(c: DeviceConfig): DeviceConfig {
    c.(deviceType := TypeOr(c.deviceType), location := LocationOr(c.location))
  }

  /** The record at a canonical address, completed with the defaults. */
  function RecordAt(store: ConfigStore, key: string): DeviceConfig {
    Completed(if key in store then store[key] else DeviceConfig(key, "", "", ""))
  }

  function LoadConfig(store: ConfigStore, address: string): Result<DeviceConfig, ValueError> {
    var key :- Normalize(address);
    Ok(RecordAt(store, key))
  }

  function SaveConfig(store: ConfigStore, config: DeviceConfig): ConfigStore {
    store[config.address := Completed(config)]
  }

  /** The store after a target with this canonical address was seen: type and name go into a
      new record, and into an old one where it has none. */
  function EnsureConfig(store: ConfigStore, key: string, deviceType: string, name: string): ConfigStore {
    var existed, config := key in store, RecordAt(store, key);
    SaveConfig(store, config.(
      deviceType := if (!existed || config.deviceType == "") && deviceType != "" then deviceType else config.deviceType,
      name := if (!existed || config.name == "") && name != "" then name else config.name))
  }

  /** An old record keeps its type and a name it has, a new one takes both from the target; no
      location and no other record changes. */
  lemma EnsureKeepsLocations(store: ConfigStore, key: string, deviceType: string, name: string, other: string)
    requires Matching(store) && Normalize(key) == Ok(key)
    ensures var saved := EnsureConfig(store, key, deviceType, name);
            && Matching(saved) && key in saved
            && RecordAt(saved, other).location == RecordAt(store, other).location
            && (other != key ==> RecordAt(saved, other) == RecordAt(store, other))
            && (key in store ==> saved[key].deviceType == RecordAt(store, key).deviceType)
            && (key in store ==> saved[key].name == if store[key].name != "" then store[key].name else name)
            && (key !in store ==> saved[key] == DeviceConfig(key, TypeOr(deviceType), name, DEFAULT_LOCATION))
  {
  }

  /** Loading a record and saving it back changes no lookup. */
  lemma LoadSaveKeepsLookups(store: ConfigStore, address: string, other: string)
    requires Matching(store) && LoadConfig(store, address).Ok?
    ensures var saved := SaveConfig(store, LoadConfig(store, address).value);
            && Matching(saved)
            && RecordAt(saved, other) == RecordAt(store, other)
            && LoadConfig(saved, other) == LoadConfig(store, other)
  {
    NormalizeIdempotent(address);
  }
}

/** The daemon's frame handler: alias, configuration, log, estimator, routing. */
module Hub {
  import opened Common
  import opened MacAddress
  import opened Codec
  import opened Estimator
  import opened Session
  import opened Registry
  import opened Central
  import opened RawLog
  import opened Config

  type Queues<!S> = map<S, seq<CommandEvent>>

  datatype HubState<!S> = HubState(
    registry: RegistryState<S>,
    configs: ConfigStore,
    status: UnitspaceStatus,
    log: LogState,
    queues: Queues<S>)

  // ---------- specification ----------

  /** The aliases after a frame with this MAC from this session address. */
  function AliasLearned<S>(r: RegistryState<S>, mac: string, source: string): RegistryState<S> {
    match Aliased(r, mac, source)
    case Ok(next) => next
    case Err(_) => r
  }

  function EventOf(configs: ConfigStore, frame: ParsedFrame, packet: RawDataPacket, now: real): RawDataEvent
    requires Normalize(frame.mac).Ok?
  {
    var config := LoadConfig(configs, frame.mac).value;
    RawDataEvent(now, frame.mac, config.location, packet, frame.payload, config.deviceType)
  }

  function AlertOf(configs: ConfigStore, frame: ParsedFrame, now: real): AlertEvent
    requires Normalize(frame.mac).Ok?
  {
    var config := LoadConfig(configs, frame.mac).value;
    AlertEvent(now, frame.mac, config.location, frame.payload, config.deviceType)
  }

  /** Queues one command on the session it is routed to; without one it is skipped. */
  function Dispatched<S(==)>(r: RegistryState<S>, queues: Queues<S>, command: CommandEvent): Queues<S> {
    match Lookup(r, command.address)
    case Ok(Some(session)) =>
      if session in queues then queues[session := queues[session] + [command]] else queues
    case _ => queues
  }

  function DispatchedAll<S(==)>(r: RegistryState<S>, queues: Queues<S>, commands: seq<CommandEvent>): Queues<S>
    decreases |commands|
  {
    if commands == [] then queues else DispatchedAll(r, Dispatched(r, queues, commands[0]), commands[1..])
  }

  /** The logger after an item is handed to it, on a disk that obeys. */
  function Logged(layout: Layout, log: LogState, item: Item): LogState {
    LogStep(layout, log, Log(item, true)).state
  }

  function Estimated<S(==)>(h: HubState<S>, event: RawDataEvent): HubState<S> {
    h.(status := Next(h.status, event),
       queues := DispatchedAll(h.registry, h.queues, CommandsFor(h.status, Effective(event))))
  }

  function AfterRawData<S(==)>(
    layout: Layout, h: HubState<S>, frame: ParsedFrame, packet: RawDataPacket, now: real): HubState<S>
    requires Normalize(frame.mac).Ok?
  {
    var event := EventOf(h.configs, frame, packet, now);
    var configs := SaveConfig(h.configs, LoadConfig(h.configs, frame.mac).value);
    Estimated(h.(configs := configs, log := Logged(layout, h.log, Raw(event))), event)
  }

  function AfterAlert<S>(layout: Layout, h: HubState<S>, frame: ParsedFrame, now: real): HubState<S>
    requires Normalize(frame.mac).Ok?
  {
    h.(configs := SaveConfig(h.configs, LoadConfig(h.configs, frame.mac).value),
       log := Logged(layout, h.log, Text(AlertOf(h.configs, frame, now))))
  }

  /** A parsed frame, and the address of the session that delivered it. */
  datatype Delivery = Delivery(source: string, frame: ParsedFrame)

  /** Whether both addresses can be normalized; otherwise the handler raises at once. */
  predicate Welcome(d: Delivery) {
    Normalize(d.source).Ok? && Normalize(d.frame.mac).Ok?
  }

  /** The whole hub after one delivery. */
  function Handled<S(==)>(layout: Layout, h: HubState<S>, d: Delivery, now: real): HubState<S> {
    if !Welcome(d) then h
    else
      var g := h.(registry := AliasLearned(h.registry, d.frame.mac, d.source));
      match d.frame.parsed
      case RawData(packet) => AfterRawData(layout, g, d.frame, packet, now)
      case Alert => AfterAlert(layout, g, d.frame, now)
  }

  /** Sessions and queues after the central was told of a target; a new session's queue is empty. */
  function Told<S(==)>(h: HubState<S>, address: string, newSession: S): HubState<S> {
    h.(registry := Ensured(h.registry, address, newSession),
       queues := if Lookup(h.registry, address) == Ok(None) && newSession !in h.queues
                 then h.queues[newSession := []] else h.queues)
  }

  /** The whole hub after a target has been seen: the central is told, and the target's record
      completed. */
  function Sighted<S(==)>(h: HubState<S>, target: Target, newSession: S): HubState<S> {
    match Normalize(target.address)
    case Err(_) => h
    case Ok(key) =>
      Told(h, target.address, newSession).(configs := EnsureConfig(h.configs, key, TypeOr(target.name), target.name))
  }

  lemma NothingDispatched<S>(r: RegistryState<S>, queues: Queues<S>, status: UnitspaceStatus, event: RawDataEvent)
    requires Effective(event).NoSignal?
    ensures DispatchedAll(r, queues, CommandsFor(status, Effective(event))) == queues
  {
  }

  // ---------- the daemon object ----------

  class SlimHubDaemon {
    const registry: DeviceRegistry
    const estimator: SimpleUnitspaceEstimator
    const rawLogger: RawDataLogger
    const central: BleCentral
    var configs: ConfigStore

    ghost predicate Valid()
      reads this, registry
    {
      registry.Valid() && Matching(configs) && central.registry == registry
    }

    ghost function QueuesNow(): Queues<DeviceSession>
      reads registry`sessions, registry.sessions.vals.Values`commandQueue
    {
      map s | s in registry.sessions.vals.Values :: s.commandQueue
    }

    ghost function State(): HubState<DeviceSession>
      reads this, registry, estimator, rawLogger, registry.sessions.vals.Values
    {
      HubState(registry.State(), configs, estimator.status, rawLogger.State(), QueuesNow())
    }

    constructor (layout: Layout, configs: ConfigStore, files: Files)
      requires Matching(configs)
      ensures Valid() && this.configs == configs && rawLogger.layout == layout
      ensures fresh(registry) && fresh(estimator) && fresh(rawLogger)
      ensures estimator.status == INITIAL_STATUS && rawLogger.State() == LogState(files, [], NoTask)
      ensures registry.State() == RegistryState(Dict([], map[]), Dict([], map[]))
    {
      var sessions := new DeviceRegistry();
      registry := sessions;
      central := new BleCentral(sessions);
      estimator := new SimpleUnitspaceEstimator();
      rawLogger := new RawDataLogger(layout, files);
      this.configs := configs;
    }

    /** Handles a frame from a session with this address; a bad address raises and changes nothing. */
    method HandleFrame(source: string, frame: ParsedFrame, now: real) returns (r: Result<(), ValueError>)
      requires Valid()
      modifies this, registry`aliases, estimator, rawLogger, registry.sessions.vals.Values`commandQueue
      ensures Valid()
      ensures r.Ok? <==> Welcome(Delivery(source, frame))
      ensures State() == Handled(rawLogger.layout, old(State()), Delivery(source, frame), now)
    {
      r := LearnAlias(frame.mac, source);
      if r.Ok? {
        match frame.parsed
        case RawData(packet) => HandleRawData(frame, packet, now);
        case Alert => HandleAlert(frame, now);
      }
    }

    method LearnAlias(mac: string, source: string) returns (r: Result<(), ValueError>)
      requires Valid()
      modifies registry`aliases
      ensures Valid()
      ensures r.Ok? <==> Normalize(source).Ok? && Normalize(mac).Ok?
      ensures State() == old(State()).(registry := AliasLearned(old(registry.State()), mac, source))
    {
      r := registry.RegisterAlias(mac, source);
      assert QueuesNow() == old(QueuesNow());
    }

    /** The branch for a RAWDATA frame, reached once its alias has been registered. */
    method HandleRawData(frame: ParsedFrame, packet: RawDataPacket, now: real)
      requires Valid() && Normalize(frame.mac).Ok?
      modifies this`configs, estimator, rawLogger, registry.sessions.vals.Values`commandQueue
      ensures Valid()
      ensures State() == AfterRawData(rawLogger.layout, old(State()), frame, packet, now)
    {
      var config :- assert LoadAndSave(frame.mac);
      var event := RawDataEvent(now, frame.mac, config.location, packet, frame.payload, config.deviceType);
      LogNow(Raw(event));
      EstimateAndSend(event);
    }

    method LogNow(item: Item)
      modifies rawLogger
      ensures State() == old(State()).(log := Logged(rawLogger.layout, old(rawLogger.State()), item))
    {
      var logged := rawLogger.LogItem(item, true);
    }

    /** Feeds the estimator and routes what it commands; an event that raises commands nothing. */
    method EstimateAndSend(event: RawDataEvent)
      modifies estimator, registry.sessions.vals.Values`commandQueue
      ensures State() == Estimated(old(State()), event)
    {
      var commands := estimator.Handle(event);
      if commands.Ok? {
        SendAll(commands.value);
      } else {
        NothingDispatched(registry.State(), QueuesNow(), old(estimator.status), event);
      }
    }

    /** The branch for an ALERT frame, reached once its alias has been registered. */
    method HandleAlert(frame: ParsedFrame, now: real)
      requires Valid() && Normalize(frame.mac).Ok?
      modifies this`configs, rawLogger
      ensures Valid()
      ensures State() == AfterAlert(rawLogger.layout, old(State()), frame, now)
    {
      var config :- assert LoadAndSave(frame.mac);
      var alert := AlertEvent(now, frame.mac, config.location, frame.payload, config.deviceType);
      LogNow(Text(alert));
    }

    method Store(config: DeviceConfig)
      modifies this`configs
      ensures State() == old(State()).(configs := SaveConfig(old(configs), config))
    {
      configs := SaveConfig(configs, config);
    }

    method LoadAndSave(mac: string) returns (r: Result<DeviceConfig, ValueError>)
      requires Valid()
      modifies this`configs
      ensures Valid() && r == LoadConfig(old(configs), mac)
      ensures State() == if r.Ok? then old(State()).(configs := SaveConfig(old(configs), r.value)) else old(State())
    {
      r := LoadConfig(configs, mac);
      if r.Ok? {
        LoadSaveKeepsLookups(configs, mac, mac);
        Store(r.value);
      }
    }

    /** A target seen by the scan: its session is started or updated, its record completed. */
    method StartOrUpdateSession(target: Target) returns (r: Result<DeviceSession, ValueError>)
      requires Valid()
      modifies this`configs, registry, registry.sessions.vals.Values
      ensures Valid()
      ensures r.Ok? <==> Normalize(target.address).Ok?
      ensures State() == if r.Ok? then Sighted(old(State()), target, r.value) else old(State())
    {
      var address :- Normalize(target.address);
      NormalizeIdempotent(target.address);
      var session := TellCentral(target);
      EnsureKeepsLocations(configs, address, TypeOr(target.name), target.name, address);
      EnsureRecord(address, TypeOr(target.name), target.name);
      return Ok(session);
    }

    method EnsureRecord(key: string, deviceType: string, name: string)
      modifies this`configs
      ensures State() == old(State()).(configs := EnsureConfig(old(configs), key, deviceType, name))
    {
      configs := EnsureConfig(configs, key, deviceType, name);
    }

    method TellCentral(target: Target) returns (session: DeviceSession)
      requires Valid() && Normalize(target.address).Ok?
      modifies registry, registry.sessions.vals.Values
      ensures Valid()
      ensures State() == Told(old(State()), target.address, session)
    {
      session :- assert central.EnsureTarget(target);
      QueuesFollow(target.address, session);
    }

    /** The queues after the central was told of a target. */
    twostate lemma QueuesFollow(address: string, new session: DeviceSession)
      requires registry.State() == Ensured(old(registry.State()), address, session) && Normalize(address).Ok?
      requires var found := Find(old(registry.State()), Normalize(address).value);
               if found.Some? then found.value == session
               else session !in old(registry.sessions.vals.Values) && session.commandQueue == []
      requires forall s :: s in old(registry.sessions.vals.Values) ==> s.commandQueue == old(s.commandQueue)
      ensures QueuesNow() == if Lookup(old(registry.State()), address) == Ok(None) && session !in old(QueuesNow())
                             then old(QueuesNow())[session := []] else old(QueuesNow())
    {
      if Find(old(registry.State()), Normalize(address).value).None? {
        AddedValues(old(registry.sessions.vals), Normalize(address).value, session);
      }
    }

    method SendOne(command: CommandEvent)
      modifies registry.sessions.vals.Values`commandQueue
      ensures QueuesNow() == Dispatched(registry.State(), old(QueuesNow()), command)
    {
      var sent := registry.SendCommand(command);
    }

    /** Routes the commands one after the other. */
    method SendAll(commands: seq<CommandEvent>)
      modifies registry.sessions.vals.Values`commandQueue
      ensures QueuesNow() == DispatchedAll(registry.State(), old(QueuesNow()), commands)
    {
      for i := 0 to |commands|
        invariant DispatchedAll(registry.State(), QueuesNow(), commands[i..])
               == DispatchedAll(registry.State(), old(QueuesNow()), commands)
      {
        assert commands[i..][1..] == commands[i + 1..];
        SendOne(commands[i]);
      }
      assert commands[|commands|..] == [];
    }
  }
}
