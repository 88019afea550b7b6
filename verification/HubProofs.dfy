/** End-to-end theorems: from notified bytes to the commands queued on every session. */
module HubProofs {
  import opened Common
  import opened MacAddress
  import opened Codec
  import opened CodecProofs
  import opened Assembler
  import opened AssemblerProofs
  import opened Estimator
  import opened EstimatorProofs
  import opened Session
  import opened SessionProofs
  import opened Registry
  import opened RegistryProofs
  import opened RawLog
  import opened Config
  import opened Hub
  import opened RoutingProofs

  /** One step of the running hub: a frame handed on by a session, or a target seen by the scan,
      with the session made for it if one is needed. */
  datatype HubStep<S> = Arrival(d: Delivery, now: real) | Sighting(target: Target, newSession: S)

  function StepHub<S(==)>(layout: Layout, h: HubState<S>, step: HubStep<S>): HubState<S> {
    match step
    case Arrival(d, now) => Handled(layout, h, d, now)
    case Sighting(target, newSession) => Sighted(h, target, newSession)
  }

  function RunHub<S(==)>(layout: Layout, h: HubState<S>, steps: seq<HubStep<S>>): HubState<S>
    decreases |steps|
  {
    if steps == [] then h else RunHub(layout, StepHub(layout, h, steps[0]), steps[1..])
  }

  // ---------- chunking and time have no say ----------

  /** Equal but for the timestamps kept by the estimator and the log. */
  ghost predicate SameButTime<S>(g: HubState<S>, h: HubState<S>) {
    g.registry == h.registry && g.configs == h.configs && g.queues == h.queues && SameUpToTime(g.status, h.status)
  }

  lemma OneFrameTimeless<S>(layout: Layout, g: HubState<S>, h: HubState<S>, d: Delivery, t: real, u: real)
    requires SameButTime(g, h)
    ensures SameButTime(Handled(layout, g, d, t), Handled(layout, h, d, u))
  {
    if Welcome(d) {
      match d.frame.parsed
      case RawData(packet) =>
        var e, f := EventOf(g.configs, d.frame, packet, t), EventOf(h.configs, d.frame, packet, u);
        EventTimeless(e, f);
        assert CommandsFor(g.status, Effective(e)) == CommandsFor(h.status, Effective(f));
      case Alert =>
    }
  }

  lemma EventTimeless(e: RawDataEvent, f: RawDataEvent)
    requires e.(timestamp := f.timestamp) == f
    ensures Effective(e) == Effective(f)
  {
  }

  /** The same frames, each at its own time. */
  function Arrivals<S>(ds: seq<Delivery>, times: seq<real>): (steps: seq<HubStep<S>>)
    requires |times| == |ds|
    ensures |steps| == |ds|
  {
    seq(|ds|, i requires 0 <= i < |ds| => Arrival(ds[i], times[i]))
  }

  lemma {:induction false} FramesTimeless<S>(
    layout: Layout, g: HubState<S>, h: HubState<S>, ds: seq<Delivery>, t: seq<real>, u: seq<real>)
    requires SameButTime(g, h) && |t| == |ds| == |u|
    ensures SameButTime(RunHub(layout, g, Arrivals(ds, t)), RunHub(layout, h, Arrivals(ds, u)))
    decreases |ds|
  {
    if ds == [] {
    } else {
      OneFrameTimeless(layout, g, h, ds[0], t[0], u[0]);
      FramesTimeless(layout, Handled(layout, g, ds[0], t[0]), Handled(layout, h, ds[0], u[0]), ds[1..], t[1..], u[1..]);
      assert Arrivals<S>(ds, t)[1..] == Arrivals(ds[1..], t[1..]);
      assert Arrivals<S>(ds, u)[1..] == Arrivals(ds[1..], u[1..]);
    }
  }

  /** What a session with this address hands on from a list of notifications. */
  function HandedOn(source: string, buffer: Bytes, chunks: seq<Bytes>): seq<Delivery> {
    From(source, ParsedOnly(Frames(PushAll(MAX_FRAME_LEN, buffer, chunks).pieces)))
  }

  function From(source: string, frames: seq<ParsedFrame>): seq<Delivery> {
    seq(|frames|, i requires 0 <= i < |frames| => Delivery(source, frames[i]))
  }

  /** End to end: from a fixed hub and any reachable buffer, two ways of cutting the same bytes
      into notifications hand on the same frames, malformed ones skipped alike, leave the same
      routes, configuration and remembered node, and queue the same commands, whatever the times. */
  lemma {:induction false} ChunkingAndTimeDoNotMatter<S>(
    layout: Layout, h: HubState<S>, source: string, buffer: Bytes,
    chunks: seq<Bytes>, others: seq<Bytes>, times: seq<real>, otherTimes: seq<real>)
    requires Settled(MAX_FRAME_LEN, buffer) && Flatten(chunks) == Flatten(others)
    requires |times| == |HandedOn(source, buffer, chunks)| == |otherTimes|
    ensures HandedOn(source, buffer, chunks) == HandedOn(source, buffer, others)
    ensures SameButTime(RunHub(layout, h, Arrivals(HandedOn(source, buffer, chunks), times)),
                        RunHub(layout, h, Arrivals(HandedOn(source, buffer, others), otherTimes)))
  {
    ChunkInvariance(MAX_FRAME_LEN, buffer, chunks);
    ChunkInvariance(MAX_FRAME_LEN, buffer, others);
    FramesTimeless(layout, h, h, HandedOn(source, buffer, chunks), times, otherTimes);
  }

  // ---------- through the session's state machine ----------

  /** Handling every delivery among the effects of a session run, in order. */
  function HandledEffects<S(==)>(layout: Layout, h: HubState<S>, effects: seq<Effect>, times: seq<real>): HubState<S>
    requires |times| == |effects|
    decreases |effects|
  {
    if effects == [] then h
    else
      var e := effects[0];
      var next := if e.Delivered? then Handled(layout, h, Delivery(e.source, e.frame), times[0]) else h;
      HandledEffects(layout, next, effects[1..], times[1..])
  }

  ghost predicate FromSource(source: string, effects: seq<Effect>) {
    forall k :: 0 <= k < |effects| && effects[k].Delivered? ==> effects[k].source == source
  }

  /** Every target the session is updated with in the run has its address, up to spelling, or
      one that cannot be normalized. */
  ghost predicate KeepsAddress(address: string, inputs: seq<Input>) {
    forall k :: 0 <= k < |inputs| ==> InputKeepsAddress(address, inputs[k])
  }

  predicate InputKeepsAddress(address: string, i: Input) {
    i.OnCall? && i.call.UpdateTarget? ==>
      Normalize(i.call.target.address).Err? || Normalize(i.call.target.address) == Ok(address)
  }

  lemma StepKeepsSource(s: SessionState, i: Input)
    requires InputKeepsAddress(s.identity.address, i)
    ensures Step(s, i).state.identity.address == s.identity.address
    ensures FromSource(s.identity.address, Step(s, i).effects)
  {
    match i
    case OnCall(call) =>
      assert |AfterCall(s, call).effects| <= 1;
    case OnTask(event) =>
      assert |AfterTask(s, event).effects| <= 1;
    case OnWorker(work) => WorkerKeepsSource(s, work);
    case OnNotify(_) =>
  }

  lemma WorkerKeepsSource(s: SessionState, work: WorkerEvent)
    ensures AfterWork(s, work).state.identity == s.identity
    ensures FromSource(s.identity.address, AfterWork(s, work).effects)
  {
  }

  lemma {:induction false} RunKeepsSource(s: SessionState, inputs: seq<Input>)
    requires KeepsAddress(s.identity.address, inputs)
    ensures FromSource(s.identity.address, Run(s, inputs).effects)
    decreases |inputs|
  {
    if inputs == [] {
    } else {
      StepKeepsSource(s, inputs[0]);
      RunKeepsSource(Step(s, inputs[0]).state, inputs[1..]);
    }
  }

  /** The times at which the deliveries among the effects are handled. */
  function DeliveryTimes(effects: seq<Effect>, times: seq<real>): (ts: seq<real>)
    requires |times| == |effects|
    ensures |ts| == |DeliveredIn(effects)|
  {
    if effects == [] then []
    else (if effects[0].Delivered? then [times[0]] else []) + DeliveryTimes(effects[1..], times[1..])
  }

  lemma {:induction false} EffectsAreFrames<S>(
    layout: Layout, h: HubState<S>, source: string, effects: seq<Effect>, times: seq<real>)
    requires |times| == |effects| && FromSource(source, effects)
    ensures HandledEffects(layout, h, effects, times)
         == RunHub(layout, h, Arrivals(From(source, DeliveredIn(effects)), DeliveryTimes(effects, times)))
    decreases |effects|
  {
    if effects == [] {
    } else {
      var e, later := effects[0], DeliveredIn(effects[1..]);
      assert FromSource(source, effects[1..]);
      if e.Delivered? {
        var next := Handled(layout, h, Delivery(source, e.frame), times[0]);
        EffectsAreFrames(layout, next, source, effects[1..], times[1..]);
        assert Arrivals<S>(From(source, DeliveredIn(effects)), DeliveryTimes(effects, times))[1..]
            == Arrivals(From(source, later), DeliveryTimes(effects[1..], times[1..]));
      } else {
        EffectsAreFrames(layout, h, source, effects[1..], times[1..]);
        assert DeliveredIn(effects) == later;
        assert DeliveryTimes(effects, times) == DeliveryTimes(effects[1..], times[1..]);
      }
    }
  }

  /** End to end, session included: two runs of one connection that are notified the same bytes,
      in any chunks and among any other calls (sightings of the same target included), writes
      and failures, queue the same commands. */
  lemma {:induction false} ConnectionDecidesCommands<S>(
    layout: Layout, h: HubState<S>, s: SessionState, inputs: seq<Input>, others: seq<Input>,
    times: seq<real>, otherTimes: seq<real>)
    requires Settled(MAX_FRAME_LEN, s.buffer)
    requires NoNewConnection(inputs) && KeepsAddress(s.identity.address, inputs)
    requires NoNewConnection(others) && KeepsAddress(s.identity.address, others)
    requires NotifiedIn(s, inputs) == NotifiedIn(s, others)
    requires |times| == |Run(s, inputs).effects| && |otherTimes| == |Run(s, others).effects|
    ensures SameButTime(HandledEffects(layout, h, Run(s, inputs).effects, times),
                        HandledEffects(layout, h, Run(s, others).effects, otherTimes))
  {
    var e, f, source := Run(s, inputs).effects, Run(s, others).effects, s.identity.address;
    ConnectionDelivers(s, inputs);
    ConnectionDelivers(s, others);
    RunKeepsSource(s, inputs);
    RunKeepsSource(s, others);
    EffectsAreFrames(layout, h, source, e, times);
    EffectsAreFrames(layout, h, source, f, otherTimes);
    FramesTimeless(layout, h, h, From(source, DeliveredIn(e)), DeliveryTimes(e, times), DeliveryTimes(f, otherTimes));
  }

  // ---------- the hub runs the estimator and routes what it commands ----------

  /** What a step does to the routing. */
  function RouteOf<S>(step: HubStep<S>): RouteStep<S> {
    match step
    case Arrival(d, _) => Alias(d.frame.mac, d.source)
    case Sighting(target, newSession) => Ensure(target.address, newSession)
  }

  /** The estimator event of a step: one for a RAWDATA frame that is not refused. */
  function EventsIn<S>(configs: ConfigStore, step: HubStep<S>): seq<RawDataEvent> {
    match step
    case Arrival(d, now) =>
      if !Welcome(d) || d.frame.parsed.Alert? then []
      else [EventOf(configs, d.frame, d.frame.parsed.packet, now)]
    case Sighting(_, _) => []
  }

  function ConfigsAfter<S>(configs: ConfigStore, step: HubStep<S>): ConfigStore {
    match step
    case Arrival(d, _) =>
      if Welcome(d) then SaveConfig(configs, LoadConfig(configs, d.frame.mac).value) else configs
    case Sighting(target, _) =>
      match Normalize(target.address)
      case Ok(key) => EnsureConfig(configs, key, TypeOr(target.name), target.name)
      case Err(_) => configs
  }

  /** The estimator events of a run, each read with the configuration of its moment. */
  function EventsOf<S>(configs: ConfigStore, steps: seq<HubStep<S>>): seq<RawDataEvent>
    decreases |steps|
  {
    if steps == [] then []
    else EventsIn(configs, steps[0]) + EventsOf(ConfigsAfter(configs, steps[0]), steps[1..])
  }

  function Destination<S>(r: RegistryState<S>, address: string): Option<S> {
    match Lookup(r, address)
    case Ok(found) => found
    case Err(_) => None
  }

  function Leading<S>(r: RegistryState<S>, commands: seq<CommandEvent>): seq<Option<S>> {
    seq(|commands|, i requires 0 <= i < |commands| => Destination(r, commands[i].address))
  }

  /** Where each command of a run leads when it is dispatched: the routing is that of its moment,
      with every target seen and every alias taught up to then. */
  function Destinations<S>(
    r: RegistryState<S>, status: UnitspaceStatus, configs: ConfigStore, steps: seq<HubStep<S>>): (to: seq<Option<S>>)
    ensures |to| == |RunCommands(status, EventsOf(configs, steps))|
    decreases |steps|
  {
    if steps == [] then []
    else
      var next, after := Route(r, RouteOf(steps[0])), ConfigsAfter(configs, steps[0]);
      var events := EventsIn(configs, steps[0]);
      RunAppend(status, events, EventsOf(after, steps[1..]));
      Leading(next, RunCommands(status, events)) + Destinations(next, RunStatus(status, events), after, steps[1..])
  }

  /** The commands of a list that lead to a session, in order. */
  function Selected<S(==)>(commands: seq<CommandEvent>, to: seq<Option<S>>, session: S): seq<CommandEvent>
    requires |to| == |commands|
  {
    if commands == [] then []
    else (if to[0] == Some(session) then [commands[0]] else []) + Selected(commands[1..], to[1..], session)
  }

  lemma {:induction false} SelectedAppend<S>(
    a: seq<CommandEvent>, b: seq<CommandEvent>, to: seq<Option<S>>, more: seq<Option<S>>, session: S)
    requires |a| == |to| && |b| == |more|
    ensures Selected(a + b, to + more, session) == Selected(a, to, session) + Selected(b, more, session)
  {
    if a == [] {
      assert a + b == b && to + more == more;
    } else {
      SelectedAppend(a[1..], b, to[1..], more, session);
      assert (a + b)[1..] == a[1..] + b && (to + more)[1..] == to[1..] + more;
      Assoc(if to[0] == Some(session) then [a[0]] else [],
            Selected(a[1..], to[1..], session), Selected(b, more, session));
    }
  }

  lemma {:induction false} RoutedIsSelected<S>(r: RegistryState<S>, commands: seq<CommandEvent>, session: S)
    ensures RoutedTo(r, commands, session) == Selected(commands, Leading(r, commands), session)
  {
    if commands == [] {
    } else {
      RoutedIsSelected(r, commands[1..], session);
      assert Leading(r, commands)[1..] == Leading(r, commands[1..]);
    }
  }

  lemma {:induction false} SelectedAmong<S>(commands: seq<CommandEvent>, to: seq<Option<S>>, session: S)
    requires |to| == |commands|
    ensures Subsequence(Selected(commands, to, session), commands)
    ensures forall c :: c in Selected(commands, to, session) ==> c in commands
  {
    if commands == [] {
    } else {
      var later := Selected(commands[1..], to[1..], session);
      SelectedAmong(commands[1..], to[1..], session);
      if to[0] == Some(session) {
        assert Selected(commands, to, session)[1..] == later;
      } else {
        assert Selected(commands, to, session) == later;
      }
    }
  }

  /** Every session of the registry has a queue. */
  ghost predicate QueuesReady<S>(h: HubState<S>) {
    forall k :: k in h.registry.sessions.vals ==> h.registry.sessions.vals[k] in h.queues
  }

  /** What is queued on a session; nothing on one that does not exist yet. */
  function QueueOf<S(==)>(h: HubState<S>, session: S): seq<CommandEvent> {
    if session in h.queues then h.queues[session] else []
  }

  /** No command leads to a session that is not in the registry. */
  lemma {:induction false} NothingForStrangers<S>(
    r: RegistryState<S>, queues: Queues<S>, commands: seq<CommandEvent>, session: S)
    requires session !in queues && forall k :: k in r.sessions.vals ==> r.sessions.vals[k] in queues
    ensures session !in DispatchedAll(r, queues, commands) && RoutedTo(r, commands, session) == []
    decreases |commands|
  {
    if commands == [] {
    } else {
      NothingForStrangers(r, Dispatched(r, queues, commands[0]), commands[1..], session);
    }
  }

  lemma {:induction false} DispatchKeepsQueues<S>(r: RegistryState<S>, queues: Queues<S>, commands: seq<CommandEvent>)
    ensures DispatchedAll(r, queues, commands).Keys == queues.Keys
    decreases |commands|
  {
    if commands == [] {
    } else {
      DispatchKeepsQueues(r, Dispatched(r, queues, commands[0]), commands[1..]);
    }
  }

  /** One step, told by its events. */
  lemma OneStep<S>(layout: Layout, h: HubState<S>, step: HubStep<S>)
    ensures var g, events := StepHub(layout, h, step), EventsIn(h.configs, step);
            && g.registry == Route(h.registry, RouteOf(step))
            && g.configs == ConfigsAfter(h.configs, step)
            && g.status == RunStatus(h.status, events)
            && (step.Arrival? ==>
                  g.registry.sessions == h.registry.sessions
                  && g.queues == DispatchedAll(g.registry, h.queues, RunCommands(h.status, events)))
  {
    if EventsIn(h.configs, step) != [] {
      RunOne(h.status, EventsIn(h.configs, step)[0]);
    }
  }

  lemma QueuesKept<S>(layout: Layout, h: HubState<S>, step: HubStep<S>)
    requires QueuesReady(h)
    ensures QueuesReady(StepHub(layout, h, step))
  {
    OneStep(layout, h, step);
    match step
    case Arrival(_, _) =>
      var commands := RunCommands(h.status, EventsIn(h.configs, step));
      DispatchKeepsQueues(StepHub(layout, h, step).registry, h.queues, commands);
    case Sighting(_, _) =>
  }

  lemma OneGrowth<S>(layout: Layout, h: HubState<S>, step: HubStep<S>, session: S)
    requires QueuesReady(h)
    ensures var g, commands := StepHub(layout, h, step), RunCommands(h.status, EventsIn(h.configs, step));
            QueueOf(g, session) == QueueOf(h, session) + Selected(commands, Leading(g.registry, commands), session)
  {
    var g, commands := StepHub(layout, h, step), RunCommands(h.status, EventsIn(h.configs, step));
    OneStep(layout, h, step);
    RoutedIsSelected(g.registry, commands, session);
    if step.Sighting? {
      assert QueueOf(h, session) + [] == QueueOf(h, session);
    } else if session in h.queues {
      DispatchIsExact(g.registry, h.queues, commands, session);
    } else {
      NothingForStrangers(g.registry, h.queues, commands, session);
    }
  }

  /** A run of the hub, over frames from any sessions and targets seen in between, is the
      estimator's run on the events of the frames: the same remembered node, and the queue of every
      session, old or new, grows by exactly the commands of that run which lead to it when they are
      dispatched, each once and in order. */
  lemma {:induction false} HubRunsEstimator<S>(
    layout: Layout, h: HubState<S>, steps: seq<HubStep<S>>, session: S)
    requires QueuesReady(h)
    ensures var g, events := RunHub(layout, h, steps), EventsOf(h.configs, steps);
            var to := Destinations(h.registry, h.status, h.configs, steps);
            && QueuesReady(g)
            && g.status == RunStatus(h.status, events)
            && QueueOf(g, session) == QueueOf(h, session) + Selected(RunCommands(h.status, events), to, session)
    decreases |steps|
  {
    if steps == [] {
      assert QueueOf(h, session) + [] == QueueOf(h, session);
    } else {
      var g, first := StepHub(layout, h, steps[0]), EventsIn(h.configs, steps[0]);
      var later, toLater := EventsOf(g.configs, steps[1..]), Destinations(g.registry, g.status, g.configs, steps[1..]);
      OneStep(layout, h, steps[0]);
      QueuesKept(layout, h, steps[0]);
      OneGrowth(layout, h, steps[0], session);
      HubRunsEstimator(layout, g, steps[1..], session);
      RunAppend(h.status, first, later);
      var commands, more := RunCommands(h.status, first), RunCommands(g.status, later);
      SelectedAppend(commands, more, Leading(g.registry, commands), toLater, session);
      Assoc(QueueOf(h, session), Selected(commands, Leading(g.registry, commands), session),
            Selected(more, toLater, session));
    }
  }

  /** The commands of the estimator in a run of the hub. */
  function CommandsOf<S>(h: HubState<S>, steps: seq<HubStep<S>>): seq<CommandEvent> {
    RunCommands(h.status, EventsOf(h.configs, steps))
  }

  /** What a run adds to the queue of a session. */
  function NewlyQueued<S(==)>(layout: Layout, h: HubState<S>, steps: seq<HubStep<S>>, session: S): seq<CommandEvent> {
    var before, after := QueueOf(h, session), QueueOf(RunHub(layout, h, steps), session);
    if |before| <= |after| then after[|before|..] else []
  }

  // ---------- targets seen command nothing ----------

  function OnlyArrivals<S>(steps: seq<HubStep<S>>): seq<HubStep<S>> {
    if steps == [] then []
    else (if steps[0].Arrival? then [steps[0]] else []) + OnlyArrivals(steps[1..])
  }

  /** Two stores that name the same locations. */
  ghost predicate SameLocations(configs: ConfigStore, other: ConfigStore) {
    && Matching(configs) && Matching(other)
    && forall a :: RecordAt(configs, a).location == RecordAt(other, a).location
  }

  lemma StepKeepsLocations<S>(configs: ConfigStore, step: HubStep<S>)
    requires Matching(configs)
    ensures SameLocations(configs, ConfigsAfter(configs, step))
  {
    match step
    case Arrival(d, _) =>
      if Welcome(d) {
        forall a ensures var saved := SaveConfig(configs, LoadConfig(configs, d.frame.mac).value);
                         Matching(saved) && RecordAt(saved, a) == RecordAt(configs, a)
        {
          LoadSaveKeepsLookups(configs, d.frame.mac, a);
        }
      }
    case Sighting(target, _) =>
      if Normalize(target.address).Ok? {
        var key := Normalize(target.address).value;
        NormalizeIdempotent(target.address);
        forall a ensures var saved := EnsureConfig(configs, key, TypeOr(target.name), target.name);
                         Matching(saved) && RecordAt(saved, a).location == RecordAt(configs, a).location
        {
          EnsureKeepsLocations(configs, key, TypeOr(target.name), target.name, a);
        }
      }
  }

  lemma LocationsSuffice<S>(status: UnitspaceStatus, configs: ConfigStore, other: ConfigStore, step: HubStep<S>)
    requires SameLocations(configs, other)
    ensures RunCommands(status, EventsIn(configs, step)) == RunCommands(status, EventsIn(other, step))
    ensures RunStatus(status, EventsIn(configs, step)) == RunStatus(status, EventsIn(other, step))
  {
    if EventsIn(configs, step) != [] {
      var e, f := EventsIn(configs, step)[0], EventsIn(other, step)[0];
      RunOne(status, e);
      RunOne(status, f);
      var key := Normalize(step.d.frame.mac).value;
      assert RecordAt(configs, key).location == RecordAt(other, key).location;
      assert Effective(e) == Effective(f);
    }
  }

  /** Targets seen between the frames change no command and no remembered node, whatever they
      write into the configuration and however they are interleaved. */
  lemma {:induction false} SightingsCommandNothing<S>(
    status: UnitspaceStatus, configs: ConfigStore, other: ConfigStore, steps: seq<HubStep<S>>)
    requires SameLocations(configs, other)
    ensures var events, alone := EventsOf(configs, steps), EventsOf(other, OnlyArrivals(steps));
            && RunCommands(status, events) == RunCommands(status, alone)
            && RunStatus(status, events) == RunStatus(status, alone)
    decreases |steps|
  {
    if steps == [] {
    } else {
      var step, rest := steps[0], OnlyArrivals(steps[1..]);
      var first, after := EventsIn(configs, step), ConfigsAfter(configs, step);
      StepKeepsLocations(configs, step);
      RunAppend(status, first, EventsOf(after, steps[1..]));
      if step.Arrival? {
        var alone, afterAlone := EventsIn(other, step), ConfigsAfter(other, step);
        StepKeepsLocations(other, step);
        LocationsSuffice(status, configs, other, step);
        RunAppend(status, alone, EventsOf(afterAlone, rest));
        SightingsCommandNothing(RunStatus(status, first), after, afterAlone, steps[1..]);
        assert OnlyArrivals(steps)[1..] == rest;
      } else {
        SightingsCommandNothing(status, after, other, steps[1..]);
        assert OnlyArrivals(steps) == rest;
      }
    }
  }

  // ---------- no command is lost ----------

  /** Whether the frame's MAC leads to a session once the frame has been handled: it did before, or
      the frame came under a key and so teaches it. */
  predicate Reaches<S>(r: RegistryState<S>, d: Delivery)
    requires Welcome(d)
  {
    var mac := Normalize(d.frame.mac).value;
    mac in r.sessions.vals || mac in r.aliases.vals || Normalize(d.source).value in r.sessions.vals
  }

  /** Whether the event commands anything: an exit, or an enter of a node not remembered. */
  predicate Commands(status: UnitspaceStatus, event: RawDataEvent) {
    match Effective(event)
    case NoSignal => false
    case Exit(_, _) => true
    case Enter(address, _) => status.lastAddress != Some(address)
  }

  /** At every step that commands something, the MAC of its frame leads to a session. */
  predicate SignalsReach<S>(
    r: RegistryState<S>, status: UnitspaceStatus, configs: ConfigStore, steps: seq<HubStep<S>>)
    decreases |steps|
  {
    steps == [] ||
    (var step, events := steps[0], EventsIn(configs, steps[0]);
     && (events != [] && Commands(status, events[0]) ==> Reaches(r, step.d))
     && SignalsReach(Route(r, RouteOf(step)), RunStatus(status, events), ConfigsAfter(configs, step), steps[1..]))
  }

  predicate RememberedLeads<S>(r: RegistryState<S>, status: UnitspaceStatus) {
    status.lastAddress.Some? ==> Destination(r, status.lastAddress.value).Some?
  }

  lemma StillLeads<S(!new)>(r: RegistryState<S>, step: HubStep<S>, status: UnitspaceStatus)
    requires Routed(r) && Canonical(r) && RememberedLeads(r, status)
    ensures var next := Route(r, RouteOf(step));
            Routed(next) && Canonical(next) && RememberedLeads(next, status)
  {
    RoutingKept(r, RouteOf(step));
    StepIsPermanent(r, RouteOf(step));
  }

  lemma FrameLeads<S>(r: RegistryState<S>, d: Delivery)
    requires Routed(r) && Canonical(r) && Welcome(d)
    ensures Destination(AliasLearned(r, d.frame.mac, d.source), Normalize(d.frame.mac).value).Some? <==> Reaches(r, d)
  {
    NormalizeIdempotent(d.frame.mac);
  }

  ghost predicate AllLead<S>(to: seq<Option<S>>) {
    forall o :: o in to ==> o.Some?
  }

  /** The commands of one event all lead somewhere exactly if it commands nothing or its MAC
      leads somewhere. */
  lemma EventLeads<S>(r: RegistryState<S>, status: UnitspaceStatus, event: RawDataEvent)
    requires RememberedLeads(r, status) && Normalize(event.mac).Ok?
    ensures var reached := !Commands(status, event) || Destination(r, Normalize(event.mac).value).Some?;
            && (AllLead(Leading(r, RunCommands(status, [event]))) <==> reached)
            && (reached ==> RememberedLeads(r, RunStatus(status, [event])))
  {
    RunOne(status, event);
    var commands := RunCommands(status, [event]);
    if Commands(status, event) {
      assert commands[0].address == Normalize(event.mac).value;
      assert Leading(r, commands)[0] in Leading(r, commands);
    }
  }

  lemma AllLeadAppend<S>(a: seq<Option<S>>, b: seq<Option<S>>)
    ensures AllLead(a + b) <==> AllLead(a) && AllLead(b)
  {
    forall o ensures o in a + b <==> o in a || o in b {
    }
  }

  /** Exactly when no command is lost: every command of a run leads to a session at the moment it
      is dispatched if and only if, at every step that commands something, the frame's MAC is a key
      or an alias by then or the frame came under a key. */
  lemma {:induction false} NoCommandLostIff<S(!new)>(
    r: RegistryState<S>, status: UnitspaceStatus, configs: ConfigStore, steps: seq<HubStep<S>>)
    requires Routed(r) && Canonical(r) && RememberedLeads(r, status)
    ensures AllLead(Destinations(r, status, configs, steps)) <==> SignalsReach(r, status, configs, steps)
    decreases |steps|
  {
    if steps == [] {
    } else {
      var step, next := steps[0], Route(r, RouteOf(steps[0]));
      var events, after := EventsIn(configs, step), ConfigsAfter(configs, step);
      StillLeads(r, step, status);
      if events != [] {
        FrameLeads(r, step.d);
        EventLeads(next, status, events[0]);
        assert events == [events[0]];
      }
      AllLeadAppend(Leading(next, RunCommands(status, events)),
                    Destinations(next, RunStatus(status, events), after, steps[1..]));
      if RememberedLeads(next, RunStatus(status, events)) {
        NoCommandLostIff(next, RunStatus(status, events), after, steps[1..]);
      }
    }
  }

  lemma {:induction false} SelectedHolds<S>(commands: seq<CommandEvent>, to: seq<Option<S>>, session: S, i: nat)
    requires |to| == |commands| && i < |commands| && to[i] == Some(session)
    ensures commands[i] in Selected(commands, to, session)
  {
    if i == 0 {
    } else {
      SelectedHolds(commands[1..], to[1..], session, i - 1);
    }
  }

  /** Exactly then every command of the run ends in the queue of the session it leads to. */
  lemma {:induction false} EveryCommandQueuedIff<S(!new)>(layout: Layout, h: HubState<S>, steps: seq<HubStep<S>>)
    requires Routed(h.registry) && Canonical(h.registry) && QueuesReady(h) && RememberedLeads(h.registry, h.status)
    ensures SignalsReach(h.registry, h.status, h.configs, steps) <==>
            forall i :: 0 <= i < |CommandsOf(h, steps)| ==>
              var to := Destinations(h.registry, h.status, h.configs, steps)[i];
              to.Some? && CommandsOf(h, steps)[i] in NewlyQueued(layout, h, steps, to.value)
  {
    var to := Destinations(h.registry, h.status, h.configs, steps);
    NoCommandLostIff(h.registry, h.status, h.configs, steps);
    forall i | 0 <= i < |CommandsOf(h, steps)| && to[i].Some?
      ensures CommandsOf(h, steps)[i] in NewlyQueued(layout, h, steps, to[i].value)
    {
      SelectedHolds(CommandsOf(h, steps), to, to[i].value, i);
      HubRunsEstimator(layout, h, steps, to[i].value);
    }
  }

  // ---------- who is commanded ----------

  /** `data[k]` is what arrived in step `k`, if a frame did. */
  ghost predicate ReadFrom<S>(steps: seq<HubStep<S>>, data: seq<Bytes>) {
    |data| == |steps|
    && forall k :: 0 <= k < |steps| && steps[k].Arrival? ==> ParseFrame(data[k]) == Ok(steps[k].d.frame)
  }

  /** The command passes validation unchanged and makes a frame that opens with the six MAC
      bytes of some frame that arrived. */
  ghost predicate AddressesSender<S>(c: CommandEvent, steps: seq<HubStep<S>>, data: seq<Bytes>)
    requires ReadFrom(steps, data)
  {
    && ValidateCommand(c.command) == Ok(c.command)
    && BuildCommandFrame(c.address, c.command).Ok?
    && exists k :: 0 <= k < |steps| && steps[k].Arrival?
                   && BuildCommandFrame(c.address, c.command).value[..6] == data[k][..6]
  }

  /** Every event comes from a frame of the run. */
  lemma {:induction false} EventsArrived<S>(configs: ConfigStore, steps: seq<HubStep<S>>, e: RawDataEvent)
    requires e in EventsOf(configs, steps)
    ensures exists k :: 0 <= k < |steps| && steps[k].Arrival? && e.mac == steps[k].d.frame.mac
    decreases |steps|
  {
    if e in EventsIn(configs, steps[0]) {
      assert steps[0].Arrival? && e.mac == steps[0].d.frame.mac;
    } else {
      EventsArrived(ConfigsAfter(configs, steps[0]), steps[1..], e);
      var k :| 0 <= k < |steps[1..]| && steps[1..][k].Arrival? && e.mac == steps[1..][k].d.frame.mac;
      assert steps[k + 1] == steps[1..][k];
    }
  }

  lemma CommandSender<S>(configs: ConfigStore, steps: seq<HubStep<S>>, data: seq<Bytes>, c: CommandEvent)
    requires ReadFrom(steps, data) && c in RunCommands(INITIAL_STATUS, EventsOf(configs, steps))
    ensures AddressesSender(c, steps, data)
  {
    var events := EventsOf(configs, steps);
    var n :| 0 <= n < |RunCommands(INITIAL_STATUS, events)| && RunCommands(INITIAL_STATUS, events)[n] == c;
    CommandsAreDeliverable(events, n);
    var bytes := BuildCommandFrame(c.address, c.command).value[..6];
    var i :| 0 <= i < |events| && MacToBytes(events[i].mac) == Ok(bytes);
    EventsArrived(configs, steps, events[i]);
    var k :| 0 <= k < |steps| && steps[k].Arrival? && events[i].mac == steps[k].d.frame.mac;
    ParsedFrameRebuilds(data[k]);
  }

  /** Address conservation, end to end: from a hub that has remembered nothing, in a run over
      frames of any sessions, every command newly queued addresses the sender of one of them. */
  lemma {:induction false} QueuedCommandsAddressSenders<S>(
    layout: Layout, h: HubState<S>, steps: seq<HubStep<S>>, data: seq<Bytes>, session: S, c: CommandEvent)
    requires h.status == INITIAL_STATUS && QueuesReady(h) && ReadFrom(steps, data)
    ensures QueueOf(h, session) <= QueueOf(RunHub(layout, h, steps), session)
    ensures c in NewlyQueued(layout, h, steps, session) ==> AddressesSender(c, steps, data)
  {
    var to, commands := Destinations(h.registry, h.status, h.configs, steps), CommandsOf(h, steps);
    HubRunsEstimator(layout, h, steps, session);
    SelectedAmong(commands, to, session);
    if c in NewlyQueued(layout, h, steps, session) {
      assert c in Selected(commands, to, session);
      CommandSender(h.configs, steps, data, c);
    }
  }
}
