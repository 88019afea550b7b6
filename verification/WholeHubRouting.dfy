/** Routing in the whole hub: session addresses, the frames on their way, and lost commands. */
module WholeHubRouting {
  import opened Common
  import opened MacAddress
  import opened Codec
  import opened Assembler
  import opened Estimator
  import opened EstimatorProofs
  import opened Session
  import opened SessionProofs
  import opened Registry
  import opened Central
  import opened RegistryProofs
  import opened RawLog
  import opened Config
  import opened Hub
  import opened RoutingProofs
  import opened HubProofs
  import opened WholeHub

  function Addresses<S>(sessions: map<S, Move>): map<S, string> {
    map s | s in sessions :: sessions[s].state.identity.address
  }

  function WiringOf<S>(y: System<S>): Wiring<S> {
    Wiring(y.hub.registry, Addresses(y.sessions))
  }

  /** A frame on its way to the handler has a canonical MAC and comes under an address that its
      session, stored under some key, has or has had. */
  ghost predicate OnItsWay<S>(r: RegistryState<S>, d: Delivery) {
    && Normalize(d.frame.mac) == Ok(d.frame.mac)
    && exists k :: k in r.sessions.vals && Held(r, k, d.source)
  }

  /** The wiring is right, every session is in the registry, and all frames come from sessions. */
  ghost predicate Sound<S>(y: System<S>) {
    && WiredRight(WiringOf(y))
    && (forall s :: s in y.sessions ==> s in y.hub.registry.sessions.vals.Values)
    && (forall n :: 0 <= n < |y.pending| ==> OnItsWay(y.hub.registry, y.pending[n]))
  }

  lemma AddressesPut<S>(sessions: map<S, Move>, s: S, m: Move)
    ensures Addresses(sessions[s := m]) == Addresses(sessions)[s := m.state.identity.address]
  {
  }

  // ---------- what one session hands on ----------

  ghost predicate CanonicalIn(effects: seq<Effect>) {
    forall k :: 0 <= k < |effects| && effects[k].Delivered? ==>
      Normalize(effects[k].frame.mac) == Ok(effects[k].frame.mac)
  }

  lemma {:induction false} ParsedOnlyCanonical(data: seq<Bytes>)
    ensures forall k :: 0 <= k < |ParsedOnly(data)| ==>
              Normalize(ParsedOnly(data)[k].mac) == Ok(ParsedOnly(data)[k].mac)
  {
    if data == [] {
    } else {
      ParsedOnlyCanonical(data[1..]);
      if ParseFrame(data[0]).Ok? {
        NormalizeMacText(data[0][..MAC_LEN]);
      }
    }
  }

  lemma StepHandsOnCanonical(s: SessionState, i: Input)
    ensures CanonicalIn(Step(s, i).effects)
  {
    match i
    case OnCall(call) => assert |AfterCall(s, call).effects| <= 1;
    case OnTask(event) => assert |AfterTask(s, event).effects| <= 1;
    case OnWorker(_) =>
    case OnNotify(chunk) => ParsedOnlyCanonical(Frames(Scan(MAX_FRAME_LEN, s.buffer + chunk).pieces));
  }

  lemma {:induction false} HandedOnRight<S>(r: RegistryState<S>, key: string, source: string, effects: seq<Effect>)
    requires FromSource(source, effects) && CanonicalIn(effects) && key in r.sessions.vals && Held(r, key, source)
    ensures forall n :: 0 <= n < |HandedOnIn(effects)| ==>
              OnItsWay(r, HandedOnIn(effects)[n]) && HandedOnIn(effects)[n].source == source
  {
    if effects == [] {
    } else {
      assert FromSource(source, effects[1..]) && CanonicalIn(effects[1..]);
      HandedOnRight(r, key, source, effects[1..]);
    }
  }

  // ---------- soundness is kept ----------

  lemma ProgressFrames<S>(y: System<S>, session: S, input: Input)
    requires Sound(y) && Possible(y, Progress(session, input))
    ensures var m := y.sessions[session];
            && Step(m.state, input).state.identity.address == m.state.identity.address
            && forall n :: 0 <= n < |HandedOnIn(Step(m.state, input).effects)| ==>
                 var d := HandedOnIn(Step(m.state, input).effects)[n];
                 OnItsWay(y.hub.registry, d) && d.source == m.state.identity.address
  {
    var m := y.sessions[session];
    var key :| key in y.hub.registry.sessions.vals && y.hub.registry.sessions.vals[key] == session;
    StepKeepsSource(m.state, input);
    StepHandsOnCanonical(m.state, input);
    assert Held(y.hub.registry, key, WiringOf(y).addresses[session]);
    HandedOnRight(y.hub.registry, key, m.state.identity.address, Step(m.state, input).effects);
  }

  lemma ProgressKeepsSound<S>(y: System<S>, session: S, input: Input)
    requires Sound(y) && Possible(y, Progress(session, input))
    ensures Sound(AfterProgress(y, session, input))
    ensures WiringOf(AfterProgress(y, session, input)) == WiringOf(y)
  {
    ProgressFrames(y, session, input);
    AddressesPut(y.sessions, session, Advance(y.sessions[session], input));
    assert Addresses(y.sessions)[session := Addresses(y.sessions)[session]] == Addresses(y.sessions);
  }

  lemma {:induction false} SendingKeepsAddresses<S>(
    r: RegistryState<S>, sessions: map<S, Move>, commands: seq<CommandEvent>)
    ensures Addresses(AllSent(r, sessions, commands)) == Addresses(sessions)
    decreases |commands|
  {
    if commands == [] {
    } else {
      assert Addresses(SentTo(r, sessions, commands[0])) == Addresses(sessions);
      SendingKeepsAddresses(r, SentTo(r, sessions, commands[0]), commands[1..]);
    }
  }

  lemma StaysOnItsWay<S(!new)>(r: RegistryState<S>, step: RouteStep<S>, d: Delivery)
    requires Routed(r) && Canonical(r) && OnItsWay(r, d)
    ensures OnItsWay(Route(r, step), d)
  {
    var k :| k in r.sessions.vals && Held(r, k, d.source);
    assert [step][1..] == [];
    assert RouteAll(r, [step]) == Route(r, step);
    HeldForever(r, [step], k, d.source);
    StepIsPermanent(r, step);
  }

  /** What a handled frame or a target seen does to the routing and the addresses. */
  lemma HandlingWires<S>(layout: Layout, y: System<S>, now: real)
    requires y.pending != []
    ensures WiringOf(AfterHandling(layout, y, now)) == Wire(WiringOf(y), RouteOf<S>(Arrival(y.pending[0], now)))
    ensures AfterHandling(layout, y, now).hub.registry.sessions == y.hub.registry.sessions
    ensures AfterHandling(layout, y, now).sessions.Keys == y.sessions.Keys
  {
    var step: HubStep<S> := Arrival(y.pending[0], now);
    var commands := RunCommands(y.hub.status, EventsIn(y.hub.configs, step));
    OneStep(layout, y.hub, step);
    SendingKeepsAddresses(StepHub(layout, y.hub, step).registry, y.sessions, commands);
    assert Addresses(AfterHandling(layout, y, now).sessions).Keys == Addresses(y.sessions).Keys;
    assert forall m: map<S, Move> :: Addresses(m).Keys == m.Keys;
  }

  lemma HandlingKeepsSound<S(!new)>(layout: Layout, y: System<S>, now: real)
    requires Sound(y) && y.pending != []
    ensures Sound(AfterHandling(layout, y, now))
  {
    var t, step := AfterHandling(layout, y, now), RouteOf<S>(Arrival(y.pending[0], now));
    HandlingWires(layout, y, now);
    WiringKept(WiringOf(y), step);
    forall n | 0 <= n < |t.pending| ensures OnItsWay(t.hub.registry, t.pending[n]) {
      StaysOnItsWay(y.hub.registry, step, y.pending[n + 1]);
    }
  }

  lemma SeenWires<S>(layout: Layout, y: System<S>, target: Target, newSession: S)
    requires Sound(y) && Possible(y, Seen(target, newSession))
    ensures var t := AfterSeen(layout, y, target, newSession);
            && WiringOf(t) == Wire(WiringOf(y), Ensure(target.address, newSession))
            && forall s :: s in t.sessions ==> s in t.hub.registry.sessions.vals.Values
  {
    var key, r := Normalize(target.address).value, y.hub.registry;
    if Find(r, key).Some? {
      FoundIsListed(r, key);
      RetargetedAddress(y.sessions, Find(r, key).value, target);
    } else {
      StartedAddress(y.sessions, newSession, target);
      AddedValues(r.sessions.vals, key, newSession);
    }
  }

  lemma StartedAddress<S>(sessions: map<S, Move>, s: S, target: Target)
    requires Normalize(target.address).Ok?
    ensures var key := Normalize(target.address).value;
            Addresses(sessions[s := Move(Opened(target, key), [])])
              == Addresses(sessions)[s := key]
  {
    var key := Normalize(target.address).value;
    AddressesPut(sessions, s, Move(Opened(target, key), []));
  }

  lemma RetargetedAddress<S>(sessions: map<S, Move>, s: S, target: Target)
    requires s in sessions && Normalize(target.address).Ok?
    ensures Addresses(sessions[s := Advance(sessions[s], OnCall(UpdateTarget(target)))])
         == Addresses(sessions)[s := Normalize(target.address).value]
  {
    AddressesPut(sessions, s, Advance(sessions[s], OnCall(UpdateTarget(target))));
  }

  lemma SeenKeepsSound<S(!new)>(layout: Layout, y: System<S>, target: Target, newSession: S)
    requires Sound(y) && Possible(y, Seen(target, newSession))
    ensures Sound(AfterSeen(layout, y, target, newSession))
  {
    var t, step := AfterSeen(layout, y, target, newSession), Ensure(target.address, newSession);
    SeenWires(layout, y, target, newSession);
    WiringKept(WiringOf(y), step);
    forall n | 0 <= n < |t.pending| ensures OnItsWay(t.hub.registry, t.pending[n]) {
      StaysOnItsWay(y.hub.registry, step, y.pending[n]);
    }
  }

  lemma StepKeepsSound<S(!new)>(layout: Layout, y: System<S>, i: SystemInput<S>)
    requires Sound(y)
    ensures Sound(StepSystem(layout, y, i))
  {
    if Possible(y, i) {
      match i
      case Progress(session, input) => ProgressKeepsSound(y, session, input);
      case HandleNext(now) => HandlingKeepsSound(layout, y, now);
      case Seen(target, newSession) => SeenKeepsSound(layout, y, target, newSession);
    }
  }

  /** In every run of a new hub: distinct keys hold distinct sessions with an address they can
      have, and no frame reaches the handler that it would refuse or that no session sent. */
  lemma {:induction false} SoundForever<S(!new)>(layout: Layout, y: System<S>, inputs: seq<SystemInput<S>>)
    requires Sound(y)
    ensures Sound(RunSystem(layout, y, inputs))
    decreases |inputs|
  {
    if inputs == [] {
    } else {
      StepKeepsSound(layout, y, inputs[0]);
      SoundForever(layout, StepSystem(layout, y, inputs[0]), inputs[1..]);
    }
  }

  lemma NewIsSound<S>(configs: ConfigStore, log: LogState)
    ensures Sound(NewSystem<S>(configs, log)) && Keyed(NewSystem<S>(configs, log))
  {
  }

  lemma HubStepUnfolds<S>(layout: Layout, y: System<S>, i: SystemInput<S>, inputs: seq<SystemInput<S>>)
    requires inputs != [] && inputs[0] == i
    ensures var first, later := HubStepsIn(y, i), HubSteps(layout, StepSystem(layout, y, i), inputs[1..]);
            && HubSteps(layout, y, inputs) == first + later
            && (if first == [] then HubSteps(layout, y, inputs) == later && StepSystem(layout, y, i).hub == y.hub
                else first == [first[0]] && (first + later)[1..] == later && (first + later)[0] == first[0]
                     && StepSystem(layout, y, i).hub == StepHub(layout, y.hub, first[0]))
  {
  }

  /** The handler never refuses a frame: whatever reaches it in a sound system has addresses that
      can be normalized. */
  lemma {:induction false} NoFrameRefused<S(!new)>(
    layout: Layout, y: System<S>, inputs: seq<SystemInput<S>>, k: nat)
    requires Sound(y) && k < |HubSteps(layout, y, inputs)| && HubSteps(layout, y, inputs)[k].Arrival?
    ensures Welcome(HubSteps(layout, y, inputs)[k].d)
    decreases |inputs|
  {
    var n := |HubStepsIn(y, inputs[0])|;
    HubStepUnfolds(layout, y, inputs[0], inputs);
    if k < n {
      assert OnItsWay(y.hub.registry, y.pending[0]);
    } else {
      StepKeepsSound(layout, y, inputs[0]);
      NoFrameRefused(layout, StepSystem(layout, y, inputs[0]), inputs[1..], k - n);
    }
  }

  // ---------- lost commands ----------

  /** Exactly when no command is lost in the whole system: every command of a run is accepted by
      the session it leads to if and only if, at every step that commands something, the frame's MAC
      is a key or an alias by then or the frame came under a key. */
  lemma {:induction false} EveryCommandAcceptedIff<S(!new)>(
    layout: Layout, configs: ConfigStore, log: LogState, inputs: seq<SystemInput<S>>)
    ensures var y := NewSystem<S>(configs, log);
            var steps, sessions := HubSteps(layout, y, inputs), RunSystem(layout, y, inputs).sessions;
            SignalsReach(y.hub.registry, INITIAL_STATUS, configs, steps) <==>
            forall i :: 0 <= i < |CommandsOf(y.hub, steps)| ==>
              var to := Destinations(y.hub.registry, INITIAL_STATUS, configs, steps)[i];
              && to.Some? && to.value in sessions
              && CommandsOf(y.hub, steps)[i] in Passed(Acceptance, sessions[to.value].effects)
  {
    var y := NewSystem<S>(configs, log);
    var steps, t := HubSteps(layout, y, inputs), RunSystem(layout, y, inputs);
    EveryCommandQueuedIff(layout, y.hub, steps);
    SystemRunsHub(layout, y, inputs);
    RunKeepsAccount(layout, y, inputs);
    forall s, c | c in NewlyQueued(layout, y.hub, steps, s)
      ensures s in t.sessions && c in Passed(Acceptance, t.sessions[s].effects)
    {
      assert InAccount(t.sessions[s], t.hub.queues[s]);
    }
    NoCommandLostIff(y.hub.registry, INITIAL_STATUS, configs, steps);
  }

  predicate NonKeyAlias<S>(r: RegistryState<S>, address: string) {
    address in r.aliases.vals && address !in r.sessions.vals
  }

  /** No target is ever seen under a node's alias. */
  predicate TargetsUnaliased<S>(layout: Layout, y: System<S>, inputs: seq<SystemInput<S>>)
    decreases |inputs|
  {
    inputs == [] ||
    (SeenUnaliased(y, inputs[0]) && TargetsUnaliased(layout, StepSystem(layout, y, inputs[0]), inputs[1..]))
  }

  predicate SeenUnaliased<S>(y: System<S>, i: SystemInput<S>) {
    i.Seen? && Possible(y, i) ==> !NonKeyAlias(y.hub.registry, Normalize(i.target.address).value)
  }

  /** Every session has its key for its address, and every frame on its way comes under a key. */
  ghost predicate Keyed<S>(y: System<S>) {
    && Sound(y) && OwnKeys(WiringOf(y))
    && UnderKeys(y.hub.registry, y.pending)
  }

  predicate UnderKeys<S>(r: RegistryState<S>, ds: seq<Delivery>) {
    forall n :: 0 <= n < |ds| ==> ds[n].source in r.sessions.vals
  }

  lemma UnderKeysStill<S>(r: RegistryState<S>, t: RegistryState<S>, before: seq<Delivery>, after: seq<Delivery>)
    requires UnderKeys(r, before) && forall d :: d in after ==> d in before || d.source in t.sessions.vals
    requires forall k :: k in r.sessions.vals ==> k in t.sessions.vals
    ensures UnderKeys(t, after)
  {
    forall n | 0 <= n < |after| ensures after[n].source in t.sessions.vals {
      assert after[n] in after;
    }
  }

  lemma ProgressKeepsKeyed<S>(y: System<S>, session: S, input: Input)
    requires Keyed(y) && Possible(y, Progress(session, input))
    ensures Keyed(AfterProgress(y, session, input))
  {
    ProgressKeepsSound(y, session, input);
    ProgressComesUnderKey(y, session, input);
    UnderKeysStill(y.hub.registry, y.hub.registry, y.pending, AfterProgress(y, session, input).pending);
  }

  lemma ProgressComesUnderKey<S>(y: System<S>, session: S, input: Input)
    requires Keyed(y) && Possible(y, Progress(session, input))
    ensures UnderKeys(y.hub.registry, HandedOnIn(Step(y.sessions[session].state, input).effects))
  {
    ProgressFrames(y, session, input);
    var key :| key in y.hub.registry.sessions.vals && y.hub.registry.sessions.vals[key] == session;
    assert WiringOf(y).addresses[session] == key;
  }

  lemma HandlingKeepsKeyed<S(!new)>(layout: Layout, y: System<S>, now: real)
    requires Keyed(y) && y.pending != []
    ensures Keyed(AfterHandling(layout, y, now))
  {
    HandlingKeepsSound(layout, y, now);
    HandlingKeepsOwnKeys(layout, y, now);
    HandlingWires(layout, y, now);
    UnderKeysStill(y.hub.registry, AfterHandling(layout, y, now).hub.registry, y.pending, y.pending[1..]);
  }

  lemma HandlingKeepsOwnKeys<S>(layout: Layout, y: System<S>, now: real)
    requires Keyed(y) && y.pending != []
    ensures WiredRight(WiringOf(AfterHandling(layout, y, now))) && OwnKeys(WiringOf(AfterHandling(layout, y, now)))
  {
    HandlingWires(layout, y, now);
    OwnKeysIff(WiringOf(y), RouteOf<S>(Arrival(y.pending[0], now)));
  }

  lemma SeenKeepsKeyed<S(!new)>(layout: Layout, y: System<S>, target: Target, newSession: S)
    requires Keyed(y) && Possible(y, Seen(target, newSession)) && SeenUnaliased(y, Seen(target, newSession))
    ensures Keyed(AfterSeen(layout, y, target, newSession))
  {
    SeenKeepsSound(layout, y, target, newSession);
    SeenWires(layout, y, target, newSession);
    OwnKeysIff(WiringOf(y), Ensure(target.address, newSession));
    StepIsPermanent(y.hub.registry, Ensure(target.address, newSession));
  }

  lemma StepKeepsKeyed<S(!new)>(layout: Layout, y: System<S>, i: SystemInput<S>)
    requires Keyed(y) && SeenUnaliased(y, i)
    ensures Keyed(StepSystem(layout, y, i))
  {
    if Possible(y, i) {
      match i
      case Progress(session, input) => ProgressKeepsKeyed(y, session, input);
      case HandleNext(now) => HandlingKeepsKeyed(layout, y, now);
      case Seen(target, newSession) => SeenKeepsKeyed(layout, y, target, newSession);
    }
  }

  lemma {:induction false} UnaliasedReaches<S(!new)>(layout: Layout, y: System<S>, inputs: seq<SystemInput<S>>)
    requires Keyed(y) && TargetsUnaliased(layout, y, inputs)
    ensures SignalsReach(y.hub.registry, y.hub.status, y.hub.configs, HubSteps(layout, y, inputs))
    decreases |inputs|
  {
    if inputs == [] {
    } else {
      var next := StepSystem(layout, y, inputs[0]);
      StepKeepsKeyed(layout, y, inputs[0]);
      UnaliasedReaches(layout, next, inputs[1..]);
      HubStepUnfolds(layout, y, inputs[0], inputs);
      var first := HubStepsIn(y, inputs[0]);
      if first != [] {
        OneStep(layout, y.hub, first[0]);
        if first[0].Arrival? {
          assert OnItsWay(y.hub.registry, y.pending[0]);
        }
      }
    }
  }

  /** A condition on the targets alone: in every run of a new hub in which no target is seen under
      a node's alias, every command is accepted by the session it leads to. */
  lemma {:induction false} UnaliasedRunLosesNothing<S(!new)>(
    layout: Layout, configs: ConfigStore, log: LogState, inputs: seq<SystemInput<S>>, i: nat)
    requires TargetsUnaliased(layout, NewSystem<S>(configs, log), inputs)
    requires i < |CommandsOf(NewSystem<S>(configs, log).hub, HubSteps(layout, NewSystem<S>(configs, log), inputs))|
    ensures var y := NewSystem<S>(configs, log);
            var steps, sessions := HubSteps(layout, y, inputs), RunSystem(layout, y, inputs).sessions;
            var to := Destinations(y.hub.registry, INITIAL_STATUS, configs, steps)[i];
            && to.Some? && to.value in sessions
            && CommandsOf(y.hub, steps)[i] in Passed(Acceptance, sessions[to.value].effects)
  {
    NewIsSound<S>(configs, log);
    UnaliasedReaches(layout, NewSystem<S>(configs, log), inputs);
    EveryCommandAcceptedIff<S>(layout, configs, log, inputs);
  }
}
