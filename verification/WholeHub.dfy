/** The whole hub as one system: every session, the frames on their way to the handler, and the
    daemon, interleaved in any order. */
module WholeHub {
  import opened Common
  import opened MacAddress
  import opened Estimator
  import opened EstimatorProofs
  import opened Session
  import opened SessionProofs
  import opened Registry
  import opened Central
  import opened RawLog
  import opened Config
  import opened Hub
  import opened HubProofs

  /** The daemon; each session with all that it has done; the frames handed on, not yet handled. */
  datatype System<!S> = System(hub: HubState<S>, sessions: map<S, Move>, pending: seq<Delivery>)

  /** A session makes progress, the handler of the oldest frame runs, or the scan sees a target. */
  datatype SystemInput<S> =
    | Progress(session: S, input: Input)
    | HandleNext(now: real)
    | Seen(target: Target, newSession: S)

  // ---------- specification ----------

  /** A hub that has just started. */
  function NewSystem<S>(configs: ConfigStore, log: LogState): System<S> {
    System(HubState(RegistryState(Dict([], map[]), Dict([], map[])), configs, INITIAL_STATUS, log, map[]), map[], [])
  }

  /** What reaches a session otherwise than through the daemon. */
  predicate OwnInput(i: Input) {
    i.OnCall? ==> i.call.RequestStop? || i.call.FinishStop?
  }

  function Advance(m: Move, i: Input): Move {
    var next := Step(m.state, i);
    Move(next.state, m.effects + next.effects)
  }

  function HandedOnIn(effects: seq<Effect>): seq<Delivery> {
    if effects == [] then []
    else (if effects[0].Delivered? then [Delivery(effects[0].source, effects[0].frame)] else [])
         + HandedOnIn(effects[1..])
  }

  /** `send_command` for one command, and for several one after the other. */
  function SentTo<S(==)>(r: RegistryState<S>, sessions: map<S, Move>, c: CommandEvent): map<S, Move> {
    match Destination(r, c.address)
    case Some(s) => if s in sessions then sessions[s := Advance(sessions[s], OnCall(SendCommand(c)))] else sessions
    case None => sessions
  }

  function AllSent<S(==)>(r: RegistryState<S>, sessions: map<S, Move>, commands: seq<CommandEvent>): map<S, Move>
    decreases |commands|
  {
    if commands == [] then sessions else AllSent(r, SentTo(r, sessions, commands[0]), commands[1..])
  }

  /** The session an address leads to is retargeted; without one a new session is started. */
  function SessionsTold<S(==)>(r: RegistryState<S>, sessions: map<S, Move>, key: string, target: Target, newSession: S)
    : map<S, Move>
  {
    match Find(r, key)
    case Some(s) =>
      if s in sessions then sessions[s := Advance(sessions[s], OnCall(UpdateTarget(target)))] else sessions
    case None => sessions[newSession := Move(Opened(target, key), [])]
  }

  /** An input that cannot occur changes nothing; a session object is new when it is made. */
  predicate Possible<S>(y: System<S>, i: SystemInput<S>) {
    match i
    case Progress(session, input) => session in y.sessions && OwnInput(input)
    case HandleNext(_) => y.pending != []
    case Seen(target, newSession) => newSession !in y.sessions && Normalize(target.address).Ok?
  }

  function AfterProgress<S(==)>(y: System<S>, session: S, input: Input): System<S>
    requires session in y.sessions
  {
    var m := y.sessions[session];
    y.(sessions := y.sessions[session := Advance(m, input)],
       pending := y.pending + HandedOnIn(Step(m.state, input).effects))
  }

  function AfterHandling<S(==)>(layout: Layout, y: System<S>, now: real): System<S>
    requires y.pending != []
  {
    var step := Arrival(y.pending[0], now);
    var hub := StepHub(layout, y.hub, step);
    var commands := RunCommands(y.hub.status, EventsIn(y.hub.configs, step));
    System(hub, AllSent(hub.registry, y.sessions, commands), y.pending[1..])
  }

  function AfterSeen<S(==)>(layout: Layout, y: System<S>, target: Target, newSession: S): System<S>
    requires Normalize(target.address).Ok?
  {
    y.(hub := StepHub(layout, y.hub, Sighting(target, newSession)),
       sessions := SessionsTold(y.hub.registry, y.sessions, Normalize(target.address).value, target, newSession))
  }

  function StepSystem<S(==)>(layout: Layout, y: System<S>, i: SystemInput<S>): System<S> {
    if !Possible(y, i) then y
    else
      match i
      case Progress(session, input) => AfterProgress(y, session, input)
      case HandleNext(now) => AfterHandling(layout, y, now)
      case Seen(target, newSession) => AfterSeen(layout, y, target, newSession)
  }

  function RunSystem<S(==)>(layout: Layout, y: System<S>, inputs: seq<SystemInput<S>>): System<S>
    decreases |inputs|
  {
    if inputs == [] then y else RunSystem(layout, StepSystem(layout, y, inputs[0]), inputs[1..])
  }

  // ---------- the daemon's part of a run is a run of the hub ----------

  function HubStepsIn<S>(y: System<S>, i: SystemInput<S>): seq<HubStep<S>> {
    if !Possible(y, i) then []
    else
      match i
      case Progress(_, _) => []
      case HandleNext(now) => [Arrival(y.pending[0], now)]
      case Seen(target, newSession) => [Sighting(target, newSession)]
  }

  /** What the daemon does in a run: frames in the order in which they were handed on. */
  function HubSteps<S(==)>(layout: Layout, y: System<S>, inputs: seq<SystemInput<S>>): seq<HubStep<S>>
    decreases |inputs|
  {
    if inputs == [] then []
    else HubStepsIn(y, inputs[0]) + HubSteps(layout, StepSystem(layout, y, inputs[0]), inputs[1..])
  }

  lemma {:induction false} SystemRunsHub<S>(layout: Layout, y: System<S>, inputs: seq<SystemInput<S>>)
    ensures RunSystem(layout, y, inputs).hub == RunHub(layout, y.hub, HubSteps(layout, y, inputs))
    decreases |inputs|
  {
    if inputs == [] {
    } else {
      var next := StepSystem(layout, y, inputs[0]);
      var first, later := HubStepsIn(y, inputs[0]), HubSteps(layout, next, inputs[1..]);
      SystemRunsHub(layout, next, inputs[1..]);
      if first == [] {
        assert first + later == later;
      } else {
        assert (first + later)[1..] == later && (first + later)[0] == first[0];
      }
    }
  }

  // ---------- each session's part is a run of the session ----------

  /** A run of the session machine from a new session on. */
  ghost predicate FromNew(m: Move) {
    exists target: Target, inputs: seq<Input> :: RunFromNew(target, inputs, m)
  }

  ghost predicate RunFromNew(target: Target, inputs: seq<Input>, m: Move) {
    Normalize(target.address).Ok? && m == Run(NewState(target, Normalize(target.address).value), inputs)
  }

  lemma {:induction false} RunSnoc(s: SessionState, inputs: seq<Input>, i: Input)
    ensures Run(s, inputs + [i]) == Advance(Run(s, inputs), i)
    decreases |inputs|
  {
    if inputs == [] {
      assert [i][1..] == [];
    } else {
      var first := Step(s, inputs[0]);
      RunSnoc(first.state, inputs[1..], i);
      assert (inputs + [i])[1..] == inputs[1..] + [i];
      var rest := Run(first.state, inputs[1..]);
      Assoc(first.effects, rest.effects, Step(rest.state, i).effects);
    }
  }

  lemma AdvanceFromNew(m: Move, i: Input)
    requires FromNew(m)
    ensures FromNew(Advance(m, i))
  {
    var target: Target, inputs: seq<Input> :| RunFromNew(target, inputs, m);
    RunSnoc(NewState(target, Normalize(target.address).value), inputs, i);
    assert RunFromNew(target, inputs + [i], Advance(m, i));
  }

  lemma NewIsFromNew(target: Target)
    requires Normalize(target.address).Ok?
    ensures FromNew(Move(NewState(target, Normalize(target.address).value), []))
  {
    assert RunFromNew(target, [], Move(NewState(target, Normalize(target.address).value), []));
  }

  // ---------- queued by the daemon is accepted by the session ----------

  /** The session is a run from a new one, and has accepted exactly what was queued on it. */
  ghost predicate InAccount(m: Move, queue: seq<CommandEvent>) {
    FromNew(m) && Passed(Acceptance, m.effects) == queue
  }

  ghost predicate Accounted<S>(sessions: map<S, Move>, queues: Queues<S>) {
    sessions.Keys == queues.Keys && forall s :: s in sessions ==> InAccount(sessions[s], queues[s])
  }

  lemma AcceptsOne(m: Move, c: CommandEvent)
    ensures Passed(Acceptance, Advance(m, OnCall(SendCommand(c))).effects) == Passed(Acceptance, m.effects) + [c]
  {
    PassedAppend(Acceptance, m.effects, [Accepted(c)]);
    FewEffects(Acceptance, [Accepted(c)]);
  }

  lemma AcceptsNothing(m: Move, i: Input)
    requires i.OnCall? ==> !i.call.SendCommand?
    ensures Passed(Acceptance, Advance(m, i).effects) == Passed(Acceptance, m.effects)
  {
    var effects := Step(m.state, i).effects;
    PassedAppend(Acceptance, m.effects, effects);
    match i
    case OnCall(_) => FewEffects(Acceptance, effects);
    case OnTask(_) => FewEffects(Acceptance, effects);
    case OnWorker(_) => FewEffects(Acceptance, effects);
    case OnNotify(chunk) => NotifyEffects(m.state, chunk);
  }

  lemma PutKeepsAccount<S>(sessions: map<S, Move>, queues: Queues<S>, s: S, m: Move, queue: seq<CommandEvent>)
    requires Accounted(sessions, queues) && InAccount(m, queue)
    ensures Accounted(sessions[s := m], queues[s := queue])
  {
  }

  lemma SendKeepsAccount<S>(sessions: map<S, Move>, queues: Queues<S>, s: S, c: CommandEvent)
    requires Accounted(sessions, queues) && s in sessions
    ensures Accounted(sessions[s := Advance(sessions[s], OnCall(SendCommand(c)))], queues[s := queues[s] + [c]])
  {
    assert InAccount(sessions[s], queues[s]);
    AcceptsOne(sessions[s], c);
    AdvanceFromNew(sessions[s], OnCall(SendCommand(c)));
    PutKeepsAccount(sessions, queues, s, Advance(sessions[s], OnCall(SendCommand(c))), queues[s] + [c]);
  }

  lemma AdvanceInAccount(m: Move, queue: seq<CommandEvent>, i: Input)
    requires InAccount(m, queue) && (i.OnCall? ==> !i.call.SendCommand?)
    ensures InAccount(Advance(m, i), queue)
  {
    AcceptsNothing(m, i);
    AdvanceFromNew(m, i);
  }

  lemma AdvanceKeepsAccount<S>(sessions: map<S, Move>, queues: Queues<S>, s: S, i: Input)
    requires Accounted(sessions, queues) && s in sessions && (i.OnCall? ==> !i.call.SendCommand?)
    ensures Accounted(sessions[s := Advance(sessions[s], i)], queues)
  {
    AdvanceInAccount(sessions[s], queues[s], i);
    PutKeepsAccount(sessions, queues, s, Advance(sessions[s], i), queues[s]);
    assert queues[s := queues[s]] == queues;
  }

  lemma OpenedInAccount(target: Target)
    requires Normalize(target.address).Ok?
    ensures InAccount(Move(Opened(target, Normalize(target.address).value), []), [])
  {
    var made := Move(NewState(target, Normalize(target.address).value), []);
    NewIsFromNew(target);
    AdvanceFromNew(made, OnCall(Start));
    assert Advance(made, OnCall(Start)) == Move(Opened(target, Normalize(target.address).value), []);
  }

  lemma StartKeepsAccount<S>(sessions: map<S, Move>, queues: Queues<S>, s: S, target: Target)
    requires Accounted(sessions, queues) && s !in sessions && Normalize(target.address).Ok?
    ensures Accounted(sessions[s := Move(Opened(target, Normalize(target.address).value), [])], queues[s := []])
  {
    OpenedInAccount(target);
    PutKeepsAccount(sessions, queues, s, Move(Opened(target, Normalize(target.address).value), []), []);
  }

  lemma {:induction false} SendingKeepsAccount<S>(
    r: RegistryState<S>, sessions: map<S, Move>, queues: Queues<S>, commands: seq<CommandEvent>)
    requires Accounted(sessions, queues)
    ensures Accounted(AllSent(r, sessions, commands), DispatchedAll(r, queues, commands))
    decreases |commands|
  {
    if commands == [] {
    } else {
      var c := commands[0];
      var to := Destination(r, c.address);
      if to.Some? && to.value in sessions {
        SendKeepsAccount(sessions, queues, to.value, c);
      }
      SendingKeepsAccount(r, SentTo(r, sessions, c), Dispatched(r, queues, c), commands[1..]);
    }
  }

  lemma SeenKeepsAccount<S>(layout: Layout, y: System<S>, target: Target, newSession: S)
    requires Accounted(y.sessions, y.hub.queues) && Possible(y, Seen(target, newSession))
    ensures var t := AfterSeen(layout, y, target, newSession);
            Accounted(t.sessions, t.hub.queues)
  {
    var found := Find(y.hub.registry, Normalize(target.address).value);
    if found.None? {
      StartKeepsAccount(y.sessions, y.hub.queues, newSession, target);
    } else if found.value in y.sessions {
      AdvanceKeepsAccount(y.sessions, y.hub.queues, found.value, OnCall(UpdateTarget(target)));
    }
  }

  lemma StepKeepsAccount<S>(layout: Layout, y: System<S>, i: SystemInput<S>)
    requires Accounted(y.sessions, y.hub.queues)
    ensures var t := StepSystem(layout, y, i);
            Accounted(t.sessions, t.hub.queues)
  {
    if Possible(y, i) {
      match i
      case Progress(session, input) => AdvanceKeepsAccount(y.sessions, y.hub.queues, session, input);
      case HandleNext(now) =>
        var step := Arrival(y.pending[0], now);
        OneStep(layout, y.hub, step);
        SendingKeepsAccount(StepHub(layout, y.hub, step).registry, y.sessions, y.hub.queues,
                            RunCommands(y.hub.status, EventsIn(y.hub.configs, step)));
      case Seen(target, newSession) => SeenKeepsAccount(layout, y, target, newSession);
    }
  }

  lemma {:induction false} RunKeepsAccount<S>(layout: Layout, y: System<S>, inputs: seq<SystemInput<S>>)
    requires Accounted(y.sessions, y.hub.queues)
    ensures var t := RunSystem(layout, y, inputs);
            Accounted(t.sessions, t.hub.queues)
    decreases |inputs|
  {
    if inputs == [] {
    } else {
      StepKeepsAccount(layout, y, inputs[0]);
      RunKeepsAccount(layout, StepSystem(layout, y, inputs[0]), inputs[1..]);
    }
  }

  // ---------- what is written is what was routed ----------

  lemma FromNewAccounts(m: Move)
    requires FromNew(m)
    ensures Passed(Acceptance, m.effects) == Passed(Ending, m.effects) + InFlight(m.state) + m.state.queue
    ensures Subsequence(Passed(Sending, m.effects), Passed(Acceptance, m.effects)) && SentMatch(m.effects)
  {
    var target: Target, inputs: seq<Input> :| RunFromNew(target, inputs, m);
    EveryCommandAccounted(target, Normalize(target.address).value, inputs);
    WrittenFramesAreCommands(NewState(target, Normalize(target.address).value), inputs);
    SentAmongFinished(m.effects, InFlight(m.state) + m.state.queue);
    Assoc(Passed(Ending, m.effects), InFlight(m.state), m.state.queue);
  }

  /** The commands that the estimator makes of the frames of a run and that lead to a session. */
  function RoutedInRun<S(==)>(
    layout: Layout, y: System<S>, inputs: seq<SystemInput<S>>, session: S): seq<CommandEvent>
  {
    var steps := HubSteps(layout, y, inputs);
    Selected(CommandsOf(y.hub, steps), Destinations(y.hub.registry, y.hub.status, y.hub.configs, steps), session)
  }

  /** From the radio to the radio: in every run of a new hub, over any interleaving of notified
      bytes, connections, failures, stops, targets seen and frames handled, the commands routed to
      a session are, in order, those it has finished, the one in flight and those queued; those it
      has written are an in-order, at-most-once selection of them, and each frame written is the
      frame of its command. */
  lemma {:induction false} WrittenIsRouted<S>(
    layout: Layout, configs: ConfigStore, log: LogState, inputs: seq<SystemInput<S>>, session: S)
    requires session in RunSystem(layout, NewSystem(configs, log), inputs).sessions
    ensures var y := NewSystem(configs, log);
            var m, routed := RunSystem(layout, y, inputs).sessions[session], RoutedInRun(layout, y, inputs, session);
            && FromNew(m)
            && routed == Passed(Ending, m.effects) + InFlight(m.state) + m.state.queue
            && Subsequence(Passed(Sending, m.effects), routed)
            && SentMatch(m.effects)
  {
    var y := NewSystem<S>(configs, log);
    var t := RunSystem(layout, y, inputs);
    SystemRunsHub(layout, y, inputs);
    RunKeepsAccount(layout, y, inputs);
    HubRunsEstimator(layout, y.hub, HubSteps(layout, y, inputs), session);
    FromNewAccounts(t.sessions[session]);
    assert [] + RoutedInRun(layout, y, inputs, session) == RoutedInRun(layout, y, inputs, session);
  }
}
