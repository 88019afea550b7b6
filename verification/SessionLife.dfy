/** What a session gets done: cycles of a connection, the worker's progress, stopping, targets. */
module SessionLife {
  import opened Common
  import opened MacAddress
  import opened Codec
  import opened Estimator
  import opened Session
  import opened SessionProofs
  import opened WireFormat

  // ---------- cycles of a connection ----------

  lemma RunThen(s: SessionState, i: Input, inputs: seq<Input>)
    ensures var m, rest := Step(s, i), Run(Step(s, i).state, inputs);
            Run(s, [i] + inputs) == Move(rest.state, m.effects + rest.effects)
  {
    assert ([i] + inputs)[1..] == inputs;
  }

  lemma RunTwo(s: SessionState, i: Input, j: Input)
    ensures var a := Step(s, i);
            var b := Step(a.state, j);
            Run(s, [i, j]) == Move(b.state, a.effects + b.effects)
  {
    assert [i, j] == [i] + [j];
    RunThen(s, i, [j]);
    RunThen(Step(s, i).state, j, []);
  }

  lemma RunThree(s: SessionState, i: Input, j: Input, k: Input)
    ensures var a := Step(s, i);
            var b := Step(a.state, j);
            var c := Step(b.state, k);
            Run(s, [i, j, k]) == Move(c.state, a.effects + (b.effects + c.effects))
  {
    assert [i, j, k] == [i] + [j, k];
    RunThen(s, i, [j, k]);
    RunTwo(Step(s, i).state, j, k);
  }

  lemma RunFour(s: SessionState, i: Input, j: Input, k: Input, l: Input)
    ensures var a := Step(s, i);
            var b := Step(a.state, j);
            var c := Step(b.state, k);
            var d := Step(c.state, l);
            Run(s, [i, j, k, l]) == Move(d.state, a.effects + (b.effects + (c.effects + d.effects)))
  {
    assert [i, j, k, l] == [i] + [j, k, l];
    RunThen(s, i, [j, k, l]);
    RunThree(Step(s, i).state, j, k, l);
  }

  /** A session that waits and has been given a target: it connects to exactly that target, is
      subscribed, forgets its last error and the bytes of earlier connections, and has a worker. */
  lemma Connects(s: SessionState, isConnected: bool)
    requires s.link.phase == Waiting && s.link.targetUpdated && !s.link.stopRequested
    ensures var m := Run(s, [OnTask(Poll), OnTask(LockGranted), OnTask(Connected(isConnected)), OnTask(Subscribed)]);
            && m.effects == [Attempt(s.identity.target)]
            && m.state == SessionState(s.identity, Link(Running, isConnected, true, false, false, false, false, false),
                                       None, s.queue, Fresh, [])
  {
    RunFour(s, OnTask(Poll), OnTask(LockGranted), OnTask(Connected(isConnected)), OnTask(Subscribed));
  }

  /** A connection that is lost: the worker is gone, the flags are cleared, and the session waits
      for its target to be seen again, its queue and its last error kept. */
  lemma LosesConnection(s: SessionState)
    requires s.link.phase == Running && !s.link.stopRequested && !s.worker.Writing?
    ensures var m := Run(s, [OnTask(LinkDropped), OnTask(Wake), OnTask(Reap), OnTask(TornDown(false))]);
            && m.effects == []
            && m.state == s.(link := Link(Waiting, false, false, true, s.link.unavailableLogged, false,
                                          s.link.targetUpdated, true), worker := Absent)
  {
    RunFour(s, OnTask(LinkDropped), OnTask(Wake), OnTask(Reap), OnTask(TornDown(false)));
    WatchSteps(s);
    var a := s.(link := s.link.(linkDropped := true));
    WatchSteps(a);
    var b := a.(link := a.link.(phase := Reaping));
    WatchSteps(b);
    TornDownStep(b.(link := b.link.(phase := TearingDown), worker := Absent));
  }

  lemma WatchSteps(s: SessionState)
    ensures s.link.phase.Running? ==>
              AfterTask(s, LinkDropped) == Move(s.(link := s.link.(linkDropped := true)), [])
    ensures s.link.phase.Running? && (s.link.stopRequested || s.link.linkDropped) ==>
              AfterTask(s, Wake) == Move(s.(link := s.link.(phase := Reaping)), [])
    ensures s.link.phase.Reaping? && !s.worker.Writing? ==>
              AfterTask(s, Reap) == Move(s.(link := s.link.(phase := TearingDown), worker := Absent), [])
  {
  }

  lemma TornDownStep(s: SessionState)
    requires s.link.phase.TearingDown?
    ensures var phase := if s.link.stopRequested then Ended(false) else Waiting;
            AfterTask(s, TornDown(false))
            == Move(s.(link := Link(phase, false, false, s.link.waitingForAdvertisement || !s.link.stopRequested,
                                    s.link.unavailableLogged, s.link.stopRequested, s.link.targetUpdated,
                                    s.link.linkDropped)), [])
  {
  }

  /** A client that still reports a connection is disconnected first; the end is the same. */
  lemma DisconnectsLast(s: SessionState)
    requires s.link.phase == TearingDown && s.link.clientHeld
    ensures Run(s, [OnTask(TornDown(true)), OnTask(Closed(false))]).state
         == AfterTask(s, TornDown(false)).state
  {
    RunTwo(s, OnTask(TornDown(true)), OnTask(Closed(false)));
    TornDownStep(s);
    ClosingSteps(s);
    ClosingSteps(s.(link := s.link.(phase := Closing)));
  }

  lemma ClosingSteps(s: SessionState)
    ensures s.link.phase.TearingDown? && s.link.clientHeld ==>
              AfterTask(s, TornDown(true)) == Move(s.(link := s.link.(phase := Closing)), [])
    ensures s.link.phase.Closing? ==> AfterTask(s, Closed(false)) == Move(s.(link := Left(s.link)), [])
  {
  }

  /** A connection attempt that fails: the error is kept, and the session waits for its target
      without claiming to be connected. */
  lemma FailsToConnect(s: SessionState, expected: bool, message: string)
    requires s.link.phase == Waiting && s.link.targetUpdated && !s.link.stopRequested && !s.link.clientHeld
    ensures forall alive :: Run(s, [OnTask(Poll), OnTask(LockGranted), OnTask(Failed(expected, message, alive))])
              == Move(s.(link := Link(Waiting, false, false, true, s.link.unavailableLogged || expected, false,
                                      false, false),
                         lastError := Some(message)),
                      [Attempt(s.identity.target)])
  {
    forall alive ensures Run(s, [OnTask(Poll), OnTask(LockGranted), OnTask(Failed(expected, message, alive))])
              == Move(s.(link := Link(Waiting, false, false, true, s.link.unavailableLogged || expected, false,
                                      false, false),
                         lastError := Some(message)),
                      [Attempt(s.identity.target)])
    {
      RunThree(s, OnTask(Poll), OnTask(LockGranted), OnTask(Failed(expected, message, alive)));
    }
  }

  /** An exception while the client is made, connects, subscribes or is torn down always ends the
      attempt: its text is kept, and without a live client the session waits or, asked to stop, ends. */
  lemma FailsAnywhere(s: SessionState, expected: bool, message: string)
    requires s.link.phase in {Locking, Phase.Connecting, Subscribing, TearingDown}
    ensures var t := AfterTask(s, Failed(expected, message, false)).state;
            && t.lastError == Some(message) && !t.link.connected && !t.link.clientHeld
            && t.link.phase == if s.link.stopRequested then Ended(false) else Waiting
  {
  }

  /** A link lost while the session still subscribes is noticed once it watches. */
  lemma EarlyLossIsNoticed(s: SessionState)
    requires s.link.phase in {Phase.Connecting, Subscribing} && !s.link.stopRequested
    ensures var lost := AfterTask(s, LinkDropped).state;
            var subscribing := if s.link.phase == Subscribing then lost else AfterTask(lost, Connected(true)).state;
            && subscribing.link.linkDropped
            && AfterTask(AfterTask(subscribing, Subscribed).state, Wake).state.link.phase == Reaping
  {
  }

  /** A failed session tries again as soon as its target is seen again, and under the new target. */
  lemma TriesAgain(s: SessionState, target: Target)
    requires s.link.phase == Waiting && !s.link.stopRequested && Normalize(target.address).Ok?
    ensures var name := if target.name != "" then target.name else s.identity.name;
            Run(s, [OnCall(UpdateTarget(target)), OnTask(Poll)])
            == Move(s.(identity := Identity(target, Normalize(target.address).value, name),
                       link := s.link.(phase := Locking, waitingForAdvertisement := false, targetUpdated := false,
                                       linkDropped := false)),
                    [Retargeted, Attempt(target)])
    ensures !s.link.targetUpdated ==> Run(s, [OnTask(Poll)]) == Move(s, [])
  {
    RunTwo(s, OnCall(UpdateTarget(target)), OnTask(Poll));
    RunThen(s, OnTask(Poll), []);
    assert [OnTask(Poll)] == [OnTask(Poll)] + [];
  }

  /** A connected session that is stopped disconnects and can be started again. */
  lemma StopsAndJoins(s: SessionState)
    requires s.link.phase == Running && !s.worker.Writing?
    ensures var m := Run(AfterCall(s, RequestStop).state,
                         [OnTask(Wake), OnTask(Reap), OnTask(TornDown(false)), OnCall(FinishStop)]);
            && m.effects == []
            && m.state == s.(link := s.link.(phase := Idle, connected := false, clientHeld := false,
                                             stopRequested := true), worker := Absent)
            && AfterCall(m.state, Start).state.link == m.state.link.(phase := Waiting, stopRequested := false)
  {
    var t := AfterCall(s, RequestStop).state;
    RunFour(t, OnTask(Wake), OnTask(Reap), OnTask(TornDown(false)), OnCall(FinishStop));
    WatchSteps(t);
    var b := t.(link := t.link.(phase := Reaping));
    WatchSteps(b);
    TornDownStep(b.(link := b.link.(phase := TearingDown), worker := Absent));
  }

  // ---------- a running session has a worker ----------

  /** A worker exists exactly while its task watches a connection. */
  predicate WorkerExact(s: SessionState) {
    !s.worker.Absent? <==> s.link.phase.Running? || s.link.phase.Reaping?
  }

  lemma StepKeepsWorkerExact(s: SessionState, i: Input)
    requires WorkerExact(s)
    ensures WorkerExact(Step(s, i).state)
  {
    match i
    case OnCall(call) => CallKeepsWorkerExact(s, call);
    case OnTask(event) => TaskKeepsWorkerExact(s, event);
    case OnWorker(work) => WorkKeepsWorkerExact(s, work);
    case OnNotify(chunk) =>
      assert AfterNotify(s, chunk).state.link == s.link && AfterNotify(s, chunk).state.worker == s.worker;
  }

  lemma CallKeepsWorkerExact(s: SessionState, call: SessionCall)
    requires WorkerExact(s)
    ensures WorkerExact(AfterCall(s, call).state)
  {
  }

  lemma WorkKeepsWorkerExact(s: SessionState, work: WorkerEvent)
    ensures AfterWork(s, work).state.link == s.link
    ensures AfterWork(s, work).state.worker.Absent? <==> s.worker.Absent?
  {
  }

  lemma TaskKeepsWorkerExact(s: SessionState, event: TaskEvent)
    requires WorkerExact(s)
    ensures WorkerExact(AfterTask(s, event).state)
  {
    match event
    case Poll =>
    case Failed(_, _, _) =>
    case Reap =>
    case Subscribed =>
    case _ =>
  }

  /** In every run of a new session: a worker exists exactly while a connection is watched. */
  lemma {:induction false} RunningHasWorker(s: SessionState, inputs: seq<Input>)
    requires WorkerExact(s)
    ensures WorkerExact(Run(s, inputs).state)
    ensures forall target, address :: WorkerExact(NewState(target, address))
    decreases |inputs|
  {
    if inputs == [] {
    } else {
      StepKeepsWorkerExact(s, inputs[0]);
      RunningHasWorker(Step(s, inputs[0]).state, inputs[1..]);
    }
  }

  // ---------- the worker makes progress ----------

  predicate Buildable(c: CommandEvent) {
    BuildCommandFrame(c.address, c.command).Ok?
  }

  /** Connected, not asked to stop, the worker at work, and every queued command can be framed. */
  predicate Serving(s: SessionState) {
    && s.link.phase.Running? && !s.link.stopRequested
    && (s.worker.Fresh? || s.worker.Getting? || s.worker.Writing?)
    && forall k :: 0 <= k < |s.queue| ==> Buildable(s.queue[k])
  }

  /** Nothing that ends the connection or fails a write. */
  predicate Undisturbed(i: Input) {
    match i
    case OnCall(call) => !call.RequestStop? && (call.SendCommand? ==> Buildable(call.command))
    case OnTask(event) => !event.Wake?
    case OnWorker(work) => work.WriteDone? ==> work.ok
    case OnNotify(_) => true
  }

  /** The steps that the worker owes: two a command, one for what it has begun. */
  function Debt(s: SessionState): nat {
    2 * |s.queue| + if s.worker.Writing? || s.worker.Fresh? then 1 else 0
  }

  /** The steps that the worker makes in a run. */
  function Worked(s: SessionState, inputs: seq<Input>): nat
    decreases |inputs|
  {
    if inputs == [] then 0 else WorksAt(s, inputs[0]) + Worked(Step(s, inputs[0]).state, inputs[1..])
  }

  function WorksAt(s: SessionState, i: Input): nat {
    if i.OnWorker? && WorkerReady(s, i.work) then 1 else 0
  }

  /** What one undisturbed step does: the debt is paid step by step, and every command is on its way. */
  ghost predicate Serves(s: SessionState, worked: nat, m: Move) {
    && Serving(m.state)
    && Debt(m.state) + worked == Debt(s) + 2 * |Passed(Acceptance, m.effects)|
    && Flows(InFlight(s), s.queue, Passed(Acceptance, m.effects), Passed(Sending, m.effects),
             InFlight(m.state), m.state.queue)
  }

  /** What was in flight and queued, and what came, is what went out and is in flight and queued. */
  predicate Flows<T(==)>(flight: seq<T>, queue: seq<T>, came: seq<T>, went: seq<T>, flight1: seq<T>, queue1: seq<T>) {
    flight + (queue + came) == went + (flight1 + queue1)
  }

  lemma FlowSteps<T>(flight: seq<T>, queue: seq<T>, c: T)
    ensures Flows(flight, queue, [], [], flight, queue)
    ensures Flows(flight, queue, [c], [], flight, queue + [c])
    ensures Flows([c], queue, [], [c], [], queue)
    ensures queue != [] ==> Flows([], queue, [], [], [queue[0]], queue[1..])
  {
    assert flight + (queue + []) == [] + (flight + queue);
    assert [] + (flight + (queue + [c])) == flight + (queue + [c]);
    assert [c] + (queue + []) == [c] + ([] + queue);
    if queue != [] {
      assert [] + (queue + []) == [] + ([queue[0]] + queue[1..]);
    }
  }

  lemma PassedOne(gate: Gate, e: Effect)
    ensures Passed(gate, [e]) == Through(gate, e)
  {
    FewEffects(gate, [e]);
  }

  lemma SendServes(s: SessionState, c: CommandEvent)
    requires Serving(s) && Buildable(c)
    ensures Serves(s, 0, Move(s.(queue := s.queue + [c]), [Accepted(c)]))
  {
    PassedOne(Acceptance, Accepted(c));
    PassedOne(Sending, Accepted(c));
    FlowSteps(InFlight(s), s.queue, c);
  }

  /** A call that queues nothing leaves a serving session serving. */
  lemma OtherCall(s: SessionState, call: SessionCall)
    requires Serving(s) && Undisturbed(OnCall(call)) && !call.SendCommand?
    ensures var m := AfterCall(s, call);
            && Serving(m.state) && m.state.queue == s.queue && m.state.worker == s.worker
            && (m.effects == [] || m.effects == [Retargeted])
  {
  }

  lemma CallServes(s: SessionState, call: SessionCall)
    requires Serving(s) && Undisturbed(OnCall(call))
    ensures Serves(s, 0, AfterCall(s, call))
  {
    if call.SendCommand? {
      SendServes(s, call.command);
    } else {
      OtherCall(s, call);
      PassedOne(Acceptance, Retargeted);
      PassedOne(Sending, Retargeted);
      FlowSteps(InFlight(s), s.queue, CommandEvent("", "", ""));
    }
  }

  lemma TaskServes(s: SessionState, event: TaskEvent)
    requires Serving(s) && Undisturbed(OnTask(event))
    ensures Serves(s, 0, AfterTask(s, event))
  {
    assert AfterTask(s, event).effects == [];
    FlowSteps(InFlight(s), s.queue, CommandEvent("", "", ""));
  }

  lemma LoopTopServes(s: SessionState)
    requires Serving(s)
    ensures Serves(s, WorksAt(s, OnWorker(LoopTop)), AfterWork(s, LoopTop))
  {
    FlowSteps(InFlight(s), s.queue, CommandEvent("", "", ""));
  }

  lemma GetServes(s: SessionState, message: string)
    requires Serving(s)
    ensures Serves(s, WorksAt(s, OnWorker(Get(message))), AfterWork(s, Get(message)))
  {
    if WorkerReady(s, Get(message)) {
      assert Buildable(s.queue[0]);
      TakenStep(s, message);
      PassedOne(Acceptance, Dequeued(s.queue[0]));
      PassedOne(Sending, Dequeued(s.queue[0]));
      FlowSteps([], s.queue, s.queue[0]);
    } else {
      NothingServes(s);
    }
  }

  lemma WriteDoneServes(s: SessionState, message: string)
    requires Serving(s)
    ensures Serves(s, WorksAt(s, OnWorker(WriteDone(true, message))), AfterWork(s, WriteDone(true, message)))
  {
    if s.worker.Writing? {
      WrittenStep(s, message);
      FinishedServes(s, s.worker.frame);
    } else {
      NothingServes(s);
    }
  }

  lemma NothingServes(s: SessionState)
    requires Serving(s)
    ensures Serves(s, 0, Move(s, []))
  {
    FlowSteps(InFlight(s), s.queue, CommandEvent("", "", ""));
  }

  lemma FinishedServes(s: SessionState, frame: Bytes)
    requires Serving(s) && s.worker.Writing?
    ensures Serves(s, 1, Move(s.(worker := Getting), [Finished(s.worker.command, Sent(frame))]))
  {
    PassedOne(Acceptance, Finished(s.worker.command, Sent(frame)));
    PassedOne(Sending, Finished(s.worker.command, Sent(frame)));
    FlowSteps([], s.queue, s.worker.command);
  }

  lemma WrittenStep(s: SessionState, message: string)
    requires s.worker.Writing? && !s.link.stopRequested
    ensures AfterWork(s, WriteDone(true, message))
         == Move(s.(worker := Getting), [Finished(s.worker.command, Sent(s.worker.frame))])
  {
  }

  lemma TakenStep(s: SessionState, message: string)
    requires s.worker.Getting? && s.queue != [] && Buildable(s.queue[0])
    ensures var c := s.queue[0];
            AfterWork(s, Get(message))
            == Move(s.(queue := s.queue[1..], worker := Writing(c, BuildCommandFrame(c.address, c.command).value)),
                    [Dequeued(c)])
  {
  }

  lemma StepServes(s: SessionState, i: Input)
    requires Serving(s) && Undisturbed(i)
    ensures Serves(s, WorksAt(s, i), Step(s, i))
  {
    match i
    case OnCall(call) => CallServes(s, call);
    case OnTask(event) => TaskServes(s, event);
    case OnWorker(LoopTop) => LoopTopServes(s);
    case OnWorker(Get(message)) => GetServes(s, message);
    case OnWorker(WriteDone(_, message)) => WriteDoneServes(s, message);
    case OnNotify(chunk) =>
      NotifyEffects(s, chunk);
      FlowSteps(InFlight(s), s.queue, CommandEvent("", "", ""));
  }

  /** Progress of the worker, exactly, among any other inputs of a healthy connection: every step
      pays one unit of what it owes, and no command is written but in order. */
  lemma {:induction false} ServingRun(s: SessionState, inputs: seq<Input>)
    requires Serving(s) && forall k :: 0 <= k < |inputs| ==> Undisturbed(inputs[k])
    ensures Serves(s, Worked(s, inputs), Run(s, inputs))
    decreases |inputs|
  {
    if inputs == [] {
      NothingServes(s);
    } else {
      var m := Step(s, inputs[0]);
      var rest := Run(m.state, inputs[1..]);
      StepServes(s, inputs[0]);
      ServingRun(m.state, inputs[1..]);
      PassedAppend(Acceptance, m.effects, rest.effects);
      PassedAppend(Sending, m.effects, rest.effects);
      FlowJoins(InFlight(s), s.queue, Passed(Acceptance, m.effects), Passed(Sending, m.effects),
                InFlight(m.state), m.state.queue, Passed(Acceptance, rest.effects), Passed(Sending, rest.effects),
                InFlight(rest.state), rest.state.queue);
    }
  }

  lemma FlowJoins<T>(
    flight: seq<T>, queue: seq<T>, in1: seq<T>, out1: seq<T>, flight1: seq<T>, queue1: seq<T>,
    in2: seq<T>, out2: seq<T>, flight2: seq<T>, queue2: seq<T>)
    requires Flows(flight, queue, in1, out1, flight1, queue1)
    requires Flows(flight1, queue1, in2, out2, flight2, queue2)
    ensures Flows(flight, queue, in1 + in2, out1 + out2, flight2, queue2)
  {
    Assoc(queue, in1, in2);
    Assoc(flight, queue + in1, in2);
    Assoc(flight1, queue1, in2);
    Assoc(out1, flight1 + queue1, in2);
    Assoc(out1, out2, flight2 + queue2);
  }

  /** The worker is never stuck: it can make a step exactly while it owes one. */
  lemma WorkerNeverStuck(s: SessionState)
    requires Serving(s)
    ensures Debt(s) > 0 <==> exists work :: WorkerReady(s, work)
  {
    if s.worker.Fresh? {
      assert WorkerReady(s, LoopTop);
    } else if s.worker.Writing? {
      assert WorkerReady(s, WriteDone(true, ""));
    } else if s.queue != [] {
      assert WorkerReady(s, Get(""));
    }
  }

  /** So once the worker has made the steps it owes, every command is written, in order. */
  lemma EverythingWritten(s: SessionState, inputs: seq<Input>)
    requires Serving(s) && forall k :: 0 <= k < |inputs| ==> Undisturbed(inputs[k])
    ensures var m := Run(s, inputs);
            var owed := Debt(s) + 2 * |Passed(Acceptance, m.effects)|;
            && Worked(s, inputs) <= owed
            && (Worked(s, inputs) == owed ==>
                  && m.state.queue == [] && m.state.worker == Getting
                  && Passed(Sending, m.effects) == InFlight(s) + s.queue + Passed(Acceptance, m.effects))
  {
    var m := Run(s, inputs);
    ServingRun(s, inputs);
    Assoc(InFlight(s), s.queue, Passed(Acceptance, m.effects));
  }

  /** The turns of the worker that take and write `n` commands. */
  function Turns(n: nat): seq<Input> {
    if n == 0 then [] else [OnWorker(Get("")), OnWorker(WriteDone(true, ""))] + Turns(n - 1)
  }

  lemma OneTurn(s: SessionState)
    requires Serving(s) && s.worker.Getting? && s.queue != []
    ensures var m := Run(s, [OnWorker(Get("")), OnWorker(WriteDone(true, ""))]);
            m.state == s.(queue := s.queue[1..]) && Passed(Sending, m.effects) == [s.queue[0]]
  {
    var c := s.queue[0];
    assert Buildable(c);
    RunTwo(s, OnWorker(Get("")), OnWorker(WriteDone(true, "")));
    TakenStep(s, "");
    WrittenStep(AfterWork(s, Get("")).state, "");
    FewEffects(Sending, [Dequeued(c), Finished(c, Sent(BuildCommandFrame(c.address, c.command).value))]);
  }

  /** Whether running `a` and then `b` is running both. */
  ghost predicate Joins(s: SessionState, a: seq<Input>, b: seq<Input>) {
    && Run(s, a + b).state == Run(Run(s, a).state, b).state
    && Run(s, a + b).effects == Run(s, a).effects + Run(Run(s, a).state, b).effects
  }

  lemma JoinStep(s: SessionState, i: Input, a: seq<Input>, b: seq<Input>)
    requires Joins(Step(s, i).state, a, b)
    ensures Joins(s, [i] + a, b)
  {
    var m := Step(s, i);
    RunThen(s, i, a + b);
    RunThen(s, i, a);
    assert ([i] + a) + b == [i] + (a + b);
    Assoc(m.effects, Run(m.state, a).effects, Run(Run(m.state, a).state, b).effects);
  }

  lemma {:induction false} RunJoins(s: SessionState, a: seq<Input>, b: seq<Input>)
    ensures Joins(s, a, b)
    decreases |a|
  {
    if a == [] {
      assert a + b == b;
    } else {
      RunJoins(Step(s, a[0]).state, a[1..], b);
      JoinStep(s, a[0], a[1..], b);
      assert [a[0]] + a[1..] == a;
    }
  }

  lemma {:induction false} TurnsDrain(s: SessionState, n: nat)
    requires Serving(s) && s.worker.Getting? && n == |s.queue|
    ensures Run(s, Turns(n)).state == s.(queue := []) && Passed(Sending, Run(s, Turns(n)).effects) == s.queue
    decreases n
  {
    if n == 0 {
    } else {
      var turn := [OnWorker(Get("")), OnWorker(WriteDone(true, ""))];
      var t := s.(queue := s.queue[1..]);
      OneTurn(s);
      TurnsDrain(t, n - 1);
      RunJoins(s, turn, Turns(n - 1));
      FirstSent(s.queue, Run(s, turn).effects, Run(t, Turns(n - 1)).effects);
    }
  }

  lemma FirstSent(queue: seq<CommandEvent>, a: seq<Effect>, b: seq<Effect>)
    requires queue != [] && Passed(Sending, a) == [queue[0]] && Passed(Sending, b) == queue[1..]
    ensures Passed(Sending, a + b) == queue
  {
    PassedAppend(Sending, a, b);
  }

  /** From the end of the subscription on: the worker begins, and takes and writes all that was
      queued meanwhile. */
  lemma SubscribedSessionWrites(s: SessionState)
    requires s.link.phase == Subscribing && !s.link.stopRequested
    requires forall k :: 0 <= k < |s.queue| ==> Buildable(s.queue[k])
    ensures var m := Run(s, [OnTask(Subscribed)] + ([OnWorker(LoopTop)] + Turns(|s.queue|)));
            m.state.queue == [] && m.state.worker == Getting && Passed(Sending, m.effects) == s.queue
  {
    var a := Step(s, OnTask(Subscribed));
    var b := Step(a.state, OnWorker(LoopTop));
    TurnsDrain(b.state, |s.queue|);
    RunThen(s, OnTask(Subscribed), [OnWorker(LoopTop)] + Turns(|s.queue|));
    RunThen(a.state, OnWorker(LoopTop), Turns(|s.queue|));
    assert a.effects + (b.effects + Run(b.state, Turns(|s.queue|)).effects) == Run(b.state, Turns(|s.queue|)).effects;
  }

  /** A command that cannot be framed, or whose write fails, is finished as unsent; its error is
      kept and the worker goes on to the next one. */
  lemma FailuresAreKept(s: SessionState, message: string)
    requires !s.link.stopRequested
    ensures s.worker.Writing? ==>
              AfterWork(s, WriteDone(false, message))
              == Move(s.(worker := Getting, lastError := Some(message)), [Finished(s.worker.command, Unsent)])
    ensures s.worker.Getting? && s.queue != [] && !Buildable(s.queue[0]) ==>
              AfterWork(s, Get(message))
              == Move(s.(worker := Getting, lastError := Some(message), queue := s.queue[1..]),
                      [Dequeued(s.queue[0]), Finished(s.queue[0], Unsent)])
    ensures s.worker.Writing? ==>
              Run(s, [OnTask(Wake), OnTask(Reap)]).effects
              == if s.link.phase == Running && s.link.linkDropped then [Finished(s.worker.command, Abandoned)]
                 else if s.link.phase == Reaping then [Finished(s.worker.command, Abandoned)] else []
  {
    RunTwo(s, OnTask(Wake), OnTask(Reap));
  }

  /** Every frame written in a run of a new session is on the air, byte by byte, the command it was
      made of: the node's address, the type COMMAND, the word and its length, the end flag. */
  lemma WrittenOnWire(target: Target, address: string, inputs: seq<Input>, k: nat)
    requires var effects := Run(NewState(target, address), inputs).effects;
             k < |effects| && effects[k].Finished? && effects[k].outcome.Sent?
    ensures var e := Run(NewState(target, address), inputs).effects[k];
            var data := e.outcome.frame;
            && ValidateCommand(e.command.command).Ok?
            && var word := ValidateCommand(e.command.command).value;
            && |data| == 18 + |word|
            && Normalize(e.command.address) == Ok(MacText(data[..6]))
            && data[6..14] == [0x43, 0x4F, 0x4D, 0x4D, 0x41, 0x4E, 0x44, 0x00]
            && data[14] as int == |word| && data[15] == 0
            && (forall i :: 0 <= i < |word| ==> data[16 + i] as int == word[i] as int)
            && data[|data| - 2..] == [13, 10]
  {
    var e := Run(NewState(target, address), inputs).effects[k];
    WrittenFramesAreCommands(NewState(target, address), inputs);
    CommandOnWire(e.command.address, e.command.command);
  }

  // ---------- stopping ----------

  /** How many steps of its task lie between a session asked to stop and its end, at most. */
  function Rank(phase: Phase): nat {
    match phase
    case Idle => 0
    case Ended(_) => 0
    case Waiting => 1
    case Closing => 1
    case TearingDown => 2
    case Reaping => 3
    case Running => 4
    case Subscribing => 5
    case Connecting => 6
    case Locking => 7
  }

  /** How many commands the worker can still take once it has to stop. */
  function CanTake(s: SessionState): nat {
    if s.worker.Getting? then 1 else 0
  }

  /** The steps of the session task in a run, a lost link not counted. */
  function TaskSteps(s: SessionState, inputs: seq<Input>): nat
    decreases |inputs|
  {
    if inputs == [] then 0 else TaskStepsAt(s, inputs[0]) + TaskSteps(Step(s, inputs[0]).state, inputs[1..])
  }

  function TaskStepsAt(s: SessionState, i: Input): nat {
    if i.OnTask? && !i.event.LinkDropped? && TaskReady(s.link, i.event) then 1 else 0
  }

  ghost predicate Stopping(s: SessionState, steps: nat, m: Move) {
    && m.state.link.stopRequested
    && Rank(m.state.link.phase) + steps <= Rank(s.link.phase)
    && Attempts(m.effects) == 0
    && |Passed(Taking, m.effects)| + CanTake(m.state) <= CanTake(s)
  }

  lemma CallStops(s: SessionState, call: SessionCall)
    requires s.link.stopRequested && call != Start
    ensures Stopping(s, 0, AfterCall(s, call))
  {
    var effects := AfterCall(s, call).effects;
    OneCounted(effects);
    if effects != [] {
      assert effects == [effects[0]];
      PassedOne(Taking, effects[0]);
    }
  }

  lemma TaskStops(s: SessionState, event: TaskEvent)
    requires s.link.stopRequested
    ensures Stopping(s, TaskStepsAt(s, OnTask(event)), AfterTask(s, event))
  {
    OneCounted(AfterTask(s, event).effects);
    FewEffects(Taking, AfterTask(s, event).effects);
    TaskRanks(s.link, event);
    PollRanks(s.link);
  }

  /** The step, if the session task is ready for it, keeps the request and brings the end nearer. */
  predicate Nearer(k: Link, event: TaskEvent) {
    TaskReady(k, event) ==>
      && LinkAfter(k, event).stopRequested
      && Rank(LinkAfter(k, event).phase) + (if event.LinkDropped? then 0 else 1) <= Rank(k.phase)
  }

  lemma TaskRanks(k: Link, event: TaskEvent)
    requires k.stopRequested
    ensures Nearer(k, event)
  {
    match event
    case Poll => PollRanks(k);
    case Failed(expected, message, alive) => FailedRanks(k, expected, message, alive);
    case TornDown(alive) => LeaveRank(k, alive);
    case Closed(_) => LeaveRank(k, false);
    case _ => WatchRanks(k, event);
  }

  lemma PollRanks(k: Link)
    requires k.stopRequested
    ensures Nearer(k, Poll) && AfterPoll(k).phase == Ended(false)
  {
  }

  lemma FailedRanks(k: Link, expected: bool, message: string, alive: bool)
    requires k.stopRequested
    ensures Nearer(k, Failed(expected, message, alive))
  {
    LeaveRank(k.(unavailableLogged := k.unavailableLogged || expected), alive);
  }

  lemma WatchRanks(k: Link, event: TaskEvent)
    requires k.stopRequested
    requires !event.Poll? && !event.Failed? && !event.TornDown? && !event.Closed?
    ensures Nearer(k, event)
  {
  }

  lemma LeaveRank(k: Link, alive: bool)
    requires k.stopRequested
    ensures Leave(k, alive).stopRequested && Rank(Leave(k, alive).phase) <= if alive then 1 else 0
    ensures Left(k).stopRequested && Rank(Left(k).phase) == 0
  {
  }

  lemma WorkStops(s: SessionState, work: WorkerEvent)
    requires s.link.stopRequested
    ensures Stopping(s, 0, AfterWork(s, work))
  {
    WorkerAttemptsNothing(s, work);
    FewEffects(Taking, AfterWork(s, work).effects);
  }

  /** A stop is obeyed: from the request on, in every run without a new start, no connection is
      attempted, at most the one command is taken for which the worker already waits, and every
      step of the session task brings its end nearer. */
  lemma {:induction false} StopIsObeyed(s: SessionState, inputs: seq<Input>)
    requires s.link.stopRequested && OnCall(Start) !in inputs
    ensures Stopping(s, TaskSteps(s, inputs), Run(s, inputs))
    decreases |inputs|
  {
    if inputs == [] {
    } else {
      var i, m := inputs[0], Step(s, inputs[0]);
      var rest := Run(m.state, inputs[1..]);
      match i {
        case OnCall(call) => CallStops(s, call);
        case OnTask(event) => TaskStops(s, event);
        case OnWorker(work) => WorkStops(s, work);
        case OnNotify(chunk) => NotifyEffects(s, chunk);
      }
      StopIsObeyed(m.state, inputs[1..]);
      CountsAppend(m.effects, rest.effects);
      PassedAppend(Taking, m.effects, rest.effects);
    }
  }

  /** The coroutine of a session asked to stop is never stuck before its end; with `StopIsObeyed` it
      ends after at most seven steps. */
  lemma StopNeverStuck(s: SessionState)
    requires s.link.stopRequested
    ensures Rank(s.link.phase) > 0 <==> exists event :: TaskReady(s.link, event) && !event.LinkDropped?
    ensures Rank(s.link.phase) == 0 <==> s.link.phase.Idle? || s.link.phase.Ended?
    ensures Rank(s.link.phase) <= 7
  {
    match s.link.phase
    case Idle =>
    case Ended(_) =>
    case Waiting => assert TaskReady(s.link, Poll);
    case Closing => assert TaskReady(s.link, Closed(false));
    case TearingDown => assert TaskReady(s.link, TornDown(false));
    case Reaping => assert TaskReady(s.link, Reap);
    case Running => assert TaskReady(s.link, Wake);
    case Subscribing => assert TaskReady(s.link, Subscribed);
    case Connecting => assert TaskReady(s.link, Connected(true));
    case Locking => assert TaskReady(s.link, LockGranted);
  }

  // ---------- targets ----------

  /** The last target a session was given. */
  function LastTarget(first: Target, inputs: seq<Input>): Target {
    if inputs == [] then first
    else
      var last := inputs[|inputs| - 1];
      if last.OnCall? && last.call.UpdateTarget? then last.call.target else LastTarget(first, inputs[..|inputs| - 1])
  }

  /** The last address given that can be normalized. */
  function LastAddress(first: string, inputs: seq<Input>): string {
    if inputs == [] then first
    else
      var last := inputs[|inputs| - 1];
      if last.OnCall? && last.call.UpdateTarget? && Normalize(last.call.target.address).Ok?
      then Normalize(last.call.target.address).value
      else LastAddress(first, inputs[..|inputs| - 1])
  }

  /** The last name that was not empty, of the targets whose address can be normalized. */
  function LastName(first: string, inputs: seq<Input>): string {
    if inputs == [] then first
    else
      var last := inputs[|inputs| - 1];
      if last.OnCall? && last.call.UpdateTarget? && Normalize(last.call.target.address).Ok?
         && last.call.target.name != ""
      then last.call.target.name
      else LastName(first, inputs[..|inputs| - 1])
  }

  lemma {:induction false} RunEnds(s: SessionState, inputs: seq<Input>, i: Input)
    ensures Run(s, inputs + [i]).state == Step(Run(s, inputs).state, i).state
    decreases |inputs|
  {
    if inputs == [] {
      assert [i][1..] == [];
    } else {
      RunEnds(Step(s, inputs[0]).state, inputs[1..], i);
      assert (inputs + [i])[1..] == inputs[1..] + [i];
    }
  }

  lemma StepIdentity(s: SessionState, i: Input)
    ensures !(i.OnCall? && i.call.UpdateTarget?) ==> Step(s, i).state.identity == s.identity
  {
    match i
    case OnCall(_) =>
    case OnTask(_) =>
    case OnWorker(_) =>
    case OnNotify(_) =>
  }

  /** In every run: target, address and name are the last ones given. */
  lemma {:induction false} IdentityIsLast(s: SessionState, inputs: seq<Input>)
    ensures Run(s, inputs).state.identity
         == Identity(LastTarget(s.identity.target, inputs), LastAddress(s.identity.address, inputs),
                     LastName(s.identity.name, inputs))
    decreases |inputs|
  {
    if inputs == [] {
    } else {
      var most, last := inputs[..|inputs| - 1], inputs[|inputs| - 1];
      IdentityIsLast(s, most);
      RunEnds(s, most, last);
      assert inputs == most + [last];
      StepIdentity(Run(s, most).state, last);
    }
  }

  /** Every connection attempt, after any run, names the last target given. */
  lemma AttemptNamesLastTarget(s: SessionState, inputs: seq<Input>, i: Input)
    ensures forall e :: e in Step(Run(s, inputs).state, i).effects && e.Attempt? ==>
              e.target == LastTarget(s.identity.target, inputs)
  {
    IdentityIsLast(s, inputs);
    var t := Run(s, inputs).state;
    match i
    case OnCall(call) => assert |AfterCall(t, call).effects| <= 1;
    case OnTask(event) => assert |AfterTask(t, event).effects| <= 1;
    case OnWorker(work) =>
    case OnNotify(_) =>
  }
}
