/** Theorems about whole runs of a device session, for every order of calls and outcomes. */
module SessionProofs {
  import opened Common
  import opened Codec
  import opened Assembler
  import opened AssemblerProofs
  import opened Estimator
  import opened Session

  /** The state after a run, and everything the run did, in order. */
  function Run(s: SessionState, inputs: seq<Input>): Move
    decreases |inputs|
  {
    if inputs == [] then Move(s, [])
    else
      var first := Step(s, inputs[0]);
      var rest := Run(first.state, inputs[1..]);
      Move(rest.state, first.effects + rest.effects)
  }

  // ---------- the command queue ----------

  /** The ends of the pipe a command goes through. */
  datatype Gate = Acceptance | Taking | Ending | Sending

  /** The command an effect passes through a gate, if it does. */
  function Through(gate: Gate, e: Effect): seq<CommandEvent> {
    match e
    case Accepted(c) => if gate == Acceptance then [c] else []
    case Dequeued(c) => if gate == Taking then [c] else []
    case Finished(c, outcome) => if gate == Ending || (gate == Sending && outcome.Sent?) then [c] else []
    case _ => []
  }

  /** The commands that went through a gate, in order. */
  function Passed(gate: Gate, effects: seq<Effect>): seq<CommandEvent> {
    if effects == [] then [] else Through(gate, effects[0]) + Passed(gate, effects[1..])
  }

  lemma {:induction false} PassedAppend(gate: Gate, a: seq<Effect>, b: seq<Effect>)
    ensures Passed(gate, a + b) == Passed(gate, a) + Passed(gate, b)
  {
    if a == [] {
      assert a + b == b;
    } else {
      PassedAppend(gate, a[1..], b);
      assert (a + b)[1..] == a[1..] + b;
      Assoc(Through(gate, a[0]), Passed(gate, a[1..]), Passed(gate, b));
    }
  }

  lemma FewEffects(gate: Gate, effects: seq<Effect>)
    requires |effects| <= 2
    ensures Passed(gate, effects)
         == (if |effects| > 0 then Through(gate, effects[0]) else [])
            + (if |effects| > 1 then Through(gate, effects[1]) else [])
  {
    if |effects| == 2 {
      assert effects[1..] == [effects[1]];
      assert Passed(gate, [effects[1]]) == Through(gate, effects[1]);
    }
  }

  /** The command being written, if any. */
  function InFlight(s: SessionState): seq<CommandEvent> {
    if s.worker.Writing? then [s.worker.command] else []
  }

  lemma {:induction false} OnlyDeliveries(source: string, frames: seq<ParsedFrame>)
    ensures var e := Deliveries(source, frames);
            Attempts(e) == 0 && Updates(e) == 0 && forall gate :: Passed(gate, e) == []
  {
    if frames == [] {
    } else {
      OnlyDeliveries(source, frames[1..]);
      assert Deliveries(source, frames)[1..] == Deliveries(source, frames[1..]);
    }
  }

  lemma NotifyEffects(s: SessionState, chunk: Bytes)
    ensures var e := AfterNotify(s, chunk).effects;
            Attempts(e) == 0 && Updates(e) == 0 && forall gate :: Passed(gate, e) == []
  {
    OnlyDeliveries(s.identity.address, ParsedOnly(Frames(Scan(MAX_FRAME_LEN, s.buffer + chunk).pieces)));
  }

  /** A worker exists only while its task watches a connection. */
  predicate WorkerGoverned(s: SessionState) {
    !s.worker.Absent? ==> s.link.phase.Running? || s.link.phase.Reaping?
  }

  /** One move as a stretch of the queue. */
  predicate QueueMoves(s: SessionState, m: Move) {
    s.queue + Passed(Acceptance, m.effects) == Passed(Taking, m.effects) + m.state.queue
  }

  /** One move as a stretch of the write in flight; commands are taken only while a
      connection is watched. */
  predicate FlightMoves(s: SessionState, m: Move) {
    WorkerGoverned(s) ==>
      && WorkerGoverned(m.state)
      && InFlight(s) + Passed(Taking, m.effects) == Passed(Ending, m.effects) + InFlight(m.state)
      && (Passed(Taking, m.effects) != [] ==> s.link.phase.Running? || s.link.phase.Reaping?)
  }

  lemma CallMoves(s: SessionState, call: SessionCall)
    ensures QueueMoves(s, AfterCall(s, call)) && FlightMoves(s, AfterCall(s, call))
  {
    var effects := AfterCall(s, call).effects;
    FewEffects(Acceptance, effects);
    FewEffects(Taking, effects);
    FewEffects(Ending, effects);
  }

  lemma TaskMoves(s: SessionState, event: TaskEvent)
    ensures QueueMoves(s, AfterTask(s, event)) && FlightMoves(s, AfterTask(s, event))
  {
    FewEffects(Acceptance, TaskEffects(s, event));
    FewEffects(Taking, TaskEffects(s, event));
    FewEffects(Ending, TaskEffects(s, event));
    match event
    case Poll =>
    case Subscribed =>
    case Reap =>
    case _ =>
  }

  lemma WorkerMoves(s: SessionState, work: WorkerEvent)
    ensures QueueMoves(s, AfterWork(s, work)) && FlightMoves(s, AfterWork(s, work))
  {
    var effects := AfterWork(s, work).effects;
    FewEffects(Acceptance, effects);
    FewEffects(Taking, effects);
    FewEffects(Ending, effects);
    match work
    case LoopTop =>
    case Get(_) =>
    case WriteDone(_, _) =>
  }

  lemma StepMoves(s: SessionState, i: Input)
    ensures QueueMoves(s, Step(s, i)) && FlightMoves(s, Step(s, i))
  {
    match i
    case OnCall(call) => CallMoves(s, call);
    case OnTask(event) => TaskMoves(s, event);
    case OnWorker(work) => WorkerMoves(s, work);
    case OnNotify(chunk) => NotifyEffects(s, chunk);
  }

  /** Over any run, through any number of reconnects, failures and cancellations: what was
      queued plus what was accepted is what was taken plus what is queued, in order; and what
      was in flight plus what was taken is what was finished, in order, plus what is in flight. */
  lemma {:induction false} QueueConservation(s: SessionState, inputs: seq<Input>)
    requires WorkerGoverned(s)
    ensures var m := Run(s, inputs);
            && WorkerGoverned(m.state)
            && s.queue + Passed(Acceptance, m.effects) == Passed(Taking, m.effects) + m.state.queue
            && InFlight(s) + Passed(Taking, m.effects) == Passed(Ending, m.effects) + InFlight(m.state)
    decreases |inputs|
  {
    if inputs == [] {
    } else {
      var m := Step(s, inputs[0]);
      var rest := Run(m.state, inputs[1..]);
      StepMoves(s, inputs[0]);
      QueueConservation(m.state, inputs[1..]);
      PassedAppend(Acceptance, m.effects, rest.effects);
      PassedAppend(Taking, m.effects, rest.effects);
      PassedAppend(Ending, m.effects, rest.effects);
      Chain(s.queue, Passed(Acceptance, m.effects), Passed(Taking, m.effects), m.state.queue,
            Passed(Acceptance, rest.effects), Passed(Taking, rest.effects), rest.state.queue);
      Chain(InFlight(s), Passed(Taking, m.effects), Passed(Ending, m.effects), InFlight(m.state),
            Passed(Taking, rest.effects), Passed(Ending, rest.effects), InFlight(rest.state));
    }
  }

  /** Two stretches of a pipe, one after the other. */
  lemma Chain<T>(held: seq<T>, in1: seq<T>, out1: seq<T>, held1: seq<T>, in2: seq<T>, out2: seq<T>, held2: seq<T>)
    requires held + in1 == out1 + held1 && held1 + in2 == out2 + held2
    ensures held + (in1 + in2) == (out1 + out2) + held2
  {
    Assoc(held, in1, in2);
    Assoc(out1, held1, in2);
    Assoc(out1, out2, held2);
  }

  predicate Subsequence<T(==)>(a: seq<T>, b: seq<T>)
    decreases |b|
  {
    a == [] || (b != [] && ((a[0] == b[0] && Subsequence(a[1..], b[1..])) || Subsequence(a, b[1..])))
  }

  lemma {:induction false} SentAmongFinished(effects: seq<Effect>, more: seq<CommandEvent>)
    ensures Subsequence(Passed(Sending, effects), Passed(Ending, effects) + more)
    decreases |effects|
  {
    if effects == [] {
    } else {
      var e, sent, ended := effects[0], Passed(Sending, effects[1..]), Passed(Ending, effects[1..]);
      SentAmongFinished(effects[1..], more);
      if e.Finished? {
        assert Passed(Ending, effects) + more == [e.command] + (ended + more);
        if e.outcome.Sent? {
          assert Passed(Sending, effects)[1..] == sent;
        } else {
          assert Passed(Sending, effects) == sent;
        }
      } else {
        assert Passed(Sending, effects) == sent && Passed(Ending, effects) == ended;
      }
    }
  }

  /** From a new session on, the commands accepted are exactly those finished, then the one in
      flight, then those queued; the successful writes are an in-order, at-most-once selection of
      those taken from the queue, and these are the first of those accepted. */
  lemma EveryCommandAccounted(target: Target, address: string, inputs: seq<Input>)
    ensures var m := Run(NewState(target, address), inputs);
            && Passed(Acceptance, m.effects) == Passed(Ending, m.effects) + InFlight(m.state) + m.state.queue
            && Subsequence(Passed(Sending, m.effects), Passed(Taking, m.effects))
            && Passed(Taking, m.effects) <= Passed(Acceptance, m.effects)
  {
    QueueConservation(NewState(target, address), inputs);
    AccountsJoin(Run(NewState(target, address), inputs));
  }

  lemma AccountsJoin(m: Move)
    requires [] + Passed(Acceptance, m.effects) == Passed(Taking, m.effects) + m.state.queue
    requires [] + Passed(Taking, m.effects) == Passed(Ending, m.effects) + InFlight(m.state)
    ensures Passed(Acceptance, m.effects) == Passed(Ending, m.effects) + InFlight(m.state) + m.state.queue
    ensures Subsequence(Passed(Sending, m.effects), Passed(Taking, m.effects))
    ensures Passed(Taking, m.effects) <= Passed(Acceptance, m.effects)
  {
    assert [] + Passed(Acceptance, m.effects) == Passed(Acceptance, m.effects);
    assert [] + Passed(Taking, m.effects) == Passed(Taking, m.effects);
    SentAmongFinished(m.effects, InFlight(m.state));
    Assoc(Passed(Ending, m.effects), InFlight(m.state), m.state.queue);
  }

  // ---------- what is written ----------

  /** The frame being written is the one built from its command. */
  predicate FrameMatches(s: SessionState) {
    s.worker.Writing? ==> BuildCommandFrame(s.worker.command.address, s.worker.command.command) == Ok(s.worker.frame)
  }

  ghost predicate SentMatch(effects: seq<Effect>) {
    forall k :: 0 <= k < |effects| && effects[k].Finished? && effects[k].outcome.Sent? ==>
      BuildCommandFrame(effects[k].command.address, effects[k].command.command) == Ok(effects[k].outcome.frame)
  }

  lemma WorkerSends(s: SessionState, work: WorkerEvent)
    requires FrameMatches(s)
    ensures FrameMatches(AfterWork(s, work).state) && SentMatch(AfterWork(s, work).effects)
  {
  }

  lemma TaskSends(s: SessionState, event: TaskEvent)
    requires FrameMatches(s)
    ensures FrameMatches(AfterTask(s, event).state) && SentMatch(AfterTask(s, event).effects)
  {
  }

  lemma StepSends(s: SessionState, i: Input)
    requires FrameMatches(s)
    ensures FrameMatches(Step(s, i).state) && SentMatch(Step(s, i).effects)
  {
    match i
    case OnCall(call) =>
      var m := AfterCall(s, call);
      assert m.state.worker == s.worker;
      assert |m.effects| <= 1;
    case OnTask(event) => TaskSends(s, event);
    case OnWorker(work) => WorkerSends(s, work);
    case OnNotify(chunk) =>
      assert AfterNotify(s, chunk).state.worker == s.worker;
  }

  /** Every frame written in a run is the command frame of the command it was queued for. */
  lemma {:induction false} WrittenFramesAreCommands(s: SessionState, inputs: seq<Input>)
    requires FrameMatches(s)
    ensures SentMatch(Run(s, inputs).effects)
    decreases |inputs|
  {
    if inputs == [] {
    } else {
      StepSends(s, inputs[0]);
      WrittenFramesAreCommands(Step(s, inputs[0]).state, inputs[1..]);
    }
  }

  // ---------- connection attempts ----------

  function Attempts(effects: seq<Effect>): nat {
    if effects == [] then 0 else (if effects[0].Attempt? then 1 else 0) + Attempts(effects[1..])
  }

  function Updates(effects: seq<Effect>): nat {
    if effects == [] then 0 else (if effects[0].Retargeted? then 1 else 0) + Updates(effects[1..])
  }

  lemma {:induction false} CountsAppend(a: seq<Effect>, b: seq<Effect>)
    ensures Attempts(a + b) == Attempts(a) + Attempts(b)
    ensures Updates(a + b) == Updates(a) + Updates(b)
  {
    if a == [] {
      assert a + b == b;
    } else {
      CountsAppend(a[1..], b);
      assert (a + b)[1..] == a[1..] + b;
    }
  }

  /** One if an attempt is already paid for. */
  function Credit(s: SessionState): nat {
    if s.link.targetUpdated then 1 else 0
  }

  /** Attempts are paid for in one move, and an attempt leaves no credit. */
  ghost predicate Gated(s: SessionState, m: Move) {
    && Attempts(m.effects) + Credit(m.state) <= Credit(s) + Updates(m.effects)
    && (Attempts(m.effects) > 0 ==> Credit(m.state) == 0)
  }

  lemma OneCounted(effects: seq<Effect>)
    requires |effects| <= 1
    ensures Attempts(effects) == if |effects| == 1 && effects[0].Attempt? then 1 else 0
    ensures Updates(effects) == if |effects| == 1 && effects[0].Retargeted? then 1 else 0
  {
  }

  lemma CallGated(s: SessionState, call: SessionCall)
    ensures Gated(s, AfterCall(s, call))
  {
    OneCounted(AfterCall(s, call).effects);
  }

  lemma TaskGated(s: SessionState, event: TaskEvent)
    ensures Gated(s, AfterTask(s, event))
  {
    OneCounted(AfterTask(s, event).effects);
  }

  lemma WorkerGated(s: SessionState, work: WorkerEvent)
    ensures Gated(s, AfterWork(s, work))
  {
    var effects := AfterWork(s, work).effects;
    if |effects| == 2 {
      OneCounted(effects[1..]);
    } else {
      OneCounted(effects);
    }
  }

  lemma StepGated(s: SessionState, i: Input)
    ensures Gated(s, Step(s, i))
  {
    match i
    case OnCall(call) => CallGated(s, call);
    case OnTask(event) => TaskGated(s, event);
    case OnWorker(work) => WorkerGated(s, work);
    case OnNotify(chunk) => NotifyEffects(s, chunk);
  }

  /** Connection attempts are paid for by target updates, in every run with any restarts. */
  lemma {:induction false} AttemptsAreGated(s: SessionState, inputs: seq<Input>)
    ensures var m := Run(s, inputs);
            Attempts(m.effects) + Credit(m.state) <= Credit(s) + Updates(m.effects)
    decreases |inputs|
  {
    if inputs == [] {
    } else {
      var first := Step(s, inputs[0]);
      StepGated(s, inputs[0]);
      AttemptsAreGated(first.state, inputs[1..]);
      CountsAppend(first.effects, Run(first.state, inputs[1..]).effects);
    }
  }

  /** A new session never attempts more than one connection beyond its target updates. */
  lemma AttemptsBounded(target: Target, address: string, inputs: seq<Input>)
    ensures var m := Run(NewState(target, address), inputs);
            Attempts(m.effects) <= 1 + Updates(m.effects)
  {
    AttemptsAreGated(NewState(target, address), inputs);
  }

  /** Between an attempt and any later one lies a target update. */
  lemma UpdateBetweenAttempts(s: SessionState, i: Input, inputs: seq<Input>)
    requires Attempts(Step(s, i).effects) > 0
    requires Attempts(Run(Step(s, i).state, inputs).effects) > 0
    ensures Updates(Run(Step(s, i).state, inputs).effects) > 0
  {
    StepGated(s, i);
    AttemptsAreGated(Step(s, i).state, inputs);
  }

  // ---------- the connected flag ----------

  /** No flag left over: outside a connection the session does not claim to be connected. A
      task that died in its last disconnect is the one exception. */
  predicate FlagSound(k: Link) {
    k.phase.Idle? || k.phase.Waiting? || k.phase.Locking? || k.phase.Connecting? || k.phase == Ended(false)
    ==> !k.connected
  }

  /** Whether the input is a `start` that creates a task. */
  predicate Starts(k: Link, i: Input) {
    i == OnCall(Start) && (k.phase.Idle? || k.phase.Ended?)
  }

  /** `start` is never called on a session without a running task that claims to be connected. */
  predicate StartsClean(s: SessionState, inputs: seq<Input>)
    decreases |inputs|
  {
    inputs == [] ||
    ((Starts(s.link, inputs[0]) ==> !s.link.connected) && StartsClean(Step(s, inputs[0]).state, inputs[1..]))
  }

  /** Whenever the session waits for a target during the run, it does not claim to be connected. */
  predicate WaitsUnconnected(s: SessionState, inputs: seq<Input>)
    decreases |inputs|
  {
    (s.link.phase.Waiting? ==> !s.link.connected)
    && (inputs == [] || WaitsUnconnected(Step(s, inputs[0]).state, inputs[1..]))
  }

  lemma TaskFlag(k: Link, event: TaskEvent)
    requires FlagSound(k) && TaskReady(k, event)
    ensures FlagSound(LinkAfter(k, event))
    ensures event != Closed(true) && k.phase != Ended(true) ==> LinkAfter(k, event).phase != Ended(true)
  {
    match event
    case Poll =>
    case Failed(_, _, _) =>
    case TornDown(_) =>
    case Closed(_) =>
    case _ =>
  }

  lemma CallFlag(s: SessionState, call: SessionCall)
    requires FlagSound(s.link)
    ensures var t := AfterCall(s, call).state;
            && (FlagSound(t.link) <==> (Starts(s.link, OnCall(call)) ==> !s.link.connected))
            && (!FlagSound(t.link) ==> t.link.phase.Waiting?)
            && (s.link.phase != Ended(true) ==> t.link.phase != Ended(true))
  {
  }

  lemma StepFlag(s: SessionState, i: Input)
    requires FlagSound(s.link)
    ensures var t := Step(s, i).state;
            && (FlagSound(t.link) <==> (Starts(s.link, i) ==> !s.link.connected))
            && (!FlagSound(t.link) ==> t.link.phase.Waiting?)
            && (s.link.phase != Ended(true) && i != OnTask(Closed(true)) ==> t.link.phase != Ended(true))
  {
    match i
    case OnCall(call) => CallFlag(s, call);
    case OnTask(event) =>
      if TaskReady(s.link, event) {
        TaskFlag(s.link, event);
      }
    case OnWorker(work) =>
      assert AfterWork(s, work).state.link == s.link;
    case OnNotify(chunk) =>
      assert AfterNotify(s, chunk).state.link == s.link;
  }

  /** A waiting session is never marked connected, in every run, if and only if no `start`
      revives a session whose task died while still marked connected. */
  lemma {:induction false} WaitsUnconnectedIff(s: SessionState, inputs: seq<Input>)
    requires FlagSound(s.link)
    ensures WaitsUnconnected(s, inputs) <==> StartsClean(s, inputs)
    decreases |inputs|
  {
    if inputs == [] {
    } else {
      var t := Step(s, inputs[0]).state;
      StepFlag(s, inputs[0]);
      if FlagSound(t.link) {
        WaitsUnconnectedIff(t, inputs[1..]);
      }
    }
  }

  /** Without an exception escaping the last disconnect every `start` is clean, so in every
      such run from a new session on a waiting session is unconnected. */
  lemma {:induction false} NoEscapeStartsClean(s: SessionState, inputs: seq<Input>)
    requires FlagSound(s.link) && s.link.phase != Ended(true)
    requires OnTask(Closed(true)) !in inputs
    ensures StartsClean(s, inputs) && WaitsUnconnected(s, inputs)
    decreases |inputs|
  {
    if inputs == [] {
    } else {
      StepFlag(s, inputs[0]);
      NoEscapeStartsClean(Step(s, inputs[0]).state, inputs[1..]);
    }
  }

  lemma RunUnfolds(s: SessionState, i: Input, inputs: seq<Input>)
    ensures Run(s, [i] + inputs).state == Run(Step(s, i).state, inputs).state
    ensures WaitsUnconnected(s, [i] + inputs) ==> WaitsUnconnected(Step(s, i).state, inputs)
  {
    assert ([i] + inputs)[1..] == inputs;
  }

  /** A new session whose notify subscription and last disconnect fail, and which is then
      started again. */
  function EscapeRun(message: string): seq<Input> {
    [OnCall(Start)] + ([OnTask(Poll)] + ([OnTask(LockGranted)] + ([OnTask(Connected(true))]
      + ([OnTask(Failed(false, message, true))] + ([OnTask(Closed(true))] + ([OnCall(Start)] + []))))))
  }

  /** The exception is real: that run of a new session ends waiting for a target while marked
      connected. */
  lemma EscapedCleanupLeavesFlag(target: Target, address: string, message: string)
    ensures var s := NewState(target, address);
            var waiting := Run(s, EscapeRun(message)).state;
            && waiting.link.phase.Waiting? && waiting.link.connected
            && !WaitsUnconnected(s, EscapeRun(message))
  {
    var s0 := NewState(target, address);
    var i6: seq<Input> := [OnCall(Start)] + [];
    var i5 := [OnTask(Closed(true))] + i6;
    var i4 := [OnTask(Failed(false, message, true))] + i5;
    var i3 := [OnTask(Connected(true))] + i4;
    var i2 := [OnTask(LockGranted)] + i3;
    var i1 := [OnTask(Poll)] + i2;
    RunUnfolds(s0, OnCall(Start), i1);
    var s1 := Step(s0, OnCall(Start)).state;
    RunUnfolds(s1, OnTask(Poll), i2);
    var s2 := Step(s1, OnTask(Poll)).state;
    RunUnfolds(s2, OnTask(LockGranted), i3);
    var s3 := Step(s2, OnTask(LockGranted)).state;
    RunUnfolds(s3, OnTask(Connected(true)), i4);
    var s4 := Step(s3, OnTask(Connected(true))).state;
    RunUnfolds(s4, OnTask(Failed(false, message, true)), i5);
    var s5 := Step(s4, OnTask(Failed(false, message, true))).state;
    assert s5.link.phase.Closing? && s5.link.connected;
    RunUnfolds(s5, OnTask(Closed(true)), i6);
    RunUnfolds(Step(s5, OnTask(Closed(true))).state, OnCall(Start), []);
  }

  lemma DeadCall(s: SessionState, call: SessionCall)
    requires s.link.phase == Ended(true) && call != Start
    ensures var m := AfterCall(s, call);
            && m.state.link.phase == Ended(true) && m.state.link.connected == s.link.connected
            && Attempts(m.effects) == 0 && DeliveredIn(m.effects) == []
  {
    OneCounted(AfterCall(s, call).effects);
  }

  lemma DeadStep(s: SessionState, i: Input)
    requires s.link.phase == Ended(true) && i != OnCall(Start)
    ensures var m := Step(s, i);
            && m.state.link.phase == Ended(true) && m.state.link.connected == s.link.connected
            && Attempts(m.effects) == 0 && DeliveredIn(m.effects) == []
  {
    match i
    case OnCall(call) => DeadCall(s, call);
    case OnTask(event) => assert !TaskReady(s.link, event);
    case OnWorker(work) =>
      WorkerDeliversNothing(s, work);
      WorkerAttemptsNothing(s, work);
    case OnNotify(_) => assert AfterNotify(s, i.chunk) == Move(s, []);
  }

  lemma WorkerAttemptsNothing(s: SessionState, work: WorkerEvent)
    ensures Attempts(AfterWork(s, work).effects) == 0 && AfterWork(s, work).state.link == s.link
  {
    var effects := AfterWork(s, work).effects;
    if |effects| == 2 {
      OneCounted(effects[1..]);
    } else {
      OneCounted(effects);
    }
  }

  /** What the hub sees of it, which starts a session only once: in every run without a `start` a
      session whose task died attempts no connection, hands on no frame and keeps its flag, however
      often its target is seen. */
  lemma {:induction false} DeadSessionRests(s: SessionState, inputs: seq<Input>)
    requires s.link.phase == Ended(true) && OnCall(Start) !in inputs
    ensures var m := Run(s, inputs);
            && m.state.link.phase == Ended(true) && m.state.link.connected == s.link.connected
            && Attempts(m.effects) == 0 && DeliveredIn(m.effects) == []
    decreases |inputs|
  {
    if inputs == [] {
    } else {
      var m := Step(s, inputs[0]);
      var rest := Run(m.state, inputs[1..]);
      DeadStep(s, inputs[0]);
      DeadSessionRests(m.state, inputs[1..]);
      CountsAppend(m.effects, rest.effects);
      DeliveredAppend(m.effects, rest.effects);
    }
  }

  // ---------- what one connection delivers ----------

  function DeliveredIn(effects: seq<Effect>): seq<ParsedFrame> {
    if effects == [] then []
    else (if effects[0].Delivered? then [effects[0].frame] else []) + DeliveredIn(effects[1..])
  }

  lemma {:induction false} DeliveredAppend(a: seq<Effect>, b: seq<Effect>)
    ensures DeliveredIn(a + b) == DeliveredIn(a) + DeliveredIn(b)
  {
    if a == [] {
      assert a + b == b;
    } else {
      DeliveredAppend(a[1..], b);
      assert (a + b)[1..] == a[1..] + b;
      Assoc(if a[0].Delivered? then [a[0].frame] else [], DeliveredIn(a[1..]), DeliveredIn(b));
    }
  }

  lemma {:induction false} DeliveredOfDeliveries(source: string, frames: seq<ParsedFrame>)
    ensures DeliveredIn(Deliveries(source, frames)) == frames
  {
    if frames == [] {
    } else {
      DeliveredOfDeliveries(source, frames[1..]);
      assert Deliveries(source, frames)[1..] == Deliveries(source, frames[1..]);
    }
  }

  lemma {:induction false} ParsedOnlyAppend(a: seq<Bytes>, b: seq<Bytes>)
    ensures ParsedOnly(a + b) == ParsedOnly(a) + ParsedOnly(b)
  {
    if a == [] {
      assert a + b == b;
    } else {
      ParsedOnlyAppend(a[1..], b);
      assert (a + b)[1..] == a[1..] + b;
      if ParseFrame(a[0]).Ok? {
        Assoc([ParseFrame(a[0]).value], ParsedOnly(a[1..]), ParsedOnly(b));
      }
    }
  }

  /** The bytes notified during a run, while notifications are open. */
  function NotifiedIn(s: SessionState, inputs: seq<Input>): Bytes
    decreases |inputs|
  {
    if inputs == [] then []
    else TakenBy(s, inputs[0]) + NotifiedIn(Step(s, inputs[0]).state, inputs[1..])
  }

  function TakenBy(s: SessionState, i: Input): Bytes {
    if i.OnNotify? && NotifyOpen(s.link.phase) then i.chunk else []
  }

  predicate NoNewConnection(inputs: seq<Input>) {
    forall k :: 0 <= k < |inputs| && inputs[k].OnTask? ==> !inputs[k].event.Connected?
  }

  /** What a move hands on, given the bytes it takes in. */
  ghost predicate Hands(s: SessionState, taken: Bytes, m: Move) {
    var cut := Scan(MAX_FRAME_LEN, s.buffer + taken);
    m.state.buffer == cut.rest && DeliveredIn(m.effects) == ParsedOnly(Frames(cut.pieces))
  }

  lemma NothingTaken(s: SessionState, m: Move)
    requires Settled(MAX_FRAME_LEN, s.buffer)
    requires m.state.buffer == s.buffer && DeliveredIn(m.effects) == []
    ensures Hands(s, [], m)
  {
    SettledScan(MAX_FRAME_LEN, s.buffer);
    assert s.buffer + [] == s.buffer;
  }

  lemma WorkerDeliversNothing(s: SessionState, work: WorkerEvent)
    ensures DeliveredIn(AfterWork(s, work).effects) == [] && AfterWork(s, work).state.buffer == s.buffer
  {
    var effects := AfterWork(s, work).effects;
    assert |effects| == 2 ==> effects[1..] == [effects[1]] && DeliveredIn([effects[1]]) == [];
  }

  lemma StepHands(s: SessionState, i: Input)
    requires Settled(MAX_FRAME_LEN, s.buffer)
    requires i.OnTask? ==> !i.event.Connected?
    ensures Hands(s, TakenBy(s, i), Step(s, i))
  {
    match i
    case OnCall(call) => NothingTaken(s, AfterCall(s, call));
    case OnTask(event) => NothingTaken(s, AfterTask(s, event));
    case OnWorker(work) =>
      WorkerDeliversNothing(s, work);
      NothingTaken(s, AfterWork(s, work));
    case OnNotify(chunk) =>
      if NotifyOpen(s.link.phase) {
        DeliveredOfDeliveries(s.identity.address, ParsedOnly(Frames(Scan(MAX_FRAME_LEN, s.buffer + chunk).pieces)));
      } else {
        NothingTaken(s, AfterNotify(s, chunk));
      }
  }

  /** Bytes taken one after the other hand on what they would together. */
  lemma HandsJoin(buffer: Bytes, first: Bytes, later: Bytes)
    ensures var whole := Scan(MAX_FRAME_LEN, buffer + (first + later));
            var a := Scan(MAX_FRAME_LEN, buffer + first);
            var b := Scan(MAX_FRAME_LEN, a.rest + later);
            && whole.rest == b.rest
            && ParsedOnly(Frames(whole.pieces)) == ParsedOnly(Frames(a.pieces)) + ParsedOnly(Frames(b.pieces))
  {
    Assoc(buffer, first, later);
    ScanAppend(MAX_FRAME_LEN, buffer + first, later);
    var a := Scan(MAX_FRAME_LEN, buffer + first);
    var b := Scan(MAX_FRAME_LEN, a.rest + later);
    FramesAppend(a.pieces, b.pieces);
    ParsedOnlyAppend(Frames(a.pieces), Frames(b.pieces));
  }

  /** Within one connection the frames delivered depend only on the bytes notified: they are
      the frames of that byte stream which parse, whatever else happens in between. */
  lemma {:induction false} ConnectionDelivers(s: SessionState, inputs: seq<Input>)
    requires Settled(MAX_FRAME_LEN, s.buffer) && NoNewConnection(inputs)
    ensures Hands(s, NotifiedIn(s, inputs), Run(s, inputs))
    decreases |inputs|
  {
    if inputs == [] {
      NothingTaken(s, Run(s, inputs));
    } else {
      var m, taken := Step(s, inputs[0]), TakenBy(s, inputs[0]);
      StepHands(s, inputs[0]);
      ScanIsRight(MAX_FRAME_LEN, s.buffer + taken);
      ConnectionDelivers(m.state, inputs[1..]);
      HandsJoin(s.buffer, taken, NotifiedIn(m.state, inputs[1..]));
      DeliveredAppend(m.effects, Run(m.state, inputs[1..]).effects);
    }
  }

  /** Every connection starts with an empty buffer: no byte of an earlier one leaks in. */
  lemma NewConnectionIsFresh(s: SessionState, isConnected: bool, inputs: seq<Input>)
    requires s.link.phase.Connecting? && NoNewConnection(inputs)
    ensures var t := AfterTask(s, Connected(isConnected)).state;
            var stream := NotifiedIn(t, inputs);
            DeliveredIn(Run(t, inputs).effects) == ParsedOnly(Frames(Scan(MAX_FRAME_LEN, stream).pieces))
  {
    var t := AfterTask(s, Connected(isConnected)).state;
    ConnectionDelivers(t, inputs);
    assert t.buffer + NotifiedIn(t, inputs) == NotifiedIn(t, inputs);
  }
}
