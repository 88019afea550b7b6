/** From a scanned node to the bytes written back to it: one whole exchange, byte by byte. */
module FirstContact {
  import opened Common
  import opened MacAddress
  import opened Codec
  import opened CodecProofs
  import opened WireFormat
  import opened Assembler
  import opened AssemblerProofs
  import opened Estimator
  import opened EstimatorProofs
  import opened Session
  import opened SessionProofs
  import opened SessionLife
  import opened Registry
  import opened Central
  import opened RawLog
  import opened Config
  import opened Hub
  import opened RoutingProofs
  import opened HubProofs
  import opened WholeHub

  // ---------- runs of the whole system ----------

  lemma {:induction false} SystemRunJoins<S>(
    layout: Layout, y: System<S>, a: seq<SystemInput<S>>, b: seq<SystemInput<S>>)
    ensures RunSystem(layout, y, a + b) == RunSystem(layout, RunSystem(layout, y, a), b)
    decreases |a|
  {
    if a == [] {
      assert a + b == b;
    } else {
      SystemRunJoins(layout, StepSystem(layout, y, a[0]), a[1..], b);
      assert (a + b)[1..] == a[1..] + b;
    }
  }

  lemma SystemRunOne<S>(layout: Layout, y: System<S>, i: SystemInput<S>)
    ensures RunSystem(layout, y, [i]) == StepSystem(layout, y, i)
  {
    assert [i][1..] == [];
  }

  /** One session going on alone. */
  function Progresses<S>(session: S, inputs: seq<Input>): (system: seq<SystemInput<S>>)
    ensures |system| == |inputs|
  {
    seq(|inputs|, i requires 0 <= i < |inputs| => Progress(session, inputs[i]))
  }

  lemma {:induction false} HandedOnJoins(a: seq<Effect>, b: seq<Effect>)
    ensures HandedOnIn(a + b) == HandedOnIn(a) + HandedOnIn(b)
  {
    if a == [] {
      assert a + b == b;
    } else {
      HandedOnJoins(a[1..], b);
      assert (a + b)[1..] == a[1..] + b;
      Assoc(if a[0].Delivered? then [Delivery(a[0].source, a[0].frame)] else [], HandedOnIn(a[1..]), HandedOnIn(b));
    }
  }

  /** The system after a session has gone on by a move. */
  function Moved<S(==)>(y: System<S>, session: S, m: Move): System<S>
    requires session in y.sessions
  {
    y.(sessions := y.sessions[session := Move(m.state, y.sessions[session].effects + m.effects)],
       pending := y.pending + HandedOnIn(m.effects))
  }

  lemma MovedTwice<S>(y: System<S>, session: S, a: Move, b: Move)
    requires session in y.sessions
    ensures Moved(Moved(y, session, a), session, b) == Moved(y, session, Move(b.state, a.effects + b.effects))
  {
    HandedOnJoins(a.effects, b.effects);
    Assoc(y.sessions[session].effects, a.effects, b.effects);
    Assoc(y.pending, HandedOnIn(a.effects), HandedOnIn(b.effects));
  }

  lemma MovedByNothing<S>(y: System<S>, session: S)
    requires session in y.sessions
    ensures Moved(y, session, Move(y.sessions[session].state, [])) == y
  {
    var m := y.sessions[session];
    assert m.effects + [] == m.effects && y.pending + [] == y.pending;
    assert y.sessions[session := m] == y.sessions;
  }

  /** A session that goes on alone runs as the session machine does. */
  lemma {:induction false} ProgressRuns<S>(layout: Layout, y: System<S>, session: S, inputs: seq<Input>)
    requires session in y.sessions && forall k :: 0 <= k < |inputs| ==> OwnInput(inputs[k])
    ensures RunSystem(layout, y, Progresses(session, inputs))
         == Moved(y, session, Run(y.sessions[session].state, inputs))
    decreases |inputs|
  {
    if inputs == [] {
      MovedByNothing(y, session);
    } else {
      var m := Step(y.sessions[session].state, inputs[0]);
      var rest := Run(m.state, inputs[1..]);
      var next := Moved(y, session, m);
      assert Progresses(session, inputs)[0] == Progress(session, inputs[0]);
      assert Progresses(session, inputs)[1..] == Progresses(session, inputs[1..]);
      assert StepSystem(layout, y, Progress(session, inputs[0])) == next;
      ProgressRuns(layout, next, session, inputs[1..]);
      MovedTwice(y, session, m, rest);
    }
  }

  // ---------- the exchange ----------

  /** The routing of a hub that knows one session. */
  function OneSession<S>(key: string, session: S): RegistryState<S> {
    RegistryState(Dict([key], map[key := session]), Dict([], map[]))
  }

  /** A session that has been started and waits for its target. */
  function Started(target: Target, key: string): SessionState {
    SessionState(Identity(target, key, target.name),
                 Link(Waiting, false, false, false, false, false, true, false), None, [], Absent, [])
  }

  /** A new hub sees a target. */
  lemma FirstSighting<S>(layout: Layout, configs: ConfigStore, log: LogState, target: Target, session: S)
    requires Normalize(target.address).Ok?
    ensures var key := Normalize(target.address).value;
            var y := StepSystem(layout, NewSystem<S>(configs, log), Seen(target, session));
            && y.hub.registry == OneSession(key, session) && y.hub.status == INITIAL_STATUS && y.pending == []
            && y.sessions == map[session := Move(Started(target, key), [])]
  {
    var key := Normalize(target.address).value;
    assert [] + [key] == [key];
    assert Opened(target, key) == Started(target, key);
  }

  /** One frame that parses, as one notification of a session with an empty buffer. */
  lemma OneNotification(s: SessionState, data: Bytes)
    requires NotifyOpen(s.link.phase) && s.buffer == [] && ParseFrame(data).Ok? && |data| <= MAX_FRAME_LEN
    ensures AfterNotify(s, data) == Move(s, [Delivered(s.identity.address, ParseFrame(data).value)])
  {
    ParsedOnWire(data);
    assert [] + data == data;
    assert WholeFrame(MAX_FRAME_LEN, data);
    ScanStep(MAX_FRAME_LEN, Emitted(data), data);
    SettledScan(MAX_FRAME_LEN, []);
    assert Scan(MAX_FRAME_LEN, data) == Scanned([Emitted(data)], []);
    assert Frames([Emitted(data)]) == [data];
    assert ParsedOnly([data]) == [ParseFrame(data).value];
  }

  /** A frame is heard exactly from the subscription on until the client is gone. */
  lemma HeardWhileSubscribed(s: SessionState, data: Bytes)
    requires s.buffer == [] && ParseFrame(data).Ok? && |data| <= MAX_FRAME_LEN
    ensures s.link.phase in {Subscribing, Running, Reaping, TearingDown, Closing} <==>
            AfterNotify(s, data).effects == [Delivered(s.identity.address, ParseFrame(data).value)]
    ensures s.link.phase !in {Subscribing, Running, Reaping, TearingDown, Closing} ==>
              AfterNotify(s, data) == Move(s, [])
  {
    if NotifyOpen(s.link.phase) {
      OneNotification(s, data);
    }
  }

  /** The session connects to the node and is notified of the frame. */
  function ConnectAndHear(data: Bytes): seq<Input> {
    [OnTask(Poll), OnTask(LockGranted), OnTask(Connected(true)), OnTask(Subscribed)]
    + [OnWorker(LoopTop), OnNotify(data)]
  }

  /** A session that is connected, with its worker waiting for commands. */
  function Ready(identity: Identity): SessionState {
    SessionState(identity, Link(Running, true, true, false, false, false, false, false), None, [], Getting, [])
  }

  lemma ConnectsAndHears(s: SessionState, data: Bytes)
    requires s.link == Link(Waiting, false, false, false, false, false, true, false) && s.queue == []
    requires ParseFrame(data).Ok? && |data| <= MAX_FRAME_LEN
    ensures Run(s, ConnectAndHear(data))
         == Move(Ready(s.identity),
                 [Attempt(s.identity.target), Delivered(s.identity.address, ParseFrame(data).value)])
  {
    var four := [OnTask(Poll), OnTask(LockGranted), OnTask(Connected(true)), OnTask(Subscribed)];
    Connects(s, true);
    RunJoins(s, four, [OnWorker(LoopTop), OnNotify(data)]);
    RunTwo(Run(s, four).state, OnWorker(LoopTop), OnNotify(data));
    OneNotification(Ready(s.identity), data);
  }

  /** The command for a first frame: for its own node, at that node's location. */
  function AnswerTo(configs: ConfigStore, frame: ParsedFrame): CommandEvent
    requires |frame.payload| >= 2 && Normalize(frame.mac).Ok?
  {
    CommandEvent(Normalize(frame.mac).value, if frame.payload[1] == 20 then "strong_exit" else "strong_enter",
                 LoadConfig(configs, frame.mac).value.location)
  }

  predicate Signals(payload: Bytes) {
    |payload| >= 2 && payload[0] == 1 && (payload[1] == 1 || payload[1] == 10 || payload[1] == 20)
  }

  lemma AnswersFirstFrame(configs: ConfigStore, frame: ParsedFrame, now: real)
    requires Normalize(frame.mac).Ok? && frame.parsed.RawData?
    requires ParseRawData(frame.payload) == Ok(frame.parsed.packet) && Signals(frame.payload)
    ensures RunCommands(INITIAL_STATUS, [EventOf(configs, frame, frame.parsed.packet, now)])
         == [AnswerTo(configs, frame)]
  {
    FirstCommandOnWire(EventOf(configs, frame, frame.parsed.packet, now));
  }

  lemma SendsOne<S>(r: RegistryState<S>, sessions: map<S, Move>, c: CommandEvent, session: S)
    requires Destination(r, c.address) == Some(session) && session in sessions
    ensures AllSent(r, sessions, [c]) == sessions[session := Advance(sessions[session], OnCall(SendCommand(c)))]
  {
    assert [c][1..] == [];
    assert AllSent(r, SentTo(r, sessions, c), []) == SentTo(r, sessions, c);
  }

  /** The frame is handled: it teaches its MAC and its command goes to the session. */
  lemma HandlesFirstFrame<S>(layout: Layout, y: System<S>, key: string, session: S, frame: ParsedFrame, now: real)
    requires Normalize(key) == Ok(key) && Normalize(frame.mac) == Ok(frame.mac) && frame.parsed.RawData?
    requires ParseRawData(frame.payload) == Ok(frame.parsed.packet) && Signals(frame.payload)
    requires y.hub.registry == OneSession(key, session) && y.hub.status == INITIAL_STATUS
    requires session in y.sessions && y.pending == [Delivery(key, frame)]
    ensures var t := StepSystem(layout, y, HandleNext(now));
            && t.pending == []
            && t.sessions == y.sessions[session :=
                 Advance(y.sessions[session], OnCall(SendCommand(AnswerTo(y.hub.configs, frame))))]
  {
    var step: HubStep<S> := Arrival(y.pending[0], now);
    OneStep(layout, y.hub, step);
    AnswersFirstFrame(y.hub.configs, frame, now);
    FrameMacRoutesBack(y.hub.registry, frame.mac, key);
    assert Destination(AliasLearned(y.hub.registry, frame.mac, key), frame.mac) == Some(session);
    SendsOne(StepHub(layout, y.hub, step).registry, y.sessions, AnswerTo(y.hub.configs, frame), session);
  }

  /** The word of a command as bytes, and the frame that carries it. */
  predicate CarriesWord(data: Bytes, mac: Bytes, word: string) {
    && |data| == 18 + |word| && data[..6] == mac
    && data[6..14] == [0x43, 0x4F, 0x4D, 0x4D, 0x41, 0x4E, 0x44, 0x00]
    && data[14] as int == |word| && data[15] == 0
    && (forall i :: 0 <= i < |word| ==> data[16 + i] as int == word[i] as int)
    && data[|data| - 2..] == [13, 10]
  }

  lemma WordOnWire(mac: Bytes, word: string)
    requires |mac| == 6 && word in VALID_COMMANDS && ValidateCommand(word) == Ok(word)
    ensures BuildCommandFrame(MacText(mac), word).Ok?
    ensures CarriesWord(BuildCommandFrame(MacText(mac), word).value, mac, word)
  {
    NormalizeMacText(mac);
    NormalizeMeaning(MacText(mac));
    CommandFrameMeaning(MacText(mac), word);
    CommandOnWire(MacText(mac), word);
    var data := BuildCommandFrame(MacText(mac), word).value;
    MacBytesIff(MacText(mac), mac);
    MacBytesIff(MacText(mac), data[..6]);
  }

  /** The frame of a command for six MAC bytes. */
  function WordFrame(mac: Bytes, word: string): (frame: Bytes)
    requires |mac| == 6 && word in {"strong_enter", "strong_exit"}
    ensures BuildCommandFrame(MacText(mac), word) == Ok(frame) && CarriesWord(frame, mac, word)
  {
    WordOnWire(mac, word);
    BuildCommandFrame(MacText(mac), word).value
  }

  /** A queued command is taken and written. */
  lemma WritesIt(s: SessionState, c: CommandEvent)
    requires s.worker.Getting? && s.queue == [c] && !s.link.stopRequested && Buildable(c)
    ensures Run(s, Turns(1))
         == Move(s.(queue := []),
                 [Dequeued(c), Finished(c, Sent(BuildCommandFrame(c.address, c.command).value))])
  {
    assert Turns(1) == [OnWorker(Get("")), OnWorker(WriteDone(true, ""))] + Turns(0);
    assert Turns(1) == [OnWorker(Get("")), OnWorker(WriteDone(true, ""))];
    RunTwo(s, OnWorker(Get("")), OnWorker(WriteDone(true, "")));
    TakenStep(s, "");
    WrittenStep(AfterWork(s, Get("")).state, "");
  }

  /** The inputs of the exchange. */
  function Exchange<S>(target: Target, session: S, data: Bytes, now: real): seq<SystemInput<S>> {
    [Seen(target, session)]
    + (Progresses(session, ConnectAndHear(data)) + ([HandleNext(now)] + Progresses(session, Turns(1))))
  }

  /** What the session has done in the exchange: attempted its target, handed on the frame under its
      address, accepted one command for the frame's node, taken it, and written its frame. */
  predicate Exchanged(m: Move, target: Target, data: Bytes, c: CommandEvent)
    requires Normalize(target.address).Ok? && ParseFrame(data).Ok? && |data| == 51
  {
    var key := Normalize(target.address).value;
    && c.address == MacText(data[..6]) && c.command == (if data[17] == 20 then "strong_exit" else "strong_enter")
    && m.state == Ready(Identity(target, key, target.name))
    && m.effects == [Attempt(target), Delivered(key, ParseFrame(data).value)] + [Accepted(c)]
                    + [Dequeued(c), Finished(c, Sent(WordFrame(data[..6], c.command)))]
  }

  /** A new hub sees a node, connects to it, and is notified of a RAWDATA frame: whatever the MAC of
      that frame, the hub writes the command for it back over the same connection: the frame's own
      six MAC bytes, COMMAND, and the word for an enter or an exit. */
  lemma {:induction false} FirstExchange<S>(
    layout: Layout, configs: ConfigStore, log: LogState, target: Target, session: S, data: Bytes, now: real)
    requires Normalize(target.address).Ok? && Framed(data) && |data| == 51 && TypeFieldIs(data[6..14], "RAWDATA")
    requires data[16] == 1 && (data[17] == 1 || data[17] == 10 || data[17] == 20)
    ensures ParseFrame(data).Ok?
    ensures var y := RunSystem(layout, NewSystem<S>(configs, log), Exchange(target, session, data, now));
            && y.pending == [] && session in y.sessions
            && exists c :: Exchanged(y.sessions[session], target, data, c)
  {
    var key, y0 := Normalize(target.address).value, NewSystem<S>(configs, log);
    var y1 := StepSystem(layout, y0, Seen(target, session));
    FirstSighting(layout, configs, log, target, session);
    FrameOnWire(data);
    Hears(layout, y1, target, key, session, data);
    var y2 := RunSystem(layout, y1, Progresses(session, ConnectAndHear(data)));
    Concludes(layout, y2, target, key, session, data, now);
    ExchangeRuns(layout, y0, target, session, data, now);
  }

  lemma Concludes<S>(
    layout: Layout, y: System<S>, target: Target, key: string, session: S, data: Bytes, now: real)
    requires Normalize(target.address) == Ok(key) && Framed(data) && |data| == 51 && TypeFieldIs(data[6..14], "RAWDATA")
    requires data[16] == 1 && (data[17] == 1 || data[17] == 10 || data[17] == 20) && ParseFrame(data).Ok?
    requires y.hub.registry == OneSession(key, session) && y.hub.status == INITIAL_STATUS
    requires y.pending == [Delivery(key, ParseFrame(data).value)] && session in y.sessions
    requires y.sessions[session] == Move(Ready(Identity(target, key, target.name)),
                                         [Attempt(target), Delivered(key, ParseFrame(data).value)])
    ensures var t := RunSystem(layout, StepSystem(layout, y, HandleNext(now)), Progresses(session, Turns(1)));
            && t.pending == [] && session in t.sessions
            && exists c :: Exchanged(t.sessions[session], target, data, c)
  {
    var frame := ParseFrame(data).value;
    NormalizeIdempotent(target.address);
    FrameOnWire(data);
    HandledAndAnswered(layout, y, key, session, frame, data[..6], now);
    var t := RunSystem(layout, StepSystem(layout, y, HandleNext(now)), Progresses(session, Turns(1)));
    assert Exchanged(t.sessions[session], target, data, AnswerTo(y.hub.configs, frame));
  }

  /** The second half: from the frame on its way to its answer. */
  lemma HandledAndAnswered<S>(
    layout: Layout, y: System<S>, key: string, session: S, frame: ParsedFrame, mac: Bytes, now: real)
    requires Normalize(key) == Ok(key) && Normalize(frame.mac) == Ok(frame.mac) && frame.parsed.RawData?
    requires ParseRawData(frame.payload) == Ok(frame.parsed.packet) && Signals(frame.payload)
    requires y.hub.registry == OneSession(key, session) && y.hub.status == INITIAL_STATUS
    requires session in y.sessions && y.pending == [Delivery(key, frame)]
    requires |mac| == 6 && frame.mac == MacText(mac)
    requires var s := y.sessions[session].state; s.worker.Getting? && s.queue == [] && !s.link.stopRequested
    ensures var t := RunSystem(layout, StepSystem(layout, y, HandleNext(now)), Progresses(session, Turns(1)));
            var c := AnswerTo(y.hub.configs, frame);
            && t.pending == [] && session in t.sessions
            && t.sessions[session]
               == Move(y.sessions[session].state,
                       y.sessions[session].effects + [Accepted(c)]
                       + [Dequeued(c), Finished(c, Sent(WordFrame(mac, c.command)))])
  {
    HandlesFirstFrame(layout, y, key, session, frame, now);
    Answers(layout, StepSystem(layout, y, HandleNext(now)), session, y.sessions[session].state,
            y.sessions[session].effects, AnswerTo(y.hub.configs, frame), mac);
  }

  lemma FrameOnWire(data: Bytes)
    requires Framed(data) && |data| == 51 && TypeFieldIs(data[6..14], "RAWDATA")
    ensures ParseFrame(data).Ok?
    ensures var f := ParseFrame(data).value;
            && f.parsed.RawData? && ParseRawData(f.payload) == Ok(f.parsed.packet) && |f.payload| == 33
            && f.payload[0] == data[16] && f.payload[1] == data[17]
            && f.mac == MacText(data[..6]) && Normalize(f.mac) == Ok(f.mac)
  {
    ParsedOnWire(data);
  }

  lemma Hears<S>(layout: Layout, y: System<S>, target: Target, key: string, session: S, data: Bytes)
    requires y.sessions == map[session := Move(Started(target, key), [])] && y.pending == []
    requires ParseFrame(data).Ok? && |data| <= MAX_FRAME_LEN
    ensures var t := RunSystem(layout, y, Progresses(session, ConnectAndHear(data)));
            && t.hub == y.hub && t.pending == [Delivery(key, ParseFrame(data).value)]
            && session in t.sessions
            && t.sessions[session] == Move(Ready(Identity(target, key, target.name)),
                                           [Attempt(target), Delivered(key, ParseFrame(data).value)])
  {
    ProgressRuns(layout, y, session, ConnectAndHear(data));
    ConnectsAndHears(Started(target, key), data);
    var frame := ParseFrame(data).value;
    MovedFromNothing(y, session, Ready(Identity(target, key, target.name)), Attempt(target), Delivered(key, frame));
  }

  lemma MovedFromNothing<S>(y: System<S>, session: S, s: SessionState, a: Effect, b: Effect)
    requires y.pending == [] && y.sessions.Keys == {session} && y.sessions[session].effects == []
    requires !a.Delivered? && b.Delivered?
    ensures var t := Moved(y, session, Move(s, [a, b]));
            && t.hub == y.hub && t.pending == [Delivery(b.source, b.frame)]
            && session in t.sessions && t.sessions[session] == Move(s, [a, b])
  {
    HandedOnOfTwo(a, b);
    assert [] + [a, b] == [a, b];
  }

  lemma Answers<S>(
    layout: Layout, y: System<S>, session: S, s: SessionState, effects: seq<Effect>, c: CommandEvent, mac: Bytes)
    requires s.worker.Getting? && s.queue == [] && !s.link.stopRequested && y.pending == []
    requires session in y.sessions && y.sessions[session] == Advance(Move(s, effects), OnCall(SendCommand(c)))
    requires |mac| == 6 && c.address == MacText(mac) && c.command in {"strong_enter", "strong_exit"}
    ensures var t := RunSystem(layout, y, Progresses(session, Turns(1)));
            && session in t.sessions && t.pending == []
            && t.sessions[session]
               == Move(s, effects + [Accepted(c)] + [Dequeued(c), Finished(c, Sent(WordFrame(mac, c.command)))])
  {
    var frame := WordFrame(mac, c.command);
    ProgressRuns(layout, y, session, Turns(1));
    assert y.sessions[session].state == s.(queue := [c]);
    WritesIt(s.(queue := [c]), c);
    NothingHandedOn(Dequeued(c), Finished(c, Sent(frame)));
  }

  lemma NothingHandedOn(a: Effect, b: Effect)
    requires !a.Delivered? && !b.Delivered?
    ensures HandedOnIn([a, b]) == []
  {
    assert [a, b][1..] == [b] && [b][1..] == [];
    assert HandedOnIn([b]) == [];
  }

  lemma HandedOnOfTwo(a: Effect, b: Effect)
    requires !a.Delivered? && b.Delivered?
    ensures HandedOnIn([a, b]) == [Delivery(b.source, b.frame)]
  {
    assert [a, b][1..] == [b] && [b][1..] == [];
    assert HandedOnIn([b]) == [Delivery(b.source, b.frame)];
  }

  lemma ExchangeRuns<S>(layout: Layout, y0: System<S>, target: Target, session: S, data: Bytes, now: real)
    ensures var y1 := StepSystem(layout, y0, Seen(target, session));
            var y2 := RunSystem(layout, y1, Progresses(session, ConnectAndHear(data)));
            var y3 := StepSystem(layout, y2, HandleNext(now));
            RunSystem(layout, y0, Exchange(target, session, data, now))
            == RunSystem(layout, y3, Progresses(session, Turns(1)))
  {
    var y1 := StepSystem(layout, y0, Seen(target, session));
    var y2 := RunSystem(layout, y1, Progresses(session, ConnectAndHear(data)));
    var last := Progresses(session, Turns(1));
    SystemRunJoins(layout, y0, [Seen(target, session)],
                   Progresses(session, ConnectAndHear(data)) + ([HandleNext(now)] + last));
    SystemRunOne(layout, y0, Seen(target, session));
    SystemRunJoins(layout, y1, Progresses(session, ConnectAndHear(data)), [HandleNext(now)] + last);
    SystemRunJoins(layout, y2, [HandleNext(now)], last);
    SystemRunOne(layout, y2, HandleNext(now));
  }
}
