/** One BLE device session as a state machine over the atomic steps of its coroutines. */
module Session {
  import opened Common
  import opened MacAddress
  import opened Codec
  import opened Assembler
  import opened Estimator

  /** What a session connects to; a bare address is a target without a name. */
  datatype Target = Target(address: string, name: string)

  /** Where the session task stands: the waits of `_run` and of the calls it makes. */
  datatype Phase =
    | Idle                 // no task
    | Waiting              // for a target update
    | Locking              // for the adapter lock, an attempt having begun
    | Connecting
    | Subscribing
    | Running              // until stop or disconnect
    | Reaping              // about to cancel the command worker
    | TearingDown          // stop_notify, disconnect
    | Closing              // the disconnect of the `finally` block
    | Ended(died: bool)    // the coroutine returned, or an exception escaped it

  /** Where the command worker stands. */
  datatype Worker =
    | Absent
    | Fresh
    | Getting
    | Writing(command: CommandEvent, frame: Bytes)
    | Exited

  /** The connection side of a session: flags, events and where its coroutine stands. */
  datatype Link = Link(
    phase: Phase,
    connected: bool,
    clientHeld: bool,
    waitingForAdvertisement: bool,
    unavailableLogged: bool,
    stopRequested: bool,
    targetUpdated: bool,
    linkDropped: bool)

  datatype Identity = Identity(target: Target, address: string, name: string)

  datatype SessionState = SessionState(
    identity: Identity,
    link: Link,
    lastError: Option<string>,
    queue: seq<CommandEvent>,
    worker: Worker,
    buffer: Bytes)

  datatype SessionCall =
    | UpdateTarget(target: Target)
    | Start
    | RequestStop
    | FinishStop
    | SendCommand(command: CommandEvent)

  /** Progress of the session task: its next look at the events, or how an awaited operation
      ended. `clientAlive` tells whether a held client still reports a connection when the
      session cleans up. */
  datatype TaskEvent =
    | Poll
    | LockGranted
    | Connected(isConnected: bool)
    | Subscribed
    | Failed(expected: bool, message: string, clientAlive: bool)
    | LinkDropped
    | Wake
    | Reap
    | TornDown(clientAlive: bool)
    | Closed(escaped: bool)

  /** Progress of the command worker. `message` is the text of the error, if there is one. */
  datatype WorkerEvent =
    | LoopTop
    | Get(message: string)
    | WriteDone(ok: bool, message: string)

  datatype Input =
    | OnCall(call: SessionCall)
    | OnTask(event: TaskEvent)
    | OnWorker(work: WorkerEvent)
    | OnNotify(chunk: Bytes)

  datatype Outcome = Sent(frame: Bytes) | Unsent | Abandoned

  datatype Effect =
    | Retargeted
    | Accepted(command: CommandEvent)
    | Attempt(target: Target)
    | Dequeued(command: CommandEvent)
    | Finished(command: CommandEvent, outcome: Outcome)
    | Delivered(source: string, frame: ParsedFrame)

  datatype Move = Move(state: SessionState, effects: seq<Effect>)

  // ---------- specification of the steps ----------

  function NewState(target: Target, address: string): SessionState {
    SessionState(Identity(target, address, target.name),
                 Link(Idle, false, false, false, false, false, true, false), None, [], Absent, [])
  }

  predicate NotifyOpen(phase: Phase) {
    phase.Subscribing? || phase.Running? || phase.Reaping? || phase.TearingDown? || phase.Closing?
  }

  /** The waits inside the `try` block at which an exception can surface; one raised while the
      client is constructed surfaces before the adapter lock is held. */
  predicate FailureOpen(phase: Phase) {
    phase.Locking? || phase.Connecting? || phase.Subscribing? || phase.TearingDown?
  }

  /** The last lines of the `finally` block and of the loop. */
  function Left(k: Link): Link {
    k.(connected := false, clientHeld := false,
       waitingForAdvertisement := k.waitingForAdvertisement || !k.stopRequested,
       phase := if k.stopRequested then Ended(false) else Waiting)
  }

  /** The `finally` block: a client that still reports a connection is disconnected first. */
  function Leave(k: Link, clientAlive: bool): Link {
    if k.clientHeld && clientAlive then k.(phase := Closing) else Left(k)
  }

  /** The head of the worker's loop. */
  function LoopHead(k: Link): Worker {
    if k.stopRequested then Exited else Getting
  }

  function Renamed(was: Identity, target: Target, address: string): Identity {
    Identity(target, address, if target.name != "" then target.name else was.name)
  }

  function AfterCall(s: SessionState, call: SessionCall): Move {
    match call
    case UpdateTarget(target) =>
      (match Normalize(target.address)
       case Err(_) => Move(s.(identity := s.identity.(target := target)), [])
       case Ok(address) =>
         Move(s.(identity := Renamed(s.identity, target, address),
                 link := s.link.(waitingForAdvertisement := false, targetUpdated := true)),
              [Retargeted]))
    case Start =>
      Move(if s.link.phase.Idle? || s.link.phase.Ended? then
             s.(link := s.link.(stopRequested := false, phase := Waiting))
           else s, [])
    case RequestStop => Move(s.(link := s.link.(stopRequested := true)), [])
    case FinishStop =>
      Move(if s.link.phase == Ended(false) then s.(link := s.link.(phase := Idle)) else s, [])
    case SendCommand(command) => Move(s.(queue := s.queue + [command]), [Accepted(command)])
  }

  /** When the coroutine can make the step; at other times it changes nothing. */
  predicate TaskReady(k: Link, event: TaskEvent) {
    match event
    case Poll => k.phase.Waiting?
    case LockGranted => k.phase.Locking?
    case Connected(_) => k.phase.Connecting?
    case Subscribed => k.phase.Subscribing?
    case Failed(_, _, _) => FailureOpen(k.phase)
    case LinkDropped => k.phase.Connecting? || NotifyOpen(k.phase)
    case Wake => k.phase.Running? && (k.stopRequested || k.linkDropped)
    case Reap => k.phase.Reaping?
    case TornDown(_) => k.phase.TearingDown?
    case Closed(_) => k.phase.Closing?
  }

  function AfterPoll(k: Link): Link {
    if k.stopRequested then k.(phase := Ended(false))
    else if k.targetUpdated then k.(targetUpdated := false, linkDropped := false, phase := Locking)
    else k
  }

  function LinkAfter(k: Link, event: TaskEvent): Link
    requires TaskReady(k, event)
  {
    match event
    case Poll => AfterPoll(k)
    case LockGranted => k.(phase := Connecting)
    case Connected(isConnected) =>
      k.(clientHeld := true, connected := isConnected, waitingForAdvertisement := false,
         unavailableLogged := false, phase := Subscribing)
    case Subscribed => k.(phase := Running)
    case Failed(expected, _, clientAlive) =>
      Leave(k.(unavailableLogged := k.unavailableLogged || expected), clientAlive)
    case LinkDropped => k.(linkDropped := true)
    case Wake => k.(phase := Reaping)
    case Reap => k.(phase := TearingDown)
    case TornDown(clientAlive) => Leave(k, clientAlive)
    case Closed(escaped) => if escaped then k.(phase := Ended(true)) else Left(k)
  }

  function ErrorAfter(was: Option<string>, event: TaskEvent): Option<string> {
    match event
    case Subscribed => None
    case Failed(_, message, _) => Some(message)
    case _ => was
  }

  function TaskEffects(s: SessionState, event: TaskEvent): seq<Effect> {
    match event
    case Poll => if AfterPoll(s.link).phase.Locking? then [Attempt(s.identity.target)] else []
    case Reap => if s.worker.Writing? then [Finished(s.worker.command, Abandoned)] else []
    case _ => []
  }

  /** Every connection gets an empty buffer and, once subscribed, a new worker. */
  function AfterTask(s: SessionState, event: TaskEvent): Move {
    if !TaskReady(s.link, event) then Move(s, [])
    else
      Move(s.(link := LinkAfter(s.link, event),
              lastError := ErrorAfter(s.lastError, event),
              worker := if event.Subscribed? then Fresh else if event.Reap? then Absent else s.worker,
              buffer := if event.Connected? then [] else s.buffer),
           TaskEffects(s, event))
  }

  predicate WorkerReady(s: SessionState, work: WorkerEvent) {
    match work
    case LoopTop => s.worker.Fresh?
    case Get(_) => s.worker.Getting? && s.queue != []
    case WriteDone(_, _) => s.worker.Writing?
  }

  function AfterGet(s: SessionState, message: string): Move
    requires s.queue != []
  {
    var c := s.queue[0];
    var built := BuildCommandFrame(c.address, c.command);
    Move(s.(queue := s.queue[1..],
            worker := if built.Ok? then Writing(c, built.value) else LoopHead(s.link),
            lastError := if built.Ok? then s.lastError else Some(message)),
         [Dequeued(c)] + if built.Ok? then [] else [Finished(c, Unsent)])
  }

  function AfterWork(s: SessionState, work: WorkerEvent): Move {
    if !WorkerReady(s, work) then Move(s, [])
    else
      match work
      case LoopTop => Move(s.(worker := LoopHead(s.link)), [])
      case Get(message) => AfterGet(s, message)
      case WriteDone(ok, message) =>
        Move(s.(worker := LoopHead(s.link), lastError := if ok then s.lastError else Some(message)),
             [Finished(s.worker.command, if ok then Sent(s.worker.frame) else Unsent)])
  }

  /** The frames that parse, in order; the others are logged and skipped. */
  function ParsedOnly(frames: seq<Bytes>): seq<ParsedFrame> {
    if frames == [] then []
    else if ParseFrame(frames[0]).Ok? then [ParseFrame(frames[0]).value] + ParsedOnly(frames[1..])
    else ParsedOnly(frames[1..])
  }

  function Deliveries(source: string, frames: seq<ParsedFrame>): seq<Effect> {
    seq(|frames|, i requires 0 <= i < |frames| => Delivered(source, frames[i]))
  }

  function AfterNotify(s: SessionState, chunk: Bytes): Move {
    if !NotifyOpen(s.link.phase) then Move(s, [])
    else
      var cut := Scan(MAX_FRAME_LEN, s.buffer + chunk);
      Move(s.(buffer := cut.rest), Deliveries(s.identity.address, ParsedOnly(Frames(cut.pieces))))
  }

  function Step(s: SessionState, i: Input): Move {
    match i
    case OnCall(call) => AfterCall(s, call)
    case OnTask(event) => AfterTask(s, event)
    case OnWorker(work) => AfterWork(s, work)
    case OnNotify(chunk) => AfterNotify(s, chunk)
  }

  // ---------- the session object ----------

  class DeviceSession {
    var target: Target
    var address: string
    var name: string
    var connected: bool
    var lastError: Option<string>
    var waitingForAdvertisement: bool
    var unavailableLogged: bool
    var stopEvent: bool
    var targetUpdatedEvent: bool
    var commandQueue: seq<CommandEvent>
    var clientHeld: bool
    var phase: Phase
    var worker: Worker
    var disconnectedEvent: bool
    var assembler: FrameAssembler

    ghost function State(): SessionState
      reads this, assembler
    {
      SessionState(Identity(target, address, name),
                   Link(phase, connected, clientHeld, waitingForAdvertisement, unavailableLogged,
                        stopEvent, targetUpdatedEvent, disconnectedEvent),
                   lastError, commandQueue, worker, assembler.buffer)
    }

    ghost predicate Valid()
      reads this, assembler
    {
      assembler.maxFrameLen == MAX_FRAME_LEN
    }

    /** The session for a target; a target with a bad address raises. */
    static method Create(target: Target) returns (r: Result<DeviceSession, ValueError>)
      ensures match Normalize(target.address)
              case Err(e) => r == Err(e)
              case Ok(address) =>
                && r.Ok? && fresh(r.value) && r.value.Valid() && fresh(r.value.assembler)
                && r.value.State() == NewState(target, address)
    {
      var address :- Normalize(target.address);
      var session := new DeviceSession(target, address);
      return Ok(session);
    }

    /** The fields of a new session, given the normalized address. */
    constructor (target: Target, address: string)
      requires Normalize(target.address) == Ok(address)
      ensures Valid() && fresh(assembler)
      ensures State() == NewState(target, address)
    {
      this.target, this.address, name := target, address, target.name;
      connected, lastError, waitingForAdvertisement, unavailableLogged := false, None, false, false;
      stopEvent, targetUpdatedEvent, commandQueue := false, true, [];
      clientHeld, phase, worker, disconnectedEvent := false, Idle, Absent, false;
      assembler := new FrameAssembler();
    }

    /** On an address that cannot be normalized the new target is kept and the call raises. */
    method UpdateTarget(target: Target) returns (r: Result<(), ValueError>)
      modifies this
      ensures State() == AfterCall(old(State()), SessionCall.UpdateTarget(target)).state
      ensures r.Ok? <==> Normalize(target.address).Ok?
      ensures unchanged(this`commandQueue, this`assembler)
    {
      ghost var after := AfterCall(State(), SessionCall.UpdateTarget(target)).state;
      this.target := target;
      address :- Normalize(target.address);
      name := if target.name != "" then target.name else name;
      waitingForAdvertisement := false;
      targetUpdatedEvent := true;
      assert State() == after;
      return Ok(());
    }

    method Start()
      modifies this
      ensures State() == AfterCall(old(State()), SessionCall.Start).state
      ensures unchanged(this`commandQueue, this`assembler)
    {
      if phase.Idle? || phase.Ended? {
        stopEvent := false;
        phase := Waiting;
      }
    }

    method RequestStop()
      modifies this
      ensures State() == AfterCall(old(State()), SessionCall.RequestStop).state
    {
      stopEvent := true;
    }

    method FinishStop()
      requires phase == Ended(false)
      modifies this
      ensures State() == AfterCall(old(State()), SessionCall.FinishStop).state
    {
      phase := Idle;
    }

    method SendCommand(command: CommandEvent)
      modifies this`commandQueue
      ensures State() == AfterCall(old(State()), SessionCall.SendCommand(command)).state
    {
      commandQueue := commandQueue + [command];
    }

    /** One look of `_wait_for_target_update`, up to the construction of the client. */
    method Poll() returns (attempts: seq<Effect>)
      requires phase.Waiting?
      modifies this
      ensures Move(State(), attempts) == AfterTask(old(State()), TaskEvent.Poll)
    {
      attempts := [];
      if stopEvent {
        phase := Ended(false);
      } else if targetUpdatedEvent {
        targetUpdatedEvent := false;
        disconnectedEvent := false;
        attempts := [Attempt(target)];
        phase := Locking;
      }
    }

    method LockGranted()
      requires phase.Locking?
      modifies this
      ensures State() == AfterTask(old(State()), TaskEvent.LockGranted).state
    {
      phase := Connecting;
    }

    /** `connect` returned: every connection has an assembler of its own. */
    method OnConnected(isConnected: bool)
      requires phase.Connecting? && Valid()
      modifies this
      ensures State() == AfterTask(old(State()), Connected(isConnected)).state
      ensures Valid() && fresh(assembler)
    {
      ghost var was := State();
      assert TaskReady(was.link, Connected(isConnected));
      clientHeld := true;
      connected := isConnected;
      waitingForAdvertisement := false;
      unavailableLogged := false;
      phase := Subscribing;
      assembler := new FrameAssembler();
    }

    method OnSubscribed()
      requires phase.Subscribing?
      modifies this
      ensures State() == AfterTask(old(State()), Subscribed).state
    {
      lastError := None;
      worker := Fresh;
      phase := Running;
    }

    method OnFailure(expected: bool, message: string, clientAlive: bool)
      requires FailureOpen(phase)
      modifies this
      ensures State() == AfterTask(old(State()), Failed(expected, message, clientAlive)).state
    {
      ghost var after := AfterTask(State(), Failed(expected, message, clientAlive)).state;
      lastError := Some(message);
      if expected && !unavailableLogged {
        unavailableLogged := true;
      }
      assert after == State().(link := Leave(State().link, clientAlive));
      CleanUp(clientAlive);
    }

    method OnDisconnect()
      modifies this
      requires NotifyOpen(phase) || phase.Connecting?
      ensures State() == AfterTask(old(State()), LinkDropped).state
    {
      disconnectedEvent := true;
    }

    method OnWake()
      requires phase.Running? && (stopEvent || disconnectedEvent)
      modifies this
      ensures State() == AfterTask(old(State()), Wake).state
    {
      phase := Reaping;
    }

    method ReapWorker() returns (effects: seq<Effect>)
      requires phase.Reaping?
      modifies this
      ensures Move(State(), effects) == AfterTask(old(State()), Reap)
    {
      effects := if worker.Writing? then [Finished(worker.command, Abandoned)] else [];
      worker := Absent;
      phase := TearingDown;
    }

    method OnTornDown(clientAlive: bool)
      requires phase.TearingDown?
      modifies this
      ensures State() == AfterTask(old(State()), TornDown(clientAlive)).state
    {
      CleanUp(clientAlive);
    }

    /** The `finally` block up to its wait, if it has one. */
    method CleanUp(clientAlive: bool)
      modifies this
      ensures State() == old(State()).(link := Leave(old(State()).link, clientAlive))
    {
      if clientHeld {
        if clientAlive {
          phase := Closing;
          return;
        }
      }
      LeaveConnection();
    }

    method LeaveConnection()
      modifies this
      ensures State() == old(State()).(link := Left(old(State()).link))
    {
      connected := false;
      clientHeld := false;
      if !stopEvent {
        waitingForAdvertisement := true;
        phase := Waiting;
      } else {
        phase := Ended(false);
      }
    }

    /** The last disconnect returned, or raised something that is not suppressed. */
    method OnClosed(escaped: bool)
      requires phase.Closing?
      modifies this
      ensures State() == AfterTask(old(State()), Closed(escaped)).state
    {
      if escaped {
        phase := Ended(true);
      } else {
        LeaveConnection();
      }
    }

    /** Assembles the chunk and hands on every frame that parses. */
    method HandleNotify(chunk: Bytes) returns (effects: seq<Effect>)
      requires NotifyOpen(phase) && Valid()
      modifies assembler
      ensures Valid()
      ensures Move(State(), effects) == AfterNotify(old(State()), chunk)
    {
      effects := [];
      var frames := assembler.Push(chunk);
      for i := 0 to |frames|
        invariant effects + Deliveries(address, ParsedOnly(frames[i..])) == Deliveries(address, ParsedOnly(frames))
      {
        match ParseFrame(frames[i])
        case Err(_) =>
        case Ok(frame) =>
          effects := effects + [Delivered(address, frame)];
      }
    }

    method StartWorkerLoop()
      requires worker.Fresh?
      modifies this
      ensures State() == AfterWork(old(State()), LoopTop).state
    {
      worker := if stopEvent then Exited else Getting;
    }

    /** Takes the next command and starts writing its frame; `message` is the text of the
        error, if building the frame raises. */
    method GetCommand(message: string) returns (effects: seq<Effect>)
      requires worker.Getting? && commandQueue != []
      modifies this
      ensures Move(State(), effects) == AfterWork(old(State()), Get(message))
    {
      var command := commandQueue[0];
      commandQueue := commandQueue[1..];
      effects := [Dequeued(command)];
      match BuildCommandFrame(command.address, command.command)
      case Ok(frame) =>
        worker := Writing(command, frame);
      case Err(_) =>
        lastError := Some(message);
        effects := effects + [Finished(command, Unsent)];
        worker := if stopEvent then Exited else Getting;
    }

    method OnWriteDone(ok: bool, message: string) returns (effects: seq<Effect>)
      requires worker.Writing?
      modifies this
      ensures Move(State(), effects) == AfterWork(old(State()), WriteDone(ok, message))
    {
      effects := [Finished(worker.command, if ok then Sent(worker.frame) else Unsent)];
      if !ok {
        lastError := Some(message);
      }
      worker := if stopEvent then Exited else Getting;
    }
  }
}
