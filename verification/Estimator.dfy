/** The unitspace estimator: which node the occupant is at, and the enter/exit commands sent. */
module Estimator {
  import opened Common
  import opened MacAddress
  import opened Codec

  const DEFAULT_LOCATION := "undefined"
  const ENTER_SIGNALS := {1, 10}
  const EXIT_SIGNAL := 20
  const NOISE_THRESHOLD_SECONDS := 5.0

  datatype RawDataEvent = RawDataEvent(
    timestamp: real,
    mac: string,
    location: string,
    packet: RawDataPacket,
    payload: Bytes,
    deviceType: string)

  datatype CommandEvent = CommandEvent(address: string, command: string, location: string)

  datatype UnitspaceStatus = UnitspaceStatus(
    lastAddress: Option<string>,
    lastLocation: Option<string>,
    lastTimestamp: real)

  const INITIAL_STATUS := UnitspaceStatus(None, None, 0.0)

  /** `text or DEFAULT_LOCATION`. */
  function LocationOr(text: string): string {
    if text == "" then DEFAULT_LOCATION else text
  }

  function PreviousLocation(status: UnitspaceStatus): string {
    match status.lastLocation
    case Some(text) => LocationOr(text)
    case None => DEFAULT_LOCATION
  }

  // ---------- specification ----------

  /** What an event means to the estimator: nothing, or an enter or exit signal of a node. */
  datatype Signal = NoSignal | Enter(address: string, location: string) | Exit(address: string, location: string)

  /** The signal of an event; an event whose MAC cannot be normalized raises instead. */
  function SignalOf(event: RawDataEvent): Result<Signal, ValueError> {
    if event.packet.flagHumanPresence != 1 then Ok(NoSignal)
    else
      var address :- Normalize(event.mac);
      var location := LocationOr(event.location);
      if event.packet.detected in ENTER_SIGNALS then Ok(Enter(address, location))
      else if event.packet.detected == EXIT_SIGNAL then Ok(Exit(address, location))
      else Ok(NoSignal)
  }

  /** The commands one signal causes, given the node remembered before it. */
  function CommandsFor(status: UnitspaceStatus, signal: Signal): seq<CommandEvent> {
    match signal
    case NoSignal => []
    case Exit(a, l) => [CommandEvent(a, "strong_exit", l)]
    case Enter(a, l) =>
      if status.lastAddress == Some(a) then []
      else if status.lastAddress == None then [CommandEvent(a, "strong_enter", l)]
      else [CommandEvent(a, "strong_enter", l),
            CommandEvent(status.lastAddress.value, "strong_exit", PreviousLocation(status))]
  }

  /** The node remembered after a signal. */
  function StatusAfter(status: UnitspaceStatus, signal: Signal, timestamp: real): UnitspaceStatus {
    if signal.NoSignal? then status
    else UnitspaceStatus(Some(signal.address), Some(signal.location), timestamp)
  }

  /** The signal of an event, where an event that raises counts as none. */
  function Effective(event: RawDataEvent): Signal {
    match SignalOf(event)
    case Ok(signal) => signal
    case Err(_) => NoSignal
  }

  function Next(status: UnitspaceStatus, event: RawDataEvent): UnitspaceStatus {
    StatusAfter(status, Effective(event), event.timestamp)
  }

  // ---------- the state machine ----------

  class SimpleUnitspaceEstimator {
    var status: UnitspaceStatus

    constructor ()
      ensures status == INITIAL_STATUS
    {
      status := INITIAL_STATUS;
    }

    /** An event that raises leaves the status alone. */
    method Handle(event: RawDataEvent) returns (r: Result<seq<CommandEvent>, ValueError>)
      modifies this
      ensures r.Ok? <==> SignalOf(event).Ok?
      ensures status == Next(old(status), event)
      ensures r.Ok? ==> r.value == CommandsFor(old(status), Effective(event))
      ensures r.Err? ==> Effective(event) == NoSignal && r.error == SignalOf(event).error
    {
      if event.packet.flagHumanPresence != 1 {
        return Ok([]);
      }
      var address :- Normalize(event.mac);
      var location := LocationOr(event.location);
      var signal := event.packet.detected;
      if signal in ENTER_SIGNALS {
        var commands := HandleEnter(address, location, event.timestamp);
        return Ok(commands);
      }
      if signal == EXIT_SIGNAL {
        Remember(address, location, event.timestamp);
        return Ok([CommandEvent(address, "strong_exit", location)]);
      }
      return Ok([]);
    }

    method HandleEnter(address: string, location: string, timestamp: real)
      returns (commands: seq<CommandEvent>)
      modifies this
      ensures commands == CommandsFor(old(status), Enter(address, location))
      ensures status == StatusAfter(old(status), Enter(address, location), timestamp)
    {
      if status.lastAddress == None {
        Remember(address, location, timestamp);
        return [CommandEvent(address, "strong_enter", location)];
      }
      if status.lastAddress == Some(address) {
        if timestamp - status.lastTimestamp < NOISE_THRESHOLD_SECONDS {
          Remember(address, location, timestamp);
          return [];
        }
        Remember(address, location, timestamp);
        return [];
      }
      var previousAddress := status.lastAddress.value;
      var previousLocation := PreviousLocation(status);
      Remember(address, location, timestamp);
      return [CommandEvent(address, "strong_enter", location),
              CommandEvent(previousAddress, "strong_exit", previousLocation)];
    }

    method Remember(address: string, location: string, timestamp: real)
      modifies this
      ensures status == UnitspaceStatus(Some(address), Some(location), timestamp)
    {
      status := UnitspaceStatus(Some(address), Some(location), timestamp);
    }
  }
}
