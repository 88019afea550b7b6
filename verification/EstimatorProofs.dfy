/** Theorems about whole runs of the unitspace estimator. */
module EstimatorProofs {
  import opened Common
  import opened MacAddress
  import opened Codec
  import opened CodecProofs
  import opened Estimator
  import opened WireFormat

  // ---------- signals on the air ----------

  /** Which payload bytes are which signal: a presence flag of one with a detection of one or ten
      is an enter, with twenty an exit; anything else is none. The node is told by the frame's MAC,
      the place by the event, "undefined" if it has none. */
  lemma SignalOnWire(event: RawDataEvent)
    requires ParseRawData(event.payload) == Ok(event.packet)
    ensures SignalOf(event).Err? <==> event.payload[0] == 1 && Normalize(event.mac).Err?
    ensures Normalize(event.mac).Ok? ==>
              var b, signal := event.payload, Effective(event);
              var place := if event.location == "" then "undefined" else event.location;
              && (signal.Enter? <==> b[0] == 1 && (b[1] == 1 || b[1] == 10))
              && (signal.Exit? <==> b[0] == 1 && b[1] == 20)
              && (!signal.NoSignal? ==> signal.address == Normalize(event.mac).value && signal.location == place)
  {
    RawDataOnWire(event.payload);
  }

  /** What a first frame commands when no node is remembered, told by its bytes. */
  lemma FirstCommandOnWire(event: RawDataEvent)
    requires ParseRawData(event.payload) == Ok(event.packet) && Normalize(event.mac).Ok?
    ensures var b, mac := event.payload, Normalize(event.mac).value;
            var place := if event.location == "" then "undefined" else event.location;
            RunCommands(INITIAL_STATUS, [event])
            == if b[0] == 1 && (b[1] == 1 || b[1] == 10) then [CommandEvent(mac, "strong_enter", place)]
               else if b[0] == 1 && b[1] == 20 then [CommandEvent(mac, "strong_exit", place)]
               else []
  {
    SignalOnWire(event);
    RunOne(INITIAL_STATUS, event);
  }

  function RunStatus(status: UnitspaceStatus, events: seq<RawDataEvent>): UnitspaceStatus
    decreases |events|
  {
    if events == [] then status else RunStatus(Next(status, events[0]), events[1..])
  }

  /** All commands of a run, in order. */
  function RunCommands(status: UnitspaceStatus, events: seq<RawDataEvent>): seq<CommandEvent>
    decreases |events|
  {
    if events == [] then []
    else CommandsFor(status, Effective(events[0])) + RunCommands(Next(status, events[0]), events[1..])
  }

  lemma RunCons(status: UnitspaceStatus, e: RawDataEvent, events: seq<RawDataEvent>)
    ensures RunStatus(status, [e] + events) == RunStatus(Next(status, e), events)
    ensures RunCommands(status, [e] + events)
         == CommandsFor(status, Effective(e)) + RunCommands(Next(status, e), events)
  {
    assert ([e] + events)[1..] == events;
  }

  lemma {:induction false} RunStatusAppend(status: UnitspaceStatus, a: seq<RawDataEvent>, b: seq<RawDataEvent>)
    ensures RunStatus(status, a + b) == RunStatus(RunStatus(status, a), b)
    decreases |a|
  {
    if a == [] {
      assert a + b == b;
    } else {
      RunStatusAppend(Next(status, a[0]), a[1..], b);
      assert (a + b)[1..] == a[1..] + b;
    }
  }

  lemma {:induction false} RunAppend(status: UnitspaceStatus, a: seq<RawDataEvent>, b: seq<RawDataEvent>)
    ensures RunStatus(status, a + b) == RunStatus(RunStatus(status, a), b)
    ensures RunCommands(status, a + b) == RunCommands(status, a) + RunCommands(RunStatus(status, a), b)
    decreases |a|
  {
    RunStatusAppend(status, a, b);
    if a == [] {
      assert a + b == b;
    } else {
      RunAppend(Next(status, a[0]), a[1..], b);
      RunConsAppend(status, a[0], a[1..], b);
      assert a == [a[0]] + a[1..];
    }
  }

  lemma RunConsAppend(status: UnitspaceStatus, e: RawDataEvent, a: seq<RawDataEvent>, b: seq<RawDataEvent>)
    requires var next := Next(status, e);
             RunCommands(next, a + b) == RunCommands(next, a) + RunCommands(RunStatus(next, a), b)
    ensures RunCommands(status, ([e] + a) + b)
         == RunCommands(status, [e] + a) + RunCommands(RunStatus(status, [e] + a), b)
  {
    var next := Next(status, e);
    assert ([e] + a) + b == [e] + (a + b);
    RunCons(status, e, a);
    RunCons(status, e, a + b);
    Assoc(CommandsFor(status, Effective(e)), RunCommands(next, a), RunCommands(RunStatus(next, a), b));
  }

  lemma RunOne(status: UnitspaceStatus, e: RawDataEvent)
    ensures RunStatus(status, [e]) == Next(status, e)
    ensures RunCommands(status, [e]) == CommandsFor(status, Effective(e))
  {
    assert [e][1..] == [];
  }

  /** A run with one event in the middle, taken apart. */
  lemma RunAround(
    status: UnitspaceStatus, before: seq<RawDataEvent>, e: RawDataEvent, after: seq<RawDataEvent>)
    ensures var here := RunStatus(status, before);
            && RunStatus(status, before + [e] + after) == RunStatus(Next(here, e), after)
            && RunCommands(status, before + [e] + after)
               == RunCommands(status, before) + CommandsFor(here, Effective(e)) + RunCommands(Next(here, e), after)
  {
    RunAppend(status, before + [e], after);
    RunAppend(status, before, [e]);
    RunOne(RunStatus(status, before), e);
  }

  // ---------- timestamps and stuttering ----------

  predicate SameUpToTime(s: UnitspaceStatus, t: UnitspaceStatus) {
    s.lastAddress == t.lastAddress && s.lastLocation == t.lastLocation
  }

  predicate Retimed(xs: seq<RawDataEvent>, ys: seq<RawDataEvent>) {
    |xs| == |ys| && forall i :: 0 <= i < |xs| ==> xs[i].(timestamp := ys[i].timestamp) == ys[i]
  }

  /** Runs that differ only in timestamps emit the same commands and remember the same node. */
  lemma {:induction false} TimestampsDoNotMatter(
    s: UnitspaceStatus, t: UnitspaceStatus, xs: seq<RawDataEvent>, ys: seq<RawDataEvent>)
    requires SameUpToTime(s, t) && Retimed(xs, ys)
    ensures RunCommands(s, xs) == RunCommands(t, ys)
    ensures SameUpToTime(RunStatus(s, xs), RunStatus(t, ys))
    decreases |xs|
  {
    if xs == [] {
    } else {
      assert xs[0].(timestamp := ys[0].timestamp) == ys[0];
      assert Effective(xs[0]) == Effective(ys[0]);
      TimestampsDoNotMatter(Next(s, xs[0]), Next(t, ys[0]), xs[1..], ys[1..]);
    }
  }

  lemma SameEvents(events: seq<RawDataEvent>)
    ensures Retimed(events, events)
  {
  }

  /** Deleting an event without a signal, anywhere in a run, changes nothing at all. */
  lemma IrrelevantEventDeleted(
    status: UnitspaceStatus, before: seq<RawDataEvent>, e: RawDataEvent, after: seq<RawDataEvent>)
    requires Effective(e).NoSignal?
    ensures RunCommands(status, before + [e] + after) == RunCommands(status, before + after)
    ensures RunStatus(status, before + [e] + after) == RunStatus(status, before + after)
  {
    RunAround(status, before, e, after);
    RunAppend(status, before, after);
  }

  /** When the last signal of a run came. */
  function LastSignalTime(before: real, events: seq<RawDataEvent>): real {
    if events == [] then before
    else
      var last := |events| - 1;
      if Effective(events[last]).NoSignal? then LastSignalTime(before, events[..last]) else events[last].timestamp
  }

  /** The last signal of a run. */
  function LastSignal(events: seq<RawDataEvent>): Signal {
    if events == [] then NoSignal
    else
      var last := |events| - 1;
      if Effective(events[last]).NoSignal? then LastSignal(events[..last]) else Effective(events[last])
  }

  /** What the estimator remembers is the last signal and nothing older. */
  lemma {:induction false} RemembersLastSignal(status: UnitspaceStatus, events: seq<RawDataEvent>)
    ensures var signal := LastSignal(events);
            if signal.NoSignal? then RunStatus(status, events) == status
            else && RunStatus(status, events).lastAddress == Some(signal.address)
                 && RunStatus(status, events).lastLocation == Some(signal.location)
    ensures RunStatus(status, events).lastTimestamp == LastSignalTime(status.lastTimestamp, events)
    decreases |events|
  {
    if events == [] {
    } else {
      var last := |events| - 1;
      RemembersLastSignal(status, events[..last]);
      RunAppend(status, events[..last], [events[last]]);
      assert events == events[..last] + [events[last]];
      RunOne(RunStatus(status, events[..last]), events[last]);
    }
  }

  /** Deleting an enter that repeats the address and location of the signal before it changes
      no command, before or after. */
  lemma RepeatedEnterDeleted(
    status: UnitspaceStatus, before: seq<RawDataEvent>, e: RawDataEvent, after: seq<RawDataEvent>)
    requires Effective(e).Enter? && !LastSignal(before).NoSignal?
    requires LastSignal(before).address == Effective(e).address
    requires LastSignal(before).location == Effective(e).location
    ensures RunCommands(status, before + [e] + after) == RunCommands(status, before + after)
    ensures SameUpToTime(RunStatus(status, before + [e] + after), RunStatus(status, before + after))
  {
    var here := RunStatus(status, before);
    RemembersLastSignal(status, before);
    RepeatedEnterIsQuiet(here, e);
    RunAround(status, before, e, after);
    RunAppend(status, before, after);
    SameEvents(after);
    TimestampsDoNotMatter(Next(here, e), here, after, after);
    assert RunCommands(status, before) + [] == RunCommands(status, before);
  }

  lemma RepeatedEnterIsQuiet(here: UnitspaceStatus, e: RawDataEvent)
    requires Effective(e).Enter?
    requires here.lastAddress == Some(Effective(e).address) && here.lastLocation == Some(Effective(e).location)
    ensures CommandsFor(here, Effective(e)) == [] && SameUpToTime(Next(here, e), here)
  {
  }

  // ---------- a history-based description of the commands ----------

  /** The signals of a run, in order, without the events that carry none. */
  function Signals(events: seq<RawDataEvent>): (signals: seq<Signal>)
    ensures forall i :: 0 <= i < |signals| ==> !signals[i].NoSignal?
  {
    if events == [] then []
    else if Effective(events[0]).NoSignal? then Signals(events[1..])
    else [Effective(events[0])] + Signals(events[1..])
  }

  /** What signal number `i` of a history causes, told from it and its predecessor alone. */
  function CausedAt(signals: seq<Signal>, i: nat): seq<CommandEvent>
    requires i < |signals|
    requires forall j :: 0 <= j < |signals| ==> !signals[j].NoSignal?
  {
    var now := signals[i];
    if now.Exit? then [CommandEvent(now.address, "strong_exit", now.location)]
    else if i == 0 then [CommandEvent(now.address, "strong_enter", now.location)]
    else if signals[i - 1].address == now.address then []
    else [CommandEvent(now.address, "strong_enter", now.location),
          CommandEvent(signals[i - 1].address, "strong_exit", signals[i - 1].location)]
  }

  function CausedFrom(signals: seq<Signal>, i: nat): seq<CommandEvent>
    requires i <= |signals|
    requires forall j :: 0 <= j < |signals| ==> !signals[j].NoSignal?
    decreases |signals| - i
  {
    if i == |signals| then [] else CausedAt(signals, i) + CausedFrom(signals, i + 1)
  }

  /** Locations are never empty once an event has been through the estimator. */
  lemma SignalLocation(event: RawDataEvent)
    ensures !Effective(event).NoSignal? ==> Effective(event).location != ""
  {
  }

  lemma {:induction false} CommandsFromHistory(
    status: UnitspaceStatus, all: seq<Signal>, i: nat, events: seq<RawDataEvent>)
    requires i <= |all| && all[i..] == Signals(events)
    requires forall j :: 0 <= j < |all| ==> !all[j].NoSignal?
    requires if i == 0 then status.lastAddress == None
             else && status.lastAddress == Some(all[i - 1].address)
                  && status.lastLocation == Some(all[i - 1].location)
                  && all[i - 1].location != ""
    ensures RunCommands(status, events) == CausedFrom(all, i)
    decreases |events|
  {
    if events == [] {
    } else {
      var signal := Effective(events[0]);
      if signal.NoSignal? {
        CommandsFromHistory(status, all, i, events[1..]);
      } else {
        SignalLocation(events[0]);
        assert all[i] == all[i..][0] == signal;
        assert all[i + 1..] == all[i..][1..];
        CommandsFromHistory(Next(status, events[0]), all, i + 1, events[1..]);
      }
    }
  }

  /** The commands of a run from the start are told by its signals alone, each with its
      predecessor: no timestamp and no irrelevant event has any say. */
  lemma RunIsHistory(events: seq<RawDataEvent>)
    ensures RunCommands(INITIAL_STATUS, events) == CausedFrom(Signals(events), 0)
  {
    CommandsFromHistory(INITIAL_STATUS, Signals(events), 0, events);
  }

  // ---------- occupancy ----------

  function Obey(present: set<string>, c: CommandEvent): set<string> {
    if c.command == "strong_enter" then present + {c.address}
    else if c.command == "strong_exit" then present - {c.address}
    else present
  }

  /** The nodes told that someone is present, after a list of commands. */
  function Occupied(present: set<string>, commands: seq<CommandEvent>): set<string>
    decreases |commands|
  {
    if commands == [] then present else Occupied(Obey(present, commands[0]), commands[1..])
  }

  function Remembered(status: UnitspaceStatus): set<string> {
    match status.lastAddress
    case Some(a) => {a}
    case None => {}
  }

  /** Every exit signal comes from the remembered node, or while nobody is present. */
  predicate Disciplined(status: UnitspaceStatus, present: set<string>, events: seq<RawDataEvent>)
    decreases |events|
  {
    events == [] ||
    (var signal := Effective(events[0]);
     && (signal.Exit? ==> status.lastAddress == Some(signal.address) || present == {})
     && Disciplined(Next(status, events[0]), Occupied(present, CommandsFor(status, signal)), events[1..]))
  }

  /** At most the remembered node is occupied, after each prefix of the run. */
  ghost predicate SingleOccupancy(status: UnitspaceStatus, present: set<string>, events: seq<RawDataEvent>) {
    forall n :: 0 <= n <= |events| ==>
      Occupied(present, RunCommands(status, events[..n])) <= Remembered(RunStatus(status, events[..n]))
  }

  lemma OccupiedBy(present: set<string>, c: CommandEvent, d: CommandEvent)
    ensures Occupied(present, [c]) == Obey(present, c)
    ensures Occupied(present, [c, d]) == Obey(Obey(present, c), d)
  {
    assert [c, d][1..] == [d];
    assert Occupied(Obey(present, c), [d]) == Obey(Obey(present, c), d);
  }

  lemma OneSignal(status: UnitspaceStatus, present: set<string>, event: RawDataEvent)
    requires present <= Remembered(status)
    ensures var signal := Effective(event);
            Occupied(present, CommandsFor(status, signal)) <= Remembered(Next(status, event))
            <==> (signal.Exit? ==> status.lastAddress == Some(signal.address) || present == {})
  {
    var commands := CommandsFor(status, Effective(event));
    assert present == {} || present == Remembered(status);
    if |commands| == 1 {
      OccupiedBy(present, commands[0], commands[0]);
    } else if |commands| == 2 {
      OccupiedBy(present, commands[0], commands[1]);
    }
  }

  lemma {:induction false} OccupiedAppend(present: set<string>, a: seq<CommandEvent>, b: seq<CommandEvent>)
    ensures Occupied(present, a + b) == Occupied(Occupied(present, a), b)
    decreases |a|
  {
    if a == [] {
      assert a + b == b;
    } else {
      OccupiedAppend(Obey(present, a[0]), a[1..], b);
      assert (a + b)[1..] == a[1..] + b;
    }
  }

  lemma SingleAtStart(status: UnitspaceStatus, present: set<string>, events: seq<RawDataEvent>)
    requires SingleOccupancy(status, present, events)
    ensures present <= Remembered(status)
  {
    assert events[..0] == [];
    assert Occupied(present, RunCommands(status, events[..0])) <= Remembered(RunStatus(status, events[..0]));
  }

  lemma SingleOccupancyUnfolds(status: UnitspaceStatus, present: set<string>, events: seq<RawDataEvent>)
    requires events != []
    ensures SingleOccupancy(status, present, events) <==>
            && present <= Remembered(status)
            && SingleOccupancy(Next(status, events[0]),
                 Occupied(present, CommandsFor(status, Effective(events[0]))), events[1..])
  {
    var next := Next(status, events[0]);
    var first := CommandsFor(status, Effective(events[0]));
    assert events[..0] == [];
    forall n | 1 <= n <= |events|
      ensures RunStatus(status, events[..n]) == RunStatus(next, events[1..][..n - 1])
      ensures Occupied(present, RunCommands(status, events[..n]))
           == Occupied(Occupied(present, first), RunCommands(next, events[1..][..n - 1]))
    {
      assert events[..n][1..] == events[1..][..n - 1];
      OccupiedAppend(present, first, RunCommands(next, events[1..][..n - 1]));
    }
    if SingleOccupancy(status, present, events) {
      assert Occupied(present, RunCommands(status, events[..0])) <= Remembered(RunStatus(status, events[..0]));
      forall m | 0 <= m <= |events[1..]|
        ensures Occupied(Occupied(present, first), RunCommands(next, events[1..][..m]))
             <= Remembered(RunStatus(next, events[1..][..m]))
      {
        assert events[1..][..m] == events[1..][..(m + 1) - 1];
        assert Occupied(present, RunCommands(status, events[..m + 1]))
            <= Remembered(RunStatus(status, events[..m + 1]));
      }
    }
  }

  /** Occupancy safety, exactly: at most the remembered node is ever occupied if and only if
      exit signals come from it or while nobody is present. */
  lemma {:induction false} OccupancyIff(status: UnitspaceStatus, present: set<string>, events: seq<RawDataEvent>)
    requires present <= Remembered(status)
    ensures SingleOccupancy(status, present, events) <==> Disciplined(status, present, events)
    decreases |events|
  {
    if events == [] {
      assert events[..0] == [];
    } else {
      var next := Next(status, events[0]);
      var after := Occupied(present, CommandsFor(status, Effective(events[0])));
      SingleOccupancyUnfolds(status, present, events);
      OneSignal(status, present, events[0]);
      if after <= Remembered(next) {
        OccupancyIff(next, after, events[1..]);
      } else {
        if SingleOccupancy(next, after, events[1..]) {
          SingleAtStart(next, after, events[1..]);
        }
      }
    }
  }

  lemma RunThree(status: UnitspaceStatus, x: RawDataEvent, y: RawDataEvent, z: RawDataEvent)
    ensures var s1 := Next(status, x);
            var s2 := Next(s1, y);
            Occupied({}, RunCommands(status, [x, y, z]))
              == Occupied(Occupied(Occupied({}, CommandsFor(status, Effective(x))), CommandsFor(s1, Effective(y))),
                          CommandsFor(s2, Effective(z)))
  {
    var s1 := Next(status, x);
    var s2 := Next(s1, y);
    assert [x, y, z] == [x] + [y] + [z];
    RunAround(status, [x], y, [z]);
    RunOne(status, x);
    RunOne(s2, z);
    var a, b, c := CommandsFor(status, Effective(x)), CommandsFor(s1, Effective(y)), CommandsFor(s2, Effective(z));
    OccupiedAppend({}, a + b, c);
    OccupiedAppend({}, a, b);
  }

  /** The discipline is needed: an exit signal of a node that is not remembered leaves the
      remembered one occupied for good, and the next enter makes two. */
  lemma StrangerExitLeavesTwo(x: RawDataEvent, y: RawDataEvent, z: RawDataEvent)
    requires Effective(x).Enter? && Effective(y).Exit? && Effective(z).Enter?
    requires Effective(x).address != Effective(y).address && Effective(y).address != Effective(z).address
    requires Effective(x).address != Effective(z).address
    ensures Occupied({}, RunCommands(INITIAL_STATUS, [x, y, z])) == {Effective(x).address, Effective(z).address}
  {
    var s1 := Next(INITIAL_STATUS, x);
    var s2 := Next(s1, y);
    RunThree(INITIAL_STATUS, x, y, z);
    var entered := Occupied({}, CommandsFor(INITIAL_STATUS, Effective(x)));
    var strange := Occupied(entered, CommandsFor(s1, Effective(y)));
    assert entered == {Effective(x).address};
    assert strange == entered;
    var commands := CommandsFor(s2, Effective(z));
    OccupiedBy(strange, commands[0], commands[1]);
  }

  // ---------- accounting ----------

  /** What one command adds to the account of `address`. */
  function Worth(c: CommandEvent, address: string): int {
    if c.address != address then 0
    else if c.command == "strong_enter" then 1
    else if c.command == "strong_exit" then -1
    else 0
  }

  /** Enters minus exits of `address`. */
  function Balance(commands: seq<CommandEvent>, address: string): int {
    if commands == [] then 0 else Worth(commands[0], address) + Balance(commands[1..], address)
  }

  lemma {:induction false} BalanceAppend(a: seq<CommandEvent>, b: seq<CommandEvent>, address: string)
    ensures Balance(a + b, address) == Balance(a, address) + Balance(b, address)
  {
    if a == [] {
      assert a + b == b;
    } else {
      BalanceAppend(a[1..], b, address);
      assert (a + b)[1..] == a[1..] + b;
    }
  }

  function IsRemembered(status: UnitspaceStatus, address: string): int {
    if status.lastAddress == Some(address) then 1 else 0
  }

  /** How far one signal pushes the account of `address` off what is remembered: an exit of
      the remembered node by one, an exit of a node that was not remembered by two, and an
      exit that displaces the remembered node back by one. */
  function SkewOf(status: UnitspaceStatus, signal: Signal, address: string): int {
    var wasRemembered := status.lastAddress == Some(address);
    if !signal.Exit? then 0
    else if signal.address == address then (if wasRemembered then -1 else -2)
    else if wasRemembered then 1
    else 0
  }

  function ExitSkew(status: UnitspaceStatus, events: seq<RawDataEvent>, address: string): int
    decreases |events|
  {
    if events == [] then 0
    else SkewOf(status, Effective(events[0]), address) + ExitSkew(Next(status, events[0]), events[1..], address)
  }

  lemma BalanceOfTwo(c: CommandEvent, d: CommandEvent, address: string)
    ensures Balance([c], address) == Worth(c, address)
    ensures Balance([c, d], address) == Worth(c, address) + Worth(d, address)
  {
    assert [c, d][1..] == [d];
    assert Balance([d], address) == Worth(d, address);
  }

  lemma OneSignalBalance(status: UnitspaceStatus, event: RawDataEvent, address: string)
    ensures Balance(CommandsFor(status, Effective(event)), address)
         == IsRemembered(Next(status, event), address) - IsRemembered(status, address)
            + SkewOf(status, Effective(event), address)
  {
    var commands := CommandsFor(status, Effective(event));
    if |commands| == 1 {
      BalanceOfTwo(commands[0], commands[0], address);
    } else if |commands| == 2 {
      BalanceOfTwo(commands[0], commands[1], address);
    }
  }

  /** The account of every node over every run: enters minus exits is what it gained in being
      remembered, corrected by the exit signals alone. */
  lemma {:induction false} RunBalance(status: UnitspaceStatus, events: seq<RawDataEvent>, address: string)
    ensures Balance(RunCommands(status, events), address)
         == IsRemembered(RunStatus(status, events), address) - IsRemembered(status, address)
            + ExitSkew(status, events, address)
    decreases |events|
  {
    if events == [] {
    } else {
      var first := CommandsFor(status, Effective(events[0]));
      var rest := RunCommands(Next(status, events[0]), events[1..]);
      OneSignalBalance(status, events[0], address);
      RunBalance(Next(status, events[0]), events[1..], address);
      BalanceAppend(first, rest, address);
    }
  }

  lemma {:induction false} NoExitsNoSkew(status: UnitspaceStatus, events: seq<RawDataEvent>, address: string)
    requires forall i :: 0 <= i < |events| ==> !Effective(events[i]).Exit?
    ensures ExitSkew(status, events, address) == 0
    decreases |events|
  {
    if events == [] {
    } else {
      NoExitsNoSkew(Next(status, events[0]), events[1..], address);
    }
  }

  /** Without exit signals, enters minus exits is one for the remembered node and zero for
      every other. */
  lemma {:induction false} EnterRunBalance(events: seq<RawDataEvent>, address: string)
    requires forall i :: 0 <= i < |events| ==> !Effective(events[i]).Exit?
    ensures Balance(RunCommands(INITIAL_STATUS, events), address)
         == if RunStatus(INITIAL_STATUS, events).lastAddress == Some(address) then 1 else 0
  {
    RunBalance(INITIAL_STATUS, events, address);
    NoExitsNoSkew(INITIAL_STATUS, events, address);
  }

  // ---------- where commands come from ----------

  /** Some event of the run carries the address `a`, up to spelling. */
  ghost predicate Heard(events: seq<RawDataEvent>, a: string) {
    exists i :: 0 <= i < |events| && Normalize(events[i].mac) == Ok(a)
  }

  ghost predicate FromRun(events: seq<RawDataEvent>, commands: seq<CommandEvent>) {
    forall i :: 0 <= i < |commands| ==>
      && Heard(events, commands[i].address)
      && commands[i].command in {"strong_enter", "strong_exit"}
      && commands[i].location != ""
  }

  lemma {:induction false} CommandOrigin(
    status: UnitspaceStatus, done: seq<RawDataEvent>, todo: seq<RawDataEvent>)
    requires status.lastAddress.Some? ==> Heard(done, status.lastAddress.value)
    ensures FromRun(done + todo, RunCommands(status, todo))
    decreases |todo|
  {
    if todo == [] {
    } else {
      var e, next := todo[0], Next(status, todo[0]);
      var done' := done + [e];
      assert done' + todo[1..] == done + todo;
      if !Effective(e).NoSignal? {
        assert Normalize(done'[|done|].mac) == Ok(Effective(e).address);
        assert (done + todo)[|done|] == e;
        SignalLocation(e);
      } else if next.lastAddress.Some? {
        var i :| 0 <= i < |done| && Normalize(done[i].mac) == Ok(next.lastAddress.value);
        assert done'[i] == done[i];
      }
      if status.lastAddress.Some? {
        var i :| 0 <= i < |done| && Normalize(done[i].mac) == Ok(status.lastAddress.value);
        assert (done + todo)[i] == done[i];
      }
      CommandOrigin(next, done', todo[1..]);
    }
  }

  /** Address conservation: every command of a run passes validation unchanged, makes a frame,
      and that frame opens with the MAC bytes some event of the run spelled. */
  lemma CommandsAreDeliverable(events: seq<RawDataEvent>, i: nat)
    requires i < |RunCommands(INITIAL_STATUS, events)|
    ensures var c := RunCommands(INITIAL_STATUS, events)[i];
            && ValidateCommand(c.command) == Ok(c.command)
            && BuildCommandFrame(c.address, c.command).Ok?
            && exists j :: 0 <= j < |events|
                 && MacToBytes(events[j].mac) == Ok(BuildCommandFrame(c.address, c.command).value[..6])
  {
    var c := RunCommands(INITIAL_STATUS, events)[i];
    CommandOrigin(INITIAL_STATUS, [], events);
    assert [] + events == events;
    var j :| 0 <= j < |events| && Normalize(events[j].mac) == Ok(c.address);
    NormalizeMeaning(events[j].mac);
    NormalizeIdempotent(events[j].mac);
    NormalizeMeaning(c.address);
    CommandFrameMeaning(c.address, c.command);
    var bytes := BuildCommandFrame(c.address, c.command).value[..6];
    MacBytesIff(c.address, bytes);
    MacBytesIff(events[j].mac, bytes);
  }
}
