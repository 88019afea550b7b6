/** What the hub logs: every frame handled becomes one row or one line. */
module HubLog {
  import opened Common
  import opened MacAddress
  import opened Codec
  import opened Estimator
  import opened RawLog
  import opened RawLogProofs
  import opened LogLife
  import opened Config
  import opened Hub
  import opened HubProofs

  // ---------- what an item tells ----------

  /** The record's own text, or the default where it is empty or missing. */
  function TextOf(configs: ConfigStore, key: string, field: DeviceConfig -> string, default: string): string {
    if key in configs && field(configs[key]) != "" then field(configs[key]) else default
  }

  /** An event tells the time, the frame and the node's own record: its location and its type. */
  lemma EventTold(configs: ConfigStore, frame: ParsedFrame, packet: RawDataPacket, now: real)
    requires Normalize(frame.mac).Ok?
    ensures var key, e := Normalize(frame.mac).value, EventOf(configs, frame, packet, now);
            e == RawDataEvent(now, frame.mac, TextOf(configs, key, (c: DeviceConfig) => c.location, "undefined"),
                              packet, frame.payload,
                              TextOf(configs, key, (c: DeviceConfig) => c.deviceType, "DEAN_NODE_V2"))
  {
  }

  lemma AlertTold(configs: ConfigStore, frame: ParsedFrame, now: real)
    requires Normalize(frame.mac).Ok?
    ensures var key, a := Normalize(frame.mac).value, AlertOf(configs, frame, now);
            a == AlertEvent(now, frame.mac, TextOf(configs, key, (c: DeviceConfig) => c.location, "undefined"),
                            frame.payload, TextOf(configs, key, (c: DeviceConfig) => c.deviceType, "DEAN_NODE_V2"))
  {
  }

  // ---------- the items of a run ----------

  /** The item of one step: that of its frame, unless the frame is refused. */
  function ItemsIn<S>(configs: ConfigStore, step: HubStep<S>): seq<Item> {
    match step
    case Sighting(_, _) => []
    case Arrival(d, now) =>
      if !Welcome(d) then []
      else
        match d.frame.parsed
        case RawData(packet) => [Raw(EventOf(configs, d.frame, packet, now))]
        case Alert => [Text(AlertOf(configs, d.frame, now))]
  }

  /** The items of a run, each made with the configuration of its moment. */
  function ItemsOf<S>(configs: ConfigStore, steps: seq<HubStep<S>>): seq<Item>
    decreases |steps|
  {
    if steps == [] then [] else ItemsIn(configs, steps[0]) + ItemsOf(ConfigsAfter(configs, steps[0]), steps[1..])
  }

  /** How many frames of a run are not refused. */
  function WelcomeFrames<S>(steps: seq<HubStep<S>>): nat {
    if steps == [] then 0
    else (if steps[0].Arrival? && Welcome(steps[0].d) then 1 else 0) + WelcomeFrames(steps[1..])
  }

  /** The items as inputs of the logger, on a disk that obeys. */
  function LogInputs(items: seq<Item>): (inputs: seq<LogInput>)
    ensures |inputs| == |items|
  {
    seq(|items|, i requires 0 <= i < |items| => Log(items[i], true))
  }

  function Entries(items: seq<Item>): seq<Option<Item>> {
    seq(|items|, i requires 0 <= i < |items| => Some(items[i]))
  }

  /** A step gives its item, if it has one, to the logger, and does nothing else to it. */
  lemma StepLogs<S>(layout: Layout, h: HubState<S>, step: HubStep<S>)
    ensures StepHub(layout, h, step).log == RunLog(layout, h.log, LogInputs(ItemsIn(h.configs, step))).state
  {
    var items := ItemsIn(h.configs, step);
    if items != [] {
      assert LogInputs(items) == [Log(items[0], true)];
      assert [Log(items[0], true)][1..] == [];
    }
  }

  lemma StepConfigs<S>(layout: Layout, h: HubState<S>, step: HubStep<S>)
    ensures StepHub(layout, h, step).configs == ConfigsAfter(h.configs, step)
  {
    OneStep(layout, h, step);
  }

  ghost predicate AllHavePaths(layout: Layout, items: seq<Item>) {
    forall k :: 0 <= k < |items| ==> PathOf(layout, items[k]).Ok?
  }

  lemma LogInputsJoin(a: seq<Item>, b: seq<Item>)
    ensures LogInputs(a + b) == LogInputs(a) + LogInputs(b)
  {
  }

  /** Every frame is logged: a run of the hub is, for the logger, being given exactly one item for
      each frame that is not refused, in order. */
  lemma {:induction false} EveryFrameLogged<S>(layout: Layout, h: HubState<S>, steps: seq<HubStep<S>>)
    ensures RunHub(layout, h, steps).log == RunLog(layout, h.log, LogInputs(ItemsOf(h.configs, steps))).state
    decreases |steps|
  {
    if steps == [] {
    } else {
      var g, first := StepHub(layout, h, steps[0]), ItemsIn(h.configs, steps[0]);
      var later := ItemsOf(ConfigsAfter(h.configs, steps[0]), steps[1..]);
      StepLogs(layout, h, steps[0]);
      StepConfigs(layout, h, steps[0]);
      EveryFrameLogged(layout, g, steps[1..]);
      LogInputsJoin(first, later);
      LogRunJoins(layout, h.log, LogInputs(first), LogInputs(later));
    }
  }

  lemma OneItem<S>(layout: Layout, configs: ConfigStore, step: HubStep<S>)
    ensures |ItemsIn(configs, step)| == if step.Arrival? && Welcome(step.d) then 1 else 0
    ensures AllHavePaths(layout, ItemsIn(configs, step))
  {
  }

  /** Each frame that is not refused makes exactly one item, and each item has a file to go to. */
  lemma {:induction false} OneItemEach<S>(layout: Layout, configs: ConfigStore, steps: seq<HubStep<S>>)
    ensures |ItemsOf(configs, steps)| == WelcomeFrames(steps)
    ensures AllHavePaths(layout, ItemsOf(configs, steps))
    decreases |steps|
  {
    if steps == [] {
    } else {
      OneItem(layout, configs, steps[0]);
      OneItemEach(layout, ConfigsAfter(configs, steps[0]), steps[1..]);
    }
  }

  lemma {:induction false} ItemsQueued(layout: Layout, s: LogState, items: seq<Item>)
    requires s.task != NoTask
    ensures RunLog(layout, s, LogInputs(items)).state == s.(queue := s.queue + Entries(items))
    decreases |items|
  {
    if items == [] {
      assert s.queue + Entries(items) == s.queue;
    } else {
      var t := s.(queue := s.queue + [Some(items[0])]);
      assert LogInputs(items)[0] == Log(items[0], true) && LogInputs(items)[1..] == LogInputs(items[1..]);
      assert LogStep(layout, s, Log(items[0], true)).state == t;
      ItemsQueued(layout, t, items[1..]);
      assert Entries(items) == [Some(items[0])] + Entries(items[1..]);
      Assoc(s.queue, [Some(items[0])], Entries(items[1..]));
    }
  }

  lemma {:induction false} ItemsWritten(layout: Layout, s: LogState, items: seq<Item>)
    requires s.task == NoTask && AllHavePaths(layout, items)
    ensures RunLog(layout, s, LogInputs(items)).state == s.(files := WriteAll(layout, s.files, items))
    decreases |items|
  {
    if items == [] {
    } else {
      var t := s.(files := Written(layout, s.files, items[0]));
      assert LogInputs(items)[0] == Log(items[0], true) && LogInputs(items)[1..] == LogInputs(items[1..]);
      assert LogStep(layout, s, Log(items[0], true)).state == t;
      ItemsWritten(layout, t, items[1..]);
    }
  }

  /** The log after any run of the hub. */
  lemma HubLogged<S>(layout: Layout, h: HubState<S>, steps: seq<HubStep<S>>)
    ensures var items := ItemsOf(h.configs, steps);
            RunHub(layout, h, steps).log
            == if h.log.task == NoTask then h.log.(files := WriteAll(layout, h.log.files, items))
               else h.log.(queue := h.log.queue + Entries(items))
  {
    EveryFrameLogged(layout, h, steps);
    OneItemEach(layout, h.configs, steps);
    if h.log.task == NoTask {
      ItemsWritten(layout, h.log, ItemsOf(h.configs, steps));
    } else {
      ItemsQueued(layout, h.log, ItemsOf(h.configs, steps));
    }
  }

  /** From frames to files: a hub whose logger was just started handles any run, its logger is
      stopped, and every node's file then holds, after one header, exactly the rows of that node's
      frames, in order; nothing is left queued. */
  lemma {:induction false} FramesReachFiles<S>(
    layout: Layout, h: HubState<S>, steps: seq<HubStep<S>>, event: RawDataEvent)
    requires h.log.task == Active && h.log.queue == [] && PathFor(layout, event).Ok?
    requires Content(h.log.files, PathFor(layout, event).value) == []
    ensures var items, path := ItemsOf(h.configs, steps), PathFor(layout, event).value;
            var stop := [StopLogger] + (TurnsOf(|items| + 1) + [JoinTask]);
            var log := RunLog(layout, RunHub(layout, h, steps).log, stop).state;
            var rows := RowsAt(layout, items, path);
            && log.queue == [] && log.task == NoTask
            && Content(log.files, path) == if rows == [] then [] else [Header] + rows
  {
    var items, path := ItemsOf(h.configs, steps), PathFor(layout, event).value;
    var log := RunHub(layout, h, steps).log;
    HubLogged(layout, h, steps);
    OneItemEach(layout, h.configs, steps);
    assert log.queue == Entries(items);
    StopsFrom(layout, log);
    EntriesAreItems(items);
    assert RawPath(layout, path);
    RawFileShape(layout, h.log.files, items, path);
  }

  lemma {:induction false} EntriesAreItems(items: seq<Item>)
    ensures UpToSentinel(Entries(items)) == items
  {
    if items == [] {
    } else {
      EntriesAreItems(items[1..]);
      assert Entries(items)[1..] == Entries(items[1..]);
    }
  }
}
