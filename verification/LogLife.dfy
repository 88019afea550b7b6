/** Which file an item goes to, and what one life of the logger leaves in the files. */
module LogLife {
  import opened Common
  import opened MacAddress
  import opened Estimator
  import opened RawLog
  import opened RawLogProofs

  // ---------- paths ----------

  lemma {:induction false} ComponentsJoin(a: string, b: string, word: string)
    ensures Components(a + "/" + b, word) == Components(a, word) + Components(b, "")
    decreases |a|
  {
    if a == "" {
      assert a + "/" + b == "/" + b && ("/" + b)[1..] == b;
    } else {
      assert (a + "/" + b)[0] == a[0] && (a + "/" + b)[1..] == a[1..] + "/" + b;
      ComponentsJoin(a[1..], b, if a[0] == '/' then "" else word + [a[0]]);
      if a[0] == '/' {
        Assoc(Kept(word), Components(a[1..], ""), Components(b, ""));
      }
    }
  }

  lemma {:induction false} PlainComponent(text: string, word: string)
    requires '/' !in text
    ensures Components(text, word) == if word + text == "" || word + text == "." then [] else [word + text]
    decreases |text|
  {
    if text == "" {
      assert word + text == word;
    } else {
      assert word + text == (word + [text[0]]) + text[1..];
      PlainComponent(text[1..], word + [text[0]]);
    }
  }

  /** The components of a path text: a single word is its own component, unless it is empty or a
      dot, and a separator joins the components on its two sides. */
  lemma ComponentsMeaning(a: string, b: string)
    ensures Components(a + "/" + b, "") == Components(a, "") + Components(b, "")
    ensures '/' !in a ==> Components(a, "") == if a == "" || a == "." then [] else [a]
  {
    ComponentsJoin(a, b, "");
    if '/' !in a {
      PlainComponent(a, "");
      assert "" + a == a;
    }
  }

  /** Where the source puts an item: below the data directory, the components of the location, then
      of the type (or those from the last absolute one of them on), the node's address, and a folder
      and a file for the kind and the day. */
  function PathTold(
    layout: Layout, location: string, deviceType: string, mac: string, kind: string, timestamp: real): FilePath
  {
    var place := if location == "" then "undefined" else location;
    var device := if deviceType == "" then "DEAN_NODE_V2" else deviceType;
    var tail := [mac, "inference", kind, layout.dayOf(timestamp) + ".txt"];
    if RootOf(device) != "" then FilePath(RootOf(device), Components(device, "") + tail)
    else if RootOf(place) != "" then FilePath(RootOf(place), Components(place, "") + Components(device, "") + tail)
    else FilePath(layout.dataDir.root, layout.dataDir.parts + Components(place, "") + Components(device, "") + tail)
  }

  lemma FourChildren(p: FilePath, a: string, b: string, c: string, d: string)
    ensures p.Child(a).Child(b).Child(c).Child(d) == FilePath(p.root, p.parts + [a, b, c, d])
  {
  }

  lemma PathShape(layout: Layout, event: RawDataEvent)
    ensures PathFor(layout, event).Ok? <==> Normalize(event.mac).Ok?
    ensures PathFor(layout, event).Ok? ==>
              PathFor(layout, event).value
              == PathTold(layout, event.location, event.deviceType, Normalize(event.mac).value, "rawdata",
                          event.timestamp)
  {
    if Normalize(event.mac).Ok? {
      FourChildren(layout.dataDir.Join(LocationOr(event.location)).Join(TypeOr(event.deviceType)),
                   Normalize(event.mac).value, "inference", "rawdata", FileName(layout, event.timestamp));
    }
  }

  lemma AlertPathShape(layout: Layout, alert: AlertEvent)
    ensures AlertPathFor(layout, alert).Ok? <==> Normalize(alert.mac).Ok?
    ensures AlertPathFor(layout, alert).Ok? ==>
              AlertPathFor(layout, alert).value
              == PathTold(layout, alert.location, alert.deviceType, Normalize(alert.mac).value, "debugstr",
                          alert.timestamp)
  {
    if Normalize(alert.mac).Ok? {
      FourChildren(layout.dataDir.Join(LocationOr(alert.location)).Join(TypeOr(alert.deviceType)),
                   Normalize(alert.mac).value, "inference", "debugstr", FileName(layout, alert.timestamp));
    }
  }

  /** Everything that decides about the folder: where the location and the type lead. */
  function FolderTold(layout: Layout, location: string, deviceType: string): FilePath {
    var place := if location == "" then "undefined" else location;
    var device := if deviceType == "" then "DEAN_NODE_V2" else deviceType;
    if RootOf(device) != "" then FilePath(RootOf(device), Components(device, ""))
    else if RootOf(place) != "" then FilePath(RootOf(place), Components(place, "") + Components(device, ""))
    else FilePath(layout.dataDir.root, layout.dataDir.parts + Components(place, "") + Components(device, ""))
  }

  lemma PathToldSplits(layout: Layout, location: string, deviceType: string, mac: string, kind: string, timestamp: real)
    ensures var folder, path := FolderTold(layout, location, deviceType),
                                PathTold(layout, location, deviceType, mac, kind, timestamp);
            && path.root == folder.root
            && path.parts == folder.parts + [mac, "inference", kind, layout.dayOf(timestamp) + ".txt"]
  {
  }

  lemma SameTail(p: seq<string>, q: seq<string>, a: seq<string>, b: seq<string>)
    requires |a| == 4 == |b|
    ensures p + a == q + b <==> p == q && a == b
  {
    if p + a == q + b {
      assert (p + a)[..|p|] == p && (q + b)[..|q|] == q && (p + a)[|p|..] == a && (q + b)[|q|..] == b;
    }
  }

  lemma SameDayFile(a: string, b: string)
    ensures a + ".txt" == b + ".txt" <==> a == b
  {
    if a + ".txt" == b + ".txt" {
      assert (a + ".txt")[..|a|] == a && (b + ".txt")[..|b|] == b;
    }
  }

  /** Two events share a file exactly if they come from the same node, on the same day, with
      locations and types that lead to the same folder. */
  lemma OneFileIff(layout: Layout, e: RawDataEvent, f: RawDataEvent)
    requires Normalize(e.mac).Ok? && Normalize(f.mac).Ok?
    ensures PathFor(layout, e) == PathFor(layout, f) <==>
            && Normalize(e.mac) == Normalize(f.mac)
            && layout.dayOf(e.timestamp) == layout.dayOf(f.timestamp)
            && FolderTold(layout, e.location, e.deviceType) == FolderTold(layout, f.location, f.deviceType)
  {
    var m, n := Normalize(e.mac).value, Normalize(f.mac).value;
    PathShape(layout, e);
    PathShape(layout, f);
    PathToldSplits(layout, e.location, e.deviceType, m, "rawdata", e.timestamp);
    PathToldSplits(layout, f.location, f.deviceType, n, "rawdata", f.timestamp);
    SameDayFile(layout.dayOf(e.timestamp), layout.dayOf(f.timestamp));
    SameTail(FolderTold(layout, e.location, e.deviceType).parts, FolderTold(layout, f.location, f.deviceType).parts,
             [m, "inference", "rawdata", layout.dayOf(e.timestamp) + ".txt"],
             [n, "inference", "rawdata", layout.dayOf(f.timestamp) + ".txt"]);
  }

  lemma OneAlertFileIff(layout: Layout, e: AlertEvent, f: AlertEvent)
    requires Normalize(e.mac).Ok? && Normalize(f.mac).Ok?
    ensures AlertPathFor(layout, e) == AlertPathFor(layout, f) <==>
            && Normalize(e.mac) == Normalize(f.mac)
            && layout.dayOf(e.timestamp) == layout.dayOf(f.timestamp)
            && FolderTold(layout, e.location, e.deviceType) == FolderTold(layout, f.location, f.deviceType)
  {
    var m, n := Normalize(e.mac).value, Normalize(f.mac).value;
    AlertPathShape(layout, e);
    AlertPathShape(layout, f);
    PathToldSplits(layout, e.location, e.deviceType, m, "debugstr", e.timestamp);
    PathToldSplits(layout, f.location, f.deviceType, n, "debugstr", f.timestamp);
    SameDayFile(layout.dayOf(e.timestamp), layout.dayOf(f.timestamp));
    SameTail(FolderTold(layout, e.location, e.deviceType).parts, FolderTold(layout, f.location, f.deviceType).parts,
             [m, "inference", "debugstr", layout.dayOf(e.timestamp) + ".txt"],
             [n, "inference", "debugstr", layout.dayOf(f.timestamp) + ".txt"]);
  }

  lemma {:induction false} RowsOfOneNode(layout: Layout, items: seq<Item>, event: RawDataEvent, line: Line)
    requires PathFor(layout, event).Ok? && line in RowsAt(layout, items, PathFor(layout, event).value)
    ensures line.RowFor? && Raw(line.event) in items
    ensures Normalize(line.event.mac) == Normalize(event.mac)
    ensures layout.dayOf(line.event.timestamp) == layout.dayOf(event.timestamp)
    decreases |items|
  {
    var path := PathFor(layout, event).value;
    if line in RowsAt(layout, items[1..], path) {
      RowsOfOneNode(layout, items[1..], event, line);
    } else {
      OneFileIff(layout, event, items[0].event);
    }
  }

  /** A node's file is its own: what is written into it are the header and rows of that node, of
      that day, whatever else is logged. */
  lemma FileOfOneNode(layout: Layout, files: Files, items: seq<Item>, event: RawDataEvent, line: Line)
    requires PathFor(layout, event).Ok?
    requires var path := PathFor(layout, event).value;
             line in Content(WriteAll(layout, files, items), path) && line !in Content(files, path)
    ensures line == Header || (line.RowFor? && Raw(line.event) in items
                               && Normalize(line.event.mac) == Normalize(event.mac)
                               && layout.dayOf(line.event.timestamp) == layout.dayOf(event.timestamp))
  {
    var path := PathFor(layout, event).value;
    assert RawPath(layout, path);
    RawFileShape(layout, files, items, path);
    if line != Header {
      RowsOfOneNode(layout, items, event, line);
    }
  }

  lemma {:induction false} TextsOfOneNode(layout: Layout, items: seq<Item>, alert: AlertEvent, line: Line)
    requires AlertPathFor(layout, alert).Ok? && line in TextsAt(layout, items, AlertPathFor(layout, alert).value)
    ensures line.LineFor? && Text(line.alert) in items
    ensures Normalize(line.alert.mac) == Normalize(alert.mac)
    ensures layout.dayOf(line.alert.timestamp) == layout.dayOf(alert.timestamp)
    decreases |items|
  {
    var path := AlertPathFor(layout, alert).value;
    if line in TextsAt(layout, items[1..], path) {
      TextsOfOneNode(layout, items[1..], alert, line);
    } else {
      OneAlertFileIff(layout, alert, items[0].alert);
    }
  }

  /** Likewise for alerts. */
  lemma AlertFileOfOneNode(layout: Layout, files: Files, items: seq<Item>, alert: AlertEvent, line: Line)
    requires AlertPathFor(layout, alert).Ok?
    requires var path := AlertPathFor(layout, alert).value;
             line in Content(WriteAll(layout, files, items), path) && line !in Content(files, path)
    ensures line.LineFor? && Text(line.alert) in items
    ensures Normalize(line.alert.mac) == Normalize(alert.mac)
    ensures layout.dayOf(line.alert.timestamp) == layout.dayOf(alert.timestamp)
  {
    AlertFileShape(layout, files, items, alert);
    TextsOfOneNode(layout, items, alert, line);
  }

  // ---------- from start to stop ----------

  /** The items given to the logger in a run, in order. */
  function LoggedIn(inputs: seq<LogInput>): seq<Item> {
    if inputs == [] then [] else (if inputs[0].Log? then [inputs[0].item] else []) + LoggedIn(inputs[1..])
  }

  /** Logging and turns of the drain loop, without start or stop. */
  predicate OnlyLogs(inputs: seq<LogInput>) {
    forall k :: 0 <= k < |inputs| ==> inputs[k].Log? || inputs[k].TaskTurn?
  }

  /** A logger at work on a healthy disk, with no stop in its queue. */
  ghost predicate AtWork(layout: Layout, s: LogState) {
    s.task == Active && None !in s.queue && AllWritable(layout, s.queue)
  }

  /** The files once everything queued is written. */
  function FilesToBe(layout: Layout, s: LogState): Files {
    WriteAll(layout, s.files, UpToSentinel(s.queue))
  }

  lemma {:induction false} UpToSentinelSnoc(queue: seq<Option<Item>>, item: Item)
    requires None !in queue
    ensures UpToSentinel(queue + [Some(item)]) == UpToSentinel(queue) + [item]
  {
    UpToSentinelPrefix(queue, [Some(item)]);
    assert [Some(item)][1..] == [];
    assert UpToSentinel([Some(item)]) == [item];
  }

  lemma LogAtWork(layout: Layout, s: LogState, item: Item, diskOk: bool)
    requires AtWork(layout, s) && Writes(layout, item, diskOk)
    ensures var t := AfterLog(layout, s, item, diskOk).state;
            AtWork(layout, t) && FilesToBe(layout, t) == WriteAll(layout, FilesToBe(layout, s), [item])
  {
    UpToSentinelSnoc(s.queue, item);
    WriteAllAppend(layout, s.files, UpToSentinel(s.queue), [item]);
  }

  lemma TurnAtWork(layout: Layout, s: LogState)
    requires AtWork(layout, s)
    ensures var t := AfterTurn(layout, s, true).state;
            && AtWork(layout, t) && FilesToBe(layout, t) == FilesToBe(layout, s)
            && t.queue == if s.queue == [] then [] else s.queue[1..]
  {
    if s.queue != [] {
      assert s.queue[0] in s.queue;
      WriteAllAppend(layout, s.files, [s.queue[0].value], UpToSentinel(s.queue[1..]));
      WriteOne(layout, s.files, s.queue[0].value);
    }
  }

  /** While the logger is at work, nothing given to it is lost or doubled, whatever turns the drain
      loop makes in between. */
  lemma {:induction false} WorkKeepsItems(layout: Layout, s: LogState, inputs: seq<LogInput>)
    requires AtWork(layout, s) && OnlyLogs(inputs) && Healthy(layout, inputs)
    ensures var t := RunLog(layout, s, inputs).state;
            AtWork(layout, t) && FilesToBe(layout, t) == WriteAll(layout, FilesToBe(layout, s), LoggedIn(inputs))
    decreases |inputs|
  {
    if inputs == [] {
    } else {
      var t, later := LogStep(layout, s, inputs[0]).state, LoggedIn(inputs[1..]);
      HealthyTail(layout, inputs);
      HealthyFirst(layout, inputs[0]);
      match inputs[0] {
        case Log(item, diskOk) =>
          LogAtWork(layout, s, item, diskOk);
          WriteAllAppend(layout, FilesToBe(layout, s), [item], later);
        case TaskTurn(_) =>
          TurnAtWork(layout, s);
          assert LoggedIn(inputs) == later;
      }
      WorkKeepsItems(layout, t, inputs[1..]);
    }
  }

  lemma HealthyFirst(layout: Layout, i: LogInput)
    requires Healthy(layout, [i])
    ensures i.Log? ==> Writes(layout, i.item, i.diskOk)
    ensures i.TaskTurn? ==> i.diskOk
  {
    assert match [i][0]
           case Log(item, diskOk) => Writes(layout, item, diskOk)
           case TaskTurn(diskOk) => diskOk
           case _ => true;
  }

  function TurnsOf(n: nat): seq<LogInput> {
    if n == 0 then [] else [TaskTurn(true)] + TurnsOf(n - 1)
  }

  lemma LogRunThen(layout: Layout, s: LogState, i: LogInput, inputs: seq<LogInput>)
    ensures RunLog(layout, s, [i] + inputs).state == RunLog(layout, LogStep(layout, s, i).state, inputs).state
  {
    assert ([i] + inputs)[1..] == inputs;
  }

  /** The state of the logger after a run. */
  function After(layout: Layout, s: LogState, inputs: seq<LogInput>): LogState {
    RunLog(layout, s, inputs).state
  }

  lemma LogJoinStep(layout: Layout, s: LogState, t: LogState, i: LogInput, a: seq<LogInput>, b: seq<LogInput>)
    requires After(layout, t, a + b) == After(layout, After(layout, t, a), b)
    requires After(layout, s, [i] + (a + b)) == After(layout, t, a + b)
    requires After(layout, s, [i] + a) == After(layout, t, a)
    ensures After(layout, s, ([i] + a) + b) == After(layout, After(layout, s, [i] + a), b)
  {
    assert ([i] + a) + b == [i] + (a + b);
  }

  lemma {:induction false} LogRunJoins(layout: Layout, s: LogState, a: seq<LogInput>, b: seq<LogInput>)
    ensures After(layout, s, a + b) == After(layout, After(layout, s, a), b)
    decreases |a|
  {
    if a == [] {
      assert a + b == b;
    } else {
      var t := LogStep(layout, s, a[0]).state;
      LogRunJoins(layout, t, a[1..], b);
      LogRunThen(layout, s, a[0], a[1..] + b);
      LogRunThen(layout, s, a[0], a[1..]);
      LogJoinStep(layout, s, t, a[0], a[1..], b);
      assert [a[0]] + a[1..] == a;
    }
  }

  /** A stop sentinel stands last in the queue and nowhere else. */
  ghost predicate StopQueued(layout: Layout, s: LogState) {
    && s.task == Active && s.queue != [] && s.queue[|s.queue| - 1] == None
    && None !in s.queue[..|s.queue| - 1] && AllWritable(layout, s.queue)
  }

  lemma OneTurnDrains(layout: Layout, s: LogState)
    requires StopQueued(layout, s)
    ensures var t := LogStep(layout, s, TaskTurn(true)).state;
            if |s.queue| == 1 then t == LogState(FilesToBe(layout, s), [], Done)
            else StopQueued(layout, t) && t.queue == s.queue[1..] && FilesToBe(layout, t) == FilesToBe(layout, s)
  {
    if |s.queue| > 1 {
      assert s.queue[0] in s.queue[..|s.queue| - 1] && s.queue[1..][..|s.queue| - 2] == s.queue[..|s.queue| - 1][1..];
      WriteAllAppend(layout, s.files, [s.queue[0].value], UpToSentinel(s.queue[1..]));
      WriteOne(layout, s.files, s.queue[0].value);
    }
  }

  lemma {:induction false} DrainsToSentinel(layout: Layout, s: LogState)
    requires StopQueued(layout, s)
    ensures RunLog(layout, s, TurnsOf(|s.queue|)).state == LogState(FilesToBe(layout, s), [], Done)
    decreases |s.queue|
  {
    var t := LogStep(layout, s, TaskTurn(true)).state;
    OneTurnDrains(layout, s);
    assert TurnsOf(|s.queue|)[1..] == TurnsOf(|s.queue| - 1);
    if |s.queue| == 1 {
      assert TurnsOf(0) == [];
    } else {
      DrainsToSentinel(layout, t);
    }
  }

  /** A whole life of the logger: between start and stop, whatever is logged while the drain loop
      makes any turns, the loop ends, `stop` returns, nothing is left queued, and the files are what
      writing every item logged, once and in order, makes of them. */
  lemma {:induction false} StartToStop(layout: Layout, files: Files, inputs: seq<LogInput>)
    requires OnlyLogs(inputs) && Healthy(layout, inputs)
    ensures var working := RunLog(layout, LogState(files, [], NoTask), [StartLogger] + inputs).state;
            RunLog(layout, working, [StopLogger] + (TurnsOf(|working.queue| + 1) + [JoinTask])).state
            == LogState(WriteAll(layout, files, LoggedIn(inputs)), [], NoTask)
  {
    var started := LogState(files, [], Active);
    var working := RunLog(layout, started, inputs).state;
    assert ([StartLogger] + inputs)[1..] == inputs;
    assert RunLog(layout, LogState(files, [], NoTask), [StartLogger] + inputs).state == working;
    WorkKeepsItems(layout, started, inputs);
    StopsFrom(layout, working);
  }

  /** `stop` of a logger at work. */
  lemma StopsFrom(layout: Layout, s: LogState)
    requires AtWork(layout, s)
    ensures RunLog(layout, s, [StopLogger] + (TurnsOf(|s.queue| + 1) + [JoinTask])).state
         == LogState(FilesToBe(layout, s), [], NoTask)
  {
    var stopped := s.(queue := s.queue + [None]);
    var n := |s.queue| + 1;
    assert stopped.queue[..n - 1] == s.queue;
    assert AllWritable(layout, stopped.queue);
    DrainsToSentinel(layout, stopped);
    UpToSentinelPrefix(s.queue, [None]);
    assert UpToSentinel(s.queue) + UpToSentinel([None]) == UpToSentinel(s.queue);
    assert FilesToBe(layout, stopped) == FilesToBe(layout, s);
    assert ([StopLogger] + (TurnsOf(n) + [JoinTask]))[1..] == TurnsOf(n) + [JoinTask];
    LogRunJoins(layout, stopped, TurnsOf(n), [JoinTask]);
    assert [JoinTask][1..] == [];
  }
}
