/** Theorems about runs of the raw data logger: queue order, draining, and file shape. */
module RawLogProofs {
  import opened Common
  import opened Estimator
  import opened RawLog

  function RunLog(layout: Layout, s: LogState, inputs: seq<LogInput>): LogMove
    decreases |inputs|
  {
    if inputs == [] then LogMove(s, [])
    else
      var first := LogStep(layout, s, inputs[0]);
      var rest := RunLog(layout, first.state, inputs[1..]);
      LogMove(rest.state, first.effects + rest.effects)
  }

  function QueuedIn(effects: seq<LogEffect>): seq<Option<Item>> {
    if effects == [] then []
    else (if effects[0].Queued? then [effects[0].entry] else []) + QueuedIn(effects[1..])
  }

  function TakenIn(effects: seq<LogEffect>): seq<Option<Item>> {
    if effects == [] then []
    else (if effects[0].Taken? then [effects[0].entry] else []) + TakenIn(effects[1..])
  }

  function WroteIn(effects: seq<LogEffect>): seq<Item> {
    if effects == [] then []
    else (if effects[0].Wrote? then [effects[0].item] else []) + WroteIn(effects[1..])
  }

  lemma {:induction false} QueuedAppend(a: seq<LogEffect>, b: seq<LogEffect>)
    ensures QueuedIn(a + b) == QueuedIn(a) + QueuedIn(b)
  {
    if a == [] {
      assert a + b == b;
    } else {
      QueuedAppend(a[1..], b);
      assert (a + b)[1..] == a[1..] + b;
      Assoc(if a[0].Queued? then [a[0].entry] else [], QueuedIn(a[1..]), QueuedIn(b));
    }
  }

  lemma {:induction false} TakenAppend(a: seq<LogEffect>, b: seq<LogEffect>)
    ensures TakenIn(a + b) == TakenIn(a) + TakenIn(b)
  {
    if a == [] {
      assert a + b == b;
    } else {
      TakenAppend(a[1..], b);
      assert (a + b)[1..] == a[1..] + b;
      Assoc(if a[0].Taken? then [a[0].entry] else [], TakenIn(a[1..]), TakenIn(b));
    }
  }

  lemma {:induction false} WroteAppend(a: seq<LogEffect>, b: seq<LogEffect>)
    ensures WroteIn(a + b) == WroteIn(a) + WroteIn(b)
  {
    if a == [] {
      assert a + b == b;
    } else {
      WroteAppend(a[1..], b);
      assert (a + b)[1..] == a[1..] + b;
      Assoc(if a[0].Wrote? then [a[0].item] else [], WroteIn(a[1..]), WroteIn(b));
    }
  }

  lemma FewLogEffects(e: seq<LogEffect>)
    requires |e| <= 1 || (|e| == 2 && e[0].Taken? && e[1].Wrote?)
    ensures QueuedIn(e) == if |e| == 1 && e[0].Queued? then [e[0].entry] else []
    ensures TakenIn(e) == if |e| > 0 && e[0].Taken? then [e[0].entry] else []
    ensures WroteIn(e) == if |e| > 0 && e[|e| - 1].Wrote? then [e[|e| - 1].item] else []
  {
    if |e| == 2 {
      assert e[1..] == [e[1]];
      assert WroteIn([e[1]]) == [e[1].item] && TakenIn([e[1]]) == [] && QueuedIn([e[1]]) == [];
    }
  }

  /** What a turn of the drain loop takes and writes. */
  lemma TurnEffects(layout: Layout, s: LogState, diskOk: bool)
    ensures var m := AfterTurn(layout, s, diskOk);
            && QueuedIn(m.effects) == []
            && (if s.task != Active || s.queue == [] then m == LogMove(s, [])
                else && TakenIn(m.effects) == [s.queue[0]] && m.state.queue == s.queue[1..]
                     && WroteIn(m.effects) == if m.state.task == Active then [s.queue[0].value] else [])
  {
    if s.task == Active && s.queue != [] {
      var entry := s.queue[0];
      FewLogEffects([Taken(entry)]);
      if entry.Some? {
        FewLogEffects([Taken(entry), Wrote(entry.value)]);
      }
    }
  }

  /** What logging an item puts into the queue, or writes. */
  lemma LogEffects(layout: Layout, s: LogState, item: Item, diskOk: bool)
    ensures var m := AfterLog(layout, s, item, diskOk);
            && m.state.queue == s.queue + QueuedIn(m.effects) && TakenIn(m.effects) == []
            && (s.task != NoTask ==> m.state.task == s.task && WroteIn(m.effects) == [])
  {
    FewLogEffects([Queued(Some(item))]);
    FewLogEffects([Wrote(item)]);
  }

  // ---------- the queue ----------

  lemma TurnIsFifo(layout: Layout, s: LogState, diskOk: bool)
    ensures var m := AfterTurn(layout, s, diskOk);
            s.queue + QueuedIn(m.effects) == TakenIn(m.effects) + m.state.queue
  {
    TurnEffects(layout, s, diskOk);
    assert s.queue != [] ==> s.queue == [s.queue[0]] + s.queue[1..];
  }

  lemma StepIsFifo(layout: Layout, s: LogState, i: LogInput)
    ensures var m := LogStep(layout, s, i);
            s.queue + QueuedIn(m.effects) == TakenIn(m.effects) + m.state.queue
  {
    match i
    case StartLogger =>
    case Log(item, diskOk) => LogEffects(layout, s, item, diskOk);
    case StopLogger => FewLogEffects([Queued(None)]);
    case JoinTask =>
    case TaskTurn(diskOk) => TurnIsFifo(layout, s, diskOk);
  }

  /** Queue order, over any run with any restarts and failures: what was queued plus what was
      put is what was taken plus what is queued. */
  lemma {:induction false} QueueIsFifo(layout: Layout, s: LogState, inputs: seq<LogInput>)
    ensures var m := RunLog(layout, s, inputs);
            s.queue + QueuedIn(m.effects) == TakenIn(m.effects) + m.state.queue
    decreases |inputs|
  {
    if inputs == [] {
    } else {
      var m := LogStep(layout, s, inputs[0]);
      var rest := RunLog(layout, m.state, inputs[1..]);
      StepIsFifo(layout, s, inputs[0]);
      QueueIsFifo(layout, m.state, inputs[1..]);
      QueuedAppend(m.effects, rest.effects);
      TakenAppend(m.effects, rest.effects);
      Assoc(s.queue, QueuedIn(m.effects), QueuedIn(rest.effects));
      Assoc(TakenIn(m.effects), m.state.queue, QueuedIn(rest.effects));
      Assoc(TakenIn(m.effects), TakenIn(rest.effects), rest.state.queue);
    }
  }

  /** The items in front of the first stop sentinel. */
  function UpToSentinel(entries: seq<Option<Item>>): seq<Item> {
    if entries == [] || entries[0] == None then [] else [entries[0].value] + UpToSentinel(entries[1..])
  }

  predicate HasSentinel(entries: seq<Option<Item>>) {
    None in entries
  }

  lemma {:induction false} UpToSentinelPrefix(a: seq<Option<Item>>, b: seq<Option<Item>>)
    ensures HasSentinel(a) ==> UpToSentinel(a + b) == UpToSentinel(a)
    ensures !HasSentinel(a) ==> UpToSentinel(a + b) == UpToSentinel(a) + UpToSentinel(b)
  {
    if a == [] {
      assert a + b == b;
    } else {
      UpToSentinelPrefix(a[1..], b);
      assert (a + b)[1..] == a[1..] + b;
    }
  }

  /** What one life of the drain loop has done so far, told by what it took. */
  ghost predicate LifeSoFar(task: Task, taken: seq<Option<Item>>, wrote: seq<Item>) {
    match task
    case NoTask => false
    case Active => !HasSentinel(taken) && wrote == UpToSentinel(taken)
    case Done => HasSentinel(taken) && wrote == UpToSentinel(taken)
    case Died => !HasSentinel(taken) && taken != [] && wrote == UpToSentinel(taken[..|taken| - 1])
  }

  lemma TurnLife(layout: Layout, s: LogState, diskOk: bool)
    requires s.task == Active
    ensures var m := AfterTurn(layout, s, diskOk);
            LifeSoFar(m.state.task, TakenIn(m.effects), WroteIn(m.effects))
  {
    TurnEffects(layout, s, diskOk);
    if s.queue != [] {
      OneTaken(s.queue[0]);
    }
  }

  lemma OneTaken(entry: Option<Item>)
    ensures HasSentinel([entry]) <==> entry == None
    ensures UpToSentinel([entry]) == if entry == None then [] else [entry.value]
    ensures [entry][..0] == []
  {
  }

  lemma OneStepLife(layout: Layout, s: LogState, i: LogInput)
    requires s.task == Active && i != JoinTask
    ensures var m := LogStep(layout, s, i);
            LifeSoFar(m.state.task, TakenIn(m.effects), WroteIn(m.effects))
  {
    match i
    case StartLogger =>
    case Log(item, diskOk) => LogEffects(layout, s, item, diskOk);
    case StopLogger => FewLogEffects([Queued(None)]);
    case TaskTurn(diskOk) => TurnLife(layout, s, diskOk);
  }

  lemma LifeJoin(task: Task, taken: seq<Option<Item>>, wrote: seq<Item>, taken': seq<Option<Item>>, wrote': seq<Item>)
    requires LifeSoFar(Active, taken, wrote) && LifeSoFar(task, taken', wrote')
    ensures LifeSoFar(task, taken + taken', wrote + wrote')
  {
    UpToSentinelPrefix(taken, taken');
    if task == Died {
      UpToSentinelPrefix(taken, taken'[..|taken'| - 1]);
      assert (taken + taken')[..|taken + taken'| - 1] == taken + taken'[..|taken'| - 1];
    }
  }

  lemma {:induction false} TaskLife(layout: Layout, s: LogState, inputs: seq<LogInput>)
    requires s.task == Active
    requires JoinTask !in inputs
    ensures var m := RunLog(layout, s, inputs);
            LifeSoFar(m.state.task, TakenIn(m.effects), WroteIn(m.effects))
    decreases |inputs|
  {
    if inputs == [] {
    } else {
      var m := LogStep(layout, s, inputs[0]);
      var rest := RunLog(layout, m.state, inputs[1..]);
      OneStepLife(layout, s, inputs[0]);
      TakenAppend(m.effects, rest.effects);
      WroteAppend(m.effects, rest.effects);
      if m.state.task == Active {
        TaskLife(layout, m.state, inputs[1..]);
        LifeJoin(rest.state.task, TakenIn(m.effects), WroteIn(m.effects), TakenIn(rest.effects), WroteIn(rest.effects));
      } else {
        EndedTaskRests(layout, m.state, inputs[1..]);
        assert TakenIn(m.effects) + [] == TakenIn(m.effects) && WroteIn(m.effects) + [] == WroteIn(m.effects);
      }
    }
  }

  lemma {:induction false} EndedTaskRests(layout: Layout, s: LogState, inputs: seq<LogInput>)
    requires s.task == Done || s.task == Died
    requires JoinTask !in inputs
    ensures var m := RunLog(layout, s, inputs);
            m.state.task == s.task && TakenIn(m.effects) == [] && WroteIn(m.effects) == []
    decreases |inputs|
  {
    if inputs == [] {
    } else {
      var m := LogStep(layout, s, inputs[0]);
      FewLogEffects(m.effects);
      EndedTaskRests(layout, m.state, inputs[1..]);
      TakenAppend(m.effects, RunLog(layout, m.state, inputs[1..]).effects);
      WroteAppend(m.effects, RunLog(layout, m.state, inputs[1..]).effects);
    }
  }

  /** Drain guarantee: when the loop has ended at a sentinel, so that `stop` can return, the
      items written since are exactly those queued in front of the first sentinel, in order. */
  lemma StopDrainsQueue(layout: Layout, s: LogState, inputs: seq<LogInput>)
    requires s.task == Active && JoinTask !in inputs
    requires RunLog(layout, s, inputs).state.task == Done
    ensures var m := RunLog(layout, s, inputs);
            WroteIn(m.effects) == UpToSentinel(s.queue + QueuedIn(m.effects))
  {
    var m := RunLog(layout, s, inputs);
    QueueIsFifo(layout, s, inputs);
    TaskLife(layout, s, inputs);
    UpToSentinelPrefix(TakenIn(m.effects), m.state.queue);
  }

  /** The inputs of a run on a healthy disk, with MACs that can be normalized. */
  ghost predicate Healthy(layout: Layout, inputs: seq<LogInput>) {
    forall k :: 0 <= k < |inputs| ==>
      match inputs[k]
      case Log(item, diskOk) => Writes(layout, item, diskOk)
      case TaskTurn(diskOk) => diskOk
      case _ => true
  }

  ghost predicate AllWritable(layout: Layout, entries: seq<Option<Item>>) {
    forall k :: 0 <= k < |entries| && entries[k].Some? ==> PathOf(layout, entries[k].value).Ok?
  }

  /** The drain loop dies only of a failing write. */
  lemma {:induction false} HealthyTaskLives(layout: Layout, s: LogState, inputs: seq<LogInput>)
    requires s.task != Died && AllWritable(layout, s.queue) && Healthy(layout, inputs)
    ensures RunLog(layout, s, inputs).state.task != Died
    decreases |inputs|
  {
    if inputs == [] {
    } else {
      var m := LogStep(layout, s, inputs[0]);
      assert match inputs[0]
             case Log(item, diskOk) => Writes(layout, item, diskOk)
             case TaskTurn(diskOk) => diskOk
             case _ => true;
      HealthyTaskLives(layout, m.state, inputs[1..]);
    }
  }

  function Turns(inputs: seq<LogInput>): nat {
    if inputs == [] then 0 else (if inputs[0].TaskTurn? then 1 else 0) + Turns(inputs[1..])
  }

  /** The first sentinel stands at position `n`. */
  predicate FirstSentinel(entries: seq<Option<Item>>, n: nat) {
    n < |entries| && entries[n] == None && None !in entries[..n]
  }

  /** One input on a healthy disk: the first sentinel moves up by one with every turn, and the
      turn that takes it ends the loop. */
  lemma SentinelMoves(layout: Layout, s: LogState, i: LogInput, n: nat)
    requires s.task == Active && i != JoinTask && FirstSentinel(s.queue, n)
    requires AllWritable(layout, s.queue) && Healthy(layout, [i])
    ensures var t := LogStep(layout, s, i).state;
            if i.TaskTurn? && n == 0 then t.task == Done
            else && t.task == Active && AllWritable(layout, t.queue)
                 && FirstSentinel(t.queue, if i.TaskTurn? then n - 1 else n)
  {
    assert match [i][0]
           case Log(item, diskOk) => Writes(layout, item, diskOk)
           case TaskTurn(diskOk) => diskOk
           case _ => true;
    match i
    case TaskTurn(_) =>
      assert n > 0 ==> s.queue[0] in s.queue[..n] && s.queue[1..][..n - 1] == s.queue[..n][1..];
    case Log(item, _) =>
      assert (s.queue + [Some(item)])[..n] == s.queue[..n];
    case StopLogger =>
      assert (s.queue + [None])[..n] == s.queue[..n];
    case StartLogger =>
  }

  /** `stop` returns: on a healthy disk the drain loop ends at the sentinel after exactly as many
      turns as it takes to reach it, whatever else is logged in between. */
  lemma {:induction false} StopReturns(layout: Layout, s: LogState, inputs: seq<LogInput>, n: nat)
    requires s.task == Active && JoinTask !in inputs && FirstSentinel(s.queue, n)
    requires AllWritable(layout, s.queue) && Healthy(layout, inputs)
    ensures RunLog(layout, s, inputs).state.task == if Turns(inputs) > n then Done else Active
    decreases |inputs|
  {
    if inputs == [] {
    } else {
      var i, later := inputs[0], inputs[1..];
      var t := LogStep(layout, s, i).state;
      HealthyTail(layout, inputs);
      SentinelMoves(layout, s, i, n);
      if i.TaskTurn? && n == 0 {
        EndedTaskRests(layout, t, later);
      } else {
        StopReturns(layout, t, later, if i.TaskTurn? then n - 1 else n);
      }
    }
  }

  lemma HealthyTail(layout: Layout, inputs: seq<LogInput>)
    requires inputs != [] && Healthy(layout, inputs)
    ensures Healthy(layout, [inputs[0]]) && Healthy(layout, inputs[1..])
  {
    forall k | 0 <= k < |inputs[1..]|
      ensures match inputs[1..][k]
              case Log(item, diskOk) => Writes(layout, item, diskOk)
              case TaskTurn(diskOk) => diskOk
              case _ => true
    {
      assert inputs[1..][k] == inputs[k + 1];
    }
  }

  // ---------- the files ----------

  function WriteAll(layout: Layout, files: Files, items: seq<Item>): Files
    decreases |items|
  {
    if items == [] then files else WriteAll(layout, Written(layout, files, items[0]), items[1..])
  }

  lemma {:induction false} WriteAllAppend(layout: Layout, files: Files, a: seq<Item>, b: seq<Item>)
    ensures WriteAll(layout, files, a + b) == WriteAll(layout, WriteAll(layout, files, a), b)
    decreases |a|
  {
    if a == [] {
      assert a + b == b;
    } else {
      WriteAllAppend(layout, Written(layout, files, a[0]), a[1..], b);
      assert (a + b)[1..] == a[1..] + b;
    }
  }

  lemma WriteOne(layout: Layout, files: Files, item: Item)
    ensures WriteAll(layout, files, [item]) == Written(layout, files, item)
  {
    assert [item][1..] == [];
  }

  lemma LogWrites(layout: Layout, s: LogState, item: Item, diskOk: bool)
    ensures var m := AfterLog(layout, s, item, diskOk);
            m.state.files == WriteAll(layout, s.files, WroteIn(m.effects))
  {
    FewLogEffects(AfterLog(layout, s, item, diskOk).effects);
    WriteOne(layout, s.files, item);
  }

  lemma TurnWrites(layout: Layout, s: LogState, diskOk: bool)
    ensures var m := AfterTurn(layout, s, diskOk);
            m.state.files == WriteAll(layout, s.files, WroteIn(m.effects))
  {
    TurnEffects(layout, s, diskOk);
    if s.queue != [] && s.queue[0].Some? {
      WriteOne(layout, s.files, s.queue[0].value);
    }
  }

  lemma StepWrites(layout: Layout, s: LogState, i: LogInput)
    ensures var m := LogStep(layout, s, i);
            m.state.files == WriteAll(layout, s.files, WroteIn(m.effects))
  {
    match i
    case StartLogger =>
    case Log(item, diskOk) => LogWrites(layout, s, item, diskOk);
    case StopLogger => FewLogEffects(LogStep(layout, s, i).effects);
    case JoinTask =>
    case TaskTurn(diskOk) => TurnWrites(layout, s, diskOk);
  }

  /** Over any run, queued or direct, the files are what the writes made of them, in order. */
  lemma {:induction false} FilesAreWrites(layout: Layout, s: LogState, inputs: seq<LogInput>)
    ensures var m := RunLog(layout, s, inputs);
            m.state.files == WriteAll(layout, s.files, WroteIn(m.effects))
    decreases |inputs|
  {
    if inputs == [] {
    } else {
      var m := LogStep(layout, s, inputs[0]);
      var rest := RunLog(layout, m.state, inputs[1..]);
      StepWrites(layout, s, inputs[0]);
      FilesAreWrites(layout, m.state, inputs[1..]);
      WroteAppend(m.effects, rest.effects);
      WriteAllAppend(layout, s.files, WroteIn(m.effects), WroteIn(rest.effects));
    }
  }

  /** The rows of the raw events that belong in the file at `path`, in order. */
  function RowsAt(layout: Layout, items: seq<Item>, path: FilePath): seq<Line> {
    if items == [] then []
    else (if items[0].Raw? && PathOf(layout, items[0]) == Ok(path) then [RowFor(items[0].event)] else [])
         + RowsAt(layout, items[1..], path)
  }

  function TextsAt(layout: Layout, items: seq<Item>, path: FilePath): seq<Line> {
    if items == [] then []
    else (if items[0].Text? && PathOf(layout, items[0]) == Ok(path) then [LineFor(items[0].alert)] else [])
         + TextsAt(layout, items[1..], path)
  }

  lemma {:induction false} TrailingSeparator(text: string, word: string)
    ensures Components(text + "/", word) == Components(text, word)
    decreases |text|
  {
    if text == "" {
      assert Components("/", word) == Kept(word) + Components("", "");
    } else {
      assert (text + "/")[0] == text[0] && (text + "/")[1..] == text[1..] + "/";
      TrailingSeparator(text[1..], if text[0] == '/' then "" else word + [text[0]]);
    }
  }

  /** A location spelled with a separator at its end names the same files. */
  lemma SameFiles(layout: Layout, event: RawDataEvent)
    requires event.location != "" && event.location[|event.location| - 1] != '/'
    ensures PathFor(layout, event.(location := event.location + "/")) == PathFor(layout, event)
  {
    TrailingSeparator(event.location, "");
    assert RootOf(event.location + "/") == RootOf(event.location);
  }

  /** Events and alerts never share a file, whatever their locations and types. */
  lemma PathsDisjoint(layout: Layout, event: RawDataEvent, alert: AlertEvent)
    requires PathFor(layout, event).Ok? && AlertPathFor(layout, alert).Ok?
    ensures PathFor(layout, event) != AlertPathFor(layout, alert)
  {
    var p, q := PathFor(layout, event).value.parts, AlertPathFor(layout, alert).value.parts;
    assert p[|p| - 2] == "rawdata" && q[|q| - 2] == "debugstr";
    assert |"rawdata"| != |"debugstr"|;
  }

  /** Whether some raw event is logged at `path`. */
  ghost predicate RawPath(layout: Layout, path: FilePath) {
    exists event :: PathFor(layout, event) == Ok(path)
  }

  lemma RawPathHoldsNoText(layout: Layout, item: Item, path: FilePath)
    requires RawPath(layout, path) && item.Text?
    ensures PathOf(layout, item) != Ok(path)
  {
    var event :| PathFor(layout, event) == Ok(path);
    if PathOf(layout, item).Ok? {
      PathsDisjoint(layout, event, item.alert);
    }
  }

  lemma TextPathHoldsNoRow(layout: Layout, item: Item, alert: AlertEvent)
    requires AlertPathFor(layout, alert).Ok? && item.Raw?
    ensures PathOf(layout, item) != AlertPathFor(layout, alert)
  {
    if PathOf(layout, item).Ok? {
      PathsDisjoint(layout, item.event, alert);
    }
  }

  /** File shape: whatever else is logged, a raw data file grows by exactly the rows of its
      events, in order, after one header if it was absent or empty and any row came. */
  lemma {:induction false} RawFileShape(layout: Layout, files: Files, items: seq<Item>, path: FilePath)
    requires RawPath(layout, path)
    ensures var rows, start := RowsAt(layout, items, path), Content(files, path);
            Content(WriteAll(layout, files, items), path)
              == if rows == [] then start else (if start == [] then [Header] else start) + rows
    decreases |items|
  {
    if items == [] {
    } else {
      var item, later := items[0], RowsAt(layout, items[1..], path);
      var start := Content(files, path);
      var ready := if start == [] then [Header] else start;
      RawFileShape(layout, Written(layout, files, item), items[1..], path);
      if item.Text? {
        RawPathHoldsNoText(layout, item, path);
        assert RowsAt(layout, items, path) == later;
      } else if PathOf(layout, item) == Ok(path) {
        assert Content(Written(layout, files, item), path) == ready + [RowFor(item.event)];
        Assoc(ready, [RowFor(item.event)], later);
      } else {
        assert RowsAt(layout, items, path) == later;
      }
    }
  }

  /** An alert file grows by exactly the lines of its alerts, in order, and gets no header. */
  lemma {:induction false} AlertFileShape(layout: Layout, files: Files, items: seq<Item>, alert: AlertEvent)
    requires AlertPathFor(layout, alert).Ok?
    ensures var path := AlertPathFor(layout, alert).value;
            Content(WriteAll(layout, files, items), path) == Content(files, path) + TextsAt(layout, items, path)
    decreases |items|
  {
    var path := AlertPathFor(layout, alert).value;
    if items == [] {
    } else {
      var item, later := items[0], TextsAt(layout, items[1..], path);
      AlertFileShape(layout, Written(layout, files, item), items[1..], alert);
      if item.Raw? {
        TextPathHoldsNoRow(layout, item, alert);
        assert TextsAt(layout, items, path) == later;
      } else if PathOf(layout, item) == Ok(path) {
        Assoc(Content(files, path), [LineFor(item.alert)], later);
      } else {
        assert TextsAt(layout, items, path) == later;
      }
    }
  }

  /** A whole life of the logger, from an absent or empty file to `stop`: the file of a raw
      event queued before the first sentinel is one header and then the rows of all such
      events of that path, in queue order. */
  lemma {:induction false} LoggedFile(layout: Layout, s: LogState, inputs: seq<LogInput>, path: FilePath)
    requires RawPath(layout, path)
    requires s.task == Active && JoinTask !in inputs && Content(s.files, path) == []
    requires RunLog(layout, s, inputs).state.task == Done
    ensures var m := RunLog(layout, s, inputs);
            var rows := RowsAt(layout, UpToSentinel(s.queue + QueuedIn(m.effects)), path);
            Content(m.state.files, path) == if rows == [] then [] else [Header] + rows
  {
    var m := RunLog(layout, s, inputs);
    StopDrainsQueue(layout, s, inputs);
    FilesAreWrites(layout, s, inputs);
    RawFileShape(layout, s.files, WroteIn(m.effects), path);
  }
}
