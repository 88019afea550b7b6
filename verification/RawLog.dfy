/** The raw data logger: a queue with a stop sentinel, drained into per-day files. */
module RawLog {
  import opened Common
  import opened MacAddress
  import opened Codec
  import opened Estimator

  const DEFAULT_DEVICE_TYPE := "DEAN_NODE_V2"

  datatype AlertEvent = AlertEvent(
    timestamp: real,
    mac: string,
    location: string,
    payload: Bytes,
    deviceType: string)

  datatype Item = Raw(event: RawDataEvent) | Text(alert: AlertEvent)

  /** A line of a log file: the CSV header, the row of an event or the text of an alert. */
  datatype Line = Header | RowFor(event: RawDataEvent) | LineFor(alert: AlertEvent)

  /** A path as `pathlib` keeps it: its root, and its components without the idle ones. */
  datatype FilePath = FilePath(root: string, parts: seq<string>) {
    function Child(name: string): FilePath {
      FilePath(root, parts + [name])
    }

    /** `path / text`: relative text adds its components, absolute text replaces the path. */
    function Join(text: string): FilePath {
      if RootOf(text) != "" then FilePath(RootOf(text), Components(text, ""))
      else FilePath(root, parts + Components(text, ""))
    }
  }

  /** The root of a POSIX path text; exactly two leading separators are a root of their own. */
  function RootOf(text: string): string {
    if |text| == 0 || text[0] != '/' then ""
    else if |text| >= 2 && text[1] == '/' && (|text| == 2 || text[2] != '/') then "//"
    else "/"
  }

  /** The components of a path text, of which `word` has been read already: empty ones, as
      between repeated separators, and single dots are idle. */
  function Components(text: string, word: string): seq<string>
    decreases |text|
  {
    if text == "" then Kept(word)
    else if text[0] == '/' then Kept(word) + Components(text[1..], "")
    else Components(text[1..], word + [text[0]])
  }

  function Kept(word: string): seq<string> {
    if word == "" || word == "." then [] else [word]
  }

  type Files = map<FilePath, seq<Line>>

  /** Where files go: the data directory, and the date text of a timestamp. */
  datatype Layout = Layout(dataDir: FilePath, dayOf: real -> string)

  function Content(files: Files, path: FilePath): seq<Line> {
    if path in files then files[path] else []
  }

  function TypeOr(text: string): string {
    if text == "" then DEFAULT_DEVICE_TYPE else text
  }

  function Folder(layout: Layout, location: string, deviceType: string, mac: string): FilePath {
    layout.dataDir.Join(LocationOr(location)).Join(TypeOr(deviceType)).Child(mac).Child("inference")
  }

  function FileName(layout: Layout, timestamp: real): string {
    layout.dayOf(timestamp) + ".txt"
  }

  function PathFor(layout: Layout, event: RawDataEvent): Result<FilePath, ValueError> {
    var mac :- Normalize(event.mac);
    var folder := Folder(layout, event.location, event.deviceType, mac);
    Ok(folder.Child("rawdata").Child(FileName(layout, event.timestamp)))
  }

  function AlertPathFor(layout: Layout, alert: AlertEvent): Result<FilePath, ValueError> {
    var mac :- Normalize(alert.mac);
    var folder := Folder(layout, alert.location, alert.deviceType, mac);
    Ok(folder.Child("debugstr").Child(FileName(layout, alert.timestamp)))
  }

  function PathOf(layout: Layout, item: Item): Result<FilePath, ValueError> {
    match item
    case Raw(event) => PathFor(layout, event)
    case Text(alert) => AlertPathFor(layout, alert)
  }

  /** The files after one item is written; a raw event's row opens an empty file with a header. */
  function Written(layout: Layout, files: Files, item: Item): Files {
    match PathOf(layout, item)
    case Err(_) => files
    case Ok(path) =>
      var lines := Content(files, path);
      match item
      case Raw(event) => files[path := (if lines == [] then [Header] else lines) + [RowFor(event)]]
      case Text(alert) => files[path := lines + [LineFor(alert)]]
  }

  // ---------- specification of the steps ----------

  datatype Task = NoTask | Active | Done | Died

  /** The queue holds items and stop sentinels. */
  datatype LogState = LogState(files: Files, queue: seq<Option<Item>>, task: Task)

  datatype LogInput =
    | StartLogger
    | Log(item: Item, diskOk: bool)
    | StopLogger
    | JoinTask
    | TaskTurn(diskOk: bool)

  datatype LogEffect = Queued(entry: Option<Item>) | Taken(entry: Option<Item>) | Wrote(item: Item)

  datatype LogMove = LogMove(state: LogState, effects: seq<LogEffect>)

  /** Whether writing the item succeeds: its MAC has a canonical spelling and the disk obeys. */
  predicate Writes(layout: Layout, item: Item, diskOk: bool) {
    diskOk && PathOf(layout, item).Ok?
  }

  function Put(s: LogState, entry: Option<Item>): LogMove {
    LogMove(s.(queue := s.queue + [entry]), [Queued(entry)])
  }

  /** An item logged without a task is written at once. */
  function AfterLog(layout: Layout, s: LogState, item: Item, diskOk: bool): LogMove {
    if s.task != NoTask then Put(s, Some(item))
    else if Writes(layout, item, diskOk) then LogMove(s.(files := Written(layout, s.files, item)), [Wrote(item)])
    else LogMove(s, [])
  }

  /** The drain loop's next turn: stop at a sentinel, die of a failing write. */
  function AfterTurn(layout: Layout, s: LogState, diskOk: bool): LogMove {
    if s.task != Active || s.queue == [] then LogMove(s, [])
    else
      var entry, rest := s.queue[0], s.queue[1..];
      match entry
      case None => LogMove(LogState(s.files, rest, Done), [Taken(entry)])
      case Some(item) =>
        var ok := Writes(layout, item, diskOk);
        LogMove(LogState(if ok then Written(layout, s.files, item) else s.files, rest, if ok then Active else Died),
                if ok then [Taken(entry), Wrote(item)] else [Taken(entry)])
  }

  function LogStep(layout: Layout, s: LogState, i: LogInput): LogMove {
    match i
    case StartLogger => LogMove(if s.task == NoTask then s.(task := Active) else s, [])
    case Log(item, diskOk) => AfterLog(layout, s, item, diskOk)
    case StopLogger => if s.task == NoTask then LogMove(s, []) else Put(s, None)
    case JoinTask => LogMove(if s.task == Done then s.(task := NoTask) else s, [])
    case TaskTurn(diskOk) => AfterTurn(layout, s, diskOk)
  }

  // ---------- the logger object ----------

  /** The file system appears as the field `files`; `diskOk` is whether it obeys a write. */
  class RawDataLogger {
    const layout: Layout
    var queue: seq<Option<Item>>
    var task: Task
    var files: Files

    ghost function State(): LogState
      reads this
    {
      LogState(files, queue, task)
    }

    constructor (layout: Layout, files: Files)
      ensures this.layout == layout && State() == LogState(files, [], NoTask)
    {
      this.layout, this.files, queue, task := layout, files, [], NoTask;
    }

    method Start()
      modifies this
      ensures State() == LogStep(layout, old(State()), StartLogger).state
    {
      if task == NoTask {
        task := Active;
      }
    }

    /** The part of `stop` before it waits for the drain loop. */
    method RequestStop()
      modifies this
      ensures State() == LogStep(layout, old(State()), StopLogger).state
    {
      if task == NoTask {
        return;
      }
      queue := queue + [None];
    }

    /** The part of `stop` after the loop it waited for has returned. */
    method FinishStop()
      requires task == Done
      modifies this
      ensures State() == LogStep(layout, old(State()), JoinTask).state
    {
      task := NoTask;
    }

    /** Queues the item, or writes it when no task runs; only a failing write raises. */
    method LogItem(item: Item, diskOk: bool) returns (ok: bool)
      modifies this
      ensures State() == LogStep(layout, old(State()), Log(item, diskOk)).state
      ensures ok <==> old(task) != NoTask || Writes(layout, item, diskOk)
    {
      if task == NoTask {
        ok := Write(item, diskOk);
        return;
      }
      queue := queue + [Some(item)];
      return true;
    }

    method Write(item: Item, diskOk: bool) returns (ok: bool)
      modifies this`files
      ensures ok <==> Writes(layout, item, diskOk)
      ensures files == if ok then Written(layout, old(files), item) else old(files)
    {
      match item
      case Raw(event) => ok := WriteEvent(event, diskOk);
      case Text(alert) => ok := WriteAlert(alert, diskOk);
    }

    method WriteEvent(event: RawDataEvent, diskOk: bool) returns (ok: bool)
      modifies this`files
      ensures ok <==> Writes(layout, Raw(event), diskOk)
      ensures files == if ok then Written(layout, old(files), Raw(event)) else old(files)
    {
      var path := PathFor(layout, event);
      if path.Err? || !diskOk {
        return false;
      }
      var needsHeader := path.value !in files || files[path.value] == [];
      var lines := if needsHeader then [Header] else files[path.value];
      files := files[path.value := lines + [RowFor(event)]];
      return true;
    }

    method WriteAlert(alert: AlertEvent, diskOk: bool) returns (ok: bool)
      modifies this`files
      ensures ok <==> Writes(layout, Text(alert), diskOk)
      ensures files == if ok then Written(layout, old(files), Text(alert)) else old(files)
    {
      var path := AlertPathFor(layout, alert);
      if path.Err? || !diskOk {
        return false;
      }
      files := files[path.value := Content(files, path.value) + [LineFor(alert)]];
      return true;
    }

    /** One turn of the drain loop, from taking an entry to being done with it. */
    method TakeEntry(diskOk: bool)
      requires task == Active && queue != []
      modifies this
      ensures State() == LogStep(layout, old(State()), TaskTurn(diskOk)).state
    {
      var entry := queue[0];
      queue := queue[1..];
      if entry == None {
        task := Done;
        return;
      }
      var ok := Write(entry.value, diskOk);
      if !ok {
        task := Died;
      }
    }
  }
}
