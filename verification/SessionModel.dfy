// A session context as a value: the messages in memory, the cache file and the history
// files, and what every operation does to them, file operation by file operation.
module SessionModel {
  import opened Sequences
  import opened Wrappers

  datatype Message =
    | System(content: string)
    | User(content: string)
    | Assistant(body: string)
    | ToolResult(callId: string, content: string)

  // A file is written one message text or one newline at a time.
  datatype Mark = Text(message: Message) | Newline

  type File = seq<Mark>
  type Stamp = string

  datatype Files = Files(cache: Option<File>, history: map<Stamp, File>)

  datatype FileOp =
    | OpenCache
    | WriteCache(mark: Mark)
    | RemoveCache
    | OpenHistory(stamp: Stamp)
    | WriteHistory(stamp: Stamp, mark: Mark)

  function Perform(d: Files, op: FileOp): Files {
    match op
    case OpenCache => if d.cache.Some? then d else d.(cache := Some([]))
    case WriteCache(m) => if d.cache.Some? then d.(cache := Some(d.cache.value + [m])) else d
    case RemoveCache => d.(cache := None)
    case OpenHistory(t) => d.(history := d.history[t := []])
    case WriteHistory(t, m) => if t in d.history then d.(history := d.history[t := d.history[t] + [m]]) else d
  }

  function PerformAll(d: Files, ops: seq<FileOp>): Files
    decreases |ops|
  {
    if ops == [] then d else PerformAll(Perform(d, ops[0]), ops[1..])
  }

  // ----- the line format -----

  function Encode(ms: seq<Message>): File {
    if ms == [] then [] else [Text(ms[0]), Newline] + Encode(ms[1..])
  }

  // The lines a reader yields; the last one may lack its newline.
  function Lines(f: File, open: seq<Message>): seq<seq<Message>> {
    if f == [] then [open]
    else match f[0]
      case Text(m) => Lines(f[1..], open + [m])
      case Newline => [open] + Lines(f[1..], [])
  }

  // A line is read back when it holds exactly one message; anything else is skipped.
  function Parse(line: seq<Message>): seq<Message> {
    if |line| == 1 then line else []
  }

  function ParseAll(lines: seq<seq<Message>>): seq<Message> {
    if lines == [] then [] else ParseAll(lines[..|lines| - 1]) + Parse(lines[|lines| - 1])
  }

  function Decode(f: File): seq<Message> { ParseAll(Lines(f, [])) }

  // ----- the context -----

  datatype Context = Context(messages: seq<Message>, system: Option<string>, pending: Option<string>, files: Files) {

    // The list sent to the model: the system message first.
    function Build(): seq<Message> {
      (if system.Some? then [System(system.value)] else []) + messages
    }

    function Do(ops: seq<FileOp>): Context { this.(files := PerformAll(files, ops)) }

    function OpenOps(): seq<FileOp> {
      [OpenCache] + (if files.cache.None? && system.Some? then CacheLines([System(system.value)]) else [])
    }

    function AppendOps(ms: seq<Message>): seq<FileOp> {
      if ms == [] then [] else OpenOps() + CacheLines(ms)
    }

    function Append(ms: seq<Message>): Context {
      this.Do(AppendOps(ms)).(messages := messages + ms)
    }

    function WriteCurrentOps(): seq<FileOp> { OpenOps() + CacheLines(messages) }

    function ArchiveOps(now: Stamp): seq<FileOp> {
      (if messages == [] then [] else [OpenHistory(now)] + HistoryLines(now, Build())) + [RemoveCache]
    }

    function Archive(now: Stamp): Context { this.Do(ArchiveOps(now)) }

    // Archive, forget the memory, start again with ms.
    function ResetOps(ms: seq<Message>, now: Stamp): seq<FileOp> {
      ArchiveOps(now) + Archive(now).(messages := []).AppendOps(ms)
    }

    function Reset(ms: seq<Message>, now: Stamp): Context { Archive(now).(messages := []).Append(ms) }

    predicate Switches() { pending.Some? && system != pending }

    function Switched(now: Stamp): Context { Archive(now).(system := pending, pending := None) }

    function ApplyPendingOps(now: Stamp): seq<FileOp> {
      if !Switches() then []
      else ArchiveOps(now) + (if messages == [] then [] else Switched(now).WriteCurrentOps())
    }

    function ApplyPending(now: Stamp): Context {
      if !Switches() then this.(pending := None)
      else if messages == [] then Switched(now)
      else Switched(now).Do(Switched(now).WriteCurrentOps())
    }

    // Keep the first k messages.
    function RevertTo(k: nat, now: Stamp): Context
      requires k <= |messages|
    {
      if k == |messages| then this
      else
        var c := Archive(now).(messages := messages[..k]);
        c.Do(c.WriteCurrentOps())
    }

    function RevertOps(k: nat, now: Stamp): seq<FileOp>
      requires k <= |messages|
    {
      if k == |messages| then []
      else ArchiveOps(now) + Archive(now).(messages := messages[..k]).WriteCurrentOps()
    }

    function Recover(): Context {
      if files.cache.None? then this.(messages := [], system := None)
      else
        var ms := Decode(files.cache.value);
        if ms != [] && ms[0].System? then this.(messages := ms[1..], system := Some(ms[0].content))
        else this.(messages := ms)
    }
  }

  function Fresh(files: Files): Context { Context([], None, None, files) }

  function CacheLines(ms: seq<Message>): seq<FileOp> {
    if ms == [] then [] else [WriteCache(Text(ms[0])), WriteCache(Newline)] + CacheLines(ms[1..])
  }

  function HistoryLines(t: Stamp, ms: seq<Message>): seq<FileOp> {
    if ms == [] then [] else [WriteHistory(t, Text(ms[0])), WriteHistory(t, Newline)] + HistoryLines(t, ms[1..])
  }

  // How many messages a revert keeps: the condition is asked from the newest on, with
  // its own state, and stops the revert at the first message it holds of.
  function KeepCount<S>(ms: seq<Message>, condition: (S, Message) -> (S, bool), s: S): (k: nat)
    ensures k <= |ms|
  {
    if ms == [] then 0
    else
      var (s', stop) := condition(s, ms[|ms| - 1]);
      if stop then |ms| else KeepCount(ms[..|ms| - 1], condition, s')
  }

  // ----- runs of a session -----

  datatype Op =
    | SetSystem(content: string)
    | BuildContext(now: Stamp)
    | AppendMessages(messages: seq<Message>)
    | RevertMessages(count: nat, now: Stamp)
    | ResetMessages(messages: seq<Message>, now: Stamp)
    | RecoverFromCache

  // Reverting by a condition drops some number of messages from the end.
  function Step(c: Context, op: Op): Context {
    match op
    case SetSystem(content) => c.(pending := Some(content))
    case BuildContext(now) => c.ApplyPending(now)
    case AppendMessages(ms) => c.Append(ms)
    case RevertMessages(count, now) => c.RevertTo(|c.messages| - Least(count, |c.messages|), now)
    case ResetMessages(ms, now) => c.Reset(ms, now)
    case RecoverFromCache => c.Recover()
  }

  // The file operations of a step, in order.
  function StepOps(c: Context, op: Op): seq<FileOp> {
    match op
    case SetSystem(_) => []
    case BuildContext(now) => c.ApplyPendingOps(now)
    case AppendMessages(ms) => c.AppendOps(ms)
    case RevertMessages(count, now) => c.RevertOps(|c.messages| - Least(count, |c.messages|), now)
    case ResetMessages(ms, now) => c.ResetOps(ms, now)
    case RecoverFromCache => []
  }

  function Run(c: Context, ops: seq<Op>): Context
    decreases |ops|
  {
    if ops == [] then c else Step(Run(c, ops[..|ops| - 1]), ops[|ops| - 1])
  }
}
