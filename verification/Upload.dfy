// Uploading an attachment: the queue task that checks positions and appends, and the
// server entry in front of it.
module Upload {
  import opened Wrappers
  import opened Frame

  const OUT_OF_ORDER := 1

  datatype Command = Command(size: nat, pos: nat, data: seq<Byte>)

  datatype Error = NotFound | Invalid

  // One upload: the declared size, the temporary file, and whether its queue still runs.
  // `published` is set when the temporary file is renamed to the attachment.
  datatype Task = Task(size: nat, pos: nat, temp: seq<Byte>, open: bool, published: bool)

  function Started(size: nat): Task { Task(size, 0, [], true, false) }

  datatype Step = Position(pos: nat, appended: seq<Byte>) | Disorder | Malformed

  // The position check and the append.
  function Process(pos: nat, cmd: Command): Step {
    if cmd.pos < pos then Position(pos, [])
    else if cmd.pos > pos then Disorder
    else if cmd.size > |cmd.data| then Malformed
    else Position(pos + cmd.size, cmd.data[..cmd.size])
  }

  // One queue command: the upload ends on an error or when the declared size is reached,
  // and then publishes if the size was reached.
  function Write(t: Task, cmd: Command): (Task, Result<Response, Error>) {
    if !t.open then (t, Err(NotFound))
    else
      match Process(t.pos, cmd)
      case Position(pos, appended) =>
        var done := pos >= t.size;
        (Task(t.size, pos, t.temp + appended, !done, done), Ok(Response(pos, OK)))
      case Disorder =>
        var done := t.pos >= t.size;
        (t.(open := !done, published := done), Ok(Response(t.pos, OUT_OF_ORDER)))
      case Malformed => (t.(open := false, published := t.pos >= t.size), Err(Invalid))
  }

  function WriteAll(t: Task, cmds: seq<Command>): Task {
    if cmds == [] then t else Write(WriteAll(t, cmds[..|cmds| - 1]), cmds[|cmds| - 1]).0
  }

  // ----- any sequence of commands -----

  // The position is the length of the temporary file; the queue stops and publishes when
  // the declared size is reached.
  ghost predicate TaskInv(t: Task) {
    |t.temp| == t.pos && (t.published <==> t.pos >= t.size) && (t.published ==> !t.open)
  }

  lemma WriteKeepsInv(t: Task, cmd: Command)
    requires TaskInv(t)
    ensures var (t', r) := Write(t, cmd);
      && TaskInv(t') && t.temp <= t'.temp && t.pos <= t'.pos
      && (r.Ok? ==> r.value.currentPos == t'.pos)
  {
  }

  // What one command does to a running upload: an old chunk is acknowledged and changes
  // nothing, an early one is refused, a short one ends the upload, and the next one is
  // appended as far as its declared size goes.
  lemma {:induction false} WriteAnswers(t: Task, cmd: Command)
    requires t.open
    ensures var (t', r) := Write(t, cmd);
      && t'.size == t.size
      && (cmd.pos < t.pos ==> r == Ok(Response(t.pos, 0)) && t'.temp == t.temp && t'.pos == t.pos)
      && (cmd.pos > t.pos ==>
            r.Ok? && r.value.code != 0 && r.value.currentPos == t.pos && t'.temp == t.temp && t'.pos == t.pos)
      && (cmd.pos == t.pos && cmd.size > |cmd.data| ==> r.Err? && !t'.open && t'.temp == t.temp && t'.pos == t.pos)
      && (cmd.pos == t.pos && cmd.size <= |cmd.data| ==>
            && r == Ok(Response(t.pos + cmd.size, 0)) && t'.pos == t.pos + cmd.size
            && t'.temp == t.temp + cmd.data[..cmd.size])
      && (t'.open <==> r.Ok? && t'.pos < t'.size) && (t'.published <==> t'.pos >= t'.size)
  {
  }

  // Whatever the commands (repeated, reordered, malformed), the position never decreases,
  // the file only grows, and it is published exactly when the position reaches the size.
  lemma {:induction false} UploadNeverRetreats(size: nat, cmds: seq<Command>, k: nat)
    requires size > 0 && k <= |cmds|
    ensures TaskInv(WriteAll(Started(size), cmds)) && WriteAll(Started(size), cmds).size == size
    ensures WriteAll(Started(size), cmds[..k]).pos <= WriteAll(Started(size), cmds).pos
    ensures WriteAll(Started(size), cmds[..k]).temp <= WriteAll(Started(size), cmds).temp
    decreases |cmds|
  {
    if k == |cmds| {
      assert cmds[..k] == cmds;
    }
    if cmds != [] {
      var init := cmds[..|cmds| - 1];
      UploadNeverRetreats(size, init, if k < |cmds| then k else 0);
      WriteKeepsInv(WriteAll(Started(size), init), cmds[|cmds| - 1]);
      if k < |cmds| {
        assert init[..k] == cmds[..k];
      }
    }
  }

  // ----- commands that agree with a file -----

  predicate Agrees(f: seq<Byte>, cmd: Command) {
    cmd.size <= |cmd.data| && cmd.pos + cmd.size <= |f| && cmd.data[..cmd.size] == f[cmd.pos..cmd.pos + cmd.size]
  }

  // With chunks that agree with a file of the declared size, in any order and any number
  // of times: the temporary file is always the file's first pos bytes, and it is published
  // exactly when pos reaches the end, being the whole file then.
  lemma {:induction false} UploadIsPrefix(f: seq<Byte>, cmds: seq<Command>)
    requires f != [] && forall i | 0 <= i < |cmds| :: Agrees(f, cmds[i])
    ensures var t := WriteAll(Started(|f|), cmds);
      && t.size == |f| && t.pos <= |f| && t.temp == f[..t.pos]
      && (t.published <==> t.pos == |f|) && (t.published ==> t.temp == f)
      && (t.open <==> !t.published)
    decreases |cmds|
  {
    if cmds != [] {
      var init, cmd := cmds[..|cmds| - 1], cmds[|cmds| - 1];
      UploadIsPrefix(f, init);
      var t := WriteAll(Started(|f|), init);
      assert Agrees(f, cmd);
      if t.open && cmd.pos == t.pos {
        assert f[..t.pos] + f[t.pos..t.pos + cmd.size] == f[..t.pos + cmd.size];
      }
      assert f[..|f|] == f;
    }
  }

  // A declared size of zero is outside all this: nothing is published before the first
  // command, and that command is published whatever it carries.
  lemma EmptyUploadTakesFirstChunk(data: seq<Byte>)
    ensures !Started(0).published
    ensures var t := Write(Started(0), Command(|data|, 0, data)).0; t.published && t.temp == data
  {
    assert data[..|data|] == data && [] + data == data;
  }

  // ----- behind the server entry -----

  // The server keeps a receiver entry per transfer and drops it at the last chunk or on
  // the first answer that is not a success.
  datatype Session = Session(receiver: bool, task: Task)

  function Receive(s: Session, cmd: Command): (Session, Result<Response, Error>) {
    if !s.receiver then (s, Err(NotFound))
    else
      var (t, r) := Write(s.task, cmd);
      var success := r.Ok? && r.value.code == OK;
      (Session(!(cmd.pos + cmd.size >= s.task.size || !success), t), r)
  }

  // An agreeing chunk strands an unfinished upload (the entry is gone, the file is not
  // published) exactly when it comes too early, or repeats a part that reaches the end.
  lemma ReceiverStrandsUploadIff(f: seq<Byte>, s: Session, cmd: Command)
    requires Agrees(f, cmd) && s.receiver && s.task.open && !s.task.published && TaskInv(s.task) && s.task.size == |f|
    ensures var s' := Receive(s, cmd).0;
            (!s'.receiver && !s'.task.published) <==>
              (cmd.pos > s.task.pos || (cmd.pos < s.task.pos && cmd.pos + cmd.size == |f|))
  {
  }

  // Once the entry is gone nothing reaches the queue any more.
  lemma {:induction false} StrandedStays(s: Session, cmds: seq<Command>)
    requires !s.receiver
    ensures ReceiveAll(s, cmds) == s
    decreases |cmds|
  {
    if cmds != [] {
      StrandedStays(s, cmds[1..]);
    }
  }

  function ReceiveAll(s: Session, cmds: seq<Command>): Session
    decreases |cmds|
  {
    if cmds == [] then s else ReceiveAll(Receive(s, cmds[0]).0, cmds[1..])
  }

  // ----- the client's loop -----

  class Server {
    var sessions: map<nat, Session>

    constructor ()
      ensures sessions == map[]
    {
      sessions := map[];
    }

    // A new transfer: an empty temporary file, a queue and a receiver entry.
    method Register(id: nat, size: nat)
      modifies this
      ensures sessions == old(sessions)[id := Session(true, Started(size))]
    {
      sessions := sessions[id := Session(true, Started(size))];
    }

    // A frame as it arrives: parse the header, find its transfer, hand the rest to the queue.
    method ProcessPayload(frame: seq<Byte>) returns (r: Result<Response, Error>)
      modifies this
      ensures match Parse(frame)
              case None => r == Err(Invalid) && sessions == old(sessions)
              case Some(h) =>
                if h.id !in old(sessions) then r == Err(NotFound) && sessions == old(sessions)
                else
                  var (s, answer) := Receive(old(sessions)[h.id], Command(h.size, h.pos, frame[OFFSET_DATA..]));
                  r == answer && sessions == old(sessions)[h.id := s]
    {
      var header := Parse(frame);
      if header.None? {
        return Err(Invalid);
      }
      EncodeOfParse(frame);
      var h := header.value;
      if h.id !in sessions || !sessions[h.id].receiver {
        assert h.id in sessions ==> sessions[h.id := sessions[h.id]] == sessions;
        return Err(NotFound);
      }
      var session := sessions[h.id];
      var size := session.task.size;
      var (task, answer) := Write(session.task, Command(h.size, h.pos, frame[OFFSET_DATA..]));
      var success := answer.Ok? && answer.value.code == OK;
      session := session.(task := task);
      if h.pos + h.size >= size || !success {
        session := session.(receiver := false);
      }
      sessions := sessions[h.id := session];
      r := answer;
    }
  }

  // Send a file chunk by chunk, stopping at the first answer that is not a success.
  method UploadFile(server: Server, id: nat, data: seq<Byte>) returns (ok: bool)
    requires id < U32 && |data| < U64
    requires id in server.sessions && server.sessions[id] == Session(true, Started(|data|))
    modifies server
    ensures id in server.sessions && server.sessions == old(server.sessions)[id := server.sessions[id]]
    ensures ok && server.sessions[id].task.temp == data && server.sessions[id].task.pos == |data|
    ensures server.sessions[id].task.published <==> data != []
    ensures server.sessions[id].receiver <==> data == []
  {
    var pos := 0;
    assert server.sessions == server.sessions[id := server.sessions[id]];
    while pos < |data|
      invariant 0 <= pos <= |data|
      invariant server.sessions == old(server.sessions)[id := Sent(data, pos)]
      decreases |data| - pos
    {
      var end := if pos + CHUNK < |data| then pos + CHUNK else |data|;
      var chunk := data[pos..end];
      var header := Header(id, |chunk|, pos);
      var frame := Encode(0, 0, 0, header, chunk);
      ParseOfEncode(0, 0, 0, header, chunk);
      assert chunk[..|chunk|] == chunk && data[..pos] + chunk == data[..end];
      var resp := server.ProcessPayload(frame);
      if resp.Err? || resp.value.code != OK {
        return false;
      }
      pos := end;
    }
    ok := true;
  }

  // The session after the first pos bytes of data were sent.
  function Sent(data: seq<Byte>, pos: nat): Session
    requires pos <= |data|
  {
    Session(pos < |data| || data == [],
            Task(|data|, pos, data[..pos], pos < |data| || data == [], pos == |data| && data != []))
  }
}
