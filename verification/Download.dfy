// Downloading an attachment: the server's chunk loop, the frames on the wire and the
// client that appends what it receives and acknowledges it.
module Download {
  import opened Wrappers
  import opened Frame
  import opened Sequences

  // What happens to the chunk of a given position.
  datatype Fate =
    | Delivered
    | WriteFails(written: nat)   // the client's append fails after some bytes
    | AckLost                    // the client appends, the server sees an error
    | NotDelivered               // the server sees an error at once
    | Disconnected               // nothing is sent: the connection is gone or the file cannot be read

  function ChunkEnd(f: seq<Byte>, pos: nat): nat { Least(pos + CHUNK, |f|) }

  // ----- the transfer as a function of the fates -----

  // What the client appends, and whether the two transfer entries are still there at the end.
  datatype Outcome = Outcome(written: seq<Byte>, sender: bool, receiver: bool)

  function Transfer(f: seq<Byte>, pos: nat, fate: nat -> Fate): Outcome
    requires pos <= |f|
    decreases |f| - pos
  {
    if pos == |f| then Outcome([], true, true)
    else
      var end := ChunkEnd(f, pos);
      var chunk, last := f[pos..end], end == |f|;
      match fate(pos)
      case Delivered =>
        if last then Outcome(chunk, false, false)
        else var rest := Transfer(f, end, fate); rest.(written := chunk + rest.written)
      case WriteFails(k) => Outcome(chunk[..Least(k, |chunk|)], false, false)
      case AckLost => Outcome(chunk, false, !last)
      case NotDelivered => Outcome([], false, true)
      case Disconnected => Outcome([], true, true)
  }

  // Whatever goes wrong, the client's file is a prefix of the attachment.
  lemma {:induction false} WrittenIsPrefix(f: seq<Byte>, pos: nat, fate: nat -> Fate)
    requires pos <= |f|
    ensures pos + |Transfer(f, pos, fate).written| <= |f|
    ensures Transfer(f, pos, fate).written == f[pos..pos + |Transfer(f, pos, fate).written|]
    decreases |f| - pos
  {
    if pos < |f| && fate(pos).Delivered? && ChunkEnd(f, pos) < |f| {
      var end := ChunkEnd(f, pos);
      WrittenIsPrefix(f, end, fate);
      var w := Transfer(f, end, fate).written;
      assert f[pos..end] + f[end..end + |w|] == f[pos..end + |w|];
    }
  }

  // The chunk starts of a transfer: multiples of the chunk size below the end.
  ghost predicate ChunkStart(f: seq<Byte>, p: nat) { p < |f| && p % CHUNK == 0 }

  ghost predicate AllDelivered(f: seq<Byte>, fate: nat -> Fate) {
    forall p: nat | ChunkStart(f, p) :: fate(p).Delivered?
  }

  // The chunk at p reaches the client's file whole, and the server goes on if it is not the last.
  predicate Arrives(f: seq<Byte>, fate: nat -> Fate, p: nat) {
    || fate(p).Delivered?
    || (p + CHUNK >= |f| && (fate(p).AckLost? || (fate(p).WriteFails? && p + fate(p).written >= |f|)))
  }

  ghost predicate AllArrive(f: seq<Byte>, pos: nat, fate: nat -> Fate) {
    forall p: nat | pos <= p && ChunkStart(f, p) :: Arrives(f, fate, p)
  }

  // The client's file is complete if and only if every chunk arrives, the last one perhaps
  // unacknowledged; both entries are gone then.
  lemma {:induction false} CompleteIffArrived(f: seq<Byte>, pos: nat, fate: nat -> Fate)
    requires pos < |f| && pos % CHUNK == 0
    ensures Transfer(f, pos, fate).written == f[pos..] <==> AllArrive(f, pos, fate)
    ensures AllArrive(f, pos, fate) ==> Transfer(f, pos, fate) == Outcome(f[pos..], false, false)
    decreases |f| - pos
  {
    var end := ChunkEnd(f, pos);
    assert ChunkStart(f, pos);
    assert forall q: nat | pos < q < pos + CHUNK :: q % CHUNK != 0;
    assert f[pos..end] + f[end..] == f[pos..];
    if fate(pos).Delivered? && end < |f| {
      CompleteIffArrived(f, end, fate);
      var rest := Transfer(f, end, fate).written;
      assert (f[pos..end] + rest)[end - pos..] == rest && f[pos..][end - pos..] == f[end..];
    } else {
      assert |Transfer(f, pos, fate).written| <= end - pos;
      assert end == |f| ==> f[pos..end] == f[pos..];
    }
  }

  // Which entries are left is decided by the first chunk that is not delivered.
  lemma {:induction false} EntriesFollowFirstBad(f: seq<Byte>, pos: nat, fate: nat -> Fate)
    requires pos < |f| && pos % CHUNK == 0
    ensures Transfer(f, pos, fate).sender <==> exists p: nat :: FirstBad(f, pos, fate, p) && fate(p).Disconnected?
    ensures Transfer(f, pos, fate).receiver <==>
              exists p: nat :: FirstBad(f, pos, fate, p) && (fate(p).Disconnected? || fate(p).NotDelivered?
                                                        || (fate(p).AckLost? && p + CHUNK < |f|))
    decreases |f| - pos
  {
    var end := ChunkEnd(f, pos);
    if !fate(pos).Delivered? {
      assert ChunkStart(f, pos);
      assert FirstBad(f, pos, fate, pos);
      assert forall p: nat | FirstBad(f, pos, fate, p) :: p == pos;
    } else if end < |f| {
      assert end == pos + CHUNK;
      EntriesFollowFirstBad(f, end, fate);
      forall p: nat
        ensures FirstBad(f, pos, fate, p) <==> FirstBad(f, end, fate, p)
      {
        NoStartBetween(f, pos, fate, p);
      }
    } else {
      assert forall q: nat | pos < q < pos + CHUNK :: q % CHUNK != 0;
      assert forall p: nat :: !FirstBad(f, pos, fate, p);
    }
  }

  // p is the first chunk from pos on that is not delivered.
  ghost predicate FirstBad(f: seq<Byte>, pos: nat, fate: nat -> Fate, p: nat) {
    pos <= p && ChunkStart(f, p) && !fate(p).Delivered?
    && forall q: nat | pos <= q < p && ChunkStart(f, q) :: fate(q).Delivered?
  }

  lemma NoStartBetween(f: seq<Byte>, pos: nat, fate: nat -> Fate, p: nat)
    requires pos + CHUNK < |f| && pos % CHUNK == 0 && fate(pos).Delivered?
    ensures FirstBad(f, pos, fate, p) <==> FirstBad(f, pos + CHUNK, fate, p)
  {
    assert forall q: nat | pos < q < pos + CHUNK :: q % CHUNK != 0;
  }

  // End to end, for an attachment that is not empty: when every chunk is acknowledged the
  // client holds exactly the attachment and both entries are gone.
  lemma DownloadIsComplete(f: seq<Byte>, fate: nat -> Fate)
    requires f != [] && AllDelivered(f, fate)
    ensures Transfer(f, 0, fate) == Outcome(f, false, false)
  {
    CompleteIffArrived(f, 0, fate);
    assert f[0..] == f;
  }

  // An empty attachment sends no chunk, and both entries stay.
  lemma EmptyDownloadKeepsEntries(fate: nat -> Fate)
    ensures Transfer([], 0, fate) == Outcome([], true, true)
  {
  }

  // ----- the objects at both ends -----

  class Client {
    var transfers: map<nat, nat>
    var file: seq<Byte>

    constructor ()
      ensures transfers == map[] && file == []
    {
      transfers := map[];
      file := [];
    }

    // Append the chunk of a known transfer and acknowledge; `room` bounds a failing write.
    method ProcessBin(frame: seq<Byte>, room: Option<nat>) returns (r: Option<Response>)
      modifies this
      ensures match Parse(frame)
        case None => r == None && transfers == old(transfers) && file == old(file)
        case Some(h) =>
          if h.id !in old(transfers) then r == Some(Response(h.pos, 1)) && transfers == old(transfers)
            && file == old(file)
          else
            var data := frame[OFFSET_DATA..];
            && file == old(file) + (if room.None? then data else data[..Least(room.value, |data|)])
            && r == Some(if room.None? then Response(h.pos + h.size, OK) else Response(h.pos, 1))
            && transfers == (if room.Some? || h.pos + h.size >= old(transfers)[h.id] then old(transfers) - {h.id}
                             else old(transfers))
    {
      var header := Parse(frame);
      if header.None? {
        return None;
      }
      EncodeOfParse(frame);
      var h, data := header.value, frame[OFFSET_DATA..];
      var failed := true;
      var known := h.id in transfers;
      if known {
        if room.None? {
          file := file + data;
          failed := false;
        } else {
          file := file + data[..Least(room.value, |data|)];
        }
      }
      var response := if failed then Response(h.pos, 1) else Response(h.pos + h.size, OK);
      if known && (failed || h.pos + h.size >= transfers[h.id]) {
        transfers := transfers - {h.id};
      }
      r := Some(response);
    }
  }

  class Server {
    var senders: map<nat, nat>
    var keys: set<nat>

    constructor ()
      ensures senders == map[] && keys == {}
    {
      senders := map[];
      keys := {};
    }

    // Send one chunk and drop the entry on an error or after the last chunk.
    method SendPayload(client: Client, id: nat, size: nat, pos: nat, frame: seq<Byte>, fate: Fate)
      returns (r: Option<Response>)
      requires id in senders && !fate.Disconnected?
      requires Parse(frame) == Some(Header(id, size, pos)) && id in client.transfers
      modifies this`senders, client
      ensures client.file == old(client.file) + Appended(frame[OFFSET_DATA..], fate)
      ensures r.Some? && r.value.code == OK <==> fate.Delivered?
      ensures senders ==
              if fate.Delivered? && pos + size < old(senders)[id] then old(senders) else old(senders) - {id}
      ensures client.transfers ==
              if fate.NotDelivered? || (!fate.WriteFails? && pos + size < old(client.transfers)[id])
              then old(client.transfers)
              else old(client.transfers) - {id}
    {
      var isLast := pos + size >= senders[id];
      match fate {
        case NotDelivered => r := None;
        case WriteFails(k) => r := client.ProcessBin(frame, Some(k));
        case AckLost =>
          var lost := client.ProcessBin(frame, None);
          r := None;
        case Delivered => r := client.ProcessBin(frame, None);
      }
      var isError := r.None? || r.value.code != OK;
      if isError || isLast {
        senders := senders - {id};
      }
    }

    // Push the whole attachment, chunk by chunk, until the end or the first error.
    method SendDownload(client: Client, id: nat, f: seq<Byte>, fate: nat -> Fate)
      requires id < U32 && |f| < U64
      requires id in senders && senders[id] == |f| && id in client.transfers && client.transfers[id] == |f|
               && client.file == []
      modifies this, client
      ensures client.file == Transfer(f, 0, fate).written
      ensures senders == (if Transfer(f, 0, fate).sender then old(senders) else old(senders) - {id})
      ensures client.transfers ==
              (if Transfer(f, 0, fate).receiver then old(client.transfers) else old(client.transfers) - {id})
      ensures keys == old(keys) - {id}
    {
      var pos, ok := 0, true;
      ghost var whole := Transfer(f, 0, fate);
      while pos < |f| && ok
        invariant 0 <= pos <= |f| && keys == old(keys)
        invariant ok && pos < |f| ==> Pending(whole, client.file, Transfer(f, pos, fate))
                                      && senders == old(senders) && client.transfers == old(client.transfers)
        invariant !(ok && pos < |f|) ==>
                  Settled(whole, id, client.file, old(senders), senders, old(client.transfers), client.transfers)
        decreases |f| - pos
      {
        OneChunk(f, pos, fate, whole, client.file);
        if fate(pos).Disconnected? {
          break;
        }
        var end := Least(pos + CHUNK, |f|);
        var chunk := f[pos..end];
        var header := Header(id, |chunk|, pos);
        var frame := Encode(0, 0, 0, header, chunk);
        ParseOfEncode(0, 0, 0, header, chunk);
        var response := SendPayload(client, id, |chunk|, pos, frame, fate(pos));
        if response.None? {
          break;
        }
        ok := response.value.code == OK;
        pos := end;
      }
      keys := keys - {id};
    }
  }

  // The rest of the transfer is still to come.
  ghost predicate Pending(whole: Outcome, written: seq<Byte>, rest: Outcome) {
    whole == rest.(written := written + rest.written)
  }

  // The transfer is over: both ends are where the outcome says.
  ghost predicate Settled(whole: Outcome, id: nat, file: seq<Byte>, senders0: map<nat, nat>, senders: map<nat, nat>,
                          transfers0: map<nat, nat>, transfers: map<nat, nat>)
  {
    && whole.written == file
    && senders == (if whole.sender then senders0 else senders0 - {id})
    && transfers == (if whole.receiver then transfers0 else transfers0 - {id})
  }

  // What the client adds to its file for a chunk.
  function Appended(chunk: seq<Byte>, fate: Fate): seq<Byte> {
    match fate
    case NotDelivered => []
    case Disconnected => []
    case WriteFails(k) => chunk[..Least(k, |chunk|)]
    case _ => chunk
  }

  lemma OneChunk(f: seq<Byte>, pos: nat, fate: nat -> Fate, whole: Outcome, written: seq<Byte>)
    requires pos < |f| && Pending(whole, written, Transfer(f, pos, fate))
    ensures var end := ChunkEnd(f, pos);
            var written' := written + Appended(f[pos..end], fate(pos));
            if fate(pos).Delivered? && end < |f| then Pending(whole, written', Transfer(f, end, fate))
            else whole == Outcome(written', fate(pos).Disconnected?,
                                  fate(pos).Disconnected? || fate(pos).NotDelivered? ||
                                  (fate(pos).AckLost? && end < |f|))
  {
    var end := ChunkEnd(f, pos);
    if fate(pos).Delivered? && end < |f| {
      var rest := Transfer(f, end, fate).written;
      assert written + (f[pos..end] + rest) == written + f[pos..end] + rest;
    }
  }
}
