// The binary frame of an attachment chunk: big-endian fields at fixed offsets, then data.
module Frame {
  import opened Wrappers

  type Byte = b: int | 0 <= b < 256

  const OFFSET_ID := 12
  const OFFSET_SIZE := 16
  const OFFSET_POS := 20
  const OFFSET_DATA := 28

  const U32 := 0x1_0000_0000
  const U64 := 0x1_0000_0000_0000_0000

  // Both loops cut a file into chunks of this size.
  const CHUNK := 65536

  datatype Header = Header(id: nat, size: nat, pos: nat)

  // The answer to a chunk: the position reached and a code.
  datatype Response = Response(currentPos: nat, code: nat)

  const OK := 0

  function Power(width: nat): nat { if width == 0 then 1 else 256 * Power(width - 1) }

  // The low `width` bytes of n, most significant first.
  function Put(n: nat, width: nat): (r: seq<Byte>)
    ensures |r| == width
  {
    if width == 0 then [] else Put(n / 256, width - 1) + [n % 256]
  }

  function Get(bytes: seq<Byte>): (n: nat)
    ensures n < Power(|bytes|)
  {
    if bytes == [] then 0 else Get(bytes[..|bytes| - 1]) * 256 + bytes[|bytes| - 1]
  }

  lemma {:induction false} GetOfPut(n: nat, width: nat)
    requires n < Power(width)
    ensures Get(Put(n, width)) == n
  {
    if width > 0 {
      GetOfPut(n / 256, width - 1);
      assert Put(n, width)[..width - 1] == Put(n / 256, width - 1);
    }
  }

  lemma {:induction false} PutOfGet(bytes: seq<Byte>)
    ensures Put(Get(bytes), |bytes|) == bytes
  {
    if bytes != [] {
      var init := bytes[..|bytes| - 1];
      PutOfGet(init);
      assert Get(bytes) / 256 == Get(init) && Get(bytes) % 256 == bytes[|bytes| - 1];
      assert init + [bytes[|bytes| - 1]] == bytes;
    }
  }

  lemma PowersOfWidths()
    ensures Power(4) == U32 && Power(8) == U64
  {
    assert Power(2) == 65536;
    assert Power(4) == 256 * (256 * Power(2));
    assert Power(6) == 256 * (256 * Power(4));
    assert Power(8) == 256 * (256 * Power(6));
  }

  // Serial number, payload type and status, then id, size and position, then the data.
  function Encode(sn: nat, kind: nat, status: nat, h: Header, data: seq<Byte>): (frame: seq<Byte>)
    ensures |frame| == OFFSET_DATA + |data|
  {
    Put(sn, 4) + Put(kind, 4) + Put(status, 4) + Put(h.id, 4) + Put(h.size, 4) + Put(h.pos, 8) + data
  }

  // Each field is taken only if the frame is long enough for it.
  function Field(frame: seq<Byte>, offset: nat, width: nat): Option<nat> {
    if offset + width <= |frame| then Some(Get(frame[offset..offset + width])) else None
  }

  function Parse(frame: seq<Byte>): Option<Header> {
    var id := Field(frame, OFFSET_ID, 4);
    var size := Field(frame, OFFSET_SIZE, 4);
    var pos := Field(frame, OFFSET_POS, 8);
    if id.Some? && size.Some? && pos.Some? then Some(Header(id.value, size.value, pos.value)) else None
  }

  predicate Fits(h: Header) { h.id < U32 && h.size < U32 && h.pos < U64 }

  // The layout on the wire: every field at its place, big-endian, and then the data.
  lemma {:induction false} FrameLayout(sn: nat, kind: nat, status: nat, h: Header, data: seq<Byte>)
    ensures var frame := Encode(sn, kind, status, h, data);
      && |frame| == 28 + |data|
      && frame[0..4] == Put(sn, 4) && frame[4..8] == Put(kind, 4) && frame[8..12] == Put(status, 4)
      && frame[12..16] == Put(h.id, 4) && frame[16..20] == Put(h.size, 4) && frame[20..28] == Put(h.pos, 8)
      && frame[28..] == data
  {
  }

  // Reading is big-endian: a byte is itself, and what stands further left counts 256 times as
  // much for every byte to its right.
  lemma {:induction false} GetIsBigEndian(b: Byte, left: seq<Byte>, right: seq<Byte>)
    ensures Get([b]) == b && Get(left + right) == Get(left) * Power(|right|) + Get(right)
    decreases |right|
  {
    assert [b][..0] == [];
    if right == [] {
      assert left + right == left;
    } else {
      var init, last := right[..|right| - 1], right[|right| - 1];
      GetIsBigEndian(b, left, init);
      assert (left + right)[..|left + right| - 1] == left + init;
      OneByteMore(Get(left), Power(|init|), Get(init), last);
    }
  }

  lemma {:induction false} OneByteMore(a: nat, p: nat, r: nat, b: nat)
    ensures (a * p + r) * 256 + b == a * (256 * p) + (r * 256 + b)
  {
  }

  // Parsing gives back what was encoded, and the data starts at its offset.
  lemma ParseOfEncode(sn: nat, kind: nat, status: nat, h: Header, data: seq<Byte>)
    requires Fits(h)
    ensures Parse(Encode(sn, kind, status, h, data)) == Some(h)
    ensures Encode(sn, kind, status, h, data)[OFFSET_DATA..] == data
  {
    var frame := Encode(sn, kind, status, h, data);
    PowersOfWidths();
    assert frame[OFFSET_ID..OFFSET_ID + 4] == Put(h.id, 4);
    assert frame[OFFSET_SIZE..OFFSET_SIZE + 4] == Put(h.size, 4);
    assert frame[OFFSET_POS..OFFSET_POS + 8] == Put(h.pos, 8);
    GetOfPut(h.id, 4);
    GetOfPut(h.size, 4);
    GetOfPut(h.pos, 8);
  }

  // A frame parses exactly when it has room for the header, and a frame that parses is
  // the encoding of what was read.
  lemma EncodeOfParse(frame: seq<Byte>)
    ensures Parse(frame).Some? <==> |frame| >= OFFSET_DATA
    ensures Parse(frame).Some? ==> Fits(Parse(frame).value)
    ensures Parse(frame).Some? ==>
            frame == Encode(Get(frame[0..4]), Get(frame[4..8]), Get(frame[8..12]),
                            Parse(frame).value, frame[OFFSET_DATA..])
  {
    if |frame| >= OFFSET_DATA {
      PowersOfWidths();
      PutOfGet(frame[0..4]);
      PutOfGet(frame[4..8]);
      PutOfGet(frame[8..12]);
      PutOfGet(frame[12..16]);
      PutOfGet(frame[16..20]);
      PutOfGet(frame[20..28]);
      assert frame == frame[0..4] + frame[4..8] + frame[8..12] +
                      frame[12..16] + frame[16..20] + frame[20..28] + frame[28..];
    }
  }
}
