/** The LDP frame as it sits in a byte buffer (a fixed header of kind, id
    and status followed by an opaque body), the frame-size constants, and
    the per-kind handler table.

    The frame record itself is declared in Frame.h, which is not part of
    this model: the header is taken to be three one-byte fields in the
    order kind, id, status, and the kinds to be numbered Event = 0,
    Command = 1, Response = 2, with 3 as the kind count. */
module Frames {
  import opened Base

  datatype FrameKind = Event | Command | Response

  /** Number of frame kinds, and so of handler slots. */
  const FrameCount: nat := 3

  /** Offset of the body within a frame. It is fixed when the program is
      built and does not depend on what a frame carries. */
  const HeaderSize: nat := 3

  /** Largest body the work buffer is sized for. */
  const MaxPayloadLen: nat := 128

  /** Size of the work buffer an LDP session encodes outgoing frames into. */
  const WorkBufferLen: nat := HeaderSize + MaxPayloadLen

  function KindCode(k: FrameKind): (b: byte)
    ensures b < FrameCount
  {
    match k
    case Event => 0
    case Command => 1
    case Response => 2
  }

  /** The kind a header byte names, if it is below the kind count. */
  function KindOf(b: byte): (r: Option<FrameKind>)
    ensures r.Some? <==> b < FrameCount
  {
    if b == 0 then Some(Event)
    else if b == 1 then Some(Command)
    else if b == 2 then Some(Response)
    else None
  }

  /** Kind codes and `KindOf` are inverse on the valid range. */
  lemma KindRoundTrip(k: FrameKind, b: byte)
    ensures KindOf(KindCode(k)) == Some(k)
    ensures KindOf(b) == Some(k) <==> b == KindCode(k)
  {
  }

  /** A decoded frame. The header fields are raw bytes because a frame
      arriving from the peer may carry any value in them. */
  datatype Frame = Frame(kind: byte, id: byte, status: byte, body: seq<byte>)

  /** The bytes of a frame, header first. */
  function Encode(f: Frame): (b: seq<byte>)
  {
    [f.kind, f.id, f.status] + f.body
  }

  /** Reading a frame from the bytes a transport delivered. Anything shorter
      than a header is not a frame. */
  function Parse(b: seq<byte>): (r: Option<Frame>)
    ensures r.Some? <==> |b| >= HeaderSize
  {
    if |b| < HeaderSize then None
    else Some(Frame(b[0], b[1], b[2], b[HeaderSize..]))
  }

  /** Encoding is the exact inverse of parsing, in both directions, and the
      body length is the byte length less the fixed header. */
  lemma EncodeParse(f: Frame, b: seq<byte>)
    ensures Parse(Encode(f)) == Some(f)
    ensures |Encode(f)| == HeaderSize + |f.body|
    ensures Parse(b) == Some(f) ==> Encode(f) == b
  {
    var e := Encode(f);
    assert e[HeaderSize..] == f.body;
    if Parse(b) == Some(f) {
      assert b == b[..HeaderSize] + b[HeaderSize..];
    }
  }

  /** `LDP_SET_FRAME_HEADER`: store kind, id and status at the start of the
      buffer and touch nothing else. */
  function SetFrameHeader(buf: seq<byte>, kind: byte, id: byte, status: byte): (r: seq<byte>)
    requires |buf| >= HeaderSize
    ensures |r| == |buf|
    ensures forall i :: HeaderSize <= i < |buf| ==> r[i] == buf[i]
    ensures Parse(r) == Some(Frame(kind, id, status, buf[HeaderSize..]))
  {
    [kind, id, status] + buf[HeaderSize..]
  }

  /** Writing an outgoing frame into the work buffer: the header, then the
      body copied right after it; bytes past the frame keep their old value. */
  function WriteFrame(buf: seq<byte>, kind: byte, id: byte, status: byte, body: seq<byte>): (r: seq<byte>)
    requires HeaderSize + |body| <= |buf|
    ensures |r| == |buf|
    ensures Parse(r[..HeaderSize + |body|]) == Some(Frame(kind, id, status, body))
    ensures r[..HeaderSize + |body|] == Encode(Frame(kind, id, status, body))
    ensures r[HeaderSize + |body|..] == buf[HeaderSize + |body|..]
  {
    var h := SetFrameHeader(buf, kind, id, status);
    var r := h[..HeaderSize] + body + h[HeaderSize + |body|..];
    assert r[..HeaderSize + |body|] == Encode(Frame(kind, id, status, body));
    EncodeParse(Frame(kind, id, status, body), r[..HeaderSize + |body|]);
    r
  }

  /** Identity of an application callback (a C function pointer). */
  type Callback = nat

  /** The opaque argument registered with a callback (a C `void *`). */
  type Arg = nat

  /** One slot of the dispatch table. */
  datatype Handler = Handler(callback: Callback, arg: Arg)

  /** The dispatch table: one optional handler per frame kind, indexed by
      kind code. */
  type HandlerTable = t: seq<Option<Handler>> | |t| == FrameCount witness [None, None, None]

  const EmptyTable: HandlerTable := [None, None, None]

  function Slot(t: HandlerTable, k: FrameKind): Option<Handler>
  {
    t[KindCode(k)]
  }

  /** Store `h` in the slot for `k`. */
  function SetSlot(t: HandlerTable, k: FrameKind, h: Handler): (r: HandlerTable)
    ensures Slot(r, k) == Some(h)
    ensures forall j :: j != k ==> Slot(r, j) == Slot(t, j)
  {
    t[KindCode(k) := Some(h)]
  }

  /** The table has one slot per kind, each empty in the initial table. */
  lemma TableShape(t: HandlerTable)
    ensures |t| == FrameCount
    ensures forall k :: 0 <= KindCode(k) < |t|
    ensures forall i: byte :: i < |t| ==> KindOf(i).Some? && KindCode(KindOf(i).value) == i
    ensures forall k :: Slot(EmptyTable, k) == None
  {
  }

  /** The work buffer holds a full header and the largest body, and its
      length fits the 16-bit field that records it. */
  lemma WorkBufferFits()
    ensures WorkBufferLen == HeaderSize + MaxPayloadLen
    ensures WorkBufferLen < U16Limit
  {
  }
}
