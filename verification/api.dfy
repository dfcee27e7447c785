/** The public send API of the device protocol: each command, response and
    event call is the shared send with its own synchronous flag, frame
    kind, packet id and status, and its own payload record.

    The packet ids and the payload records are declared in PacketID.h,
    which is not part of this model: the ids below are stand-ins, and a
    record is an opaque run of bytes of a fixed stand-in length. */
module Api {
  import opened Base
  import opened StatusCodes
  import opened Frames
  import Transport
  import opened DeviceProtocol

  const Cmd1: byte := 1
  const Cmd2: byte := 2
  const Evt1: byte := 3
  const Evt2: byte := 4

  /** `sizeof(st_cmd1)` and `sizeof(st_cmd2)`. */
  const Cmd1Size: nat := 2
  const Cmd2Size: nat := 4

  type Cmd1Record = b: seq<byte> | |b| == Cmd1Size witness [0, 0]
  type Cmd2Record = b: seq<byte> | |b| == Cmd2Size witness [0, 0, 0, 0]

  /** The payload sent for an optional record: nothing for a NULL pointer,
      the whole record otherwise. */
  function Bytes(data: Option<seq<byte>>): (b: seq<byte>)
    ensures data.None? ==> b == []
    ensures data.Some? ==> b == data.value
  {
    match data
    case None => []
    case Some(d) => d
  }

  /** A caller's record used as the output buffer, its declared size the
      record's size; no buffer for a NULL pointer. */
  function OutBuffer(out: Option<seq<byte>>): (r: Option<RespBuffer>)
    requires out.Some? ==> |out.value| < U32Limit
    ensures RespFits(r)
    ensures r.Some? <==> out.Some?
    ensures r.Some? ==> r.value.bytes == out.value && r.value.size == |out.value|
  {
    match out
    case None => None
    case Some(b) => Some(RespBuffer(b, |b|))
  }

  /** The send put `f` on the wire: the transport was flushed and then given
      exactly the bytes of `f`, addressed to the peer. */
  predicate Sent(s: Session, o: Outcome, f: Frame)
  {
    o.session.tp.log == s.tp.log + [Transport.FlushInput(s.tp.handle),
      Transport.WriteFrame(s.tp.handle, Transport.Stamp(s.address, Encode(f)))]
  }

  /** A call that does not wait: `LDP_ProtocolError` whatever happens, no
      `TP_Process` call, the gate, the latest frame and the dispatch trace
      untouched. */
  predicate NoWait(s: Session, o: Outcome)
  {
    && o.code == Value(ProtocolError)
    && o.calls == 0
    && SameReceiveState(s, o.session)
  }

  /** A call that waited for the response to `id`: either five calls went by
      without it and the result is `LDP_ProtocolError`, or it arrived, its
      status is the result and its body went through the output copy. */
  predicate Waited(o: Outcome, id: byte, resp: Option<RespBuffer>)
    requires RespFits(resp)
  {
    || (&& o.calls == MaxTries && !Matches(o.session, id)
        && o.code == Value(ProtocolError) && o.resp == resp)
    || (&& 1 <= o.calls <= MaxTries && Matches(o.session, id)
        && o.code == o.session.frame.value.status
        && o.resp == CopyOut(resp, o.session.frame.value.body))
  }

  /** `LDP_Command1`: send command 1 and wait for its response, copying the
      response body into `out`. */
  function Command1(s: Session, data: Option<Cmd1Record>, out: Option<Cmd1Record>, written: bool,
                    attempts: seq<Transport.Attempt>): (o: Outcome)
    requires Valid(s)
    ensures Valid(o.session)
    ensures Sent(s, o, Frame(KindCode(Command), Cmd1, Value(Ok), Bytes(data)))
    ensures !written ==> NoWait(s, o) && o.resp == OutBuffer(out)
    ensures written ==> Waited(o, Cmd1, OutBuffer(out))
  {
    Send(s, true, Command, Cmd1, Ok, Bytes(data), OutBuffer(out), written, attempts)
  }

  /** `LDP_Command1Async`: send command 1 and return at once; the response
      comes later through the response handler. */
  function Command1Async(s: Session, data: Option<Cmd1Record>, written: bool): (o: Outcome)
    requires Valid(s)
    ensures Valid(o.session)
    ensures Sent(s, o, Frame(KindCode(Command), Cmd1, Value(Ok), Bytes(data)))
    ensures NoWait(s, o) && o.resp == None
    ensures o.session.handlers == s.handlers && o.session.tp.callback == s.tp.callback
  {
    Send(s, false, Command, Cmd1, Ok, Bytes(data), None, written, [])
  }

  /** `LDP_Command2`: send command 2 with no payload and wait for its
      response, whose body lands in the caller's record. */
  function Command2(s: Session, cmd: Option<Cmd2Record>, written: bool, attempts: seq<Transport.Attempt>): (o: Outcome)
    requires Valid(s)
    ensures Valid(o.session)
    ensures Sent(s, o, Frame(KindCode(Command), Cmd2, Value(Ok), []))
    ensures !written ==> NoWait(s, o) && o.resp == OutBuffer(cmd)
    ensures written ==> Waited(o, Cmd2, OutBuffer(cmd))
  {
    Send(s, true, Command, Cmd2, Ok, [], OutBuffer(cmd), written, attempts)
  }

  /** `LDP_Response1`: answer command 1 with `status` and an optional
      record. */
  function Response1(s: Session, status: StatusCode, data: Option<Cmd1Record>, written: bool): (o: Outcome)
    requires Valid(s)
    ensures Valid(o.session)
    ensures Sent(s, o, Frame(KindCode(Response), Cmd1, Value(status), Bytes(data)))
    ensures NoWait(s, o)
  {
    Send(s, false, Response, Cmd1, status, Bytes(data), None, written, [])
  }

  /** `LDP_Response2`: answer command 2 with `status` and an optional
      record. */
  function Response2(s: Session, status: StatusCode, data: Option<Cmd2Record>, written: bool): (o: Outcome)
    requires Valid(s)
    ensures Valid(o.session)
    ensures Sent(s, o, Frame(KindCode(Response), Cmd2, Value(status), Bytes(data)))
    ensures NoWait(s, o)
  {
    Send(s, false, Response, Cmd2, status, Bytes(data), None, written, [])
  }

  /** `LDP_Event1`: raise event 1. */
  function Event1(s: Session, data: Option<Cmd1Record>, written: bool): (o: Outcome)
    requires Valid(s)
    ensures Valid(o.session)
    ensures Sent(s, o, Frame(KindCode(Event), Evt1, Value(Ok), Bytes(data)))
    ensures NoWait(s, o)
  {
    Send(s, false, Event, Evt1, Ok, Bytes(data), None, written, [])
  }

  /** `LDP_Event2`: raise event 2. */
  function Event2(s: Session, data: Option<Cmd2Record>, written: bool): (o: Outcome)
    requires Valid(s)
    ensures Valid(o.session)
    ensures Sent(s, o, Frame(KindCode(Event), Evt2, Value(Ok), Bytes(data)))
    ensures NoWait(s, o)
  {
    Send(s, false, Event, Evt2, Ok, Bytes(data), None, written, [])
  }

  /** A call that does not wait never reports success: whatever the wire
      did, the code is not `LDP_OK`. */
  lemma NoWaitIsNeverOk(s: Session, o: Outcome)
    requires NoWait(s, o)
    ensures o.code != Value(Ok)
    ensures FromValue(o.code) == Some(ProtocolError)
  {
    ValueRoundTrip(ProtocolError, o.code);
  }

  /** After an asynchronous command with the gate open, its response is not
      waited for: the next `LDP_Run` that completes it hands it to the
      response handler, with the registered argument. */
  lemma AsyncReplyReachesResponseHandler(s: Session, data: Option<Cmd1Record>, cb: Callback, arg: Arg,
                                         a: Transport.Attempt, status: byte, body: seq<byte>)
    requires Valid(s) && !s.waitingResponse && s.tp.callback.Some?
    requires Slot(s.handlers, Response) == Some(Handler(cb, arg))
    requires a.status == Transport.Success && a.payload == ReplyBytes(Cmd1, status, body)
    ensures var o := Command1Async(s, data, true);
            Run(o.session, a).0.trace
              == s.trace + [Dispatch(Response, cb, arg, a.address, Frame(KindCode(Response), Cmd1, status, body))]
  {
    var o := Command1Async(s, data, true);
    var p := Transport.Process(o.session.tp, a);
    var d := p.delivery.value;
    KindRoundTrip(Response, d.payload[0]);
    RegisteredArgComesBack(o.session.(tp := p.context), Response, cb, arg, d);
    assert Register(o.session.(tp := p.context), Response, Some(cb), arg).session == o.session.(tp := p.context);
  }

  /** The gate outlives a wait that timed out: after a synchronous command 1
      that got no answer in five calls, the response to a later
      asynchronous command 1 is swallowed instead of reaching the response
      handler. */
  lemma TimedOutCallSwallowsAsyncReply(s: Session, data1: Option<Cmd1Record>, out: Option<Cmd1Record>,
                                       silent: seq<Transport.Attempt>, data2: Option<Cmd1Record>,
                                       a: Transport.Attempt, status: byte, body: seq<byte>)
    requires Valid(s) && s.tp.callback.Some?
    requires forall i :: 0 <= i < MaxTries ==> AttemptAt(silent, i).status != Transport.Success
    requires a.status == Transport.Success && a.payload == ReplyBytes(Cmd1, status, body)
    ensures var t := Command1(s, data1, out, true, silent);
            var o := Command1Async(t.session, data2, true);
            && t.code == Value(ProtocolError) && t.calls == MaxTries
            && Run(o.session, a).0.trace == s.trace
  {
    var sent := PutFrame(s, Command, Cmd1, Ok, Bytes(data1), true);
    SilentPeerTimesOut(sent.0, Cmd1, OutBuffer(out), silent);
    var t := Command1(s, data1, out, true, silent);
    assert t == SyncWait(sent.0, Cmd1, OutBuffer(out), silent);
    var o := Command1Async(t.session, data2, true);
    var p := Transport.Process(o.session.tp, a);
    var d := p.delivery.value;
    ReceiveDispatch(o.session.(tp := p.context), d);
    KindRoundTrip(Response, d.payload[0]);
  }
}
