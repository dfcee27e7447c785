/** The device-protocol session: a three-slot dispatch table, the receive
    gate for synchronous calls, and the send path shared by every command,
    response and event API.

    Application callbacks are foreign code: a dispatch is recorded in the
    session's trace as the handler, its argument, the frame's address field
    and the frame, rather than executed. */
module DeviceProtocol {
  import opened Base
  import opened StatusCodes
  import opened Frames
  import Transport

  /** One handler invocation: `callback(arg, address, frame)`. */
  datatype Dispatch = Dispatch(kind: FrameKind, callback: Callback, arg: Arg, address: byte, frame: Frame)

  datatype Session = Session(
    tp: Transport.Context,
    handlers: HandlerTable,
    /** The latest frame received, if any. */
    frame: Option<Frame>,
    payloadSize: nat,
    /** Peer address every frame is sent to. */
    address: byte,
    workBuffer: seq<byte>,
    workBufferLen: nat,
    /** The receive gate: a synchronous call is waiting for its response. */
    waitingResponse: bool,
    trace: seq<Dispatch>)

  /** What every operation keeps true of a session built by `Init`. */
  predicate Valid(s: Session)
  {
    && s.workBufferLen == WorkBufferLen
    && |s.workBuffer| == s.workBufferLen
    && (s.frame.Some? ==> s.payloadSize == |s.frame.value.body|)
  }

  /** Receiving leaves alone what only registration and sending change. */
  predicate SameSetup(s: Session, s': Session)
  {
    && s'.handlers == s.handlers
    && s'.address == s.address
    && s'.workBuffer == s.workBuffer
    && s'.workBufferLen == s.workBufferLen
    && s'.tp.log == s.tp.log
    && s'.tp.callback == s.tp.callback
  }

  // ---------------------------------------------------------------- receive

  /** The gate: a frame of kind byte `kind` may be dispatched when no
      synchronous call is waiting, or when it is an event. */
  predicate PassesGate(waiting: bool, kind: byte)
  {
    !waiting || kind == KindCode(Event)
  }

  /** The dispatch, if any, that handing `f` from `address` to the table
      produces: only for a known kind whose slot holds a handler. */
  function DispatchFor(t: HandlerTable, address: byte, f: Frame): (d: seq<Dispatch>)
    ensures |d| <= 1
    ensures |d| == 1 <==> f.kind < FrameCount && t[f.kind].Some?
    ensures |d| == 1 ==>
      && KindCode(d[0].kind) == f.kind
      && t[f.kind] == Some(Handler(d[0].callback, d[0].arg))
      && d[0].address == address
      && d[0].frame == f
  {
    match KindOf(f.kind)
    case None => []
    case Some(k) =>
      match Slot(t, k)
      case None => []
      case Some(h) => [Dispatch(k, h.callback, h.arg, address, f)]
  }

  /** The transport callback: record the frame, dispatch it if the gate lets
      it through, and open the gate whatever the frame was. A delivery
      shorter than a frame header is dropped (see `PayloadSizeAsWritten`). */
  function Receive(s: Session, d: Transport.Delivery): (s': Session)
    ensures |d.payload| < HeaderSize ==> s' == s
    ensures |d.payload| >= HeaderSize ==>
      && !s'.waitingResponse
      && s'.frame == Parse(d.payload)
      && s'.payloadSize == |d.payload| - HeaderSize
    ensures s'.(frame := s.frame, payloadSize := s.payloadSize,
                waitingResponse := s.waitingResponse, trace := s.trace) == s
    ensures Valid(s) ==> Valid(s')
  {
    if |d.payload| < HeaderSize then s
    else
      var f := Parse(d.payload).value;
      var dispatched := if PassesGate(s.waitingResponse, f.kind) then DispatchFor(s.handlers, d.address, f) else [];
      s.(frame := Some(f), payloadSize := |f.body|, trace := s.trace + dispatched, waitingResponse := false)
  }

  /** A received frame reaches a handler exactly when the gate lets it
      through, its kind is known and that kind's slot holds a handler; the
      handler is called with its registered argument, the frame's address
      field and the frame, and nothing else is dispatched. */
  lemma ReceiveDispatch(s: Session, d: Transport.Delivery)
    requires |d.payload| >= HeaderSize
    ensures var s' := Receive(s, d);
      && (|s'.trace| == |s.trace| || |s'.trace| == |s.trace| + 1)
      && s'.trace[..|s.trace|] == s.trace
      && (|s'.trace| == |s.trace| + 1 <==>
            && PassesGate(s.waitingResponse, d.payload[0])
            && d.payload[0] < FrameCount
            && s.handlers[d.payload[0]].Some?)
      && (|s'.trace| == |s.trace| + 1 ==>
            var e := s'.trace[|s.trace|];
            && KindCode(e.kind) == d.payload[0]
            && s.handlers[d.payload[0]] == Some(Handler(e.callback, e.arg))
            && e.address == d.address
            && Some(e.frame) == Parse(d.payload))
  {
  }

  /** The payload size the callback computes from a delivery of `size` bytes,
      as the source writes it: an unsigned 32-bit subtraction with no check
      that `size` covers a header. */
  function PayloadSizeAsWritten(size: nat): (n: nat)
    requires size < U16Limit
    ensures n < U32Limit
    ensures size >= HeaderSize ==> n + HeaderSize == size
  {
    Wrap32(size - HeaderSize)
  }

  /** A delivery shorter than the header (an empty TP frame, say) makes the
      source's callback claim a payload of nearly 2^32 bytes, far more than
      was delivered or than any buffer holds. */
  lemma ShortDeliveryOverstatesPayload(size: nat)
    requires size < HeaderSize
    ensures PayloadSizeAsWritten(size) == U32Limit - HeaderSize + size
    ensures PayloadSizeAsWritten(size) > MaxPayloadLen
    ensures PayloadSizeAsWritten(size) > size
  {
  }

  /** The transport callback as the source writes it, for a delivery of
      any length up to the transport's 16-bit size. The header is read
      from the response buffer whether or not the delivery covered it:
      `stale` stands for the bytes the buffer holds past the delivery. The
      payload size is the unsigned subtraction; for a delivery shorter than
      a header no body is recorded, since the size claimed for it exceeds
      every buffer. */
  function ReceiveAsWritten(s: Session, d: Transport.Delivery, stale: seq<byte>): (s': Session)
    requires |d.payload| < U16Limit
    requires |d.payload| + |stale| >= HeaderSize
    ensures !s'.waitingResponse
    ensures s'.payloadSize == PayloadSizeAsWritten(|d.payload|)
    ensures s'.frame.Some? && Encode(s'.frame.value)[..HeaderSize] == (d.payload + stale)[..HeaderSize]
    ensures |d.payload| >= HeaderSize ==> s' == Receive(s, d)
    ensures s'.(frame := s.frame, payloadSize := s.payloadSize,
                waitingResponse := s.waitingResponse, trace := s.trace) == s
  {
    var b := d.payload + stale;
    var f := if |d.payload| >= HeaderSize then Parse(d.payload).value else Frame(b[0], b[1], b[2], []);
    var dispatched := if PassesGate(s.waitingResponse, f.kind) then DispatchFor(s.handlers, d.address, f) else [];
    s.(frame := Some(f), payloadSize := PayloadSizeAsWritten(|d.payload|), trace := s.trace + dispatched,
       waitingResponse := false)
  }

  /** During a wait, an empty delivery opens the gate as the source writes
      the callback, so the command that follows it is dispatched; the
      corrected `Receive` drops the empty delivery, and the command is held
      back by the closed gate. */
  lemma EmptyDeliveryOpensGateAsWritten(s: Session, address: byte, stale: seq<byte>, d2: Transport.Delivery)
    requires s.waitingResponse
    requires |stale| >= HeaderSize
    requires |d2.payload| >= HeaderSize && |d2.payload| < U16Limit && d2.payload[0] == KindCode(Command)
    requires Slot(s.handlers, Command).Some?
    ensures var e := Transport.Delivery(d2.param, address, []);
            var w := ReceiveAsWritten(s, e, stale);
            && Receive(Receive(s, e), d2).trace == s.trace
            && |ReceiveAsWritten(w, d2, []).trace| == |w.trace| + 1
            && ReceiveAsWritten(w, d2, []).trace[|w.trace|].kind == Command
  {
    var e := Transport.Delivery(d2.param, address, []);
    var w := ReceiveAsWritten(s, e, stale);
    ReceiveDispatch(s, d2);
    assert Receive(s, d2).trace[..|s.trace|] == s.trace;
    ReceiveDispatch(w, d2);
    KindRoundTrip(ReceiveAsWritten(w, d2, []).trace[|w.trace|].kind, d2.payload[0]);
  }

  /** One `TP_Process` call on the session's transport, with `Receive`
      registered as its callback. */
  function Process(s: Session, a: Transport.Attempt): (s': Session)
    ensures a.status != Transport.Success || s.tp.callback.None? ==>
      s' == s.(tp := Transport.Process(s.tp, a).context)
    ensures a.status == Transport.Success && s.tp.callback.Some? ==>
      s' == Receive(s.(tp := Transport.Process(s.tp, a).context), Transport.Delivery(s.tp.param, a.address, a.payload))
    ensures a.status != Transport.Success ==> s'.(tp := s.tp) == s
    ensures SameSetup(s, s')
    ensures Valid(s) ==> Valid(s')
  {
    var p := Transport.Process(s.tp, a);
    var s1 := s.(tp := p.context);
    match p.delivery
    case None => s1
    case Some(d) => Receive(s1, d)
  }

  /** `LDP_Run`: give the stack one receive attempt; always reports true. */
  function Run(s: Session, a: Transport.Attempt): (r: (Session, bool))
    ensures r.1
    ensures r.0 == Process(s, a)
  {
    (Process(s, a), true)
  }

  // ---------------------------------------------------------------- registration

  datatype Registration = Registration(session: Session, ok: bool)

  /** What registering `callback` with `arg` for `kind` promises: a NULL
      callback is refused and changes nothing; otherwise only that kind's
      slot is overwritten. */
  predicate Registered(s: Session, r: Registration, kind: FrameKind, callback: Option<Callback>, arg: Arg)
  {
    && (r.ok <==> callback.Some?)
    && (!r.ok ==> r.session == s)
    && (r.ok ==> Slot(r.session.handlers, kind) == Some(Handler(callback.value, arg)))
    && (forall k :: k != kind ==> Slot(r.session.handlers, k) == Slot(s.handlers, k))
    && r.session.(handlers := s.handlers) == s
  }

  function Register(s: Session, kind: FrameKind, callback: Option<Callback>, arg: Arg): (r: Registration)
    ensures Registered(s, r, kind, callback, arg)
    ensures Valid(s) ==> Valid(r.session)
  {
    match callback
    case None => Registration(s, false)
    case Some(cb) => Registration(s.(handlers := SetSlot(s.handlers, kind, Handler(cb, arg))), true)
  }

  function RegisterEventCallback(s: Session, callback: Option<Callback>, arg: Arg): (r: Registration)
    ensures Registered(s, r, Event, callback, arg)
  {
    Register(s, Event, callback, arg)
  }

  function RegisterCommandCallback(s: Session, callback: Option<Callback>, arg: Arg): (r: Registration)
    ensures Registered(s, r, Command, callback, arg)
  {
    Register(s, Command, callback, arg)
  }

  function RegisterResponseCallback(s: Session, callback: Option<Callback>, arg: Arg): (r: Registration)
    ensures Registered(s, r, Response, callback, arg)
  {
    Register(s, Response, callback, arg)
  }

  /** The argument given at registration comes back as the handler's first
      parameter for every frame of that kind that passes the gate. */
  lemma RegisteredArgComesBack(s: Session, kind: FrameKind, cb: Callback, arg: Arg, d: Transport.Delivery)
    requires |d.payload| >= HeaderSize && d.payload[0] == KindCode(kind)
    requires PassesGate(s.waitingResponse, d.payload[0])
    ensures var s1 := Register(s, kind, Some(cb), arg).session;
            var s2 := Receive(s1, d);
            && s2.trace == s.trace + [Dispatch(kind, cb, arg, d.address, Parse(d.payload).value)]
  {
    var s1 := Register(s, kind, Some(cb), arg).session;
    var s2 := Receive(s1, d);
    assert s1.trace == s.trace;
    KindRoundTrip(kind, d.payload[0]);
    var e := s2.trace[|s.trace|];
    KindRoundTrip(e.kind, d.payload[0]);
    assert s2.trace == s.trace + [e];
  }

  /** Events reach the application only through the event slot: with that
      slot empty an event is discarded, gate or no gate. */
  lemma EventsNeedEventHandler(s: Session, d: Transport.Delivery)
    requires |d.payload| >= HeaderSize && d.payload[0] == KindCode(Event)
    ensures Slot(s.handlers, Event).None? ==> Receive(s, d).trace == s.trace
    ensures Slot(s.handlers, Event).Some? ==> |Receive(s, d).trace| == |s.trace| + 1
  {
    var s' := Receive(s, d);
    if Slot(s.handlers, Event).None? {
      assert s'.trace[..|s.trace|] == s.trace;
      assert |s'.trace| == |s.trace|;
    }
  }

  // ---------------------------------------------------------------- init

  /** `sizeof(LDP_Context)` and `sizeof(TP_Obj)`. Both structures are laid
      out by the compiler; the values are stand-ins. */
  const ContextSize: nat := 88
  const TransportObjSize: nat := 8

  /** Receive deadline, in ms, every session configures its transport with. */
  const TransportTimeout: nat := 2000

  /** Identity of the transport callback `Receive` stands for. */
  const ReceiveEntry: nat := 1

  /** Offset of the transport's own region within the caller's buffer. */
  const TransportRegionOffset: nat := ContextSize + WorkBufferLen + TransportObjSize

  /** Arguments of `LDP_Init`. */
  datatype InitArgs = InitArgs(
    objPresent: bool,
    port: Option<Transport.Port>,
    driver: Option<Transport.Driver>,
    bufferPresent: bool,
    size: nat)

  /** Whatever the caller's buffer held in the fields `LDP_Init` does not
      write. */
  datatype Residue = Residue(waitingResponse: bool, frame: Option<Frame>, payloadSize: nat)

  /** `Aborted`: an argument or size check failed; the source then returns an
      uninitialised value, so no result is promised. `TransportFailed`: the
      transport refused its arguments or could not open the port. */
  datatype InitResult = Aborted | TransportFailed | Ready(session: Session)

  /** The transport arguments `LDP_Init` passes on. */
  function TransportArgs(a: InitArgs): (t: Transport.InitArgs)
    requires a.port.Some? && a.size > TransportRegionOffset
    ensures t.callback == Some(ReceiveEntry) && t.timeout == TransportTimeout
    ensures t.size + TransportRegionOffset == a.size
  {
    Transport.InitArgs(true, a.driver, Some(ReceiveEntry), 0, a.port.value, TransportTimeout,
                       true, a.size - TransportRegionOffset)
  }

  /** `LDP_Init` as the source writes it: the context, the work buffer and
      the transport object are carved from the front of the buffer, the
      handler table is emptied, and the transport is initialised on the
      rest. The gate, the latest frame and the payload size keep whatever
      `residue` the buffer held. */
  function InitWith(a: InitArgs, residue: Residue, open: Option<Transport.Handle>): (r: InitResult)
    ensures r.Aborted? <==>
      !a.objPresent || a.port.None? || !a.bufferPresent || a.size <= TransportRegionOffset
    ensures !r.Aborted? ==>
      (r.Ready? <==> Transport.Init(TransportArgs(a), open).Opened?)
    ensures r.Ready? ==>
      && r.session.handlers == EmptyTable
      && r.session.workBufferLen == WorkBufferLen
      && |r.session.workBuffer| == WorkBufferLen
      && r.session.address == 0
      && r.session.trace == []
      && r.session.waitingResponse == residue.waitingResponse
      && r.session.frame == residue.frame
      && r.session.tp.callback == Some(ReceiveEntry)
      && r.session.tp.timeoutConfig == TransportTimeout
      && TransportRegionOffset + Transport.ContextSize + r.session.tp.maxPayloadSize == a.size
  {
    if !a.objPresent || a.port.None? || !a.bufferPresent then Aborted
    else
      var offset := ContextSize;
      if offset >= a.size then Aborted
      else
        var workBufferLen := WorkBufferLen;
        var offset := offset + workBufferLen;
        if offset >= a.size then Aborted
        else
          var offset := offset + TransportObjSize;
          if offset >= a.size then Aborted
          else
            match Transport.Init(TransportArgs(a), open)
            case Opened(tp) =>
              Ready(Session(tp, EmptyTable, residue.frame, residue.payloadSize, 0,
                            Zeros(workBufferLen), workBufferLen, residue.waitingResponse, []))
            case _ => TransportFailed
  }

  /** `LDP_Init` with the session's receive state also cleared: no call is
      waiting and no frame has been seen. */
  function Init(a: InitArgs, open: Option<Transport.Handle>): (r: InitResult)
    ensures r.Ready? ==>
      && Valid(r.session)
      && !r.session.waitingResponse
      && r.session.frame.None?
      && r.session.handlers == EmptyTable
      && r.session.address == 0
    ensures r.Aborted? == InitWith(a, Residue(true, None, 0), open).Aborted?
    ensures r.Ready? == InitWith(a, Residue(true, None, 0), open).Ready?
  {
    InitWith(a, Residue(false, None, 0), open)
  }

  /** Left uninitialised by the source, a gate that happens to read true
      swallows the first command from the peer even though no call is
      waiting; the corrected `Init` delivers it. */
  lemma StaleGateSwallowsFirstCommand(a: InitArgs, open: Option<Transport.Handle>, cb: Callback, arg: Arg,
                                      at: Transport.Attempt)
    requires InitWith(a, Residue(true, None, 0), open).Ready?
    requires at.status == Transport.Success && |at.payload| >= HeaderSize && at.payload[0] == KindCode(Command)
    ensures var stale := RegisterCommandCallback(InitWith(a, Residue(true, None, 0), open).session, Some(cb), arg).session;
            Process(stale, at).trace == []
    ensures var clean := RegisterCommandCallback(Init(a, open).session, Some(cb), arg).session;
            Process(clean, at).trace == [Dispatch(Command, cb, arg, at.address, Parse(at.payload).value)]
  {
    var stale := RegisterCommandCallback(InitWith(a, Residue(true, None, 0), open).session, Some(cb), arg).session;
    var clean := RegisterCommandCallback(Init(a, open).session, Some(cb), arg).session;
    RegisteredArgComesBack(Init(a, open).session, Command, cb, arg, Transport.Delivery(0, at.address, at.payload));
  }

  // ---------------------------------------------------------------- send

  /** Number of `TP_Process` calls a synchronous call waits through. */
  const MaxTries: nat := 5

  /** The caller's output buffer, and the size `*respSize` says it has. */
  datatype RespBuffer = RespBuffer(bytes: seq<byte>, size: nat)

  /** The declared size is a 32-bit count of bytes the buffer really has. */
  predicate RespFits(resp: Option<RespBuffer>)
  {
    resp.Some? ==> resp.value.size <= |resp.value.bytes| && resp.value.size < U32Limit
  }

  /** The result of one send: the session afterwards, the status code
      returned, the caller's output buffer afterwards, and the number of
      `TP_Process` calls made. */
  datatype Outcome = Outcome(session: Session, code: byte, resp: Option<RespBuffer>, calls: nat)

  /** Copying a received body out: when the buffer's declared size holds the
      body, the declared region is zeroed, the size is set to the body's
      length and the body is copied to the front; otherwise nothing is
      touched. */
  function CopyOut(resp: Option<RespBuffer>, body: seq<byte>): (r: Option<RespBuffer>)
    requires RespFits(resp)
    ensures r.Some? <==> resp.Some?
    ensures RespFits(r)
    ensures resp.Some? && resp.value.size < |body| ==> r == resp
    ensures resp.Some? && resp.value.size >= |body| ==>
      && r.value.size == |body|
      && |r.value.bytes| == |resp.value.bytes|
      && r.value.bytes[..|body|] == body
      && (forall i :: |body| <= i < resp.value.size ==> r.value.bytes[i] == 0)
      && r.value.bytes[resp.value.size..] == resp.value.bytes[resp.value.size..]
  {
    match resp
    case None => None
    case Some(b) =>
      if b.size >= |body| then
        var zeroed := Zeros(b.size) + b.bytes[b.size..];
        Some(RespBuffer(body + zeroed[|body|..], |body|))
      else
        resp
  }

  /** A synchronous call's wait is over: a frame arrived that opened the
      gate, and the latest frame is a response to command `id`. */
  predicate Matches(s: Session, id: byte)
  {
    && !s.waitingResponse
    && s.frame.Some?
    && s.frame.value.kind == KindCode(Response)
    && s.frame.value.id == id
  }

  /** The session as a synchronous call leaves it just before its first
      `TP_Process` call: no latest frame, gate closed. */
  function Armed(s: Session): (s': Session)
    ensures s'.waitingResponse && s'.frame.None?
    ensures s'.(frame := s.frame, waitingResponse := s.waitingResponse) == s
  {
    s.(frame := None, waitingResponse := true)
  }

  /** The receive attempt of the `i`-th `TP_Process` call; past the end of
      the script the line is silent and the run times out. */
  function AttemptAt(attempts: seq<Transport.Attempt>, i: nat): (a: Transport.Attempt)
    ensures i < |attempts| ==> a == attempts[i]
    ensures i >= |attempts| ==> a.status == Transport.TimedOut
  {
    if i < |attempts| then attempts[i] else Transport.Attempt(0, Transport.TimedOut, 0, [], 0)
  }

  /** `n` `TP_Process` calls in a row, starting at attempt `next`. */
  function ProcessAll(s: Session, attempts: seq<Transport.Attempt>, next: nat, n: nat): (s': Session)
    ensures SameSetup(s, s')
    ensures Valid(s) ==> Valid(s')
    decreases n
  {
    if n == 0 then s
    else ProcessAll(Process(s, AttemptAt(attempts, next)), attempts, next + 1, n - 1)
  }

  /** The state of a wait: the session, whether the response arrived, and
      the index of the next attempt (so the number of calls made so far). */
  datatype Wait = Wait(session: Session, matched: bool, end: nat)

  /** The wait loop of a synchronous call: call `TP_Process`, stop as soon
      as the awaited response is the latest frame, give up after `tries`
      calls. */
  function Await(s: Session, id: byte, attempts: seq<Transport.Attempt>, next: nat, tries: nat): (w: Wait)
    ensures next <= w.end <= next + tries
    ensures w.matched ==> Matches(w.session, id) && next < w.end
    ensures !w.matched ==> w.end == next + tries
    ensures !w.matched && tries > 0 ==> !Matches(w.session, id)
    ensures SameSetup(s, w.session)
    ensures Valid(s) ==> Valid(w.session)
    decreases tries
  {
    if tries == 0 then Wait(s, false, next)
    else
      var s1 := Process(s, AttemptAt(attempts, next));
      if Matches(s1, id) then Wait(s1, true, next + 1)
      else Await(s1, id, attempts, next + 1, tries - 1)
  }

  /** The first of `j` calls, peeled off. */
  lemma ProcessAllFirst(s: Session, attempts: seq<Transport.Attempt>, next: nat, j: nat)
    requires j >= 1
    ensures ProcessAll(s, attempts, next, j) == ProcessAll(Process(s, AttemptAt(attempts, next)), attempts, next + 1, j - 1)
  {
  }

  /** The wait's session is the one left by the calls it made. */
  lemma {:induction false} AwaitIsProcessAll(s: Session, id: byte, attempts: seq<Transport.Attempt>,
                                             next: nat, tries: nat)
    ensures var w := Await(s, id, attempts, next, tries);
            w.session == ProcessAll(s, attempts, next, w.end - next)
    decreases tries
  {
    if tries > 0 {
      var s1 := Process(s, AttemptAt(attempts, next));
      if !Matches(s1, id) {
        AwaitIsProcessAll(s1, id, attempts, next + 1, tries - 1);
        ProcessAllFirst(s, attempts, next, Await(s1, id, attempts, next + 1, tries - 1).end - next);
      }
    }
  }

  /** No call before the wait's last one produced the response. */
  lemma {:induction false} AwaitNoEarlierMatch(s: Session, id: byte, attempts: seq<Transport.Attempt>,
                                               next: nat, tries: nat)
    ensures var w := Await(s, id, attempts, next, tries);
            forall j :: 1 <= j < w.end - next ==> !Matches(ProcessAll(s, attempts, next, j), id)
    decreases tries
  {
    if tries > 0 {
      var s1 := Process(s, AttemptAt(attempts, next));
      if !Matches(s1, id) {
        var w := Await(s1, id, attempts, next + 1, tries - 1);
        AwaitNoEarlierMatch(s1, id, attempts, next + 1, tries - 1);
        forall j | 1 <= j < w.end - next
          ensures !Matches(ProcessAll(s, attempts, next, j), id)
        {
          ProcessAllFirst(s, attempts, next, j);
        }
      }
    }
  }

  /** The wait stops at the first call after which the response matches,
      and fails exactly when none of its `tries` calls produces one. */
  lemma AwaitFindsFirstMatch(s: Session, id: byte, attempts: seq<Transport.Attempt>, next: nat, tries: nat)
    ensures var w := Await(s, id, attempts, next, tries);
            && w.session == ProcessAll(s, attempts, next, w.end - next)
            && (w.matched <==> exists j :: 1 <= j <= tries && Matches(ProcessAll(s, attempts, next, j), id))
            && (forall j :: 1 <= j < w.end - next ==> !Matches(ProcessAll(s, attempts, next, j), id))
  {
    var w := Await(s, id, attempts, next, tries);
    AwaitIsProcessAll(s, id, attempts, next, tries);
    AwaitNoEarlierMatch(s, id, attempts, next, tries);
    if w.matched {
      assert Matches(ProcessAll(s, attempts, next, w.end - next), id);
    }
  }

  /** The frame a send puts on the wire. */
  function OutgoingFrame(kind: FrameKind, id: byte, status: StatusCode, payload: seq<byte>): Frame
  {
    Frame(KindCode(kind), id, Value(status), payload)
  }

  /** The first half of every send: encode the frame into the work buffer
      and hand exactly its bytes to the transport, addressed to the peer. */
  function PutFrame(s: Session, kind: FrameKind, id: byte, status: StatusCode, payload: seq<byte>,
                    written: bool): (r: (Session, bool))
    requires Valid(s)
    requires |payload| + HeaderSize <= s.workBufferLen
    ensures Valid(r.0)
    ensures r.1 == written
    ensures r.0.workBuffer[..HeaderSize + |payload|] == Encode(OutgoingFrame(kind, id, status, payload))
    ensures r.0.tp.log == s.tp.log + [Transport.FlushInput(s.tp.handle),
              Transport.WriteFrame(s.tp.handle, Transport.Stamp(s.address, Encode(OutgoingFrame(kind, id, status, payload))))]
    ensures r.0.(workBuffer := s.workBuffer, tp := s.tp) == s
  {
    var frameSize := HeaderSize + |payload|;
    var buf := WriteFrame(s.workBuffer, KindCode(kind), id, Value(status), payload);
    var sent := Transport.Send(s.tp, s.address, buf[..frameSize], written);
    (s.(workBuffer := buf, tp := sent.context), sent.ok)
  }

  /** The second half of a synchronous send: arm the gate, wait, and on a
      match return the response's status and copy its body out. */
  function SyncWait(s: Session, id: byte, resp: Option<RespBuffer>, attempts: seq<Transport.Attempt>): (o: Outcome)
    requires Valid(s) && RespFits(resp)
    ensures Valid(o.session) && RespFits(o.resp)
    ensures SameSetup(s, o.session)
    ensures
      || (&& o.calls == MaxTries && !Matches(o.session, id)
          && o.code == Value(ProtocolError) && o.resp == resp)
      || (&& 1 <= o.calls <= MaxTries && Matches(o.session, id)
          && o.code == o.session.frame.value.status
          && o.resp == CopyOut(resp, o.session.frame.value.body))
  {
    var w := Await(Armed(s), id, attempts, 0, MaxTries);
    if w.matched then
      var f := w.session.frame.value;
      assert f.body[..w.session.payloadSize] == f.body;
      Outcome(w.session, f.status, CopyOut(resp, f.body[..w.session.payloadSize]), w.end)
    else
      Outcome(w.session, Value(ProtocolError), resp, w.end)
  }

  /** One step of the wait, unfolded. */
  lemma AwaitStep(s: Session, id: byte, attempts: seq<Transport.Attempt>, next: nat, tries: nat)
    requires tries > 0
    ensures var s1 := Process(s, AttemptAt(attempts, next));
            Await(s, id, attempts, next, tries)
              == if Matches(s1, id) then Wait(s1, true, next + 1) else Await(s1, id, attempts, next + 1, tries - 1)
  {
  }

  /** `SyncWait` read off the wait it runs. */
  lemma SyncWaitIsAwait(s: Session, id: byte, resp: Option<RespBuffer>, attempts: seq<Transport.Attempt>)
    requires Valid(s) && RespFits(resp)
    ensures var w := Await(Armed(s), id, attempts, 0, MaxTries);
            var o := SyncWait(s, id, resp, attempts);
            && o.session == w.session
            && o.calls == w.end
            && (w.matched ==> o.code == w.session.frame.value.status
                              && o.resp == CopyOut(resp, w.session.frame.value.body[..w.session.payloadSize]))
            && (!w.matched ==> o.code == Value(ProtocolError) && o.resp == resp)
  {
  }

  /** `LDP_SendGeneric`, stated as a function: the size check, one frame
      written to the peer, and for a synchronous call the bounded wait and
      the copy of the response body. */
  function Send(s: Session, sync: bool, kind: FrameKind, id: byte, status: StatusCode, payload: seq<byte>,
                resp: Option<RespBuffer>, written: bool, attempts: seq<Transport.Attempt>): (o: Outcome)
    requires Valid(s) && RespFits(resp)
    requires |payload| + HeaderSize < U32Limit
    ensures Valid(o.session) && RespFits(o.resp)
    ensures o.calls <= MaxTries
    ensures |payload| + HeaderSize > s.workBufferLen ==> o == Outcome(s, Value(ParameterError), resp, 0)
    ensures |payload| + HeaderSize <= s.workBufferLen ==>
      && o.session.workBuffer[..HeaderSize + |payload|] == Encode(OutgoingFrame(kind, id, status, payload))
      && o.session.tp.log == s.tp.log + [Transport.FlushInput(s.tp.handle),
           Transport.WriteFrame(s.tp.handle, Transport.Stamp(s.address, Encode(OutgoingFrame(kind, id, status, payload))))]
      && o.session.handlers == s.handlers
      && o.session.address == s.address
      && o.session.tp.callback == s.tp.callback
    ensures |payload| + HeaderSize <= s.workBufferLen && (!sync || !written) ==>
      && o.code == Value(ProtocolError)
      && o.calls == 0
      && o.resp == resp
      && o.session.waitingResponse == s.waitingResponse
      && o.session.frame == s.frame
      && o.session.trace == s.trace
    ensures |payload| + HeaderSize <= s.workBufferLen && sync && written ==>
      || (&& o.calls == MaxTries && !Matches(o.session, id)
          && o.code == Value(ProtocolError) && o.resp == resp)
      || (&& 1 <= o.calls && Matches(o.session, id)
          && o.code == o.session.frame.value.status
          && o.resp == CopyOut(resp, o.session.frame.value.body))
  {
    if |payload| + HeaderSize > s.workBufferLen then
      Outcome(s, Value(ParameterError), resp, 0)
    else
      var (s1, ok) := PutFrame(s, kind, id, status, payload, written);
      if !ok || !sync then Outcome(s1, Value(ProtocolError), resp, 0)
      else SyncWait(s1, id, resp, attempts)
  }

  /** The wait of a synchronous send as the source runs it: a do-while loop
      that calls `TP_Process` and counts a try counter down from five,
      leaving early once the awaited response is the latest frame. */
  method Poll(s: Session, id: byte, attempts: seq<Transport.Attempt>)
    returns (cur: Session, matched: bool, calls: nat)
    requires Valid(s)
    ensures Wait(cur, matched, calls) == Await(s, id, attempts, 0, MaxTries)
  {
    cur := s;
    calls := 0;
    matched := false;
    var tries := MaxTries;
    while !matched && tries != 0
      invariant calls <= MaxTries
      invariant !matched ==> calls + tries == MaxTries
      invariant !matched ==> Await(cur, id, attempts, calls, tries) == Await(s, id, attempts, 0, MaxTries)
      invariant matched ==> Await(s, id, attempts, 0, MaxTries) == Wait(cur, true, calls)
      invariant Valid(cur)
      decreases tries, !matched
    {
      AwaitStep(cur, id, attempts, calls, tries);
      cur := Process(cur, AttemptAt(attempts, calls));
      calls := calls + 1;
      if Matches(cur, id) {
        matched := true;
      } else {
        tries := tries - 1;
      }
    }
  }

  /** The second half of a synchronous send as the source runs it: arm the
      gate, poll, and on a match take the response's status and copy its
      body out. */
  method WaitForResponse(s: Session, id: byte, resp: Option<RespBuffer>, attempts: seq<Transport.Attempt>)
    returns (o: Outcome)
    requires Valid(s) && RespFits(resp)
    ensures o == SyncWait(s, id, resp, attempts)
  {
    var cur, matched, calls := Poll(Armed(s), id, attempts);
    var code := Value(ProtocolError);
    var out := resp;
    if matched {
      code := cur.frame.value.status;
      out := CopyOut(resp, cur.frame.value.body[..cur.payloadSize]);
    }
    SyncWaitIsAwait(s, id, resp, attempts);
    o := Outcome(cur, code, out, calls);
  }

  /** `LDP_SendGeneric`: the size check, the frame put on the wire, and for
      a synchronous call the wait. */
  method SendGeneric(s: Session, sync: bool, kind: FrameKind, id: byte, status: StatusCode, payload: seq<byte>,
                     resp: Option<RespBuffer>, written: bool, attempts: seq<Transport.Attempt>)
    returns (o: Outcome)
    requires Valid(s) && RespFits(resp)
    requires |payload| + HeaderSize < U32Limit
    ensures o == Send(s, sync, kind, id, status, payload, resp, written, attempts)
  {
    var frameSize := |payload| + HeaderSize;
    if frameSize > s.workBufferLen {
      return Outcome(s, Value(ParameterError), resp, 0);
    }
    var sent := PutFrame(s, kind, id, status, payload, written);
    if !sent.1 || !sync {
      return Outcome(sent.0, Value(ProtocolError), resp, 0);
    }
    o := WaitForResponse(sent.0, id, resp, attempts);
  }

  // ---------------------------------------------------------------- properties of the wait

  /** What a receive leaves behind: the gate, the latest frame and the
      dispatch trace. */
  predicate SameReceiveState(s: Session, s': Session)
  {
    && s'.waitingResponse == s.waitingResponse
    && s'.frame == s.frame
    && s'.trace == s.trace
  }

  /** A wait whose calls all complete nothing runs out its tries with the
      gate still closed, the latest frame and the trace untouched. */
  lemma {:induction false} AwaitSilent(s: Session, id: byte, attempts: seq<Transport.Attempt>, next: nat, tries: nat)
    requires s.waitingResponse
    requires forall i :: next <= i < next + tries ==> AttemptAt(attempts, i).status != Transport.Success
    ensures var w := Await(s, id, attempts, next, tries);
            !w.matched && SameReceiveState(s, w.session)
    decreases tries
  {
    if tries > 0 {
      AwaitSilent(Process(s, AttemptAt(attempts, next)), id, attempts, next + 1, tries - 1);
    }
  }

  /** A peer that never completes a frame: the call makes exactly five
      `TP_Process` calls, returns `LDP_ProtocolError`, leaves the caller's
      buffer alone, dispatches nothing, and leaves the gate closed for the
      next frame to arrive. */
  lemma SilentPeerTimesOut(s: Session, id: byte, resp: Option<RespBuffer>, attempts: seq<Transport.Attempt>)
    requires Valid(s) && RespFits(resp)
    requires forall i :: 0 <= i < MaxTries ==> AttemptAt(attempts, i).status != Transport.Success
    ensures var o := SyncWait(s, id, resp, attempts);
            && o.calls == MaxTries
            && o.code == Value(ProtocolError)
            && o.resp == resp
            && o.session.waitingResponse
            && o.session.frame.None?
            && o.session.trace == s.trace
  {
    AwaitSilent(Armed(s), id, attempts, 0, MaxTries);
  }

  /** The bytes a peer sends back as the response to command `id`. */
  function ReplyBytes(id: byte, status: byte, body: seq<byte>): (b: seq<byte>)
    ensures Parse(b) == Some(Frame(KindCode(Response), id, status, body))
  {
    EncodeParse(Frame(KindCode(Response), id, status, body), []);
    Encode(Frame(KindCode(Response), id, status, body))
  }

  /** With the gate closed, `k` calls that complete nothing followed by one
      that completes the response to `id` end the wait on that response. */
  lemma {:induction false} AwaitReply(s: Session, id: byte, attempts: seq<Transport.Attempt>, next: nat, tries: nat,
                                      k: nat, status: byte, body: seq<byte>)
    requires s.waitingResponse && s.tp.callback.Some?
    requires k < tries && next + k < |attempts|
    requires forall i :: next <= i < next + k ==> AttemptAt(attempts, i).status != Transport.Success
    requires attempts[next + k].status == Transport.Success
    requires attempts[next + k].payload == ReplyBytes(id, status, body)
    ensures var w := Await(s, id, attempts, next, tries);
            && w.matched
            && w.end == next + k + 1
            && w.session.frame == Some(Frame(KindCode(Response), id, status, body))
    decreases k
  {
    if k > 0 {
      AwaitReply(Process(s, AttemptAt(attempts, next)), id, attempts, next + 1, tries - 1, k - 1, status, body);
    }
  }

  /** A response to command `id` completed by the `k`-th call, after `k`
      calls that completed nothing, ends the wait there: its status is the
      result and its body is copied out. */
  lemma ReplyAfterSilence(s: Session, id: byte, resp: Option<RespBuffer>, attempts: seq<Transport.Attempt>,
                          k: nat, status: byte, body: seq<byte>)
    requires Valid(s) && RespFits(resp) && s.tp.callback.Some?
    requires k < MaxTries && k < |attempts|
    requires forall i :: 0 <= i < k ==> AttemptAt(attempts, i).status != Transport.Success
    requires attempts[k].status == Transport.Success
    requires attempts[k].payload == ReplyBytes(id, status, body)
    ensures var o := SyncWait(s, id, resp, attempts);
            && o.calls == k + 1
            && o.code == status
            && o.resp == CopyOut(resp, body)
            && o.session.frame == Some(Frame(KindCode(Response), id, status, body))
            && !o.session.waitingResponse
  {
    AwaitReply(Armed(s), id, attempts, 0, MaxTries, k, status, body);
  }

  /** The response a wait ends on was completed by the wait's own last
      call: a frame left over from before the call never ends it. */
  lemma {:induction false} MatchComesFromLastCall(s: Session, id: byte, attempts: seq<Transport.Attempt>,
                                                  next: nat, tries: nat)
    requires !Matches(s, id)
    ensures var w := Await(s, id, attempts, next, tries);
            w.matched ==>
              && AttemptAt(attempts, w.end - 1).status == Transport.Success
              && Parse(AttemptAt(attempts, w.end - 1).payload) == w.session.frame
    decreases tries
  {
    if tries > 0 {
      var a := AttemptAt(attempts, next);
      var s1 := Process(s, a);
      if !Matches(s1, id) {
        MatchComesFromLastCall(s1, id, attempts, next + 1, tries - 1);
      }
    }
  }

  /** While a call waits, an event still reaches the event handler, and it
      opens the gate although it cannot end the wait. */
  lemma EventPassesClosedGate(s: Session, d: Transport.Delivery, id: byte)
    requires s.waitingResponse
    requires |d.payload| >= HeaderSize && d.payload[0] == KindCode(Event)
    requires Slot(s.handlers, Event).Some?
    ensures var s' := Receive(s, d);
            && |s'.trace| == |s.trace| + 1
            && s'.trace[|s.trace|].kind == Event
            && !s'.waitingResponse
            && !Matches(s', id)
  {
    ReceiveDispatch(s, d);
    var e := Receive(s, d).trace[|s.trace|];
    KindRoundTrip(e.kind, d.payload[0]);
  }

  /** A frame other than an event and other than the response to `id`. */
  predicate Foreign(payload: seq<byte>, id: byte)
  {
    && |payload| >= HeaderSize
    && payload[0] != KindCode(Event)
    && !(payload[0] == KindCode(Response) && payload[1] == id)
  }

  /** There is one gate for the whole session: while a call waits for the
      response to `id`, any other non-event frame (a response to some other
      command, say) is not dispatched but opens the gate without ending the
      wait, and the next command from the peer is then dispatched. */
  lemma ForeignFrameOpensGate(s: Session, id: byte, d1: Transport.Delivery, d2: Transport.Delivery)
    requires s.waitingResponse
    requires Foreign(d1.payload, id)
    requires |d2.payload| >= HeaderSize && d2.payload[0] == KindCode(Command)
    requires Slot(s.handlers, Command).Some?
    ensures Receive(s, d1).trace == s.trace
    ensures !Receive(s, d1).waitingResponse
    ensures !Matches(Receive(s, d1), id)
    ensures |Receive(Receive(s, d1), d2).trace| == |s.trace| + 1
    ensures Receive(Receive(s, d1), d2).trace[|s.trace|].kind == Command
  {
    var s1 := Receive(s, d1);
    ReceiveDispatch(s, d1);
    assert s1.trace[..|s.trace|] == s.trace;
    ReceiveDispatch(s1, d2);
    KindRoundTrip(Receive(s1, d2).trace[|s.trace|].kind, d2.payload[0]);
  }

  /** The same over the wait itself: a foreign frame completed by one call
      and a command completed by the next get the command dispatched to
      the command handler, and the wait goes on as if it had just started
      with two tries fewer. */
  lemma ForeignFrameDuringWait(s: Session, id: byte, attempts: seq<Transport.Attempt>, next: nat, tries: nat,
                               cb: Callback, arg: Arg)
    requires s.waitingResponse && s.tp.callback.Some?
    requires Slot(s.handlers, Command) == Some(Handler(cb, arg))
    requires tries >= 2 && next + 1 < |attempts|
    requires attempts[next].status == Transport.Success && Foreign(attempts[next].payload, id)
    requires attempts[next + 1].status == Transport.Success
    requires |attempts[next + 1].payload| >= HeaderSize && attempts[next + 1].payload[0] == KindCode(Command)
    ensures var a2 := attempts[next + 1];
            var s2 := ProcessAll(s, attempts, next, 2);
            && s2.trace == s.trace + [Dispatch(Command, cb, arg, a2.address, Parse(a2.payload).value)]
            && !Matches(s2, id)
            && Await(s, id, attempts, next, tries) == Await(s2, id, attempts, next + 2, tries - 2)
  {
    var a1 := attempts[next];
    var a2 := attempts[next + 1];
    var s1 := Process(s, a1);
    var d1 := Transport.Delivery(s.tp.param, a1.address, a1.payload);
    ReceiveDispatch(s.(tp := Transport.Process(s.tp, a1).context), d1);
    assert s1.trace == s.trace;
    assert !Matches(s1, id);
    ProcessAllFirst(s, attempts, next, 2);
    ProcessAllFirst(s1, attempts, next + 1, 1);
    var s2 := Process(s1, a2);
    var d2 := Transport.Delivery(s1.tp.param, a2.address, a2.payload);
    RegisteredArgComesBack(s1.(tp := Transport.Process(s1.tp, a2).context), Command, cb, arg, d2);
    assert Register(s1.(tp := Transport.Process(s1.tp, a2).context), Command, Some(cb), arg).session
        == s1.(tp := Transport.Process(s1.tp, a2).context);
    AwaitStep(s, id, attempts, next, tries);
    AwaitStep(s1, id, attempts, next + 1, tries - 1);
  }
}
