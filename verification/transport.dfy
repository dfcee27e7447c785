/** The transport session: one driver handle, one memory region carved once
    into a context and a response buffer, a `Send` that frames one command,
    and a `Process` that runs the receive machine once and reports a good
    frame to a single registered callback.

    The byte-level receive machine, the CRC and the frame writer are not
    part of this model: one run of the machine is an `Attempt`, the terminal
    status it reached together with the address and payload it decoded. */
module Transport {
  import opened Base

  /** The entry points of a driver table. */
  datatype DriverOp = Open | Read | Write | Close | Flush | Tick | Sleep

  /** A driver table, as the set of entry points that are not NULL. */
  datatype Driver = Driver(ops: set<DriverOp>)

  /** The entry points `Init` insists on; `Flush`, `Tick` and `Sleep` are
      not checked. */
  const RequiredOps: set<DriverOp> := {Open, Read, Write, Close}

  /** A non-NULL handle returned by the driver's `Open`. */
  type Handle = nat

  /** The opaque port identification handed to `Open`. */
  type Port = nat

  /** `sizeof(TP_Context)`. The structure is declared in Service.h, which is
      not part of this model; the value is a stand-in and only its being
      positive matters below. */
  const ContextSize: nat := 96

  /** Terminal states of one run of the receive machine. */
  datatype Terminal = Success | TimedOut | ChecksumMismatch | Malformed

  /** Where the receive machine stands: `Idle` is the only initial state. */
  datatype Machine = Idle | Stopped

  /** Address and length fields of the frame being received. */
  datatype ResponseHeader = ResponseHeader(address: byte, size: nat)

  /** The command frame header `Send` stamps: address, two-byte length, and
      the payload it points at. */
  datatype CommandFrame = CommandFrame(address: byte, sizeField: nat, data: seq<byte>)

  /** Calls made on the driver, in order. */
  datatype DriverCall = FlushInput(handle: Handle) | WriteFrame(handle: Handle, frame: CommandFrame)

  datatype Context = Context(
    // configuration, fixed by Init
    driver: Driver,
    port: Port,
    handle: Handle,
    timeoutConfig: nat,
    maxPayloadSize: nat,
    responseOffset: nat,
    callback: Option<nat>,
    param: nat,
    // state of the latest receive run
    machine: Machine,
    timeoutBaseline: nat,
    bytesRead: nat,
    status: Option<Terminal>,
    response: ResponseHeader,
    // the latest command frame and every driver call made through Send
    command: Option<CommandFrame>,
    log: seq<DriverCall>)

  /** Two contexts that differ at most in what a receive run leaves behind. */
  predicate SameConfiguration(c: Context, d: Context)
  {
    c.(machine := d.machine, timeoutBaseline := d.timeoutBaseline, bytesRead := d.bytesRead,
       status := d.status, response := d.response) == d
  }

  // ---------------------------------------------------------------- Init

  /** Arguments of `TP_Init`; the `...Present` flags say whether a pointer
      argument is non-NULL. */
  datatype InitArgs = InitArgs(
    objPresent: bool,
    driver: Option<Driver>,
    callback: Option<nat>,
    param: nat,
    port: Port,
    timeout: nat,
    bufferPresent: bool,
    size: nat)

  /** `Rejected`: an argument check failed and `Open` was never called.
      `OpenFailed`: the driver returned no handle. */
  datatype InitResult = Rejected | OpenFailed | Opened(context: Context)

  /** How the region of `size` bytes is carved, as byte offsets. */
  datatype Layout = Layout(contextOffset: nat, responseOffset: nat, maxPayloadSize: nat, end: nat)

  /** The context first, the response buffer right after it taking all the
      remaining bytes. */
  function Carve(size: nat): (l: Layout)
    requires size > ContextSize
    ensures l.contextOffset == 0
    ensures l.responseOffset == l.contextOffset + ContextSize
    ensures l.maxPayloadSize > 0
    ensures l.end == l.responseOffset + l.maxPayloadSize
    ensures l.end == size
  {
    var offset := ContextSize;
    var maxPayload := size - offset;
    Layout(0, offset, maxPayload, offset + maxPayload)
  }

  /** `TP_Init`: check the arguments, carve the region, store the
      configuration, and open the port; `open` is what the driver's `Open`
      returns if it is called. */
  function Init(a: InitArgs, open: Option<Handle>): (r: InitResult)
    ensures r.Rejected? <==>
      (|| !a.objPresent
       || a.driver.None?
       || !(RequiredOps <= a.driver.value.ops)
       || !a.bufferPresent
       || a.size <= ContextSize)
    ensures !r.Rejected? ==> (r.Opened? <==> open.Some?)
    ensures r.Opened? ==>
      && r.context.handle == open.value
      && r.context.driver == a.driver.value
      && r.context.port == a.port
      && r.context.timeoutConfig == a.timeout
      && r.context.callback == a.callback
      && r.context.param == a.param
      && r.context.responseOffset == ContextSize
      && r.context.responseOffset + r.context.maxPayloadSize == a.size
      && r.context.log == []
  {
    if !a.objPresent || a.driver.None? || !(RequiredOps <= a.driver.value.ops) || !a.bufferPresent then
      Rejected
    else if a.size <= ContextSize then
      Rejected
    else
      var l := Carve(a.size);
      if l.end > a.size then
        // the second bound check of the source; Carve shows it never fires
        Rejected
      else
        match open
        case None => OpenFailed
        case Some(h) =>
          Opened(Context(a.driver.value, a.port, h, a.timeout, l.maxPayloadSize, l.responseOffset,
                         a.callback, a.param,
                         Idle, 0, 0, None, ResponseHeader(0, 0),
                         None, []))
  }

  /** Whether `Init` accepts its arguments does not depend on the driver's
      `Flush`, `Tick` or `Sleep` entries, nor on what `Open` would return. */
  lemma InitIgnoresUncheckedOps(a: InitArgs, extra: set<DriverOp>, o1: Option<Handle>, o2: Option<Handle>)
    requires a.driver.Some?
    requires extra <= {Flush, Tick, Sleep}
    ensures var b := a.(driver := Some(Driver(a.driver.value.ops + extra)));
            var c := a.(driver := Some(Driver(a.driver.value.ops - extra)));
            && (Init(a, o1).Rejected? <==> Init(b, o1).Rejected?)
            && (Init(a, o1).Rejected? <==> Init(c, o1).Rejected?)
            && (Init(a, o1).Rejected? <==> Init(a, o2).Rejected?)
  {
    var ops := a.driver.value.ops;
    assert RequiredOps <= ops <==> RequiredOps <= ops + extra;
    assert RequiredOps <= ops <==> RequiredOps <= ops - extra by {
      assert RequiredOps !! extra;
    }
  }

  // ---------------------------------------------------------------- Send

  datatype SendResult = SendResult(context: Context, ok: bool)

  /** The command frame stamped for `payload` sent to `address`: the length
      field is sixteen bits wide. */
  function Stamp(address: byte, payload: seq<byte>): (f: CommandFrame)
    ensures f.address == address && f.data == payload
    ensures f.sizeField < U16Limit
    ensures |payload| < U16Limit ==> f.sizeField == |payload|
  {
    CommandFrame(address, |payload| % U16Limit, payload)
  }

  /** `TP_Send`: flush pending input, then stamp and write one command frame.
      `written` is whether the driver accepted the whole frame. */
  function Send(c: Context, address: byte, payload: seq<byte>, written: bool): (r: SendResult)
    ensures r.ok == written
    ensures |r.context.log| == |c.log| + 2
    ensures r.context.log[..|c.log|] == c.log
    ensures r.context.log[|c.log|] == FlushInput(c.handle)
    ensures r.context.log[|c.log| + 1].WriteFrame?
    ensures r.context.log[|c.log| + 1].frame.address == address
    ensures r.context.log[|c.log| + 1].frame.data == payload
    ensures r.context.command == Some(r.context.log[|c.log| + 1].frame)
    ensures r.context.(command := c.command, log := c.log) == c
  {
    var frame := Stamp(address, payload);
    var c' := c.(command := Some(frame), log := c.log + [FlushInput(c.handle), WriteFrame(c.handle, frame)]);
    SendResult(c', written)
  }

  /** `Send` calls the driver's `Flush` entry without looking whether the
      driver has one, and `Init` accepts a driver without it: an opened
      context whose driver lacks `Flush` still logs a flush on every send. */
  lemma SendFlushesUnchecked(a: InitArgs, h: Handle, address: byte, payload: seq<byte>)
    requires a.objPresent && a.bufferPresent && a.size > ContextSize
    requires a.driver == Some(Driver(RequiredOps))
    ensures Init(a, Some(h)).Opened?
    ensures Flush !in Init(a, Some(h)).context.driver.ops
    ensures var c := Init(a, Some(h)).context;
            Send(c, address, payload, true).context.log[|c.log|] == FlushInput(h)
  {
  }

  // ---------------------------------------------------------------- Process

  /** One run of the receive machine: the tick read when the run started,
      the terminal status reached, and the address, payload and byte count
      it decoded. */
  datatype Attempt = Attempt(tick: nat, status: Terminal, address: byte, payload: seq<byte>, bytesRead: nat)

  /** The callback invocation `(param, address, size, data)`; the size is
      the payload's length. */
  datatype Delivery = Delivery(param: nat, address: byte, payload: seq<byte>)

  datatype ProcessResult = ProcessResult(context: Context, delivery: Option<Delivery>)

  /** The context the receive machine starts from on every call: idle, no
      byte read, the deadline measured from `tick`, an empty header. */
  function Fresh(c: Context, tick: nat): (f: Context)
    ensures f.machine == Idle && f.bytesRead == 0 && f.timeoutBaseline == tick
    ensures f.response == ResponseHeader(0, 0)
    ensures SameConfiguration(c, f)
  {
    c.(machine := Idle, timeoutBaseline := tick, bytesRead := 0, response := ResponseHeader(0, 0))
  }

  /** `TP_Process`: one run of the receive machine from a fresh start, then
      at most one callback, and only for a successful run. */
  function Process(c: Context, a: Attempt): (r: ProcessResult)
    ensures r.delivery.Some? <==> a.status == Success && c.callback.Some?
    ensures r.delivery.Some? ==> r.delivery.value == Delivery(c.param, a.address, a.payload)
    ensures r.context.timeoutBaseline == a.tick
    ensures r.context.status == Some(a.status)
    ensures r.context.machine == Stopped
    ensures SameConfiguration(c, r.context)
  {
    var f := Fresh(c, a.tick);
    var done := f.(machine := Stopped, status := Some(a.status), bytesRead := a.bytesRead,
                   response := ResponseHeader(a.address, |a.payload|));
    if a.status == Success && done.callback.Some? then
      ProcessResult(done, Some(Delivery(done.param, a.address, a.payload)))
    else
      ProcessResult(done, None)
  }

  /** No partial frame survives a call: two contexts that differ only in what
      earlier runs left behind give the same result. */
  lemma ProcessForgetsEarlierRuns(c: Context, d: Context, a: Attempt)
    requires SameConfiguration(c, d)
    ensures Process(c, a) == Process(d, a)
  {
  }
}
