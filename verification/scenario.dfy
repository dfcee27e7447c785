/** The client/server exchange documented with the API: a server whose
    command handler answers command 1 with each field of the record bumped
    (the first by one, the second by two), and a client whose synchronous
    command 1 with the record {0, 20} gets {1, 22} back.

    The layout of `st_cmd1` is declared in PacketID.h, which is not part of
    this model: here it is two one-byte fields, in order. */
module Scenario {
  import opened Base
  import opened StatusCodes
  import opened Frames
  import Transport
  import opened DeviceProtocol
  import opened Api

  /** Identity of the server's command handler and the argument it is
      registered with. */
  const CommandHandler: Callback := 1
  const ServerArg: Arg := 7

  /** The handles the two ends' drivers return from `Open`. */
  const ClientHandle: Transport.Handle := 10
  const ServerHandle: Transport.Handle := 20

  /** `LDP_Init(&obj, "COM3", &driver, buffer, 512)` with a driver that
      fills all seven entry points. */
  const ExampleArgs: InitArgs :=
    InitArgs(true, Some(3), Some(Transport.Driver({Transport.Open, Transport.Read, Transport.Write,
      Transport.Close, Transport.Flush, Transport.Tick, Transport.Sleep})), true, 512)

  /** A receive run that completes a frame carrying `bytes` from `address`. */
  function Arrival(address: byte, bytes: seq<byte>): (a: Transport.Attempt)
    ensures a.status == Transport.Success && a.address == address && a.payload == bytes
  {
    Transport.Attempt(0, Transport.Success, address, bytes, |bytes|)
  }

  /** Field `i` of a received record; a field a short body lacks reads as
      zero here. */
  function FieldAt(body: seq<byte>, i: nat): (b: byte)
    ensures i < |body| ==> b == body[i]
  {
    if i < |body| then body[i] else 0
  }

  /** `field + n` stored back into a one-byte field. */
  function AddWrapped(field: byte, n: nat): (r: byte)
    ensures field + n < 0x100 ==> r == field + n
  {
    (field + n) % 0x100
  }

  /** The documented server's command handler: command 1 is answered OK with
      the first field plus one and the second plus two, command 2 with Not
      Supported and no record, and any other command is ignored. */
  function ServerReply(s: Session, f: Frame, written: bool): (o: Option<Outcome>)
    requires Valid(s)
    ensures o.Some? <==> f.id == Cmd1 || f.id == Cmd2
    ensures f.id == Cmd1 ==>
      Sent(s, o.value, Frame(KindCode(Response), Cmd1, Value(Ok),
                             [AddWrapped(FieldAt(f.body, 0), 1), AddWrapped(FieldAt(f.body, 1), 2)]))
    ensures f.id == Cmd2 ==> Sent(s, o.value, Frame(KindCode(Response), Cmd2, Value(NotSupportedError), []))
  {
    if f.id == Cmd1 then
      var reply: Cmd1Record := [AddWrapped(FieldAt(f.body, 0), 1), AddWrapped(FieldAt(f.body, 1), 2)];
      Some(Response1(s, Ok, Some(reply), written))
    else if f.id == Cmd2 then
      Some(Response2(s, NotSupportedError, None, written))
    else
      None
  }

  /** Both ends initialise from the example's arguments. */
  lemma ExampleInitSucceeds(h: Transport.Handle)
    ensures Init(ExampleArgs, Some(h)).Ready?
    ensures Init(ExampleArgs, Some(h)).session.tp.handle == h
    ensures Init(ExampleArgs, Some(h)).session.tp.callback.Some?
  {
    var t := TransportArgs(ExampleArgs);
    assert Transport.Init(t, Some(h)).Opened?;
  }

  /** The documented exchange end to end: the client's command 1 with {0, 20}
      reaches the server's command handler with the registered argument, the
      handler's response carries {1, 22} with status OK, and the client's
      call returns OK with {1, 22} in its output record after one
      `TP_Process` call. */
  lemma DocumentedExchange()
    ensures Init(ExampleArgs, Some(ClientHandle)).Ready? && Init(ExampleArgs, Some(ServerHandle)).Ready?
    ensures
      var client := Init(ExampleArgs, Some(ClientHandle)).session;
      var server := RegisterCommandCallback(Init(ExampleArgs, Some(ServerHandle)).session,
                                            Some(CommandHandler), ServerArg).session;
      var request := Frame(KindCode(Command), Cmd1, Value(Ok), [0, 20]);
      var response := Frame(KindCode(Response), Cmd1, Value(Ok), [1, 22]);
      var served := Run(server, Arrival(client.address, Encode(request))).0;
      var replied := ServerReply(served, request, true);
      var o := Command1(client, Some([0, 20]), Some([0, 0]), true,
                        [Arrival(server.address, Encode(response))]);
      && served.trace == [Dispatch(Command, CommandHandler, ServerArg, client.address, request)]
      && replied.Some? && Sent(served, replied.value, response)
      && Sent(client, o, request)
      && o.code == Value(Ok)
      && o.calls == 1
      && o.resp == Some(RespBuffer([1, 22], Cmd1Size))
  {
    ExampleInitSucceeds(ClientHandle);
    ExampleInitSucceeds(ServerHandle);
    var client := Init(ExampleArgs, Some(ClientHandle)).session;
    var server0 := Init(ExampleArgs, Some(ServerHandle)).session;
    var server := RegisterCommandCallback(server0, Some(CommandHandler), ServerArg).session;
    var request := Frame(KindCode(Command), Cmd1, Value(Ok), [0, 20]);
    var response := Frame(KindCode(Response), Cmd1, Value(Ok), [1, 22]);

    // the server dispatches the request to its command handler
    var at := Arrival(client.address, Encode(request));
    var p := Transport.Process(server.tp, at);
    var d := p.delivery.value;
    EncodeParse(request, Encode(request));
    RegisteredArgComesBack(server0.(tp := p.context), Command, CommandHandler, ServerArg, d);
    assert Register(server0.(tp := p.context), Command, Some(CommandHandler), ServerArg).session
        == server.(tp := p.context);

    // the client's wait ends on the response at the first call
    var sent := PutFrame(client, Command, Cmd1, Ok, [0, 20], true);
    var out := OutBuffer(Some([0, 0]));
    assert ReplyBytes(Cmd1, Value(Ok), [1, 22]) == Encode(response);
    ReplyAfterSilence(sent.0, Cmd1, out,
                      [Arrival(server.address, Encode(response))],
                      0, Value(Ok), [1, 22]);
    var o := Command1(client, Some([0, 20]), Some([0, 0]), true,
                      [Arrival(server.address, Encode(response))]);
    assert o == SyncWait(sent.0, Cmd1, out, [Arrival(server.address, Encode(response))]);
    assert o.resp.value.bytes == o.resp.value.bytes[..2];
  }

  /** The example's regions are uninitialised stack arrays, and `LDP_Init`
      never writes the gate: on a server region whose gate byte happens to
      read true, the documented request reaches no handler. */
  lemma UninitialisedServerSwallowsRequest(client: Session)
    ensures InitWith(ExampleArgs, Residue(true, None, 0), Some(ServerHandle)).Ready?
    ensures
      var server := RegisterCommandCallback(InitWith(ExampleArgs, Residue(true, None, 0), Some(ServerHandle)).session,
                                            Some(CommandHandler), ServerArg).session;
      var request := Frame(KindCode(Command), Cmd1, Value(Ok), [0, 20]);
      Run(server, Arrival(client.address, Encode(request))).0.trace == []
  {
    ExampleInitSucceeds(ServerHandle);
    var request := Frame(KindCode(Command), Cmd1, Value(Ok), [0, 20]);
    EncodeParse(request, Encode(request));
    StaleGateSwallowsFirstCommand(ExampleArgs, Some(ServerHandle), CommandHandler, ServerArg,
                                  Arrival(client.address, Encode(request)));
  }
}
