# LDP device protocol and TP transport session, modelled in Dafny

This project models two layers of a small serial-link stack.

**LDP device protocol.** LDP frames carry a kind (event, command or response), a packet id, a status code and a body. One session:

- keeps a three-slot handler table, one slot per frame kind;
- keeps the latest frame received and a single receive gate;
- gives every synchronous command a bounded wait for its response. The wait is at most five calls of the transport's process routine, ending early on a match, matched on kind and id.

**TP transport session.** Underneath LDP sits the TP transport session:

- one driver handle and one memory region, carved once into a context and a response buffer;
- a send that flushes the driver and then writes one command frame;
- a process routine that runs the byte-level receive machine once from scratch. It reports a good frame to one registered callback, and only then.

The model is functional. A session is an immutable record, every API call is a pure function from a session to a session, and the driver is replaced by data:

- A run of the receive machine is a `Transport.Attempt`: the tick it started at, the terminal status it reached, and the address and payload it decoded.
- A synchronous call is given the script of attempts its `TP_Process` calls will see.
- Application callbacks are foreign code. Dispatching a frame appends `(kind, handler, argument, address, frame)` to the session's trace. The address is the frame's address field: the peer address the other end stamped when sending.

Modules, one file each:

- `Base` (`base.dfy`): bytes, `Option`, zero fill, 32-bit unsigned wrap-around.
- `StatusCodes` (`status_code.dfy`): the eight LDP status codes and their wire values.
- `Frames` (`frames.dfy`): the frame header, the size constants, encoding and parsing, `LDP_SET_FRAME_HEADER`, the handler table.
- `Transport` (`transport.dfy`): `TP_Init`, `TP_Send`, `TP_Process`.
- `DeviceProtocol` (`device_protocol.dfy`): the receive callback and gate, `LDP_Init`, registration, `LDP_Run`, `LDP_SendGeneric` and its wait.
- `Api` (`api.dfy`): the command, response and event calls built on the shared send.
- `Scenario` (`scenario.dfy`): the client/server exchange documented with the API.

Some headers are not part of this model: `Frame.h`, `PacketID.h`, the transport's `Service.h` and `TransportProtocol.h`. Where they would fix a value, the model uses stand-ins:

- the header is three one-byte fields: kind, id, status;
- the kind codes are Event = 0, Command = 1, Response = 2;
- the packet ids are Cmd1 = 1, Cmd2 = 2, Evt1 = 3, Evt2 = 4;
- `sizeof(st_cmd1)` = 2 and `sizeof(st_cmd2)` = 4;
- `sizeof(TP_Context)` = 96, `sizeof(LDP_Context)` = 88, `sizeof(TP_Obj)` = 8.

The contracts use these values through their names, except for the literal records of the documented exchange in `Scenario`. The arithmetic on them is the source's:
- the work buffer is header + 128 bytes;
- five tries;
- a 2000 ms transport deadline;
- a region that must exceed the sum of the carved parts.

`TP_ASSERT(c)` is read as "if `c` holds, give up and jump to `end`". This follows the `end:` labels and the polarity of every use; the macro itself is not part of this model.

Two facts about the transport code shape the model:

- `TP_Init` gives the whole remainder of the region to the response buffer. No room for a header or a checksum is reserved beside it (`Transport.Carve`).
- `TP_Send`'s own lines make no size comparison. Whether the frame writer `TPSendFrame` refuses a frame is not part of this model and is folded into the `written` parameter (`Transport.Send`).

## Model

| member | source | states |
|---|---|---|
| `StatusCodes.FromValue` | LDP/src/StatusCode.h:36-46 | a byte names a status code exactly when it is one of 0x00–0x05, 0xFE, 0xFF |
| `StatusCodes.ValueRoundTrip` | LDP/src/StatusCode.h:38-45 | reading back a code's wire value gives that code, and a byte that reads as a code is that code's value |
| `StatusCodes.ExactlyEightDistinct` | LDP/src/StatusCode.h:36-46 | the enumeration has exactly eight codes and no two share a wire value |
| `StatusCodes.DocumentedTableAgrees` | LDP/src/StatusCode.h:20-29 | the documented name/value table lists every code once, each row with that code's enumerator value |
| `Frames.KindOf` | LDP/src/Service.c:31 | a kind byte names a frame kind exactly when it is below the kind count |
| `Frames.KindRoundTrip` | LDP/src/types.h:38 | kind codes and kind bytes below the count are inverse to each other |
| `Frames.EncodeParse` | LDP/src/types.h:54 | the body starts at a fixed header offset: parsing an encoded frame gives it back, parsing is the inverse of encoding, and a frame's length is the header plus the body |
| `Frames.SetFrameHeader` | LDP/src/types.h:49-52 | storing a header writes exactly kind, id and status: the buffer keeps its length and every byte past the header |
| `Frames.WriteFrame` | LDP/src/Service.c:129-131 | the work buffer starts with the encoding of the outgoing frame, and bytes past it are untouched |
| `Frames.SetSlot` | LDP/src/types.h:26-30 | storing a handler fills that kind's slot and leaves every other slot as it was |
| `Frames.TableShape` | LDP/src/types.h:38 | the table has one slot per frame kind, every in-range kind byte indexes one, and the initial table is empty |
| `Frames.WorkBufferFits` | LDP/src/types.h:44-55 | the work buffer holds a header and a 128-byte body, and that length fits the 16-bit field recording it |
| `Transport.Carve` | TransportProtocol/src/Service/Service.c:14-30 | the context sits at offset 0, the response buffer right after it, the payload room is the rest, and the parts end exactly at the region's size, so the second bound check never fires |
| `Transport.Init` | TransportProtocol/src/Service/Service.c:10-43 | rejected exactly on a missing object, driver or buffer, a missing Open/Read/Write/Close entry, or a region no larger than the context; otherwise it succeeds exactly when Open returns a handle, with the handle, timeout, callback, parameter and carving stored |
| `Transport.InitIgnoresUncheckedOps` | TransportProtocol/src/Service/Service.c:12 | whether init is rejected does not depend on the Flush, Tick or Sleep entries, nor on what Open returns |
| `Transport.Stamp` | TransportProtocol/src/Service/Service.c:53-57 | the command header carries the caller's address and payload, and a 16-bit length equal to the payload length when it fits |
| `Transport.SendFlushesUnchecked` | TransportProtocol/src/Service/Service.c:46-51 | init accepts a driver with no Flush entry, and the send on that context still calls Flush |
| `Transport.Send` | TransportProtocol/src/Service/Service.c:46-64 | the driver is flushed, then exactly one frame with the caller's address and payload is written; the result is whether the write succeeded and nothing else changes |
| `Transport.Fresh` | TransportProtocol/src/Service/Service.c:68-75 | every process call starts idle, with no byte read, an empty header and a new deadline baseline, keeping the configuration |
| `Transport.Process` | TransportProtocol/src/Service/Service.c:66-86 | the callback is invoked at most once, exactly when the run succeeded and a callback is set, with the registered parameter and the decoded address and payload |
| `Transport.ProcessForgetsEarlierRuns` | TransportProtocol/src/Service/Service.c:68-80 | two sessions that differ only in what earlier runs left behind give identical results: no partial frame carries over |
| `DeviceProtocol.DispatchFor` | LDP/src/Service.c:31-37 | a frame is handed to a handler exactly when its kind is in range and that slot holds one, which gets its registered argument, the frame's address field and the frame |
| `DeviceProtocol.Receive` | LDP/src/Service.c:23-41 | a delivery that covers a header opens the gate, becomes the latest frame and sets the payload size to the delivered size less the header, and nothing else but the trace changes; a shorter delivery changes nothing |
| `DeviceProtocol.ReceiveDispatch` | LDP/src/Service.c:29-38 | a frame reaches a handler exactly when no call is waiting or it is an event, its kind is in range and the slot is filled; then exactly one dispatch with the handler's argument, the frame's address field and the frame is recorded, and otherwise none |
| `DeviceProtocol.PayloadSizeAsWritten` | LDP/src/Service.c:27 | the unsigned payload size computed from a delivered size equals the size less the header whenever the size covers a header |
| `DeviceProtocol.ShortDeliveryOverstatesPayload` | LDP/src/Service.c:27 | for a delivery shorter than the header the computed payload size wraps to nearly 2^32, beyond the bytes delivered and the largest body |
| `DeviceProtocol.ReceiveAsWritten` | LDP/src/Service.c:23-41 | the callback as the source writes it, for a delivery of any length: the gate is always cleared, the payload size is the unsigned subtraction, the header is read from the buffer even past the delivered bytes, and on a delivery that covers a header it agrees with `Receive` |
| `DeviceProtocol.EmptyDeliveryOpensGateAsWritten` | LDP/src/Service.c:26-40 | during a wait, an empty delivery opens the gate as written, so the command after it is dispatched, while under `Receive` the gate stays closed and the command is held back |
| `DeviceProtocol.Process` | LDP/src/Service.c:23-41 | a successful run with a callback set hands the delivered frame to the receive callback after the transport's run; otherwise only the transport changes; registration, address, work buffer, driver log and transport callback are never changed by receiving |
| `DeviceProtocol.Run` | LDP/src/Service.c:113-118 | `LDP_Run` always reports true and gives the transport exactly one process call |
| `DeviceProtocol.Register` | LDP/src/Service.c:74-111 | a NULL callback is refused and changes nothing; otherwise only that kind's slot is overwritten with the callback and argument |
| `DeviceProtocol.RegisterEventCallback` | LDP/src/Service.c:74-85 | as `Register`, for the event slot |
| `DeviceProtocol.RegisterCommandCallback` | LDP/src/Service.c:87-98 | as `Register`, for the command slot |
| `DeviceProtocol.RegisterResponseCallback` | LDP/src/Service.c:100-111 | as `Register`, for the response slot |
| `DeviceProtocol.RegisteredArgComesBack` | LDP/src/LDP.h:218-219 | after registration, a frame of that kind that passes the gate is dispatched to that callback with the registered argument as first parameter |
| `DeviceProtocol.EventsNeedEventHandler` | LDP/src/LDP.h:212-213 | an event is discarded when no event handler is registered and dispatched once when one is, gate or no gate |
| `DeviceProtocol.TransportArgs` | LDP/src/Service.c:64 | the transport is given the receive callback, a 2000 ms deadline and exactly the bytes left after the LDP context, work buffer and transport object |
| `DeviceProtocol.InitWith` | LDP/src/Service.c:43-72 | init aborts exactly on a missing object, port or buffer or a region too small for the LDP parts; otherwise it is ready exactly when the transport opens, with an empty table, the full-size work buffer and peer address 0, and with gate and latest frame left as the buffer held them |
| `DeviceProtocol.Init` | LDP/src/Service.c:43-72 | a ready session is valid, has no call waiting, no latest frame, an empty table and peer address 0, and succeeds or fails exactly as the source's init does |
| `DeviceProtocol.StaleGateSwallowsFirstCommand` | LDP/src/Service.c:29-45 | with the gate left as a stale true, the first command from the peer reaches no handler, while the corrected init dispatches it |
| `DeviceProtocol.CopyOut` | LDP/src/Service.c:151-156 | when the declared size holds the body, the declared region is zeroed, the size becomes the body length and the body is copied to the front; otherwise the buffer and size are untouched |
| `DeviceProtocol.Armed` | LDP/src/Service.c:142-143 | a synchronous call starts its wait with no latest frame and the gate closed, nothing else changed |
| `DeviceProtocol.Await` | LDP/src/Service.c:141-160 | the wait makes between one and five calls, ends on a match only if the latest frame is the awaited response, and otherwise uses all its tries |
| `DeviceProtocol.AwaitIsProcessAll` | LDP/src/Service.c:144-146 | the session a wait leaves is the one left by exactly the calls it made |
| `DeviceProtocol.AwaitNoEarlierMatch` | LDP/src/Service.c:147-157 | no call before the wait's last one produced the awaited response |
| `DeviceProtocol.AwaitFindsFirstMatch` | LDP/src/Service.c:141-160 | the wait matches exactly when one of its five calls produces the response, and it stops at the first such call |
| `DeviceProtocol.PutFrame` | LDP/src/Service.c:125-137 | the work buffer holds the encoded frame and exactly its bytes are flushed and written to the peer address |
| `DeviceProtocol.SyncWait` | LDP/src/Service.c:139-161 | either five calls go by without the response and the result is Protocol Error with the buffer untouched, or the response's status is returned and its body copied out |
| `DeviceProtocol.Send` | LDP/src/Service.c:120-166 | an oversized frame gives Parameter Error with nothing sent; otherwise the frame is written, and a failed write or a call that does not wait gives Protocol Error with the receive state untouched, while a waiting call ends as `SyncWait` says |
| `DeviceProtocol.Poll` | LDP/src/Service.c:141-160 | the do-while loop with its counted tries ends in the state, match flag and call count the wait defines |
| `DeviceProtocol.WaitForResponse` | LDP/src/Service.c:139-161 | the loop followed by the status pick-up and output copy computes exactly `SyncWait` |
| `DeviceProtocol.SendGeneric` | LDP/src/Service.c:120-166 | the imperative send with its early exits computes exactly `Send` |
| `DeviceProtocol.AwaitSilent` | LDP/src/Service.c:144-160 | with the gate closed, calls that complete no frame leave gate, latest frame and trace untouched and never end the wait |
| `DeviceProtocol.SilentPeerTimesOut` | LDP/src/Service.c:139-165 | against a silent peer a synchronous call makes exactly five calls, returns Protocol Error, leaves the caller's buffer alone, dispatches nothing and leaves the gate closed |
| `DeviceProtocol.ReplyBytes` | LDP/src/types.h:49-54 | the bytes of a response to a given id parse back as that response |
| `DeviceProtocol.AwaitReply` | LDP/src/Service.c:144-157 | with the gate closed, silent calls followed by the response to the awaited id end the wait right after that call, on that response |
| `DeviceProtocol.ReplyAfterSilence` | LDP/src/Service.c:139-157 | a response to the sent id completed by call k+1 after k silent calls ends the call after k+1 calls with the response's status and its body copied out |
| `DeviceProtocol.MatchComesFromLastCall` | LDP/src/Service.c:142-147 | a wait only ends on a frame its own last call completed, never on one left from before the call |
| `DeviceProtocol.EventPassesClosedGate` | LDP/src/Service.c:29-40 | while a call waits, an event is still dispatched to the event handler, opens the gate, and cannot end the wait |
| `DeviceProtocol.ForeignFrameOpensGate` | LDP/src/types.h:39-45 | with one gate per session, a non-event frame other than the awaited response arriving during a wait is not dispatched, opens the gate and does not end the wait, so the next command from the peer is dispatched |
| `DeviceProtocol.ForeignFrameDuringWait` | LDP/src/Service.c:144-157 | within a wait, a call completing a foreign frame and the next completing a command get that command dispatched with the registered argument, no match, and the wait continues with two tries fewer |
| `Api.Bytes` | LDP/src/Service.c:171-203 | a NULL record is sent as no payload and a present record as its bytes |
| `Api.OutBuffer` | LDP/src/Service.c:170-171 | a caller's record used for output has its own size as declared size, and there is no output buffer for NULL |
| `Api.Command1` | LDP/src/Service.c:168-172 | sends a command frame with id Cmd1, status OK and the record, then waits for the Cmd1 response and copies its body into the output record |
| `Api.Command1Async` | LDP/src/Service.c:174-177 | sends the same command frame but never waits, returns Protocol Error and leaves the receive state to the handlers |
| `Api.Command2` | LDP/src/Service.c:180-184 | sends a Cmd2 command with no payload and waits for its response, whose body lands in the caller's record |
| `Api.Response1` | LDP/src/Service.c:186-189 | sends a response frame with id Cmd1, the given status and the record, without waiting |
| `Api.Response2` | LDP/src/Service.c:191-194 | sends a response frame with id Cmd2, the given status and the record, without waiting |
| `Api.Event1` | LDP/src/Service.c:196-199 | sends an event frame with id Evt1, status OK and the record, without waiting |
| `Api.Event2` | LDP/src/Service.c:201-204 | sends an event frame with id Evt2, status OK and the record, without waiting |
| `Api.NoWaitIsNeverOk` | LDP/src/Service.c:132-139 | a call that does not wait never returns OK: its code reads back as Protocol Error |
| `Api.AsyncReplyReachesResponseHandler` | LDP/src/LDP.h:277-278 | after an asynchronous command with the gate open, the next run completing its response dispatches it to the response handler with the registered argument |
| `Api.TimedOutCallSwallowsAsyncReply` | LDP/src/Service.c:139-165 | after a synchronous command 1 times out against a silent peer, the gate stays closed, so the response to a later asynchronous command 1 reaches no handler |
| `Scenario.ServerReply` | LDP/src/LDP.h:28-46 | the documented server answers command 1 with OK and the fields plus one and plus two, command 2 with Not Supported and no record, and ignores other ids |
| `Scenario.ExampleInitSucceeds` | LDP/src/LDP.h:53-61 | the example's 512-byte region and a driver with all seven entry points give a ready session on either end, under the corrected `Init` |
| `Scenario.DocumentedExchange` | LDP/src/LDP.h:32-37 | the client's command 1 with {0, 20} reaches the server's handler with its argument, the server answers OK with {1, 22}, and the client's call returns OK with {1, 22} in its output record after one call; both ends are set up by the corrected `Init`, whose gate starts open |
| `Scenario.UninitialisedServerSwallowsRequest` | LDP/src/LDP.h:53-59 | with the source's init on the example's uninitialised region, a server whose gate byte reads true dispatches nothing for the documented request |

## Left out

- The byte-level receive machine of the transport is not part of this model, and neither are its CRC, the frame writer, the 16-bit size encoding and decoding, or the context reset. One run of the machine is abstracted as an `Attempt`.
- Driver I/O and wall-clock time are not modelled. Open's result, whether a write succeeded, and each run's outcome and tick are parameters, so no deadline bound is stated.
- Application callbacks are not executed. A dispatch is recorded in the trace. A handler that sends from inside the dispatch (re-entrancy) is not modelled; `Scenario` runs the server's handler after the dispatch instead.
- `LDP_Command2Async` is declared in LDP/src/LDP.h:297 and defined nowhere, so it is not modelled.
- The prototypes of `LDP_Command1` and `LDP_Response1` in LDP.h differ from their definitions. The model follows the definitions in Service.c.
- `st_cmd1`/`st_cmd2` layouts and the packet ids are stand-ins. A record is an opaque run of bytes of a fixed length. In `Scenario` it is two one-byte fields, and a field missing from a short body reads as zero.
- The work buffer's initial contents are taken to be zeros. The source leaves whatever the caller's buffer held; the model never reads those bytes before writing them.
- There is no `LDP_Obj`/`TP_Obj` indirection. The object pointer is folded into the session, so these source behaviours are not modelled:
  - the registration functions reading `obj->handle` before testing `obj`;
  - the send's NULL-context test;
  - the scaled pointer `(TP_Obj *)buffer + offset`.
- `DeviceProtocol.InitWith`: an aborted init promises no return value, because the source returns an uninitialised variable on that path.
- `DeviceProtocol.MatchComesFromLastCall`, `DeviceProtocol.Await`, `DeviceProtocol.SyncWait`: hold of the model, where the latest frame is a value. In the source it is a pointer into the transport's response buffer. A later unsuccessful run may partly overwrite that buffer, so a wait reopened by a foreign frame could match on bytes that run left. The model does not promise that case.
- `Scenario.DocumentedExchange`: proved for the corrected `Init`, which is the source's init on a region whose gate byte reads false. The example's region is an uninitialised stack array, and a gate byte that reads true makes the server swallow the request (`Scenario.UninitialisedServerSwallowsRequest`).
- `Scenario.ExampleInitSucceeds`: proved for the corrected `Init`, as for `Scenario.DocumentedExchange`. The source's init succeeds or fails exactly as it does.
- `DeviceProtocol.Send`: requires the frame size to fit 32 bits. The source adds the header to a 32-bit size, but every caller passes a record size.
- `DeviceProtocol.SendGeneric`: requires the frame size to fit 32 bits, as `Send` does.
- `Transport.Stamp`: the 16-bit length field is taken as the payload length modulo 2^16. The conversion routine is not part of this model.
- `DeviceProtocol.Receive`: drops a delivery shorter than a header, where the source clears the gate and reads a header past the delivered bytes (`DeviceProtocol.ReceiveAsWritten`). The wait lemmas hold for this corrected callback only. Whether the transport can deliver fewer than three bytes depends on its receive machine, which is not part of this model.
- `Transport.Send`: records the call to the driver's `Flush` entry but does not model what happens when the driver has none. `TP_Init` checks only Open, Read, Write and Close, and `TP_Send` calls Flush unchecked (`Transport.SendFlushesUnchecked`).
- `Transport.Process`: the driver's `Tick` entry is called unchecked too, and the tick is a parameter of the `Attempt`. A driver without Tick is not modelled.
- `Api.AsyncReplyReachesResponseHandler`: holds only with the gate open. Only the callback clears the gate, so after a synchronous call times out, the next non-event frame is swallowed, including the response to an asynchronous command (`Api.TimedOutCallSwallowsAsyncReply`).
- "At most one synchronous call is tracked" is not a lemma: the session has one gate and one latest frame by construction. `DeviceProtocol.ForeignFrameOpensGate` shows the consequence.

## Findings

| source | as written | input that shows it | evidently intended | confidence | as-written member | corrected member |
|---|---|---|---|---|---|---|
| LDP/src/Service.c:27 | the payload size is the delivered size less the header, in unsigned 32-bit arithmetic, with no check that a header was delivered | a TP frame carrying 0, 1 or 2 bytes: the payload size becomes 2^32 − 3 + size, and the header fields are read past the delivered bytes | a delivery shorter than an LDP header is not a frame and is dropped | not executed | `DeviceProtocol.PayloadSizeAsWritten`, `DeviceProtocol.ShortDeliveryOverstatesPayload`, `DeviceProtocol.ReceiveAsWritten`, `DeviceProtocol.EmptyDeliveryOpensGateAsWritten` | `DeviceProtocol.Receive` |
| LDP/src/Service.c:43-72 | init never sets the gate, the latest frame or the payload size | a caller's region whose gate byte is non-zero, such as a reused or uninitialised stack buffer: the first command from the peer is not dispatched although no call waits | init clears the gate and the latest frame | not executed | `DeviceProtocol.InitWith`, `DeviceProtocol.StaleGateSwallowsFirstCommand` | `DeviceProtocol.Init` |
