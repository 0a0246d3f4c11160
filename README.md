# simple-share: the file-transfer core in Dafny

simple-share sends files from one browser to another. The sending page
announces the selected files to a signaling relay. The receiving page joins
with a pickup code. The two pages then open a WebRTC peer connection and
stream every file over one ordered data channel: a `fileStart` text frame,
the file's chunks as binary frames, then a `fileEnd` text frame. The receiver
answers every binary frame with a `chunkReceived` text frame.

This project models the four pieces of logic that decide what crosses the
channel. The browser, React and socket.io are replaced by plain state.

- `frames.dfy` (module `Frames`) holds the values that cross the data
  channel. A frame is `Text(control message)` or `Binary(bytes)`. A chunk is
  `(data, done)`, and a chunker yields a finite run of them whose last chunk,
  and only that one, is flagged `done`.
- `socket.dfy` (module `Socket`) models the signaling bus's dispatch table
  from `utils/socket.ts`. It is a class over a `map<string, seq<HandlerId>>`
  with register, remove and dispatch. Its invariant is that no message type
  maps to an empty list.
- `peer.dfy` (module `PeerChannel`) models the connection object from
  `utils/Peer.ts` as a class with the fields `targetId`, `pc`, `dc`,
  `waitingCallback` and `isCaller`:
  - `pc` is an abstract record of the RTCPeerConnection: its connection
    state (section 4.3.3 of W3C WebRTC 1.0) and a log of the calls made on it;
  - `dc` is an abstract record of the RTCDataChannel (section 6.2 of W3C
    WebRTC 1.0): ready state, buffered amount, a log of sent frames and a
    `closed` flag;
  - the event emitter is a log of emitted events, and relayed signals are a
    log of messages.

  The flow control of `send` is also stated as pure functions (`SendFlow`,
  `ReleaseFlow`, `DisconnectFlow`), and the methods are proved to follow them.
- `send_page.dfy` (module `SendPage`) models the sending page
  (`app/page.tsx`): the descriptor mapping, the `channelOpen` handler that
  frames every file, and the progress bookkeeping. `peer.send` is modelled by
  its outcome alone, `accepts(k)` for the k-th call. The handler is a
  `Sender` method with a `for`-style loop over files and a `while (!done)`
  loop over chunks. Both loops are proved against the recursive
  specification `ChannelOpenFrom` / `SendFiles`.
- `recv_page.dfy` (module `RecvPage`) models the receiving page
  (`app/recv/page.tsx`) as a frame-driven state machine over `curFileId`,
  `recvBuffer`, `recvSizes` and `recvFiles`, plus the replies it sends.
  `Step` specifies one frame. The `Receiver` methods are proved to follow it.
- `transfer.dfy` (module `Transfer`) puts the two pages together. It states
  what the receiver ends up with when it is fed the frames the sender put on
  the channel, and what the sender learns from the receiver's replies.

Two properties of the code as written are encoded, not fixed:

- The receive buffer is never cleared. Every download after the first one
  therefore holds the bytes of all earlier files too (`Transfer.ReceiveSession`,
  `Transfer.StaleBuffer`).
- The receiver reports its count under `recvSize`, but the sender reads
  `recvBytes`. The sender's progress therefore only ever records "undefined"
  (`Transfer.AcknowledgeSizeReplies`, `Transfer.RepliesCarryNoCount`).

When the send of any chunk but the file's last one fails, the code leaves
that file's `while` loop with `done` still false. The `if (done)` guard at
app/page.tsx:106 then skips the file's `fileEnd`, and the `for` loop carries
on with the next file. `SendPage.SendFile` has the `EndSkipped` status for
this case. When the last chunk's send fails, `done` is already true, so
`fileEnd` is still sent (see "## Findings"). When a
`fileStart` or `fileEnd` send fails, the rejection escapes the async handler
and ends it. `SendPage.SendFile` has the `Threw` status for this case.

## Model

| member | source | states |
|---|---|---|
| Frames.Lookup | app/page.tsx:125-129 | reading a numeric field of a payload gives a value exactly when the field is present, and then that field's value (absent reads as undefined) |
| Frames.FlattenAppend | app/recv/page.tsx:71 | the bytes of a list of buffers laid end to end distribute over concatenation of the list, as does their total length |
| Frames.FlattenLength | app/recv/page.tsx:71 | the assembled payload is exactly as long as the sum of the buffer lengths |
| Frames.ChunkFrames | app/page.tsx:93-105 | one binary frame per chunk, carrying that chunk's data, in chunker order |
| Frames.ChunkData | app/page.tsx:96-100 | the buffers of a run of chunks are the chunks' data, in order |
| Frames.BinaryPayloadsAppend | app/recv/page.tsx:89-91 | the binary payloads of two runs of frames are those of the first followed by those of the second |
| Frames.BinaryPayloadsOfChunks | app/recv/page.tsx:89-91 | the binary payloads of the frames that carry a run of chunks are exactly the chunks' data |
| Socket.Registered | utils/socket.ts:11-15 | registering appends the handler at the end of the type's list, leaves every other type's list as it was, and keeps "no empty list" |
| Socket.Removed | utils/socket.ts:17-25 | the type's list becomes the old list with every occurrence of the handler filtered out; removing leaves other types alone, keeps the type exactly when handlers other than the removed one remain, and keeps "no empty list" |
| Socket.WithoutDropsEveryOccurrence | utils/socket.ts:19 | the filter removes every occurrence of the handler |
| Socket.WithoutKeepsOthers | utils/socket.ts:19 | the filter keeps every other handler exactly as many times as it occurred |
| Socket.WithoutKeepsOrder | utils/socket.ts:19 | the remaining handlers keep their relative order (the result is a subsequence of the old list) |
| Socket.WithoutAbsentIsIdentity | utils/socket.ts:19 | filtering out a handler that is not listed changes nothing |
| Socket.WithoutAppend | utils/socket.ts:19 | the filter distributes over concatenation |
| Socket.RegisterTwiceListsTwice | utils/socket.ts:12-13 | registering the same handler twice lists it twice (no deduplication) |
| Socket.RemoveUnregisteredIsIdentity | utils/socket.ts:18-21 | removing from a type with no handlers leaves the table unchanged |
| Socket.RegisterThenRemove | utils/socket.ts:11-25 | register then remove leaves the type's list as the old list without that handler, and exactly the old list when the handler was not there before |
| Socket.MessageBus.constructor | utils/socket.ts:4 | the table starts empty, which satisfies the invariant |
| Socket.MessageBus.Register | utils/socket.ts:11-15 | the new table is `Registered` of the old one, and the invariant is preserved |
| Socket.MessageBus.Remove | utils/socket.ts:17-25 | the new table is `Removed` of the old one, and the invariant is preserved |
| Socket.MessageBus.HandleMessage | utils/socket.ts:27-45 | on a table with no empty list, it calls nothing exactly when the type is unregistered; otherwise each registered handler is called exactly once, in registration order, with the payload, and a handler that throws does not stop the later ones |
| PeerChannel.EventFor | utils/Peer.ts:69-85 | `disconnected`, `connected`, `connecting` and `failed` map to the disconnected, connected, connecting and connectFailed events, each if and only if; `new` and `closed` map to no event |
| PeerChannel.CloseChannel | utils/Peer.ts:72 | a closed channel is flagged closed, is no longer open, and keeps its sent log |
| PeerChannel.NewDataChannel | utils/Peer.ts:115 | the caller's channel is ordered, not yet open, not closed, and has sent nothing |
| PeerChannel.SignalActions | utils/Peer.ts:42-51 | the payload's description, and only it, is applied, and first; an answer is created if and only if the description is an offer; the payload's candidate, and only it, is added if and only if no description came; no other call is made, so there are two calls for an offer, one for another description or a lone candidate, none for an empty payload |
| PeerChannel.SendFlow | utils/Peer.ts:202-229 | not open: rejected with the channel's state, nothing handed over, waiter unchanged; open below 1 MiB buffered: resolved, the data appended to the channel exactly once, waiter unchanged; open at 1 MiB or more: nothing sent, the data parked as the only waiter, replacing any earlier one |
| PeerChannel.ReleaseFlow | utils/Peer.ts:195-212 | with no waiter nothing changes; on an open channel the waiter's data is handed over once, the send resolves and the waiter is cleared; with no channel the send resolves and the waiter is cleared without sending; on a channel that is not open `dc.send` throws before the waiter is cleared, so nothing is sent or settled and the waiter stays |
| PeerChannel.Drained | utils/Peer.ts:128 | when `bufferedamountlow` fires, the buffered amount is at most the 256 KiB low threshold; nothing else about the channel or the waiter changes |
| PeerChannel.DisconnectFlow | utils/Peer.ts:70-77 | the channel, when there is one, becomes `CloseChannel` of the old one (flagged closed, not open, sent log kept), the waiter's data is returned as rejected and the waiter cleared |
| PeerChannel.RunFlowDelivers | utils/Peer.ts:195-229 | in any order of sends, `bufferedamountlow` events, disconnects and changes of the buffered amount by the transport, the channel's log only grows, every new frame is the data of some send call or of the send parked at the start, at most one frame per send call (plus the parked one) is delivered, and at most one send is parked |
| PeerChannel.DrainThenSendDelivers | utils/Peer.ts:195-217 | on an open channel, after `bufferedamountlow` the parked data (if any) goes out, and the next send is handed over at once instead of parking |
| PeerChannel.SecondWaiterWins | utils/Peer.ts:205-213 | two parked sends then a drain deliver only the second one's data; the first is dropped unsettled |
| PeerChannel.DisconnectedNeverDelivers | utils/Peer.ts:70-77 | after a disconnect, a drain delivers nothing and a later send is rejected without touching the channel |
| PeerChannel.Peer.constructor | utils/Peer.ts:14-33 | all fields start null, no events, listeners or signals, and the signal handler is registered on the bus under `s2c_signal` |
| PeerChannel.Peer.On | app/page.tsx:60-78 | a listener is added for the event name; nothing else changes |
| PeerChannel.Peer.OnS2cSignal | utils/Peer.ts:35-52 | `targetId` is overwritten only when not the caller; a callee connection is created only when none exists; the connection gains exactly `SignalActions(payload)` |
| PeerChannel.Peer.OnDescription | utils/Peer.ts:54-67 | with a connection, the description is set locally and relayed to the target; without one nothing happens |
| PeerChannel.Peer.OnConnectionStateChange | utils/Peer.ts:69-87 | `disconnected` follows `DisconnectFlow` and emits the disconnected event; any other state emits `EventFor(state)` and touches no field |
| PeerChannel.Peer.OnRtcMessage | utils/Peer.ts:89-92 | an incoming message is re-emitted as a data event |
| PeerChannel.Peer.CreateRtcConnection | utils/Peer.ts:94-124 | the caller creates one ordered `file-transfer` channel, sets it up and starts an offer; the callee only waits for the remote channel |
| PeerChannel.Peer.SetupDataChannel | utils/Peer.ts:126-134 | the channel becomes `dc` with its low threshold at 256 KiB, arraybuffer binary type and handlers attached |
| PeerChannel.Peer.SetUp | utils/Peer.ts:126-134 | setup sets the threshold, the binary type and the handlers, and keeps the state, buffer and sent log |
| PeerChannel.Peer.ConnectPeer | utils/Peer.ts:148-151 | `targetId` is the target, this side is the caller, exactly one ordered channel is created and an offer started; the channel is a new connecting `file-transfer` channel, set up |
| PeerChannel.Peer.Destroy | utils/Peer.ts:153-165 | `targetId`, the waiter, `pc` and `dc` become null and all listeners are removed |
| PeerChannel.Peer.OnIceCandidate | utils/Peer.ts:167-180 | a candidate is relayed to the target; the end-of-candidates event relays nothing |
| PeerChannel.Peer.OnChannelOpen | utils/Peer.ts:182-185 | the `open` event, which only a channel that is neither closing nor closed receives: the channel is open, channelOpen is emitted and the channel starts receiving messages |
| PeerChannel.ConnectOpenSend | utils/Peer.ts:148-229 | connect, the channel opens, then a send on the empty buffer resolves and hands its data over at once: the channel has sent exactly that frame |
| PeerChannel.Peer.OnBufferedAmountLow | utils/Peer.ts:195-200 | the new channel and waiter are `ReleaseFlow` of the old ones |
| PeerChannel.Peer.Send | utils/Peer.ts:202-229 | the new channel, waiter and outcome are `SendFlow` of the old channel and waiter |
| PeerChannel.DisconnectWhileWaiting | utils/Peer.ts:70-78 | a send parked when the transport reports `disconnected` is never delivered, and nothing later reaches the closed channel |
| SendPage.Descriptors | app/page.tsx:49-56 | one descriptor per selected file, same order, with uid, name, size and type copied |
| SendPage.Uids | app/page.tsx:82-83 | the uids of the files, in order |
| SendPage.ChunkLoopPrefix | app/page.tsx:93-105 | the chunk loop hands over the chunks' frames in chunker order, never more than there are |
| SendPage.ChunkLoopSends | app/page.tsx:99-104 | every handed chunk went out on an accepted send, and the loop stops early only right after a rejected one |
| SendPage.ChunkLoopDone | app/page.tsx:94-95 | the loop reports `done` exactly when the final chunk was pulled, whether or not its send succeeded |
| SendPage.SendFileFraming | app/page.tsx:81-111 | a rejected `fileStart` sends nothing and ends the handler; a file that does not end is a strict prefix of its whole framing; a file that ends has `fileEnd` last, after a prefix missing at most the final chunk |
| SendPage.SendFileAllAccepted | app/page.tsx:81-111 | with every send accepted, a file is sent as `fileStart`, all its chunks, `fileEnd`, using exactly chunk count + 2 sends |
| SendPage.SendFilesAllAccepted | app/page.tsx:81-112 | with every send accepted, the files go out whole, one after another in selection order, and every file is started |
| SendPage.SendFilesStartsInOrder | app/page.tsx:81-112 | the files whose `fileStart` went out are a prefix of the selection in order, all of them unless the handler threw |
| SendPage.FinalChunkLostButFileEnded | app/page.tsx:94-111 | as written: with the final chunk's send rejected, `fileEnd` is still sent, so the framing is not a prefix of the file's whole framing |
| SendPage.ChunkLoopIntendedDone | app/page.tsx:93-105 | corrected loop: it hands over a prefix of the chunk frames and reports `done` exactly when all of them went out |
| SendPage.SendFileIntendedFraming | app/page.tsx:81-111 | corrected file: what is sent is always a prefix of the whole framing, and the file ends if and only if all of it was sent |
| SendPage.IntendedAgreesWhenAllAccepted | app/page.tsx:93-105 | with every send accepted, the corrected and the as-written loops behave identically |
| SendPage.AcknowledgeRecords | app/page.tsx:124-132 | a `chunkReceived` frame sets the file's entry and the last count to the payload's `recvBytes` (undefined when absent), present exactly when the payload has that field, and leaves other files' entries alone |
| SendPage.AcknowledgeIgnores | app/page.tsx:134-139 | binary frames and other control messages leave the progress unchanged |
| SendPage.LatestAppend | app/page.tsx:88 | the last file started over two runs is the last of the second run, or of the first when the second started none |
| SendPage.ChannelOpenFromRun | app/page.tsx:78-113 | the handler appends exactly the frames of `SendFiles` to the wire, makes the same number of sends, throws exactly when it does, leaves `curFileId` at the last file started, resets the last count to 0 once a file starts, and leaves `sendSizes` alone |
| SendPage.Sender.constructor | app/page.tsx:11-18 | empty progress, last count 0, no current file, nothing sent |
| SendPage.Sender.HandlePeerMsg | app/page.tsx:118-133 | the progress becomes `Acknowledge` of the old progress; nothing else changes |
| SendPage.Sender.OnRecvPeerData | app/page.tsx:134-139 | the progress becomes `Acknowledge` of the old progress for the frame; binary frames are ignored |
| SendPage.Sender.SendChunks | app/page.tsx:91-105 | the `while (!done)` loop appends exactly `ChunkLoop`'s frames, makes its number of sends and returns its `done` |
| SendPage.Sender.SendOneFile | app/page.tsx:82-111 | one iteration leaves the state `AfterFile` of the old state and returns `SendFile`'s status |
| SendPage.Sender.ChannelOpen | app/page.tsx:78-113 | the handler leaves the state and the thrown flag that `ChannelOpenFrom` gives for the old state |
| RecvPage.FindMime | app/recv/page.tsx:70 | none if and only if no listed file has the uid; otherwise the type of the first file with that uid |
| RecvPage.MarkDownload | app/recv/page.tsx:76-81 | same length and order; exactly the entries with the uid get the download; the others are unchanged |
| RecvPage.Step | app/recv/page.tsx:65-107 | text frames never touch the buffer, the sizes or the replies; `fileStart` changes only `curFileId`; `fileEnd` marks exactly the matching entries with the whole buffer and the first match's type; a binary frame is appended, adds its length to the current file's size (absent counts as 0) and no other, and is answered with one `chunkReceived` carrying the current file and its new total |
| RecvPage.Receive | app/recv/page.tsx:84-107 | replies are only ever added |
| RecvPage.ReceiveAppend | app/recv/page.tsx:84-107 | receiving two runs of frames is receiving the first, then the second |
| RecvPage.ReceiveBuffer | app/recv/page.tsx:9-91 | the buffer is the old buffer followed by every binary payload, in arrival order; it is never cleared |
| RecvPage.ReceiveReplies | app/recv/page.tsx:99-105 | exactly one reply per binary frame, each a `chunkReceived` whose only count is `recvSize` |
| RecvPage.ReceiveChunks | app/recv/page.tsx:92-96 | while a file's chunks arrive, its size grows by their total length, other sizes stay, and `curFileId` and the list do not move |
| RecvPage.ReceiveFile | app/recv/page.tsx:65-107 | a whole file sets `curFileId` to its uid, appends and counts its chunks, marks its entries with the whole buffer (old bytes included), and sends one reply per chunk |
| RecvPage.Receiver.constructor | app/recv/page.tsx:8-13 | no target, empty current file, buffer, sizes, list and replies |
| RecvPage.Receiver.HandleS2cPrepareRecv | app/recv/page.tsx:24-29 | the sender to connect to and the announced list are stored; nothing else changes |
| RecvPage.Receiver.HandlePeerMsg | app/recv/page.tsx:65-83 | the new state is `Step` of the old one for the control message |
| RecvPage.Receiver.OnRecvPeerData | app/recv/page.tsx:84-107 | the new state is `Step` of the old one for the frame |
| Transfer.Listing | app/recv/page.tsx:26-28 | the receiver's list holds the sender's descriptors, same order, no download yet |
| Transfer.FindsOwnMime | app/recv/page.tsx:70-73 | with distinct uids, looking a listed file up by its uid finds its own type |
| Transfer.ReceiveListed | app/recv/page.tsx:65-83 | one file framed whole marks its own entry, and only it, with the whole buffer under its own type |
| Transfer.ReceiveFrom | app/recv/page.tsx:65-107 | receiving the files from index k on leaves earlier entries alone, and entry j gets all bytes received from that point up to and including file j |
| Transfer.ReceiveSession | app/recv/page.tsx:9 | a whole session gives every listed file a download of its own type holding the bytes of all files up to and including it |
| Transfer.StaleBuffer | app/recv/page.tsx:71 | download i is download i-1's bytes followed by file i's own bytes; it is exactly file i's own bytes if and only if every earlier file was empty, as the first always is |
| Transfer.EndToEnd | app/page.tsx:78-113 | with every send accepted, the handler does not throw, and the receiver fed its frames has every listed file downloadable under its own type, the first holding exactly its own bytes |
| Transfer.AcknowledgeSizeReplies | app/page.tsx:124-131 | replies that carry only `recvSize` leave every recorded entry undefined (or as before) and the last count undefined |
| Transfer.RepliesCarryNoCount | app/recv/page.tsx:99-105 | whatever frames the receiver handles, its replies give the sender no byte count at all |

## Findings

| source | as written | input that shows it | evidently intended | confidence | as-written member | corrected member |
|---|---|---|---|---|---|---|
| app/page.tsx:94-111 | `done = result.done` is assigned before `await peer.send(chunk)`, so when the send of the final chunk is rejected the loop breaks with `done` true and `fileEnd` is sent anyway | one file with one chunk `[7]` flagged done; `fileStart` accepted, the chunk's send rejected, `fileEnd` accepted: the receiver gets `fileStart`, `fileEnd` and no bytes | `fileEnd` only after every chunk, the final one included, was delivered | high; not executed | SendPage.FinalChunkLostButFileEnded | SendPage.SendFileIntendedFraming |

The rest of the model keeps the loop as written (`SendPage.ChunkLoop`). The
corrected loop `SendPage.ChunkLoopIntended` is proved to agree with it
whenever every send succeeds (`SendPage.IntendedAgreesWhenAllAccepted`).

## Left out

- The socket.io transport and the relay message senders (`initSocket`, `prepareSend`, `prepareRecv`, `deleteRecvCode`) are network I/O. `getRandomString` is a library call that returns nothing. None of them is modelled.
- The relay itself is not part of this model. `Transfer.Listing` assumes it passes the sender's descriptors through unchanged.
- WebRTC negotiation (`createOffer`, `createAnswer`, `setLocalDescription`, `setRemoteDescription`, `addIceCandidate`) is logged as abstract actions on `pc`. `makeOffer` and `makeAnswer` are inlined as those actions. Their promise chains are taken as immediate and successful, and the descriptions they produce arrive through `OnDescription`.
- `ws.send` of `c2s_signal` messages is a log entry (`signals`).
- Promise and event-loop asynchrony: each callback is one method call, not concurrency.
- PeerChannel.Peer.Send: the data channel's `bufferedAmount` is owned by the browser, so it is an input; handing data over does not raise it by itself. In `PeerChannel.RunFlow` the transport changes it through `BufferOp`.
- PeerChannel.Peer.Send: `dc.send` on an open channel is taken never to throw, so the `catch` branch at utils/Peer.ts:218-221 is not modelled.
- PeerChannel.ReleaseFlow: the parked callback's `dc.send` on an open channel is taken never to throw (utils/Peer.ts:196-198, 210); a throw there would keep the waiter.
- PeerChannel.Peer.OnBufferedAmountLow: the same assumption as `PeerChannel.ReleaseFlow`, which it follows.
- Socket.MessageBus.HandleMessage: the model's handlers cannot change the table during dispatch. In the code, a handler registered for the same type during dispatch is pushed onto the array being iterated and is called in that same dispatch, and a handler removed during dispatch is still called because removal builds a new array. No handler in this code base does either.
- PeerChannel.Peer.Destroy: the connection and channel dropped by `destroy` are no longer observable, so their closing is not kept. The bus handler stays registered, as in the code.
- `onChannelClose` and `onChannelError` only log and are not modelled.
- PeerChannel.Drained: `bufferedamountlow` is modelled with the constant `BufferedAmountLowThreshold` (256 KiB). The channel's `lowThreshold` field is only stored by `setupDataChannel`.
- The browser's own move of the channel to `open` is folded into `PeerChannel.Peer.OnChannelOpen`, the handler of the event that announces it.
- React rendering, hooks, `useEffect` and the empty `setInterval` timer are not modelled. React state is plain fields updated synchronously.
- Stale closures are not modelled. In the code, the `data` handler is registered once and captures the `curFileId` and `recvFiles` of the render that registered it. The model reads the current state instead.
- RecvPage.Step: the code mutates the matching `recvFiles` items in place inside `map`. The model builds a new list of values, so aliasing between renders is not captured.
- The `bps` throughput state, `alert` and `console` logging are not modelled.
- `Blob`, `URL.createObjectURL` and `FileSaver` are not modelled. A finished download is modelled as the assembled bytes plus the mime type.
- `uuid` generation (`handleChange`) is not modelled. Files arrive with their uids.
- JSON parsing and serialisation of control frames are not modelled. Frames are a datatype, and a malformed string is not modelled.
- The chunker's internals and read errors are not modelled. A chunker is a finite run of `(data, done)` chunks whose last chunk, and only that one, is done.
- The receiver's `peer.send` of each reply is recorded as a reply frame. Its promise, which may reject, is ignored, as in the code.
- SendPage.Sender.ChannelOpen: `peer.send` is abstracted to its outcome `accepts(k)`. The model does not connect it to `PeerChannel.Peer.Send`'s buffering.
