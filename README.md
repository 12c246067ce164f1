# SwiftSend: per-peer file-transfer bookkeeping

SwiftSend lets peers in a shared room send files to each other over direct
data channels. A socket.io relay carries the signalling. This project models
the bookkeeping that the client (`src/App.tsx`) keeps for each remote peer,
and proves properties of that model.

- **Widget table** (`openedUser`): peer id → direction (send or receive),
  file name, declared size and the sender's offset.
- **Pending-request table** (`pendingRequests`): peer id → waiting or
  downloading.
- **Reassembly buffer table** (`downloadedChunks`): peer id → received chunks,
  declared size and received byte count.
- **Connection registry** (`peerConnections`): it holds at most one live
  connection per peer.

The transfer protocol is stop-and-wait:
- The sender transmits the slice `[offset, offset + 204800)` of the file and
  then advances its offset by 204800. It does this once per "request accepted"
  event and once per ack.
- The receiver appends each binary chunk and adds the chunk's length to its
  count. While the count is below the declared size, it replies with one ack.
  Otherwise it emits `transfer-finished`, saves the concatenated chunks and
  drops the peer's entries from all three tables.

Layout:

- `chunking.dfy` (module `Chunking`): bytes, `Blob.slice`, the sender's
  slices and their concatenation.
- `reassembly.dfy` (module `Reassembly`): the receive buffer and its append
  step.
- `exchange.dfy` (module `Exchange`): the two peers' steps composed into one
  whole transfer. `Run` uses the same `NextChunk` and `Append` that the
  handlers' contracts use. The lemmas prove that the receiver ends up holding
  exactly the file, after `ChunkCount(|file|)` rounds of one chunk and one reply
  each.
- `app.dfy` (module `SwiftSend`): class `App`, with one method per handler.
  The React state and the refs are fields of type `map`. Each method's
  `modifies` clause names only the tables it writes. Its `ensures` clauses give
  each of those tables, and the event log, as a function of the old state.
  `Valid()` is the invariant that every method keeps:
  - a peer has a selected file only while its file input is rendered, that
    is, while the peer is listed and its widget is a send widget;
  - every buffer's count is the total length of its chunks;
  - the registry holds one live connection per peer.

Modelling choices:
- Everything the client hands to the outside is appended to `log`: socket
  emits, data-channel sends, calls into its transport connections, and the
  downloaded file.
- The file selected in a peer's hidden `<input type="file">` is the field
  `fileInputs`. That element is rendered only inside the peer's send widget,
  for a listed peer (src/App.tsx:599, 625, 645-650). So the selection is
  dropped whenever the element unmounts: the widget closes, is cancelled or
  finishes a download, becomes a receive widget, or the peer leaves. The
  browser's picker sets the selection only on a rendered element
  (`PickFile`). A handler that looks the element up finds nothing when the
  widget is not a send widget (`InputMounted`).
- Two source handlers throw a `TypeError` in the event handler itself:
  `acceptRequest` reading the widget of a peer that has none (src/App.tsx:269),
  and the data-channel handler appending to a missing buffer
  (src/App.tsx:371). The model performs the steps that come before the throw
  and then stops, as the browser does.
- The other throws happen inside a `setState` updater (src/App.tsx:214, 345,
  347, 389, 410). The model treats them the same way, which the source does
  not; see "## Left out".

Three facts about the code's arithmetic, all followed by the model:
- An empty file is still sent as one empty chunk, because the receiver
  decides completion only when a chunk arrives. The number of chunks is
  `max(1, ceil(size / 204800))` (`ChunkCount`).
- The receiver never compares a chunk with the declared size. Bytes beyond it
  are appended, and the transfer is then reported complete
  (`Reassembly.OverLengthAccepted`).
- The sender always adds 204800 to its offset, not the length of the chunk
  it sent. The two agree on every chunk except the last, and the offset is
  reset to 0 once the transfer finishes.

## Model

| member | source | states |
|---|---|---|
| Chunking.Slice | src/App.tsx:347 | `file.slice(start, end)` returns exactly the bytes at positions `start .. min(end, size)`, or no bytes when that range is empty. |
| Chunking.NextChunk | src/App.tsx:345-347 | One sender step transmits at most 204800 bytes: the file from the offset up to `offset + 204800` (clamped to the end), or nothing once the offset is past the end. |
| Chunking.Chunks | src/App.tsx:343-360 | Chunk number k, counted from 0, is the slice at offset `k * 204800`. |
| Chunking.ChunkCount | src/App.tsx:374-378 | The number of chunks a transfer takes is the ceiling of `size / 204800`, with a minimum of one. |
| Chunking.ChunksReassemble | src/App.tsx:343-360 | The first n slices concatenate to the first `min(n * 204800, size)` bytes of the file. So the slices are contiguous, disjoint and in order. |
| Chunking.ChunksCoverFile | src/App.tsx:343-360 | After `ChunkCount(size)` steps, the slices concatenate to the whole file. |
| Chunking.ChunkSizes | src/App.tsx:90 | Every slice of a transfer is a full 204800 bytes except the last. The last holds the remaining bytes, and at least one of them when the file is not empty. |
| Chunking.FlattenLength | src/App.tsx:390 | The saved blob's length is the sum of the chunks' lengths. |
| Reassembly.Empty | src/App.tsx:266-272 | A new buffer holds no chunks, has count 0 and records the declared size. |
| Reassembly.Append | src/App.tsx:371-372 | Appending a chunk raises the count by exactly the chunk's length (so the count never drops) and extends the image by the chunk. It also keeps the count equal to the total length of the chunks. |
| Reassembly.ReceivedIsImageLength | src/App.tsx:371-390 | In a consistent buffer the count is the length of the blob that would be saved. |
| Reassembly.AppendAllCounts | src/App.tsx:371-372 | Over any run of appends, the count grows by the sum of the chunk lengths and the chunks are kept in arrival order. |
| Reassembly.OverLengthAccepted | src/App.tsx:374-378 | A chunk that takes the count past the declared size is accepted and ends the transfer. Nothing rejects it. |
| Exchange.Run | src/App.tsx:335-400 | One transfer composed from the two peers' steps: the slice at `k * 204800` (NextChunk), appended on arrival (Append), then the receiver's test at src/App.tsx:375-378 choosing an ack or `transfer-finished`. Assumes the declared size is the file's length, and starts from chunk k with the count at `k * 204800` (offset 0 and an empty buffer for a whole transfer). It ends with one round per chunk sent: every round is acked except the last, which is answered by `transfer-finished`, and the receiver is complete. |
| Exchange.RunFrom | src/App.tsx:335-400 | From any chunk number k on, the exchange ends after `ChunkCount(size)` chunks in total, with the receiver holding exactly those chunks and count = size. Round i carries slice k + i and is answered by an ack, except the last round, which is answered by `transfer-finished`. |
| Exchange.PrependRound | src/App.tsx:374-383 | An acked round followed by a valid stop-and-wait suffix is itself a valid stop-and-wait sequence. |
| Exchange.TransferDeliversFile | src/App.tsx:343-400 | A whole transfer starting at offset 0 with a fresh buffer sends `ChunkCount(size)` chunks, one per round, each answered by exactly one reply. The receiver's count ends at the size, and the saved image is the file byte for byte. |
| SwiftSend.App.constructor | src/App.tsx:76-88 | All tables, the registry and the log start empty, and the invariant holds. |
| SwiftSend.App.Valid | src/App.tsx:282-285 | The invariant implies at most one live connection per peer. |
| SwiftSend.App.AddUser | src/App.tsx:160-170 | The peer's user entry is (re)written with its name and no file. |
| SwiftSend.App.RemoveUser | src/App.tsx:181-186 | The peer's user entry is removed. Its file input unmounts, so its selection goes too (src/App.tsx:599). Its widget, request, buffer and connection are kept. |
| SwiftSend.App.PickFile | src/App.tsx:645-650 | The picker runs only on a rendered file input (the peer is listed and has a send widget). That input then holds the picked file, and the invariant is kept. |
| SwiftSend.App.SetFileToUser | src/App.tsx:172-179 | The file is recorded on the peer's user entry if there is one, and a send widget opens with the file's name and size at offset 0. The selection is unchanged. |
| SwiftSend.App.HandleNewUser | src/App.tsx:188-191 | Registers the peer and emits exactly one `user-connection-reply` carrying our name. |
| SwiftSend.App.HandleUserConnectionReply | src/App.tsx:193-197 | Registers the peer, gives it a fresh connection that replaces any earlier one, and emits one offer on that connection. The new connection is recorded as the peer's, the handle counter advances by one, and the invariant is kept. |
| SwiftSend.App.CreateConnection | src/App.tsx:282-301 | The new connection is fresh. The peer's previous connection, if any, is no longer live. The peer is registered with the new connection and nothing else changes, so there is still at most one live connection per peer. |
| SwiftSend.App.HandleLocalCandidate | src/App.tsx:295-298 | A discovered local candidate is relayed once. An end-of-candidates event relays nothing. |
| SwiftSend.App.CreateOffer | src/App.tsx:303-309 | Emits one offer on the peer's registered connection, or nothing when the peer has none. |
| SwiftSend.App.HandleOffer | src/App.tsx:311-320 | A fresh connection replaces the peer's old one, and one answer is emitted on it. The new connection is recorded as the peer's and the handle counter advances by one. |
| SwiftSend.App.HandleAnswer | src/App.tsx:322-328 | The answer is applied to the peer's registered connection, or does nothing when the peer has none. |
| SwiftSend.App.HandleIceCandidate | src/App.tsx:329-333 | The candidate is added to the peer's registered connection, or does nothing when the peer has none. |
| SwiftSend.App.OpenUser | src/App.tsx:199-209 | The peer's widget is (re)written with the given direction, name and size, and offset 0. A receive widget has no file input, so the selection goes; a send widget keeps it. |
| SwiftSend.App.CloseUser | src/App.tsx:210-217 | Removes the peer's widget, and with it the selection, only when the peer has no pending request and the widget is a send widget. Otherwise nothing changes. |
| SwiftSend.App.ToggleOpenUser | src/App.tsx:219-222 | Closes an open widget (under the rules of CloseUser, dropping the selection when it closes), or opens an empty send widget whose file input has no selection. |
| SwiftSend.App.SendFile | src/App.tsx:224-238 | With a file selected, emits exactly one `send-file-request(id, name, size)` and sets the peer's request to waiting. With none selected, the log and the table are unchanged. |
| SwiftSend.App.HandleFileChange | src/App.tsx:240-249 | Does nothing while the peer has a pending request or no file is selected. Otherwise the peer is listed with a send widget, and it behaves as SetFileToUser with the selected file. The selection stays. |
| SwiftSend.App.HandleFileRequest | src/App.tsx:251-253 | A receive widget opens with the declared name and size. It replaces any send widget, so the file input unmounts and its selection goes. |
| SwiftSend.App.CancelRequest | src/App.tsx:255-261 | Removes only the peer's widget (and any selection in it) and emits exactly one `request-cancelled`. |
| SwiftSend.App.AcceptRequest | src/App.tsx:262-273 | Emits exactly one `request-accepted` and sets the peer's request to downloading. It allocates an empty buffer for the widget's declared size only when the peer has no buffer, so an existing buffer is left as it is. |
| SwiftSend.App.HandleRequestCancelled | src/App.tsx:275-280 | Removes only the peer's pending entry. |
| SwiftSend.App.HandleAcceptedRequest | src/App.tsx:335-341 | With no file input rendered, nothing changes. With one, the request becomes downloading. If a file is selected, exactly one chunk (the slice at the widget's offset) is sent while the offset advances by 204800. Without a selection, nothing is sent. |
| SwiftSend.App.SendFileInChunks | src/App.tsx:343-360 | Sends exactly one chunk, the slice `[offset, offset + 204800)`, and sets the offset to `offset + 204800`. No other widget changes. |
| SwiftSend.App.HandleFileTransfer | src/App.tsx:362-401 | An ack text acts as HandleAcceptedRequest: nothing without a rendered file input, otherwise downloading and, with a file selected, exactly one next chunk. Other texts and non-binary payloads change nothing. A binary chunk is handled as in ReceiveChunk. The invariant is kept. |
| SwiftSend.App.ReceiveChunk | src/App.tsx:370-400 | With no buffer for the peer, nothing changes. Otherwise the chunk is appended and handled as in DeliverChunk. The invariant is kept. |
| SwiftSend.App.DeliverChunk | src/App.tsx:374-399 | Below the declared size, the appended buffer is stored and exactly one ack is sent, and nothing else changes. Otherwise `transfer-finished` is emitted once. The concatenated chunks are saved under the widget's file name, and the peer's widget (with any selection), buffer and pending entry are deleted, while every other peer's entries stay. |
| SwiftSend.App.HandleTransferFinished | src/App.tsx:403-413 | Removes the peer's pending entry and resets its widget's offset to 0. |
| SwiftSend.SendStepsFromZero | src/App.tsx:343-360 | From offset 0, n successive sender steps (one per accepted request or ack) send exactly the slices `Chunks(file, n)`, in order, and leave the offset at `n * 204800`. |

## Left out

- Rendering, toasts, loaders, avatars (`getProfilePic`) and clipboard, URL and
  room handling (`copyRoomName`, `addRoomQueryParamToUrl`, `changeRoom`) are
  UI and browser I/O. The user entry keeps no image.
- `fileSizeFormat`, `transferedDataPercentage` and `receivedDataPercentage`
  are left out because they use floating-point division and formatting.
- WebRTC is reduced to connection handles. The model does not cover SDP and
  ICE contents and their JSON encoding, `setLocalDescription` and
  `setRemoteDescription`, or the data channel object. The model does not
  cover the `ondatachannel` swap of the peer's channel (src/App.tsx:291-293),
  or the channel's `onmessage` binding. Sends are recorded in the log as if
  the channel exists. The source throws a `TypeError` when a peer has no
  channel.
- The asynchronous `FileReader` read and the `downloadjs` save are reduced to
  the bytes sent and a `FileSaved` event.
- React `setState` batching and the timing of updaters are left out. Each
  handler is one atomic step, and a read from an updater sees the state at the
  handler's start.
- SwiftSend.App.HandleAcceptedRequest: with a rendered file input and no
  selection, the model sets the request to downloading and sends nothing. In
  the source, `file.slice` on the missing file (src/App.tsx:347) throws inside
  the `setOpenedUser` updater. React re-throws it while rendering, and with no
  error boundary around `<App />` (src/main.tsx:6-10) the whole app unmounts.
- SwiftSend.App.CloseUser: for a peer with no widget the model changes
  nothing. In the source, `pre[id].type` (src/App.tsx:214) throws inside the
  updater, and the whole app unmounts.
- SwiftSend.App.SendFileInChunks: for a peer with no widget the model sends
  nothing. In the source, `pre[id].offset` (src/App.tsx:345) throws inside the
  updater, and the whole app unmounts.
- SwiftSend.App.ReceiveChunk: when the download completes for a peer with no
  widget, the model emits `transfer-finished`, keeps the appended buffer and
  continues. In the source, `pre[id].fileName` (src/App.tsx:389) throws inside
  the updater, and the whole app unmounts.
- SwiftSend.App.HandleTransferFinished: for a peer with no widget the model
  removes only the pending entry. In the source, `pre[id].offset = 0`
  (src/App.tsx:410) throws inside the updater, and the whole app unmounts.
- SwiftSend.App.SendFile: `getFileForSend` opens the picker when no file is
  selected. That click is I/O and is not modelled.
- Signalling relay, socket connection and `join-room` (src/CustomHooks/useSocket.tsx,
  src/main.tsx) are outside the client's bookkeeping.
- src/components/Marquee/ReactMarquee.tsx is DOM measurement and animation,
  and is not part of this model.
