/**
 * The SwiftSend client's per-peer bookkeeping: one `App` object is one
 * browser tab, and its tables are keyed by the ids of the other peers in
 * the room. Each method is one event handler, run as one atomic step.
 * Everything the client hands to the outside world (socket emits,
 * data-channel sends, calls into its transport connections, saved files)
 * is appended to `log`.
 */
module SwiftSend {
  import opened Chunking
  import opened Reassembly

  type PeerId = string

  /** An abstract transport connection; a fresh one per `createConnection`. */
  type Handle = nat

  datatype Option<T> = None | Some(value: T)

  /** A file picked by the user; its `size` is the length of its bytes. */
  datatype File = File(name: string, data: Bytes)

  datatype User = User(name: string, file: Option<File>)

  datatype Direction = Send | Receive

  /** A peer's opened transfer widget: what is offered or requested, and the sender's offset. */
  datatype Opened = Opened(direction: Direction, fileName: string, fileSize: nat, offset: nat)

  datatype Pending = Waiting | Downloading

  /**
   * An inbound data-channel message: a binary chunk, a text frame whose JSON
   * has a truthy `ack`, any other text (unparsable, or without `ack`), or a
   * payload of some other kind.
   */
  datatype Frame = Binary(data: Bytes) | AckText | OtherText | OtherObject

  datatype Event =
    | UserConnectionReply(to: PeerId, name: string)
    | SendFileRequest(to: PeerId, fileName: string, fileSize: nat)
    | RequestAccepted(to: PeerId)
    | RequestCancelled(to: PeerId)
    | TransferFinished(to: PeerId)
    | OfferSent(to: PeerId, conn: Handle)
    | AnswerSent(to: PeerId, conn: Handle)
    | IceCandidateSent(to: PeerId, conn: Handle)
    | RemoteAnswerApplied(to: PeerId, conn: Handle)
    | RemoteCandidateAdded(to: PeerId, conn: Handle)
    | ChunkSent(to: PeerId, chunk: Bytes)
    | AckSent(to: PeerId)
    | FileSaved(fileName: string, data: Bytes)

  class App {
    const username: string
    var users: map<PeerId, User>
    /**
     * The file currently selected in each peer's hidden `<input type="file">`.
     * That element is rendered only inside the peer's send widget, so a
     * selection lives exactly as long as the widget does (see InputMounted).
     */
    var fileInputs: map<PeerId, File>
    var openedUser: map<PeerId, Opened>
    var pendingRequests: map<PeerId, Pending>
    var downloadedChunks: map<PeerId, Buffer>
    /** The connection registered for each peer. */
    var peerConnections: map<PeerId, Handle>
    /** The connections created and not yet closed. */
    var live: set<Handle>
    /** The peer each connection was created for. */
    ghost var owner: map<Handle, PeerId>
    var nextHandle: Handle
    var log: seq<Event>

    /** The peer's `<input type="file">` is rendered: the peer is listed and its widget is a send widget. */
    predicate InputMounted(id: PeerId)
      reads this`users, this`openedUser
    {
      id in users && id in openedUser && openedUser[id].direction == Send
    }

    /** At most one live connection per peer. */
    ghost predicate OneConnectionPerPeer()
      reads this`live, this`owner
    {
      forall h1, h2 ::
        h1 in live && h2 in live && h1 in owner && h2 in owner && owner[h1] == owner[h2] ==> h1 == h2
    }

    /** Every rendered file input's selection belongs to a send widget of a listed peer. */
    ghost predicate SelectionsMounted()
      reads this`users, this`fileInputs, this`openedUser
    {
      forall id :: id in fileInputs ==> InputMounted(id)
    }

    /** Every buffer's count is the total length of its chunks. */
    ghost predicate BuffersConsistent()
      reads this`downloadedChunks
    {
      forall id :: id in downloadedChunks ==> downloadedChunks[id].Consistent()
    }

    /** The registry and the live set agree through `owner`, and handles are never reused. */
    ghost predicate RegistryValid()
      reads this`peerConnections, this`live, this`owner, this`nextHandle
      ensures RegistryValid() ==> OneConnectionPerPeer()
    {
      && (forall id :: id in peerConnections ==>
            peerConnections[id] in live && peerConnections[id] in owner &&
            owner[peerConnections[id]] == id)
      && (forall h :: h in live ==>
            h in owner && owner[h] in peerConnections && peerConnections[owner[h]] == h)
      && (forall h :: h in owner ==> h < nextHandle)
    }

    ghost predicate Valid()
      reads this`users, this`fileInputs, this`openedUser, this`downloadedChunks
      reads this`peerConnections, this`live, this`owner, this`nextHandle
      ensures Valid() ==> OneConnectionPerPeer()
    {
      SelectionsMounted() && BuffersConsistent() && RegistryValid()
    }

    constructor (username: string)
      ensures Valid() && this.username == username
      ensures users == map[] && fileInputs == map[] && openedUser == map[]
      ensures pendingRequests == map[] && downloadedChunks == map[]
      ensures peerConnections == map[] && live == {} && log == []
    {
      this.username := username;
      users, fileInputs, openedUser := map[], map[], map[];
      pendingRequests, downloadedChunks := map[], map[];
      peerConnections, live, owner, nextHandle := map[], {}, map[], 0;
      log := [];
    }

    // ----- peer registry -----

    /** A peer joined or answered: its entry is (re)written, without a file. */
    method AddUser(id: PeerId, name: string)
      requires Valid()
      modifies this`users
      ensures Valid()
      ensures users == old(users)[id := User(name, None)]
    {
      users := users[id := User(name, None)];
    }

    /**
     * A peer left: its user entry goes, and with it the rendered file input
     * and its selection; its widget, request, buffer and connection are kept.
     */
    method RemoveUser(id: PeerId)
      requires Valid()
      modifies this`users, this`fileInputs
      ensures Valid()
      ensures users == old(users) - {id}
      ensures fileInputs == old(fileInputs) - {id}
    {
      users := users - {id};
      fileInputs := fileInputs - {id};
    }

    /** The browser's file picker sets the selection of a peer's rendered file input. */
    method PickFile(id: PeerId, f: File)
      requires Valid() && InputMounted(id)
      modifies this`fileInputs
      ensures Valid()
      ensures fileInputs == old(fileInputs)[id := f]
    {
      fileInputs := fileInputs[id := f];
    }

    method SetFileToUser(id: PeerId, file: File)
      requires Valid()
      modifies this`users, this`openedUser, this`fileInputs
      ensures Valid()
      ensures users == if id in old(users) then old(users)[id := old(users)[id].(file := Some(file))]
                       else old(users)
      ensures openedUser == old(openedUser)[id := Opened(Send, file.name, |file.data|, 0)]
      ensures fileInputs == old(fileInputs)
    {
      if id in users {
        users := users[id := users[id].(file := Some(file))];
      }
      OpenUser(id, Send, file.name, |file.data|);
    }

    method HandleNewUser(id: PeerId, name: string)
      requires Valid()
      modifies this`users, this`log
      ensures Valid()
      ensures users == old(users)[id := User(name, None)]
      ensures log == old(log) + [UserConnectionReply(id, username)]
    {
      AddUser(id, name);
      log := log + [UserConnectionReply(id, username)];
    }

    /** The reply to our join: register the peer, connect to it and send it an offer. */
    method HandleUserConnectionReply(id: PeerId, name: string) returns (h: Handle)
      requires Valid()
      modifies this`users, this`peerConnections, this`live, this`owner, this`nextHandle, this`log
      ensures Valid()
      ensures users == old(users)[id := User(name, None)]
      ensures h == old(nextHandle) && h !in old(live) && peerConnections == old(peerConnections)[id := h]
      ensures live == Replaced(old(live), old(peerConnections), id, h)
      ensures owner == old(owner)[h := id] && nextHandle == old(nextHandle) + 1
      ensures log == old(log) + [OfferSent(id, h)]
    {
      AddUser(id, name);
      h := CreateConnection(id);
      CreateOffer(id);
    }

    // ----- connection registry -----

    /** The live set after `h` replaces whatever connection `id` had in `conns`. */
    static function Replaced(live: set<Handle>, conns: map<PeerId, Handle>, id: PeerId, h: Handle): set<Handle>
    {
      (if id in conns then live - {conns[id]} else live) + {h}
    }

    /**
     * A new connection for `id`; the one registered before, if any, is closed
     * first, so the peer never has two.
     */
    method CreateConnection(id: PeerId) returns (h: Handle)
      requires Valid()
      modifies this`peerConnections, this`live, this`owner, this`nextHandle
      ensures Valid()
      ensures h == old(nextHandle) && h !in old(live)
      ensures peerConnections == old(peerConnections)[id := h]
      ensures live == Replaced(old(live), old(peerConnections), id, h)
      ensures id in old(peerConnections) ==> old(peerConnections)[id] !in live
      ensures owner == old(owner)[h := id] && nextHandle == old(nextHandle) + 1
    {
      h := nextHandle;
      nextHandle := nextHandle + 1;
      if id in peerConnections {
        live := live - {peerConnections[id]};
      }
      peerConnections := peerConnections[id := h];
      live := live + {h};
      owner := owner[h := id];
    }

    /** A local ICE candidate of connection `h` (made for `id`) is relayed, when there is one. */
    method HandleLocalCandidate(id: PeerId, h: Handle, present: bool)
      modifies this`log
      ensures log == if present then old(log) + [IceCandidateSent(id, h)] else old(log)
    {
      if present {
        log := log + [IceCandidateSent(id, h)];
      }
    }

    method CreateOffer(id: PeerId)
      modifies this`log
      ensures log == if id in peerConnections then old(log) + [OfferSent(id, peerConnections[id])]
                     else old(log)
    {
      if id in peerConnections {
        log := log + [OfferSent(id, peerConnections[id])];
      }
    }

    /** An offer arrives: a new connection replaces the old one and answers it. */
    method HandleOffer(id: PeerId) returns (h: Handle)
      requires Valid()
      modifies this`peerConnections, this`live, this`owner, this`nextHandle, this`log
      ensures Valid()
      ensures h == old(nextHandle) && h !in old(live) && peerConnections == old(peerConnections)[id := h]
      ensures live == Replaced(old(live), old(peerConnections), id, h)
      ensures owner == old(owner)[h := id] && nextHandle == old(nextHandle) + 1
      ensures log == old(log) + [AnswerSent(id, h)]
    {
      h := CreateConnection(id);
      log := log + [AnswerSent(id, h)];
    }

    /** An answer for a peer with no connection is dropped. */
    method HandleAnswer(id: PeerId)
      modifies this`log
      ensures log == if id in peerConnections then old(log) + [RemoteAnswerApplied(id, peerConnections[id])]
                     else old(log)
    {
      if id in peerConnections {
        log := log + [RemoteAnswerApplied(id, peerConnections[id])];
      }
    }

    /** A remote candidate for a peer with no connection is dropped. */
    method HandleIceCandidate(id: PeerId)
      modifies this`log
      ensures log == if id in peerConnections then old(log) + [RemoteCandidateAdded(id, peerConnections[id])]
                     else old(log)
    {
      if id in peerConnections {
        log := log + [RemoteCandidateAdded(id, peerConnections[id])];
      }
    }

    // ----- the transfer widget and the handshake -----

    /**
     * The peer's widget is (re)written. A send widget replacing a send widget
     * keeps its file input, and so its selection; a receive widget has no file
     * input, so a selection made in an earlier send widget is gone.
     */
    method OpenUser(id: PeerId, direction: Direction, fileName: string, fileSize: nat)
      requires Valid()
      modifies this`openedUser, this`fileInputs
      ensures Valid()
      ensures openedUser == old(openedUser)[id := Opened(direction, fileName, fileSize, 0)]
      ensures fileInputs == if direction == Send then old(fileInputs) else old(fileInputs) - {id}
    {
      openedUser := openedUser[id := Opened(direction, fileName, fileSize, 0)];
      if direction == Receive {
        fileInputs := fileInputs - {id};
      }
    }

    /**
     * Closing is refused while a request is pending, and only a send widget
     * closes; a receive widget stays open. A closed widget takes its file
     * input's selection with it.
     */
    method CloseUser(id: PeerId)
      requires Valid()
      modifies this`openedUser, this`fileInputs
      ensures Valid()
      ensures openedUser ==
        if id !in pendingRequests && id in old(openedUser) && old(openedUser)[id].direction == Send
        then old(openedUser) - {id} else old(openedUser)
      ensures fileInputs ==
        if id !in pendingRequests && id in old(openedUser) && old(openedUser)[id].direction == Send
        then old(fileInputs) - {id} else old(fileInputs)
    {
      if id in pendingRequests {
        return;
      }
      if id in openedUser && openedUser[id].direction == Send {
        openedUser := openedUser - {id};
        fileInputs := fileInputs - {id};
      }
    }

    /**
     * Clicking the avatar closes an open widget (under the rules of
     * CloseUser) or opens an empty send widget, whose file input starts with
     * no selection.
     */
    method ToggleOpenUser(id: PeerId)
      requires Valid()
      modifies this`openedUser, this`fileInputs
      ensures Valid()
      ensures id in old(openedUser) ==>
        var closes := id !in pendingRequests && old(openedUser)[id].direction == Send;
        && openedUser == (if closes then old(openedUser) - {id} else old(openedUser))
        && fileInputs == (if closes then old(fileInputs) - {id} else old(fileInputs))
      ensures id !in old(openedUser) ==>
        && openedUser == old(openedUser)[id := Opened(Send, "", 0, 0)]
        && fileInputs == old(fileInputs) && id !in fileInputs
    {
      if id in openedUser {
        CloseUser(id);
      } else {
        OpenUser(id, Send, "", 0);
      }
    }

    /** With a file selected: request the send and wait; with none, nothing changes. */
    method SendFile(id: PeerId)
      requires Valid()
      modifies this`log, this`pendingRequests
      ensures Valid()
      ensures id in fileInputs ==>
        && log == old(log) + [SendFileRequest(id, fileInputs[id].name, |fileInputs[id].data|)]
        && pendingRequests == old(pendingRequests)[id := Waiting]
      ensures id !in fileInputs ==> log == old(log) && pendingRequests == old(pendingRequests)
    {
      if id !in fileInputs {
        return;
      }
      var file := fileInputs[id];
      log := log + [SendFileRequest(id, file.name, |file.data|)];
      pendingRequests := pendingRequests[id := Waiting];
    }

    /**
     * The file cannot be changed while a request to that peer is pending.
     * Otherwise the selected file (if any) is recorded and the send widget
     * reopens for it; its file input, and so the selection, stays.
     */
    method HandleFileChange(id: PeerId)
      requires Valid()
      modifies this`users, this`openedUser, this`fileInputs
      ensures Valid()
      ensures fileInputs == old(fileInputs)
      ensures id in pendingRequests || id !in fileInputs ==>
        users == old(users) && openedUser == old(openedUser)
      ensures id !in pendingRequests && id in fileInputs ==>
        var file := fileInputs[id];
        && id in old(users) && id in old(openedUser) && old(openedUser)[id].direction == Send
        && users == old(users)[id := old(users)[id].(file := Some(file))]
        && openedUser == old(openedUser)[id := Opened(Send, file.name, |file.data|, 0)]
    {
      if id in pendingRequests || id !in fileInputs {
        return;
      }
      SetFileToUser(id, fileInputs[id]);
    }

    /**
     * A peer asks to send us a file: a receive widget opens with what it
     * declared, replacing any send widget and its file input's selection.
     */
    method HandleFileRequest(id: PeerId, fileName: string, fileSize: nat)
      requires Valid()
      modifies this`openedUser, this`fileInputs
      ensures Valid()
      ensures openedUser == old(openedUser)[id := Opened(Receive, fileName, fileSize, 0)]
      ensures fileInputs == old(fileInputs) - {id} && !InputMounted(id)
    {
      OpenUser(id, Receive, fileName, fileSize);
    }

    /** Declining a request: only the widget (and any file input in it) goes, and the peer is told. */
    method CancelRequest(id: PeerId)
      requires Valid()
      modifies this`openedUser, this`fileInputs, this`log
      ensures Valid()
      ensures openedUser == old(openedUser) - {id}
      ensures fileInputs == old(fileInputs) - {id}
      ensures log == old(log) + [RequestCancelled(id)]
    {
      openedUser := openedUser - {id};
      fileInputs := fileInputs - {id};
      log := log + [RequestCancelled(id)];
    }

    /**
     * Accepting a request: the peer is told, the request is downloading, and
     * a buffer for the declared size is allocated unless one exists already.
     * With no widget to read the size from (the source throws there), no
     * buffer is allocated.
     */
    method AcceptRequest(id: PeerId)
      requires Valid()
      modifies this`log, this`pendingRequests, this`downloadedChunks
      ensures Valid()
      ensures log == old(log) + [RequestAccepted(id)]
      ensures pendingRequests == old(pendingRequests)[id := Downloading]
      ensures downloadedChunks ==
        if id in old(downloadedChunks) || id !in openedUser then old(downloadedChunks)
        else old(downloadedChunks)[id := Empty(openedUser[id].fileSize)]
    {
      log := log + [RequestAccepted(id)];
      pendingRequests := pendingRequests[id := Downloading];
      if id !in downloadedChunks && id in openedUser {
        downloadedChunks := downloadedChunks[id := Empty(openedUser[id].fileSize)];
      }
    }

    /** The peer declined our request: only the pending entry goes. */
    method HandleRequestCancelled(id: PeerId)
      requires Valid()
      modifies this`pendingRequests
      ensures Valid()
      ensures pendingRequests == old(pendingRequests) - {id}
    {
      pendingRequests := pendingRequests - {id};
    }

    // ----- the stop-and-wait transfer -----

    /**
     * The peer accepted, or acked our last chunk. Without a rendered file
     * input nothing happens. With one, the request is downloading and, when a
     * file is selected, exactly one next chunk goes out; with no selection the
     * source throws, and no chunk goes out.
     */
    method HandleAcceptedRequest(id: PeerId)
      requires Valid()
      modifies this`pendingRequests, this`openedUser, this`log
      ensures Valid()
      ensures !old(InputMounted(id)) ==>
        pendingRequests == old(pendingRequests) && openedUser == old(openedUser) && log == old(log)
      ensures old(InputMounted(id)) ==> pendingRequests == old(pendingRequests)[id := Downloading]
      ensures old(InputMounted(id)) && id in fileInputs ==>
        var o := old(openedUser)[id];
        && log == old(log) + [ChunkSent(id, NextChunk(fileInputs[id].data, o.offset))]
        && openedUser == old(openedUser)[id := o.(offset := o.offset + MAX_CHUNK_SIZE)]
      ensures id !in fileInputs ==> openedUser == old(openedUser) && log == old(log)
    {
      if !InputMounted(id) {
        return;
      }
      pendingRequests := pendingRequests[id := Downloading];
      if id !in fileInputs {
        return;
      }
      SendFileInChunks(fileInputs[id], id);
    }

    /**
     * Send the slice at the widget's offset and advance the offset by
     * MAX_CHUNK_SIZE. Without a widget (the source throws) nothing is sent.
     */
    method SendFileInChunks(file: File, id: PeerId)
      requires Valid()
      modifies this`openedUser, this`log
      ensures Valid()
      ensures id in old(openedUser) ==>
        var o := old(openedUser)[id];
        && log == old(log) + [ChunkSent(id, NextChunk(file.data, o.offset))]
        && openedUser == old(openedUser)[id := o.(offset := o.offset + MAX_CHUNK_SIZE)]
      ensures id !in old(openedUser) ==> openedUser == old(openedUser) && log == old(log)
    {
      if id !in openedUser {
        return;
      }
      var o := openedUser[id];
      log := log + [ChunkSent(id, NextChunk(file.data, o.offset))];
      openedUser := openedUser[id := o.(offset := o.offset + MAX_CHUNK_SIZE)];
    }

    /**
     * An inbound data-channel message. An ack text sends the next chunk (see
     * HandleAcceptedRequest); a binary chunk goes to ReceiveChunk; other texts
     * and payloads of any other kind are ignored.
     */
    method HandleFileTransfer(id: PeerId, frame: Frame)
      requires Valid()
      modifies this`pendingRequests, this`openedUser, this`downloadedChunks, this`fileInputs, this`log
      ensures Valid()
      ensures frame.AckText? ==>
        && downloadedChunks == old(downloadedChunks) && fileInputs == old(fileInputs)
        && (!old(InputMounted(id)) ==>
              pendingRequests == old(pendingRequests) && openedUser == old(openedUser) && log == old(log))
        && (old(InputMounted(id)) ==> pendingRequests == old(pendingRequests)[id := Downloading])
        && (old(InputMounted(id)) && id in fileInputs ==>
              var o := old(openedUser)[id];
              && log == old(log) + [ChunkSent(id, NextChunk(fileInputs[id].data, o.offset))]
              && openedUser == old(openedUser)[id := o.(offset := o.offset + MAX_CHUNK_SIZE)])
        && (id !in fileInputs ==> openedUser == old(openedUser) && log == old(log))
      ensures frame.OtherText? || frame.OtherObject? ==>
        && pendingRequests == old(pendingRequests) && openedUser == old(openedUser)
        && downloadedChunks == old(downloadedChunks) && fileInputs == old(fileInputs) && log == old(log)
      ensures frame.Binary? ==> ChunkReceived(id, frame.data, old(pendingRequests), old(openedUser),
                                              old(downloadedChunks), old(fileInputs), old(log))
    {
      match frame
      case AckText =>
        HandleAcceptedRequest(id);
      case OtherText =>
      case OtherObject =>
      case Binary(data) =>
        ReceiveChunk(id, data);
    }

    /**
     * The tables and log after a binary chunk `data` from `id` arrives in the
     * state (`pending0`, `opened0`, `buffers0`, `inputs0`, `log0`). With no
     * buffer for `id` (the source throws) nothing changes. Otherwise the chunk
     * is appended and handled as ChunkHandled says.
     */
    ghost predicate ChunkReceived(id: PeerId, data: Bytes, pending0: map<PeerId, Pending>,
                                  opened0: map<PeerId, Opened>, buffers0: map<PeerId, Buffer>,
                                  inputs0: map<PeerId, File>, log0: seq<Event>)
      reads this`pendingRequests, this`openedUser, this`downloadedChunks, this`fileInputs, this`log
    {
      if id !in buffers0 then
        && pendingRequests == pending0 && openedUser == opened0 && downloadedChunks == buffers0
        && fileInputs == inputs0 && log == log0
      else
        ChunkHandled(id, Append(buffers0[id], data), pending0, opened0, buffers0, inputs0, log0)
    }

    /**
     * The tables and log once the peer's buffer has become `b`. Below the
     * declared size one ack goes back; otherwise `transfer-finished` is
     * emitted and, with the widget there to name the file, the concatenated
     * chunks are saved and the peer's widget (with any file input selection),
     * buffer and pending entry are dropped, while every other peer's entries
     * stay.
     */
    ghost predicate ChunkHandled(id: PeerId, b: Buffer, pending0: map<PeerId, Pending>,
                                 opened0: map<PeerId, Opened>, buffers0: map<PeerId, Buffer>,
                                 inputs0: map<PeerId, File>, log0: seq<Event>)
      reads this`pendingRequests, this`openedUser, this`downloadedChunks, this`fileInputs, this`log
    {
      if !b.Complete() then
        && downloadedChunks == buffers0[id := b]
        && log == log0 + [AckSent(id)]
        && pendingRequests == pending0 && openedUser == opened0 && fileInputs == inputs0
      else if id in opened0 then
        && log == log0 + [TransferFinished(id), FileSaved(opened0[id].fileName, Flatten(b.chunks))]
        && openedUser == opened0 - {id}
        && fileInputs == inputs0 - {id}
        && downloadedChunks == buffers0 - {id}
        && pendingRequests == pending0 - {id}
      else
        && log == log0 + [TransferFinished(id)]
        && downloadedChunks == buffers0[id := b]
        && pendingRequests == pending0 && openedUser == opened0 && fileInputs == inputs0
    }

    method ReceiveChunk(id: PeerId, data: Bytes)
      requires Valid()
      modifies this`pendingRequests, this`openedUser, this`downloadedChunks, this`fileInputs, this`log
      ensures Valid()
      ensures ChunkReceived(id, data, old(pendingRequests), old(openedUser), old(downloadedChunks),
                            old(fileInputs), old(log))
    {
      if id !in downloadedChunks {
        return;
      }
      DeliverChunk(id, Append(downloadedChunks[id], data));
    }

    /** The peer's buffer, with the new chunk appended, is `b`: acknowledge it, or finish the download. */
    method DeliverChunk(id: PeerId, b: Buffer)
      requires Valid() && b.Consistent()
      modifies this`pendingRequests, this`openedUser, this`downloadedChunks, this`fileInputs, this`log
      ensures Valid()
      ensures ChunkHandled(id, b, old(pendingRequests), old(openedUser), old(downloadedChunks),
                           old(fileInputs), old(log))
    {
      if !b.Complete() {
        StoreBuffer(id, b, [AckSent(id)]);
      } else if id !in openedUser {
        StoreBuffer(id, b, [TransferFinished(id)]);
      } else {
        DropTransfer(id, [TransferFinished(id), FileSaved(openedUser[id].fileName, Flatten(b.chunks))]);
      }
    }

    /** The peer's buffer becomes `b`, and `events` are emitted; a consistent buffer keeps the invariant. */
    method StoreBuffer(id: PeerId, b: Buffer, events: seq<Event>)
      requires Valid() && b.Consistent()
      modifies this`downloadedChunks, this`log
      ensures Valid()
      ensures downloadedChunks == old(downloadedChunks)[id := b] && log == old(log) + events
    {
      downloadedChunks := downloadedChunks[id := b];
      log := log + events;
    }

    /** The receiver's cleanup: the peer's widget (with any selection), buffer and pending entry go. */
    method DropTransfer(id: PeerId, events: seq<Event>)
      requires Valid()
      modifies this`pendingRequests, this`openedUser, this`downloadedChunks, this`fileInputs, this`log
      ensures Valid()
      ensures log == old(log) + events
      ensures openedUser == old(openedUser) - {id} && fileInputs == old(fileInputs) - {id}
      ensures downloadedChunks == old(downloadedChunks) - {id}
      ensures pendingRequests == old(pendingRequests) - {id}
    {
      openedUser := openedUser - {id};
      fileInputs := fileInputs - {id};
      downloadedChunks := downloadedChunks - {id};
      pendingRequests := pendingRequests - {id};
      log := log + events;
    }

    /** The peer has everything: our request is over and our offset restarts at 0. */
    method HandleTransferFinished(id: PeerId)
      requires Valid()
      modifies this`pendingRequests, this`openedUser
      ensures Valid()
      ensures pendingRequests == old(pendingRequests) - {id}
      ensures openedUser == if id in old(openedUser) then old(openedUser)[id := old(openedUser)[id].(offset := 0)]
                            else old(openedUser)
    {
      pendingRequests := pendingRequests - {id};
      if id in openedUser {
        openedUser := openedUser[id := openedUser[id].(offset := 0)];
      }
    }
  }

  /**
   * The chunks sent, in order, and the widget left behind by `n` successive
   * SendFileInChunks steps for `id` from widget `o`, each step as that
   * method's contract states it: the slice at the current offset goes out
   * and the offset advances by MAX_CHUNK_SIZE.
   */
  function SendSteps(file: File, id: PeerId, o: Opened, n: nat): (seq<Event>, Opened)
  {
    if n == 0 then ([], o)
    else
      var (sent, w) := SendSteps(file, id, o, n - 1);
      (sent + [ChunkSent(id, NextChunk(file.data, w.offset))], w.(offset := w.offset + MAX_CHUNK_SIZE))
  }

  /**
   * From offset 0, the first `n` steps send exactly the slices Chunks(file, n),
   * in order, and leave the offset at n * MAX_CHUNK_SIZE with the rest of the
   * widget unchanged.
   */
  lemma {:induction false} SendStepsFromZero(file: File, id: PeerId, o: Opened, n: nat)
    requires o.offset == 0
    ensures SendSteps(file, id, o, n).1 == o.(offset := n * MAX_CHUNK_SIZE)
    ensures |SendSteps(file, id, o, n).0| == n
    ensures forall k :: 0 <= k < n ==> SendSteps(file, id, o, n).0[k] == ChunkSent(id, Chunks(file.data, n)[k])
  {
    if n > 0 {
      SendStepsFromZero(file, id, o, n - 1);
      assert (n - 1) * MAX_CHUNK_SIZE + MAX_CHUNK_SIZE == n * MAX_CHUNK_SIZE;
    }
  }
}
