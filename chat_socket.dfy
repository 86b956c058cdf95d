/** The real-time chat server: the handshake check, the user-to-socket
    registry, room joins, and the state effects and emissions of the
    send_message and mark_read events. */
module ChatSocket {
  import opened Common
  import opened ChatModel

  /** The handshake middleware: a missing or empty token (`!token`) and a
      token the verifier rejects both fail with "Authentication error";
      otherwise the socket belongs to the token's user. The user is not
      looked up. */
  function Handshake(token: Option<string>, verify: Verifier): (r: Option<UserId>)
    ensures r.Some? <==> token.Some? && token.value != "" && token.value in verify
    ensures r.Some? ==> r.value == verify[token.value].userId
  {
    if token.None? || token.value == "" then None
    else if token.value !in verify then None
    else Some(verify[token.value].userId)
  }

  datatype Event =
    | ReceiveMessage(chatId: ChatId, message: Message)
    | MessagesRead(chatId: ChatId, userId: UserId, messageIds: seq<MessageId>)
    | ErrorEvent(reason: string)

  /** `io.to(room).emit(...)` or `socket.emit(...)`. */
  datatype Emit =
    | ToRoom(room: ChatId, event: Event)
    | ToSocket(socket: SocketId, event: Event)

  const SendFailed: string := "Failed to send message"

  /** The server state: the open sockets with their users, the rooms each
      socket joined, the `userSockets` registry, and the chat store. */
  class ChatServer {
    var connected: map<SocketId, UserId>
    var rooms: map<SocketId, set<ChatId>>
    var userSockets: map<UserId, SocketId>
    const store: ChatCollection

    /** Every open socket has a room set, and a registered user points at an
        open socket of that user. */
    ghost predicate Valid()
      reads this, store
    {
      && store.Valid()
      && rooms.Keys == connected.Keys
      && forall u :: u in userSockets ==> userSockets[u] in connected && connected[userSockets[u]] == u
    }

    constructor (store: ChatCollection)
      requires store.Valid()
      ensures Valid() && this.store == store
      ensures connected == map[] && rooms == map[] && userSockets == map[]
    {
      this.store := store;
      connected := map[];
      rooms := map[];
      userSockets := map[];
    }

    /** A new socket: the handshake, then `userSockets.set(userId, socket.id)`,
        replacing any earlier socket of the same user. */
    method Connect(socketId: SocketId, token: Option<string>, verify: Verifier) returns (accepted: bool)
      requires Valid() && socketId !in connected
      modifies this
      ensures Valid()
      ensures accepted <==> Handshake(token, verify).Some?
      ensures accepted ==>
        var user := Handshake(token, verify).value;
        && connected == old(connected)[socketId := user]
        && rooms == old(rooms)[socketId := {}]
        && userSockets == old(userSockets)[user := socketId]
      ensures !accepted ==>
        connected == old(connected) && rooms == old(rooms) && userSockets == old(userSockets)
    {
      var user := Handshake(token, verify);
      if user.None? {
        return false;
      }
      connected := connected[socketId := user.value];
      rooms := rooms[socketId := {}];
      userSockets := userSockets[user.value := socketId];
      accepted := true;
    }

    /** join_chat: the socket enters the room, member of the chat or not. */
    method JoinChat(socketId: SocketId, chatId: ChatId)
      requires Valid() && socketId in connected
      modifies this`rooms
      ensures Valid()
      ensures rooms == old(rooms)[socketId := old(rooms)[socketId] + {chatId}]
    {
      rooms := rooms[socketId := rooms[socketId] + {chatId}];
    }

    /** send_message: store the message as the socket's user's and emit it to
        the room; a room id that names no chat emits an error to the sender
        alone. Membership and content are not checked. */
    method SendMessage(socketId: SocketId, chatId: ChatId, content: string) returns (emits: seq<Emit>)
      requires Valid() && socketId in connected
      modifies store
      ensures Valid()
      ensures match old(FindChat(store.chats, chatId))
        case None =>
          && store.chats == old(store.chats)
          && store.nextMessageId == old(store.nextMessageId) && store.clock == old(store.clock)
          && emits == [ToSocket(socketId, ErrorEvent(SendFailed))]
        case Some(i) =>
          var m := NewMessage(old(store.nextMessageId), connected[socketId], content);
          && store.chats == old(store.chats)[i := old(store.chats[i]).(messages := old(store.chats[i].messages) + [m],
                                                                       lastMessage := old(store.clock))]
          && store.nextMessageId == old(store.nextMessageId) + 1 && store.clock == old(store.clock) + 1
          && emits == [ToRoom(chatId, ReceiveMessage(chatId, m))]
      ensures store.nextChatId == old(store.nextChatId)
    {
      var sent := store.PushMessage(chatId, connected[socketId], content);
      if sent.None? {
        return [ToSocket(socketId, ErrorEvent(SendFailed))];
      }
      emits := [ToRoom(chatId, ReceiveMessage(chatId, sent.value))];
    }

    /** mark_read: add the socket's user to the receipts of the room, then
        tell the room, whether or not anything matched. */
    method MarkRead(socketId: SocketId, chatId: ChatId, messageIds: seq<MessageId>) returns (emits: seq<Emit>)
      requires Valid() && socketId in connected
      modifies store
      ensures Valid()
      ensures store.chats == MarkRooms(old(store.chats), chatId, messageIds, connected[socketId])
      ensures store.nextChatId == old(store.nextChatId) && store.nextMessageId == old(store.nextMessageId)
      ensures store.clock == old(store.clock)
      ensures emits == [ToRoom(chatId, MessagesRead(chatId, connected[socketId], messageIds))]
    {
      store.AddReader(chatId, messageIds, connected[socketId]);
      emits := [ToRoom(chatId, MessagesRead(chatId, connected[socketId], messageIds))];
    }

    /** disconnect: `userSockets.delete(socket.userId)` removes the user's
        entry even when it already points at a newer socket of the same
        user; socket.io drops the socket from its rooms. */
    method Disconnect(socketId: SocketId)
      requires Valid() && socketId in connected
      modifies this
      ensures Valid()
      ensures userSockets == old(userSockets) - {old(connected[socketId])}
      ensures connected == old(connected) - {socketId}
      ensures rooms == old(rooms) - {socketId}
    {
      var user := connected[socketId];
      userSockets := userSockets - {user};
      connected := connected - {socketId};
      rooms := rooms - {socketId};
    }
  }
}
