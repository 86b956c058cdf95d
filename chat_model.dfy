/** The Chat collection: one room per pair of users, holding the room's
    messages with their read receipts, and the three writes made on it
    (creating a room, pushing a message, adding a reader). */
module ChatModel {
  import opened Common

  /** A message subdocument. `id` is the `_id` Mongoose gives every array
      element; `readBy` is a set kept as a duplicate-free array. */
  datatype Message = Message(
    id: MessageId,
    sender: UserId,
    content: string,
    readBy: seq<UserId>)

  /** A Chat document. `lastMessage` is read off the chat collection's own
      abstract clock, which ticks on each room creation and message push but
      not on read receipts; `isActive` defaults to true and nothing in the
      core changes it. */
  datatype Chat = Chat(
    id: ChatId,
    participants: seq<UserId>,
    messages: seq<Message>,
    lastMessage: nat,
    isActive: bool)

  /** `$addToSet`: append `x` unless it is already there. */
  function AddToSet(s: seq<UserId>, x: UserId): (r: seq<UserId>)
    ensures s <= r && x in r
    ensures forall y :: y in r <==> y in s || y == x
    ensures |r| <= |s| + 1
    ensures NoDups(s) ==> NoDups(r)
    ensures x in s ==> r == s
  {
    if x in s then s else s + [x]
  }

  /** The room filter of findRoom, `participants: { $all: [a, b], $size: 2 }`:
      for two different users, a room of exactly that pair in either order;
      for a self-addressed lookup, any two-person room the user is in. */
  predicate RoomMatches(c: Chat, a: UserId, b: UserId): (m: bool)
    ensures a != b ==> (m <==> c.participants == [a, b] || c.participants == [b, a])
    ensures a == b ==> (m <==> |c.participants| == 2 && (c.participants[0] == a || c.participants[1] == a))
  {
    var p := c.participants;
    assert |p| == 2 ==> p == [p[0], p[1]];
    a in p && b in p && |p| == 2
  }

  /** No two rooms serve the same pair of different users. */
  ghost predicate OneRoomPerPair(chats: seq<Chat>) {
    forall i, j, a: UserId, b: UserId :: 0 <= i < j < |chats| && a != b && RoomMatches(chats[i], a, b) ==>
      !RoomMatches(chats[j], a, b)
  }

  /** `Chat.findOne` with the room filter: the first matching room. */
  function FirstRoom(chats: seq<Chat>, a: UserId, b: UserId): (r: Option<nat>)
    ensures r.Some? ==> r.value < |chats| && RoomMatches(chats[r.value], a, b) &&
                        forall j :: 0 <= j < r.value ==> !RoomMatches(chats[j], a, b)
    ensures r.None? <==> forall j :: 0 <= j < |chats| ==> !RoomMatches(chats[j], a, b)
  {
    if chats == [] then None
    else if RoomMatches(chats[0], a, b) then Some(0)
    else match FirstRoom(chats[1..], a, b)
      case None => None
      case Some(i) => Some(i + 1)
  }

  /** The room filter does not depend on who asks: findRoom from either side
      finds the same room. */
  lemma {:induction false} FirstRoomSymmetric(chats: seq<Chat>, a: UserId, b: UserId)
    ensures FirstRoom(chats, a, b) == FirstRoom(chats, b, a)
  {
    if chats != [] {
      FirstRoomSymmetric(chats[1..], a, b);
    }
  }

  /** `Chat.findById`: the position of the room with that id. */
  function FindChat(chats: seq<Chat>, id: ChatId): (r: Option<nat>)
    ensures r.Some? ==> r.value < |chats| && chats[r.value].id == id &&
                        forall j :: 0 <= j < r.value ==> chats[j].id != id
    ensures r.None? <==> forall j :: 0 <= j < |chats| ==> chats[j].id != id
  {
    if chats == [] then None
    else if chats[0].id == id then Some(0)
    else match FindChat(chats[1..], id)
      case None => None
      case Some(i) => Some(i + 1)
  }

  /** The room has a message whose id is listed: the `"messages._id": { $in:
      messageIds }` half of mark_read's filter. An empty list matches no
      room. */
  predicate Mentions(c: Chat, messageIds: seq<MessageId>): (m: bool)
    ensures m <==> exists msg :: msg in c.messages && msg.id in messageIds
    ensures messageIds == [] ==> !m
  {
    exists k :: 0 <= k < |c.messages| && c.messages[k].id in messageIds
  }

  /** `$addToSet: { "messages.$[].readBy": reader }`: the reader joins the
      receipts of every message of the room, listed or not. */
  function ReadByAll(c: Chat, reader: UserId): (r: Chat)
    ensures r.id == c.id && r.participants == c.participants
    ensures r.lastMessage == c.lastMessage && r.isActive == c.isActive
    ensures |r.messages| == |c.messages|
    ensures forall k :: 0 <= k < |c.messages| ==>
      && r.messages[k].id == c.messages[k].id
      && r.messages[k].sender == c.messages[k].sender
      && r.messages[k].content == c.messages[k].content
      && reader in r.messages[k].readBy
      && (forall y :: y in r.messages[k].readBy <==> y in c.messages[k].readBy || y == reader)
      && (NoDups(c.messages[k].readBy) ==> NoDups(r.messages[k].readBy))
  {
    var ms := c.messages;
    c.(messages := seq(|ms|, k requires 0 <= k < |ms| => ms[k].(readBy := AddToSet(ms[k].readBy, reader))))
  }

  /** Reading a room twice is reading it once. */
  lemma ReadByAllIdempotent(c: Chat, reader: UserId)
    ensures ReadByAll(ReadByAll(c, reader), reader) == ReadByAll(c, reader)
  {
    var once := ReadByAll(c, reader);
    var twice := ReadByAll(once, reader);
    assert twice.messages == once.messages by {
      forall k | 0 <= k < |once.messages| ensures twice.messages[k] == once.messages[k] {
        assert once.messages[k].readBy == AddToSet(c.messages[k].readBy, reader);
      }
    }
  }

  /** A sent message: its sender has read it. */
  function NewMessage(id: MessageId, sender: UserId, content: string): (m: Message)
    ensures m.id == id && m.sender == sender && m.content == content && m.readBy == [sender]
    ensures NoDups(m.readBy)
  {
    Message(id, sender, content, [sender])
  }

  /** Room ids are unique and below the id counter. */
  ghost predicate RoomIds(chats: seq<Chat>, nextChatId: ChatId) {
    && (forall i, j :: 0 <= i < j < |chats| ==> chats[i].id != chats[j].id)
    && (forall i :: 0 <= i < |chats| ==> chats[i].id < nextChatId)
  }

  /** Message ids are below the id counter and read receipts hold no
      duplicates. */
  ghost predicate Receipts(chats: seq<Chat>, nextMessageId: MessageId) {
    forall i, k :: 0 <= i < |chats| && 0 <= k < |chats[i].messages| ==>
      chats[i].messages[k].id < nextMessageId && NoDups(chats[i].messages[k].readBy)
  }

  /** Every `lastMessage` lies in the past of the clock. */
  ghost predicate Stamped(chats: seq<Chat>, clock: nat) {
    forall i :: 0 <= i < |chats| ==> chats[i].lastMessage < clock
  }

  /** The invariant of the stored collection. */
  ghost predicate ValidChats(chats: seq<Chat>, nextChatId: ChatId, nextMessageId: MessageId, clock: nat) {
    RoomIds(chats, nextChatId) && Receipts(chats, nextMessageId) && Stamped(chats, clock) &&
    OneRoomPerPair(chats)
  }

  /** A room created because none matched keeps rooms one per pair. */
  lemma NewRoomIsAlone(chats: seq<Chat>, room: Chat, me: UserId, target: UserId)
    requires OneRoomPerPair(chats) && FirstRoom(chats, me, target).None?
    requires room.participants == [me, target]
    ensures OneRoomPerPair(chats + [room])
  {
    var after := chats + [room];
    forall i: nat, j: nat, a: UserId, b: UserId | 0 <= i < j < |after| && a != b && RoomMatches(after[i], a, b)
      ensures !RoomMatches(after[j], a, b)
    {
      if j == |chats| {
        assert after[i] == chats[i];
        assert !RoomMatches(chats[i], me, target);
      }
    }
  }

  /** Creating a fresh empty room keeps the collection valid. */
  lemma CreateRoomValid(chats: seq<Chat>, nextChatId: ChatId, nextMessageId: MessageId, clock: nat,
                        me: UserId, target: UserId)
    requires ValidChats(chats, nextChatId, nextMessageId, clock)
    requires FirstRoom(chats, me, target).None?
    ensures ValidChats(chats + [Chat(nextChatId, [me, target], [], clock, true)],
                       nextChatId + 1, nextMessageId, clock + 1)
  {
    NewRoomIsAlone(chats, Chat(nextChatId, [me, target], [], clock, true), me, target);
  }

  /** Rewriting the rooms without touching their participants keeps rooms
      one per pair. */
  lemma SameParticipants(before: seq<Chat>, after: seq<Chat>)
    requires OneRoomPerPair(before) && |after| == |before|
    requires forall i :: 0 <= i < |after| ==> after[i].participants == before[i].participants
    ensures OneRoomPerPair(after)
  {
    forall i: nat, j: nat, a: UserId, b: UserId | 0 <= i < j < |after| && a != b && RoomMatches(after[i], a, b)
      ensures !RoomMatches(after[j], a, b)
    {
      assert RoomMatches(before[i], a, b);
    }
  }

  /** Pushing a fresh message, read by its sender, keeps the collection
      valid. */
  lemma PushValid(chats: seq<Chat>, nextChatId: ChatId, nextMessageId: MessageId, clock: nat,
                  i: nat, sender: UserId, content: string)
    requires ValidChats(chats, nextChatId, nextMessageId, clock) && i < |chats|
    ensures var m := NewMessage(nextMessageId, sender, content);
      ValidChats(chats[i := chats[i].(messages := chats[i].messages + [m], lastMessage := clock)],
                 nextChatId, nextMessageId + 1, clock + 1)
  {
    var m := NewMessage(nextMessageId, sender, content);
    var after := chats[i := chats[i].(messages := chats[i].messages + [m], lastMessage := clock)];
    SameParticipants(chats, after);
    forall j, k | 0 <= j < |after| && 0 <= k < |after[j].messages|
      ensures after[j].messages[k].id < nextMessageId + 1 && NoDups(after[j].messages[k].readBy)
    {
      if j == i && k == |chats[i].messages| {
        assert after[j].messages[k] == m;
      } else {
        assert after[j].messages[k] == chats[j].messages[k];
      }
    }
  }

  /** The rooms after mark_read's `updateMany`. */
  function MarkRooms(chats: seq<Chat>, chatId: ChatId, messageIds: seq<MessageId>, reader: UserId): (r: seq<Chat>)
    ensures |r| == |chats|
    ensures forall i :: 0 <= i < |chats| ==>
      r[i] == if chats[i].id == chatId && Mentions(chats[i], messageIds)
              then ReadByAll(chats[i], reader) else chats[i]
  {
    seq(|chats|, i requires 0 <= i < |chats| =>
      if chats[i].id == chatId && Mentions(chats[i], messageIds)
      then ReadByAll(chats[i], reader) else chats[i])
  }

  /** After mark_read every message of the addressed room, listed or not,
      carries the reader's receipt once the room mentions a listed message;
      other rooms are untouched. */
  lemma MarkedIsRead(chats: seq<Chat>, chatId: ChatId, messageIds: seq<MessageId>, reader: UserId)
    ensures var after := MarkRooms(chats, chatId, messageIds, reader);
      forall i, k :: 0 <= i < |chats| && chats[i].id == chatId && 0 <= k < |chats[i].messages| &&
                     chats[i].messages[k].id in messageIds ==>
        forall k' :: 0 <= k' < |after[i].messages| ==> reader in after[i].messages[k'].readBy
    ensures var after := MarkRooms(chats, chatId, messageIds, reader);
      forall i :: 0 <= i < |chats| && (chats[i].id != chatId || !Mentions(chats[i], messageIds)) ==>
        after[i] == chats[i]
    ensures var after := MarkRooms(chats, chatId, messageIds, reader);
      forall i, k :: 0 <= i < |chats| && 0 <= k < |chats[i].messages| ==>
        && k < |after[i].messages|
        && after[i].messages[k].id == chats[i].messages[k].id
        && chats[i].messages[k].readBy <= after[i].messages[k].readBy
  {
  }

  /** Marking the same messages read twice is marking them read once. */
  lemma MarkRoomsIdempotent(chats: seq<Chat>, chatId: ChatId, messageIds: seq<MessageId>, reader: UserId)
    ensures var once := MarkRooms(chats, chatId, messageIds, reader);
      MarkRooms(once, chatId, messageIds, reader) == once
  {
    var once := MarkRooms(chats, chatId, messageIds, reader);
    var twice := MarkRooms(once, chatId, messageIds, reader);
    forall i | 0 <= i < |chats| ensures twice[i] == once[i] {
      ReadKeepsMentions(chats[i], reader, messageIds);
      ReadByAllIdempotent(chats[i], reader);
    }
  }

  /** Receipts do not change which messages a room holds. */
  lemma ReadKeepsMentions(c: Chat, reader: UserId, messageIds: seq<MessageId>)
    ensures Mentions(ReadByAll(c, reader), messageIds) <==> Mentions(c, messageIds)
  {
    var r := ReadByAll(c, reader);
    assert forall k :: 0 <= k < |c.messages| ==> r.messages[k].id == c.messages[k].id;
  }

  /** Adding a reader keeps the collection valid. */
  lemma MarkValid(chats: seq<Chat>, nextChatId: ChatId, nextMessageId: MessageId, clock: nat,
                  chatId: ChatId, messageIds: seq<MessageId>, reader: UserId)
    requires ValidChats(chats, nextChatId, nextMessageId, clock)
    ensures ValidChats(MarkRooms(chats, chatId, messageIds, reader), nextChatId, nextMessageId, clock)
  {
    var after := MarkRooms(chats, chatId, messageIds, reader);
    SameParticipants(chats, after);
  }

  /** The stored Chat collection, with the counters Mongo draws fresh
      ObjectIds from and the abstract clock. */
  class ChatCollection {
    var chats: seq<Chat>
    var nextChatId: ChatId
    var nextMessageId: MessageId
    var clock: nat

    ghost predicate Valid()
      reads this
    {
      ValidChats(chats, nextChatId, nextMessageId, clock)
    }

    constructor ()
      ensures Valid() && chats == []
    {
      chats := [];
      nextChatId := 0;
      nextMessageId := 0;
      clock := 0;
    }

    /** findRoom's store work: the room of the pair if there is one,
        otherwise a new empty room with the participants in the order given. */
    method FindOrCreateRoom(me: UserId, target: UserId) returns (id: ChatId)
      requires Valid()
      modifies this
      ensures Valid()
      ensures match old(FirstRoom(chats, me, target))
        case Some(i) => chats == old(chats) && id == chats[i].id
        case None =>
          && id == old(nextChatId)
          && chats == old(chats) + [Chat(id, [me, target], [], old(clock), true)]
      ensures FirstRoom(chats, me, target).Some? && chats[FirstRoom(chats, me, target).value].id == id
      ensures nextMessageId == old(nextMessageId)
    {
      var found := FirstRoom(chats, me, target);
      if found.Some? {
        id := chats[found.value].id;
        return;
      }
      CreateRoomValid(chats, nextChatId, nextMessageId, clock, me, target);
      id := nextChatId;
      chats := chats + [Chat(id, [me, target], [], clock, true)];
      nextChatId := nextChatId + 1;
      clock := clock + 1;
      assert RoomMatches(chats[|chats| - 1], me, target);
    }

    /** send_message's store work: `findByIdAndUpdate` pushing the message
        (read by its sender) and stamping `lastMessage`. No room with that id
        gives `None` and changes nothing. */
    method PushMessage(chatId: ChatId, sender: UserId, content: string) returns (sent: Option<Message>)
      requires Valid()
      modifies this
      ensures Valid()
      ensures match old(FindChat(chats, chatId))
        case None =>
          && sent.None? && chats == old(chats)
          && nextMessageId == old(nextMessageId) && clock == old(clock)
        case Some(i) =>
          && nextMessageId == old(nextMessageId) + 1 && clock == old(clock) + 1
          && sent == Some(NewMessage(old(nextMessageId), sender, content))
          && chats == old(chats)[i := old(chats[i]).(messages := old(chats[i]).messages + [sent.value],
                                                     lastMessage := old(clock))]
      ensures nextChatId == old(nextChatId)
    {
      var found := FindChat(chats, chatId);
      if found.None? {
        return None;
      }
      var i := found.value;
      var m := NewMessage(nextMessageId, sender, content);
      PushValid(chats, nextChatId, nextMessageId, clock, i, sender, content);
      chats := chats[i := chats[i].(messages := chats[i].messages + [m], lastMessage := clock)];
      nextMessageId := nextMessageId + 1;
      clock := clock + 1;
      sent := Some(m);
    }

    /** mark_read's store work: `updateMany` over the rooms with that id that
        mention one of the listed messages, adding the reader to every
        message of each. */
    method AddReader(chatId: ChatId, messageIds: seq<MessageId>, reader: UserId)
      requires Valid()
      modifies this`chats
      ensures Valid()
      ensures chats == MarkRooms(old(chats), chatId, messageIds, reader)
    {
      MarkValid(chats, nextChatId, nextMessageId, clock, chatId, messageIds, reader);
      chats := MarkRooms(chats, chatId, messageIds, reader);
    }
  }

  /** chatHistory's lookup: the messages of the room with that id. */
  function History(chats: seq<Chat>, chatId: ChatId): (r: Option<seq<Message>>)
    ensures r.Some? <==> exists c :: c in chats && c.id == chatId
    ensures r.Some? ==> exists c :: c in chats && c.id == chatId && c.messages == r.value
  {
    match FindChat(chats, chatId)
    case None =>
      assert forall c :: c in chats ==> c.id != chatId by {
        forall c | c in chats ensures c.id != chatId {
          var j :| 0 <= j < |chats| && chats[j] == c;
        }
      }
      None
    case Some(i) =>
      assert chats[i] in chats;
      Some(chats[i].messages)
  }
}
