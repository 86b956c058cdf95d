/** The chat HTTP controllers: findRoom (find or create the room of a pair)
    and chatHistory (the messages of a room). */
module ChatController {
  import opened Common
  import opened UserModel
  import opened Http
  import opened ChatModel

  /** findRoom: authorize the caller, then return the id of the room shared
      with `targetUserId`, creating it when there is none. */
  method FindRoom(store: ChatCollection, users: seq<User>, verify: Verifier,
                  header: Option<string>, targetUserId: UserId)
    returns (r: Result<ChatId>)
    requires store.Valid()
    modifies store
    ensures store.Valid()
    ensures var auth := Authorize(header, verify, users);
      auth.Err? ==> r == Err(auth.error) && store.chats == old(store.chats)
    ensures var auth := Authorize(header, verify, users);
      auth.Ok? ==>
        && r.Ok?
        && var me := auth.value.user.id;
           && FirstRoom(store.chats, me, targetUserId).Some?
           && store.chats[FirstRoom(store.chats, me, targetUserId).value].id == r.value
           && (old(FirstRoom(store.chats, me, targetUserId)).Some? ==> store.chats == old(store.chats))
           && (old(FirstRoom(store.chats, me, targetUserId)).None? ==>
                 store.chats == old(store.chats) + [Chat(r.value, [me, targetUserId], [], old(store.clock), true)])
  {
    var auth := Authorize(header, verify, users);
    if auth.Err? {
      return Err(auth.error);
    }
    var id := store.FindOrCreateRoom(auth.value.user.id, targetUserId);
    r := Ok(id);
  }

  /** What `req.body.chatId` holds: nothing, a bare id, or an object with a
      `chatId` field of its own (which may be missing). */
  datatype ChatIdParam =
    | Absent
    | Plain(id: ChatId)
    | Nested(inner: Option<ChatId>)

  /** chatHistory as written: `const { chatId } = req.body.chatId` reads the
      field `chatId` OF the body's `chatId`. Destructuring `undefined` throws
      (500); a bare id has no such field, so `findById(undefined)` finds
      nothing (404); only a nested id reaches the lookup. */
  function ChatHistory(chats: seq<Chat>, body: ChatIdParam): (r: Result<seq<Message>>)
    ensures body.Absent? <==> r == Err(ServerError)
    ensures body.Plain? ==> r == Err(NotFound)
    ensures body.Nested? ==> r == ChatHistoryById(chats, body.inner)
    ensures r.Ok? ==> exists c :: c in chats && c.messages == r.value
  {
    match body
    case Absent => Err(ServerError)
    case Plain(_) => Err(NotFound)
    case Nested(inner) => ChatHistoryById(chats, inner)
  }

  /** chatHistory as evidently intended, `const { chatId } = req.body`: the
      messages of the room with the given id; 404 when the id is missing or
      names no room. */
  function ChatHistoryById(chats: seq<Chat>, chatId: Option<ChatId>): (r: Result<seq<Message>>)
    ensures r.Ok? <==> chatId.Some? && exists c :: c in chats && c.id == chatId.value
    ensures r.Err? ==> r.error == NotFound
    ensures r.Ok? ==> exists c :: c in chats && c.id == chatId.value && c.messages == r.value
  {
    if chatId.None? then Err(NotFound)
    else match History(chats, chatId.value)
      case None => Err(NotFound)
      case Some(messages) => Ok(messages)
  }

  /** The discrepancy: a client sending `{ chatId: id }` for an existing room
      gets 404 from chatHistory as written, while the intended reading
      returns that room's messages. */
  lemma PlainIdNeverFound(chats: seq<Chat>, i: nat)
    requires i < |chats|
    ensures ChatHistory(chats, Plain(chats[i].id)) == Err(NotFound)
    ensures ChatHistoryById(chats, Some(chats[i].id)).Ok?
  {
    assert chats[i] in chats;
  }

  /** Under unique room ids the intended reading returns exactly the room's
      own messages. */
  lemma HistoryOfRoom(chats: seq<Chat>, i: nat)
    requires i < |chats|
    requires forall j, k :: 0 <= j < k < |chats| ==> chats[j].id != chats[k].id
    ensures ChatHistoryById(chats, Some(chats[i].id)) == Ok(chats[i].messages)
  {
    assert chats[i] in chats;
    var r := ChatHistoryById(chats, Some(chats[i].id));
    var c :| c in chats && c.id == chats[i].id && c.messages == r.value;
    var j :| 0 <= j < |chats| && chats[j] == c;
    assert j == i;
  }
}
