# devTinder matching engine and chat store, in Dafny

This project models the core of the devTinder backend. That core has two halves.

The **matching engine** is a ledger of swipes. Each swipe is one `left`/`right` decision per ordered pair of users. The HTTP controllers work on top of it:
- the paged feed of candidates;
- recording a swipe, which reports "It's a match" when the swipe is reciprocated;
- the list of pending likes;
- answering a like;
- the list of matches.

The **chat store** holds one room per pair of users and is driven by two parts:
- a real-time socket server, which authenticates a connection, keeps the user-to-socket registry, joins rooms, pushes messages and records read receipts;
- two HTTP controllers, which find or create the room of a pair and return a room's history.

**Data model**
- Each Mongo collection is a sequence of documents in storage order.
  - `find` is a filter over that sequence.
  - `findOne` is the first match.
  - Sorting by `createdAt` descending is the reverse of the sequence. The collection stays in creation order.
- The Swipe collection denotes a map from ordered pairs to directions (`SwipeModel.Ledger`). Its unique compound index is an invariant of `SwipeCollection`.
- The Chat collection is a class whose invariant says no two rooms serve the same pair of different users.

**What is abstract**
- Token verification is a partial map from tokens to claims.
- Timestamps come from abstract clocks, one per collection. The swipe clock ticks on every swipe request that reaches the store, including a save that writes nothing. The chat clock ticks on each room creation and each message push; read receipts do not tick it.
- The shuffle's random index is a nondeterministic choice.

**Behaviour of the code worth knowing**
- **Rejected token.** An empty token (a header of exactly "Bearer ") or a token the verifier rejects makes `jwt.verify` throw. The controller's catch block turns that into a 500, not a 401 (`Http.Authorize`).
- **Self-swipe.** `swipeUser` does not reject a swipe on oneself. A right self-swipe reports a match with oneself, because the mutual lookup finds the swipe just written.
- **No membership checks.** Neither `join_chat` nor `send_message` checks that the socket's user is a participant of the chat.
- **Empty content.** `send_message` accepts empty content.
- **Self-addressed findRoom.** `findRoom` with the caller as target matches any two-person room the caller is in (`ChatModel.RoomMatches`).
- **No auth on chatHistory.** `chatHistory` performs no authentication at all.

## Model

| member | source | states |
|---|---|---|
| UserModel.ToProfile | backend/controllers/user.controller.js:141-144 | the returned record keeps every modelled field except the password |
| UserModel.FindUser | backend/controllers/user.controller.js:83-86 | finds a stored user with the requested id, or reports that no stored user has it |
| UserModel.Accepts | backend/controllers/user.controller.js:122-125 | "both" admits every user; a user with no gender passes only "both"; a male user passes "male" and "both", a female user "female" and "both" |
| Http.BearerToken | backend/controllers/user.controller.js:76-80 | a token exists iff the header is present and starts with "Bearer "; the token is the space-free run right after the prefix |
| Http.Authorize | backend/controllers/user.controller.js:76-86 | 401 iff no Bearer token; 500 iff the token is empty or the verifier rejects it; 404 iff no stored user has the token's id; Ok iff none of these, and then the session's user is stored and has the token's id; no other error |
| Http.OrDefault | backend/controllers/user.controller.js:72-73 | an unparsable or zero parameter yields the fallback; any other parsed value is kept; a non-zero fallback gives a non-zero result |
| Http.UpToSpace | backend/controllers/user.controller.js:80 | the token is the longest space-free prefix of what follows "Bearer " |
| Http.PageNumber | backend/controllers/user.controller.js:72 | an absent, unparsable or zero page is 1; any other parsed page, negative ones included, is kept; never 0 |
| Http.PageSize | backend/controllers/user.controller.js:73 | an absent, unparsable or zero limit is 10; any other parsed limit, negative ones included, is kept; never 0, so a safe divisor |
| Http.Skip | backend/controllers/user.controller.js:139 | page 1 skips nothing; positive page and limit give a non-negative skip; consecutive pages start `limit` apart |
| Http.TotalPages | backend/controllers/user.controller.js:157-158 | for a positive limit, the least page count whose pages cover the total (the ceiling of total/limit); for a negative limit, the corresponding ceiling |
| Http.Page | backend/controllers/user.controller.js:141-144 | a negative skip fails with 500; otherwise the window holds min(abs(limit), remaining) documents, each the one `skip` places further on |
| SwipeModel.ParseDirection | backend/models/swipe.model.js:15-19 | only "left" and "right" are directions, and "right" is the right swipe |
| SwipeModel.FindSwipe | backend/controllers/user.controller.js:196-199 | finds the first document of the pair, or reports that the pair has none |
| SwipeModel.LedgerReadsFirst | backend/controllers/user.controller.js:196-199 | a pair has a ledger entry iff some document has that pair, and the entry is the direction of the pair's first document in collection order |
| SwipeModel.LedgerHas | backend/models/swipe.model.js:25 | under the unique index every stored swipe is its pair's ledger entry |
| SwipeModel.LedgerEntry | backend/models/swipe.model.js:5-19 | every ledger entry is read off a stored swipe of that pair |
| SwipeModel.NoDocumentNoKey | backend/controllers/user.controller.js:196-201 | a pair `findOne` misses has no ledger entry |
| SwipeModel.OneEntry | backend/models/swipe.model.js:25 | under the unique index a stored pair occupies exactly one position |
| SwipeModel.LedgerUpdated | backend/controllers/user.controller.js:201-204 | rewriting the pair's document changes that pair's ledger entry and no other |
| SwipeModel.SameDirectionKeepsLedger | backend/controllers/user.controller.js:201-204 | under the unique index, saving a document with its own direction leaves the ledger as it is and the pair with one document |
| SwipeModel.LedgerAppended | backend/controllers/user.controller.js:205-211 | creating the first document of a pair adds its entry and changes no other |
| SwipeModel.SwipeCollection.constructor | backend/models/swipe.model.js:3-25 | an empty collection satisfies the index invariant |
| SwipeModel.SwipeCollection.SaveSwipe | backend/controllers/user.controller.js:195-212 | keeps the unique index; the ledger becomes the old one with (actor, target) set to the direction; exactly one document for the pair; repeating a swipe changes nothing; the full new collection |
| SwipeModel.SwipeCollection.UpsertSwipe | backend/controllers/user.controller.js:324-329 | same ledger update and single entry; the returned document is stored and carries the pair and the new direction |
| SwipeModel.SwipeCollection.Append | backend/controllers/user.controller.js:207-211 | creating a new pair's document keeps the index and creation order and adds the pair's entry |
| SwipeModel.SwipeCollection.Replace | backend/controllers/user.controller.js:203-204 | saving a changed document keeps the index and creation order and updates only that pair's entry |
| UserController.TargetsOf | backend/controllers/user.controller.js:97-110 | under the unique index, the users the caller swiped in a direction are exactly those the ledger records in that direction |
| UserController.LikersOf | backend/controllers/user.controller.js:366-369 | under the unique index, the users who swiped the caller right are exactly the ledger's right entries towards the caller |
| UserController.RespondedTo | backend/controllers/user.controller.js:257-260 | the users the caller answered, either way, are exactly the ledger keys from the caller |
| UserController.MatchedWith | backend/controllers/user.controller.js:112-119 | under the unique index, the feed's matched set is exactly the users with a mutual right swipe |
| UserController.HasRightSwipe | backend/controllers/user.controller.js:216-220 | under the unique index, the mutual-swipe lookup finds a document iff the ledger has a right swipe for that pair |
| UserController.OrClauseAdmitsAll | backend/controllers/user.controller.js:133-136 | the query with the `$or` clause admits exactly the users the query without it admits |
| UserController.FeedCandidates | backend/controllers/user.controller.js:97-142 | under the unique index, a user is a candidate iff stored, not carrying the token's email, of the preferred gender, not swiped left and not a match; right-swiped, unmatched users stay eligible; never more candidates than users |
| UserController.EmailExcludesOnlyCaller | backend/controllers/user.controller.js:131 | under the unique email and id indexes, the email filter drops the caller and no one else |
| UserController.Profiles | backend/controllers/user.controller.js:144 | every user of the page is returned as its password-free profile, in order |
| UserController.FeedWindow | backend/controllers/user.controller.js:139-158 | fails only on a negative skip (500); otherwise exactly the profiles of the candidates from `skip` on, min(abs(limit), remaining) of them, in order; total and page count over all candidates; none excluded |
| UserController.FeedPage | backend/controllers/user.controller.js:72-158 | authorization errors pass through; an unset preference gives 400; a page fails only on a negative skip (500); otherwise exactly the candidates' profiles from `skip` on, min(abs(limit), remaining) of them; the total counts all candidates and the page count is its ceiling; no excluded user appears |
| UserController.Shuffle | backend/controllers/user.controller.js:146-153 | the in-place shuffle leaves the same multiset of elements |
| UserController.GetFeed | backend/controllers/user.controller.js:141-166 | the reply is the unshuffled feed reply with its page permuted, same length, at most abs(limit) |
| UserController.SwipeUser | backend/controllers/user.controller.js:173-232 | auth errors, then 400 for a bad direction, with no write; otherwise the ledger update with one entry per pair and idempotence; a match is reported iff the swipe is right and the target has swiped the caller right |
| UserController.PendingLikes | backend/controllers/user.controller.js:263-271 | exactly the right swipes on the caller by users the caller has not swiped; newest first over a chronological collection; the unique index carries over |
| UserController.MutualLikes | backend/controllers/user.controller.js:372-380 | under the unique index, exactly the caller's right swipes on users who swiped the caller right; newest first over a chronological collection; the unique index carries over |
| UserController.NewestFirstMembers | backend/controllers/user.controller.js:263-271 | a newest-first query result holds exactly the documents the filter selects |
| UserController.NewestFirstDistinct | backend/models/swipe.model.js:25 | a newest-first query result of an index-respecting collection respects the index |
| UserController.NewestFirstOrder | backend/controllers/user.controller.js:271 | over a chronological collection a newest-first query result runs strictly from the newest document to the oldest |
| UserController.LikedByIsPending | backend/controllers/user.controller.js:256-280 | the liked-by list is exactly the users who swiped the caller right and whom the caller has not swiped, without repetition |
| UserController.MatchesAreMutual | backend/controllers/user.controller.js:365-389 | the matches list is exactly the users with a mutual right swipe, without repetition |
| UserController.Swipers | backend/controllers/user.controller.js:280 | each swipe of the page maps to its swiper, in order |
| UserController.Swipees | backend/controllers/user.controller.js:389 | each swipe of the page maps to its swiped user, in order |
| UserController.ListPage | backend/controllers/user.controller.js:254-288 | fails only on a negative skip (500); otherwise exactly the listed ids from `skip` on, min(abs(limit), remaining) of them, in order; the total and page count cover the whole list |
| UserController.LikedByList | backend/controllers/user.controller.js:254-288 | for an authorized caller: a negative skip gives 500; otherwise the swipers of the pending likes from `skip` on, min(abs(limit), remaining) of them; each swiped the caller right unanswered; total and page count over all pending likes |
| UserController.MatchesList | backend/controllers/user.controller.js:363-397 | for an authorized caller: a negative skip gives 500; otherwise the swiped users of the mutual likes from `skip` on, min(abs(limit), remaining) of them; each a match; total and page count over all matches |
| UserController.GetLikedBy | backend/controllers/user.controller.js:235-293 | auth errors pass through; a negative skip gives 500; otherwise exactly the swipers of the pending likes from `skip` on, min(abs(limit), remaining) of them, each of whom swiped the caller right unanswered; total and page count over all pending likes |
| UserController.GetMatches | backend/controllers/user.controller.js:344-402 | auth errors pass through; a negative skip gives 500; otherwise exactly the swiped users of the mutual likes from `skip` on, min(abs(limit), remaining) of them, each a mutual match; total and page count over all matches |
| UserController.ParseAction | backend/controllers/user.controller.js:299-303 | only "accept" and "reject" are actions; "accept" means a right swipe |
| UserController.RespondToLike | backend/controllers/user.controller.js:295-342 | the action is checked before authorization; a valid call upserts the caller's single entry for the liker and returns the stored document |
| ChatModel.AddToSet | backend/socket/chat.socket.js:83 | the reader is added once; nothing is removed; no duplicates are introduced; adding a present reader changes nothing |
| ChatModel.RoomMatches | backend/controllers/chat.controller.js:27-30 | for two different users, a room whose participants are exactly the pair in either order; for a self-addressed lookup, any two-person room the user is in |
| ChatModel.FirstRoom | backend/controllers/chat.controller.js:26-31 | finds the first room with both users and exactly two participants, or reports that none matches |
| ChatModel.FirstRoomSymmetric | backend/controllers/chat.controller.js:26-31 | the room lookup gives the same room whichever user asks |
| ChatModel.FindChat | backend/controllers/chat.controller.js:51 | finds the first room with that id, or reports that none has it |
| ChatModel.ReadByAll | backend/socket/chat.socket.js:82-84 | every message of the room keeps its id, sender and content and gains the reader's receipt; receipts stay duplicate-free |
| ChatModel.ReadByAllIdempotent | backend/socket/chat.socket.js:82-84 | adding the same reader twice is adding it once |
| ChatModel.Mentions | backend/socket/chat.socket.js:80 | a room matches iff one of its messages has a listed id; an empty list matches no room |
| ChatModel.NewMessage | backend/socket/chat.socket.js:44-48 | a new message has its sender, its content, and the sender as sole reader |
| ChatModel.NewRoomIsAlone | backend/controllers/chat.controller.js:33-39 | a room created because none matched keeps one room per pair |
| ChatModel.CreateRoomValid | backend/controllers/chat.controller.js:34-39 | creating a fresh empty room keeps the collection invariant |
| ChatModel.SameParticipants | backend/models/chat.model.js:3-8 | writes that leave participants alone keep one room per pair |
| ChatModel.PushValid | backend/socket/chat.socket.js:51-58 | pushing a fresh message keeps the collection invariant |
| ChatModel.MarkRooms | backend/socket/chat.socket.js:77-85 | exactly the rooms with the id that mention a listed message get the reader's receipts |
| ChatModel.MarkedIsRead | backend/socket/chat.socket.js:77-85 | in an addressed room that mentions a listed message, every message is read by the reader; other rooms are unchanged; receipts never shrink |
| ChatModel.MarkRoomsIdempotent | backend/socket/chat.socket.js:77-85 | repeating mark_read changes nothing more |
| ChatModel.ReadKeepsMentions | backend/socket/chat.socket.js:78-81 | receipts do not change which listed messages a room mentions |
| ChatModel.MarkValid | backend/socket/chat.socket.js:77-85 | mark_read keeps the collection invariant |
| ChatModel.ChatCollection.constructor | backend/models/chat.model.js:3-32 | an empty collection satisfies the invariant |
| ChatModel.ChatCollection.FindOrCreateRoom | backend/controllers/chat.controller.js:24-41 | an existing room of the pair is returned and nothing is created; otherwise exactly one empty, active room [me, target] is appended, stamped now; afterwards the lookup finds the returned room |
| ChatModel.ChatCollection.PushMessage | backend/socket/chat.socket.js:44-60 | an unknown room gives nothing and changes nothing; otherwise exactly one new message is appended to that room, `lastMessage` is stamped, and the message id and clock advance by one; the invariant is kept |
| ChatModel.ChatCollection.AddReader | backend/socket/chat.socket.js:77-85 | the rooms become `MarkRooms` of the old rooms; the invariant is kept |
| ChatModel.History | backend/controllers/chat.controller.js:51-55 | returns a room's messages iff a room with that id exists |
| ChatController.FindRoom | backend/controllers/chat.controller.js:6-46 | auth errors, with no store change; otherwise the returned id is that of the pair's room, existing or just created |
| ChatController.ChatHistory | backend/controllers/chat.controller.js:48-60 | as written: no body id gives 500; a bare id gives 404; a nested id is looked up exactly as the intended reading looks up an id, so a nested missing or unknown id gives 404 |
| ChatController.ChatHistoryById | backend/controllers/chat.controller.js:50-55 | as intended: the room's messages iff the id names a room, otherwise 404 |
| ChatController.PlainIdNeverFound | backend/controllers/chat.controller.js:50 | a bare id of an existing room gets 404 as written but is found as intended |
| ChatController.HistoryOfRoom | backend/controllers/chat.controller.js:51-55 | under unique room ids the intended reading returns that room's own messages, in stored order |
| ChatSocket.Handshake | backend/socket/chat.socket.js:14-27 | accepted iff a non-empty token is present and verifies; the socket's user is the token's user id |
| ChatSocket.ChatServer.constructor | backend/socket/chat.socket.js:29 | the registry starts empty |
| ChatSocket.ChatServer.Connect | backend/socket/chat.socket.js:14-32 | a rejected handshake changes nothing; otherwise the user's registry entry is set to this socket, overwriting an earlier one, with other keys unchanged |
| ChatSocket.ChatServer.JoinChat | backend/socket/chat.socket.js:35-37 | the socket joins the room without any membership check |
| ChatSocket.ChatServer.SendMessage | backend/socket/chat.socket.js:40-72 | an unknown room emits an error to the sender alone and changes nothing; otherwise the addressed room becomes itself with the socket user's new message, read by that user, appended and `lastMessage` stamped, every other room unchanged; the room is sent that message |
| ChatSocket.ChatServer.MarkRead | backend/socket/chat.socket.js:75-95 | the store is updated by `MarkRooms` for the socket's user, counters and clock untouched; the room is always told |
| ChatSocket.ChatServer.Disconnect | backend/socket/chat.socket.js:97-99 | the user's registry entry is removed even if a newer socket of that user set it; other keys are unchanged |

## Left out

- Token signing and verification internals: `jwt.verify` is a partial map from token to claims.
- `populate` is left out. The lists return user ids, not populated user records. Sender population of the broadcast message is also left out.
- Response message texts are left out. So are the extra `matchMessage` and success-message fields; the model returns `matched` and the payloads instead.
- socket.io transport: delivery of emitted events to room members, CORS, and the per-socket default room. Emissions are returned as a list of `Emit` values.
- Clocks and randomness. `Date.now`/`new Date()` become an abstract counter. `Math.random` becomes a nondeterministic index in `[0, i]`.
- Interleaving of concurrent requests and socket events: the model is sequential. Two concurrent `findRoom` calls could each create a room; this model cannot show that.
- `parseInt` and JavaScript number precision: query parameters arrive already parsed, as an optional integer.
- Missing or ill-typed body fields are left out. These include a missing `swipedUserId` or `targetUserId`, ObjectId cast errors, and a missing `content`. Ids are natural numbers; content is a string.
- `updateProfile`, the Cloudinary upload and multer: media I/O through foreign libraries.
- The route files and backend/index.js: routing and bootstrap only.
- Chat `createdAt`/`updatedAt` and the user bookkeeping fields (lastLogin, verification tokens, bio, picture) are left out, because nothing in the core reads them.
- `UserController.FeedPage`: the count query and the page query are one consistent snapshot, since the model has no concurrency.
- `UserController.Shuffle`: states only that the page is permuted, not that every permutation is reachable.
- `UserController.GetLikedBy`: its membership guarantee is stated under the unique index (`UniquePairs`), which the stored collection always keeps.
- `UserController.GetMatches`: likewise stated under the unique index.
- `UserController.TargetsOf`: likewise stated under the unique index.
- `UserController.LikersOf`: likewise stated under the unique index.
- `UserController.MatchedWith`: likewise stated under the unique index.
- `UserController.HasRightSwipe`: likewise stated under the unique index.
- `UserController.FeedCandidates`: likewise stated under the unique index.
- `UserController.MutualLikes`: likewise stated under the unique index.
- `UserController.LikedByList`: likewise stated under the unique index.
- `UserController.MatchesList`: likewise stated under the unique index.
- `UserController.FeedWindow`: likewise stated under the unique index.
- `ChatSocket.ChatServer.JoinChat`: socket.io's room bookkeeping is modelled as a set of room ids per socket; delivery is not modelled.

## Findings

| source | as written | input that shows it | evidently intended | confidence | as-written member | corrected member |
|---|---|---|---|---|---|---|
| backend/controllers/chat.controller.js:50 | `const { chatId } = req.body.chatId` reads the `chatId` field of the id itself, so a bare id becomes `undefined` and `findById` finds nothing | body `{ "chatId": <id of an existing room> }` gets 404 instead of the room's messages (`ChatController.PlainIdNeverFound`) | `const { chatId } = req.body`, returning the room's messages or 404 | high, not executed | ChatController.ChatHistory | ChatController.ChatHistoryById |
