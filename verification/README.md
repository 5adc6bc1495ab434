# A verified model of the messaging hub and its client

This project models an instant-messaging server and its client in Dafny and proves what
they promise: that every accepted message is delivered exactly once, that what each
client shows is what the server knows, that text typed on one client is read unchanged on
another, and that the byte channel between them keeps order whatever the network does.

The model follows the program's own structure.

- **Server.** `Hub` is the router as one function per handler over registries, contacts,
  the message store and one append-only outbox per session. `Router` is the same router
  as an object with its loops; every method is proved to leave exactly the state, and
  send exactly the frames, that `Hub` says. `Interleaving` is the finer machine, in which
  each lock block or transaction of each connection's thread is one step; `Uninterrupted`
  ties it to `Hub`.
  `Messages`, `History`, `Receipts` and `Rooms` are the stores.
- **Client.** `Keyrings` (a cached keyring against one with no cache), `Controller` (the
  client as a value, one function per gesture or frame) and `ControllerObject` (the same
  as an object over a keyring and a model), `ChatModel` and `ModelObject` (the state a
  view draws, and the events it lives on), `Retrying` (the reconnect schedule).
- **Wire.** `Utf8`, `Frames`, `LineBuffers`, `Channels` and `JsonText`.

The theorems that span these are in `Accounting` (on the ledger of `Ledgers`),
`Provenance`, `Authenticity`, `GlobalInvariants` and `Requests` for the interleaved
server; `Chronicle`, `Answers`, `Replica`, `Absences`, `AbsenceRuns`, `Handover` and
`Visibility` for the handlers; `Outbound`, `OutboundOrder`, `OwnName`, `Outgoing`,
`Inbound`, `Conversations`, `Shown`, `Scrollback`, `Hints`, `Stage`, `Views`,
`ControllerViews` and `ClientReceipts` for the client; `EndToEnd` and `Afterwards` for both.

`Router.MessageRouter`, `ControllerObject.ChatController` and `ModelObject.ChatModel` carry
on every method the contract that the object's contents become the specification's
function of the old ones. The table lists those of them that loop and the two dispatchers;
what is promised about the rest is in the lemmas about the functions.

What the code relies on without enforcing it is stated as a hypothesis:

- frame ids are fresh (`AbsenceRuns.FreshRun`, `Interleaving.Enabled`); who may see what
  (`Visibility`) does not rest on it;
- registered names contain no U+001F (`Visibility.NamesHoldRun`);
- the nonce of a message that is not sealed for each member is not the marker `"*"`
  (`Absences.Markless`), and the nonces a client draws are neither that nor empty
  (`EndToEnd.RealNonces`);
- the connection object the controller calls does not raise;
- `json` round-trips objects exactly, writes no raw newline and ends no text in a
  carriage return (`Channels.Faithful`, which `JsonText.SomeLibraryIsFaithful` shows can
  be met); numbers are integers of any size and finite doubles;
- the cryptography is ideal: the key of a pair is a symmetric function of the two
  identities, and a sealed body opens only on an exact match of key, nonce and
  associated name.

Randomness, the clock and the order in which a dictionary lists its keys are parameters
(`Controller.World`, the jitter draws of `Retrying.Turn`, the ids and times given to
`Frames.FromDict`).

Where the code and its comments differ, the model follows the code: `_receipt` says that
only the recipient of a message may report on it, but `mark` is called before anything is
known about who is asking, so no such property is stated.

`dafny verify dfyconfig.toml` checks the whole project.

## Model

| member | source | states |
|---|---|---|
| `Accounting.ExactlyOnce` | im/server/router.py:457-526 | over every interleaving of lock blocks and transactions: a delivery is owed exactly when a stored row makes it due, to the recipient of a direct message or to each member of the room at the moment its thread read the membership, other than the sender, who has a well-formed envelope; each owed delivery is in exactly one place (with the thread that accepted or flushed it, in `pending`, or sent once) and nothing else is anywhere; what was sent is what the stored row makes for its recipient, and it went to a session that held the recipient's name at a moment after the message was heard |
| `Provenance.NothingIsForged` | im/server/router.py:423-455 | over every interleaving each stored message, and so the one behind every MSG sent, is exactly what some session asked to send that was logged in as its sender and had given the password that name registered with |
| `Authenticity.NamesAreEarned` | im/server/store/users.py:78-94 | over every interleaving whoever goes by a name, in the session or in the registry, gave the password of the first accepted REGISTER of that name, at a moment when the session went by none |
| `GlobalInvariants.EveryRunHolds` | im/server/router.py:104-189 | after every interleaved run: one session per name and one name per session; registry and `session.username` agree outside the login and disconnect windows; room members, queued users and both sides of contacts are registered; no registered name is empty or starts with `#`; contacts are irreflexive; every queued id has a stored row its user can read |
| `Uninterrupted.SendIsAtomic` | im/server/router.py:423-526 | the two views of the server agree: an accepted message handled step by step without interruption leaves the tables and every session's mail as the handler call does |
| `Requests.EveryRequestIsAtomic` | im/server/router.py:121-526 | the same for every request but a receipt, accepted or refused: accounts, logins, rooms, contacts and messages handled step by step end as the handler call does |
| `Uninterrupted.DropIsAtomic` | im/server/router.py:104-117 | the same for a disconnect: releasing the name and clearing the session |
| `Replica.ClientsAreFaithfulReplicas` | im/server/router.py:166-189 | after every run of handler calls, for every online session and any earlier model, folding the LOGIN_OK, PRESENCE and CONTACTS frames it was sent gives exactly the other online users and its contacts with their flags; the latest ROOM_STATE since login of each room it is in is the current membership |
| `AbsenceRuns.OrderAcrossAbsences` | im/server/router.py:662-682 | if a sender's timestamps in a conversation never decrease, two of its messages were handed to a recipient, over any disconnects and logins, in one order if and only if they were accepted in that order |
| `AbsenceRuns.PathsAgree` | im/server/router.py:625-682 | over every run in which no unsealed message bears the marker nonce, each MSG ever handed to a user, live or at login, is exactly what a flush and a history entry make of its stored row: same id, sender, recipient, body, nonce and timestamp |
| `Absences.LiveIsFlushed` | im/server/router.py:528-572 | for every message and member the live copy is the copy a flush rebuilds from the row if and only if the message is sealed for each member or its nonce is not the marker; a member with no well-formed envelope gets nothing on either |
| `Absences.FlushedIsRemembered` | im/server/router.py:625-660 | a flush has a frame for a reader if and only if history has an entry, and they carry the same fields |
| `Absences.MarkerNonceIsDiscarded` | im/server/router.py:639-645 | why the nonce hypothesis is needed: a direct message whose nonce is the marker goes out live and is discarded by a flush |
| `Visibility.HistoryShowsOnlyYourOwn` | im/server/router.py:576-660 | in every reachable state, each entry of any HISTORY_RESULT comes from a row of a room the reader is in at that moment, or of a direct message they sent or received; a sealed row shows only their own envelope |
| `Visibility.RowsStayKeyed` | im/server/store/messages.py:55-77 | over every run each stored row is filed under the key of its own sender and recipient |
| `Visibility.KeyGrantsSight` | im/server/store/messages.py:40-46 | a row filed under the key a reader asks for is one they may see: keys are injective on pairs and no direct key is a room name |
| `Mail.SendHands` | im/server/router.py:457-526 | an accepted message reaches each owed recipient who is online once, as their own copy, and nobody else |
| `Mail.SendStores` | im/server/router.py:457-526 | an accepted message is stored as one row unless its id already is, and queued for exactly the owed recipients who are away |
| `Handover.RowsPersist` | im/server/store/messages.py:55-77 | over every run from any state, every stored row stays where it is and differs at most in its two stamps |
| `Handover.OwedIsHanded` | im/server/router.py:662-682 | whoever is owed an accepted message has been handed their copy whenever they are online, at any moment of any run that follows, however often they and others come and go |
| `Mail.SendMakesContacts` | im/server/router.py:244-260 | an accepted direct message makes each party the other's contact and changes no other pair |
| `Mail.RefusedLeavesNoTrace` | im/server/router.py:423-455 | a message is refused exactly when it has no recipient, its room is not one the sender is in, or nobody has the name; then only the ERROR is sent and nothing is stored; otherwise the last frame to the sender is the ACK |
| `Mail.TypingReaches` | im/server/router.py:726-756 | a typing hint reaches exactly the person, or exactly the other members of a room the sender is in, who are online; nothing else changes |
| `Mail.ReceiptMarks` | im/server/router.py:686-702 | a receipt marks the message and changes no other table; one that names no stored message changes nothing |
| `Mail.ReceiptTells` | im/server/router.py:703-722 | a receipt is passed to exactly the sender of the message, if that is somebody else who is online |
| `Chronicle.TablesAreAsTold` | im/server/router.py:104-386 | after every run, told from the steps alone and by no handler: an account is the first well-formed REGISTER of its name; a session has a name exactly if it gave the right password of an account nobody was logged in to while it had none, and did not go since; a person is in a room exactly if the last step that concerned them and it created it, joined it or named them, registered and among the first 64, in an accepted create or invite, and was not their leaving; a contact is one added or written to, and not removed since |
| `Answers.RegisterIsAnswered` | im/server/router.py:121-138 | REGISTER is answered OK if and only if the name is proper, has a password and was not registered before, and then the account holds that password and key; otherwise the named error and no change |
| `Answers.LoginIsAnswered` | im/server/router.py:140-189 | after any run a session is let in if and only if it has no name, nobody is logged in under that one and the password is the one it registered with; otherwise the named error and no change; the greeting lists exactly who else is logged in, the contacts with whether they are, and the rooms |
| `Answers.KeyIsAnswered` | im/server/router.py:262-285 | after any run GET_KEY is answered with the key of the first accepted REGISTER of the name if it had one, and NO_KEY or NO_RECIPIENT otherwise |
| `Answers.RoomIsRefused` | im/server/router.py:289-386 | after any run, why a request about a room is refused, told from the steps; then nothing changes |
| `Answers.RoomIsAnnounced` | im/server/router.py:289-419 | an accepted one sends every session exactly what concerns it: ROOM_STATE with the membership told from the steps to each member, and to whoever leaves; an invitation first reports names that did not get in |
| `Answers.ContactIsAnswered` | im/server/router.py:211-242 | adding or removing a contact is refused with nothing changed, or answered with exactly the contacts told from the steps and whether each is logged in |
| `Answers.SendIsAnswered` | im/server/router.py:423-501 | after any run, why a message is refused, told from the steps, with nothing changed; otherwise the last frame to its sender is the ACK |
| `Answers.HistoryIsAnswered` | im/server/router.py:576-623 | HISTORY is refused, or answered for exactly the conversation asked for, and changes nothing |
| `Answers.StrangersAreTurnedAway` | im/server/router.py:62-102 | a session that is not logged in is told so and changes nothing, whatever else it asks |
| `Handover.EntryStands` | im/server/router.py:610-620 | an answer holds one entry for each row the reader can see, each after as many as there are such rows before it |
| `Messages.DirectConversationInjective` | im/server/store/messages.py:40-46 | two pairs share a key if and only if they are the same unordered pair, when one of them is free of U+001F |
| `Messages.SeparatorInANameCollides` | im/server/store/messages.py:19-22 | without that condition two different pairs do share a key |
| `Messages.DirectKeyIsNoRoom` | im/server/store/messages.py:40-46 | the key of two names that are not rooms is not a room name |
| `Messages.MessageStore.RecordMessage` | im/server/store/messages.py:55-77 | inserts the row unless its id is stored; ids stay unique |
| `Messages.MessageStore.MarkMessage` | im/server/store/messages.py:87-116 | stamps every row of the id and no other, never overwriting a stamp, READ also stamping delivery; returns the sender, or None when there is no such row |
| `Messages.MessageStore.Flush` | im/server/store/messages.py:134-149 | the selecting and inserting loops return everything queued for a user in (timestamp, rowid) order, and exactly that user's queue is emptied |
| `Messages.FlushKeys` | im/server/store/messages.py:134-149 | the flushed rows are exactly the queued ones, each once, ascending by (timestamp, rowid) |
| `Messages.SenderOf` | im/server/store/messages.py:87-116 | a sender is found if and only if the id is stored, and it is the sender of such a row |
| `History.HistoryIsTheTail` | im/server/store/messages.py:158-188 | the newest-first, limited, reversed query equals the last `limit`, clamped to 1..200, of the conversation sorted by (timestamp, rowid) |
| `History.PagesAreDisjointAndDescending` | im/server/store/messages.py:158-188 | paging back by the oldest timestamp seen terminates and never shows a row twice or out of order, whatever the ties |
| `History.PagingIsComplete` | im/server/store/messages.py:158-188 | the pages concatenate to the whole conversation exactly once in order if and only if, counting back from its newest row in steps of the clamped limit, no stop falls between two rows of one timestamp |
| `History.TieLosesARow` | im/server/store/messages.py:158-188 | two rows of one timestamp read one at a time: the older is never shown |
| `History.ShownIffRecent` | im/server/store/messages.py:158-188 | a row is in the answer if and only if it is in the conversation before the time asked from and fewer than the clamped limit of such rows come after it |
| `Receipts.MarkAllRows` | im/server/store/messages.py:87-116 | any sequence of receipts leaves on the row it names the first stamps reported, keeps set stamps, and leaves every other row alone |
| `Receipts.ReceiptsFormAJoin` | im/server/store/messages.py:87-130 | after any receipts in any order with repeats the state is the maximum of where it stood and what was reported, and read implies delivered |
| `Receipts.HistoryLabelIsState` | im/server/router.py:657-659 | the label history shows equals `state_of` if and only if no stamp that decides it is zero |
| `Rooms.TablesRefineRegistry` | im/server/store/rooms.py:23-83 | every sequence of create, join, leave, forget, members, exists and rooms_of gets the same answers from the two tables as from the map of sets |
| `Rooms.StepRefines` | im/server/store/rooms.py:23-83 | one call: the same answer, the abstraction of the new tables is the new map, and membership rows keep naming existing rooms |
| `Rooms.FreshTablesRefineFreshRegistry` | im/server/store/rooms.py:19-21 | the same from empty tables and an empty registry |
| `Rooms.DanglingMembershipDisagrees` | im/server/store/rooms.py:69-74 | without the invariant the two disagree |
| `Rooms.RoomRegistry.Forget` | im/server/registries.py:123-127 | the loop takes the user out of every room and changes nothing else |
| `Rooms.SqliteRooms.Create` | im/server/store/rooms.py:23-33 | `create` on the two tables is the registry's create on the map they stand for, with the same answer; memberships keep naming existing rooms |
| `Rooms.SqliteRooms.Join` | im/server/store/rooms.py:35-49 | `join` on the two tables is the registry's join on the map they stand for; memberships keep naming existing rooms |
| `Rooms.SqliteRooms.Leave` | im/server/store/rooms.py:51-55 | `leave` on the two tables is the registry's leave on the map they stand for; memberships keep naming existing rooms |
| `Rooms.SqliteRooms.Forget` | im/server/store/rooms.py:76-83 | `forget` on the two tables is the registry's forget on the map they stand for; memberships keep naming existing rooms |
| `Router.MessageRouter.HandleFrame` | im/server/router.py:62-102 | dispatch: the whole state and every outbox become those of the specification's handler; registry and sessions stay in step |
| `Router.MessageRouter.EmitTo` | im/server/router.py:409-419 | the loop sends one frame to the session of each name that is online, and to no other |
| `Router.MessageRouter.HandOver` | im/server/router.py:662-682 | the flush loop sends the rebuilt frames in order and empties the queue |
| `Router.MessageRouter.AddMembers` | im/server/router.py:343-359 | the loop joins exactly the registered names among the first 64 |
| `Router.MessageRouter.DeliverToRoom` | im/server/router.py:482-526 | stored once; the loop gives every other member their own copy or queues them, and skips those without an envelope |
| `Router.MessageRouter.EntriesFor` | im/server/router.py:610-620 | the entries of the rows the reader can see, in order |
| `Utf8.FramingIsSound` | im/common/codec.py:63-101 | for valid UTF-8, cutting the bytes at 0x0A and decoding each line gives the lines of the decoded text |
| `Utf8.LinesMakeTheStream` | im/common/codec.py:63-101 | the converse: if every line is valid UTF-8 so is the stream |
| `Utf8.RoundTrip` | im/common/codec.py:30-38 | encoded text decodes to itself |
| `Utf8.DecodeIsStrict` | im/common/codec.py:96-101 | the decoder accepts nothing but the encoding of what it returns |
| `Utf8.CharHasNoNewline` | im/common/codec.py:22-23 | no byte of a character is 0x0A, except of the newline |
| `LineBuffers.LineBuffer.Feed` | im/common/codec.py:63-89 | gives back the complete lines, or the refusal, of the bytes held plus the chunk, and keeps exactly the rest; after every normal or too-long feed the buffer has no newline and at most the cap; the loop terminates on the buffer length |
| `LineBuffers.DrainIsSplit` | im/common/codec.py:63-89 | the lines are the pieces between newlines, decoded, stripped of trailing CR, empty ones left out; what is kept is the last piece |
| `LineBuffers.RawLinesAreBounded` | im/common/codec.py:63-89 | every raw line a feed completes is at most the cap plus the chunk length less one |
| `LineBuffers.ChunkingDoesNotMatter` | im/common/codec.py:63-89 | any way of cutting a stream into chunks gives the same lines, if what is unfinished at each point fits the cap |
| `LineBuffers.StripCr` | im/common/codec.py:79 | a prefix with no trailing CR left, and the whole text if it had none |
| `Frames.FrameRoundTrip` | im/common/frames.py:87-132 | every frame with an id, this version and no colliding payload key comes back field by field |
| `Frames.ParsedComesBack` | im/common/frames.py:101-132 | what parses can be printed and parsed again to the same frame |
| `Frames.NothingWrittenIsLost` | im/common/frames.py:101-132 | printing what was parsed keeps every non-null field the sender wrote, but an empty id |
| `Frames.BuildDict` | im/common/frames.py:87-98 | the loops fill the dictionary: own fields that are not None, then the payload; refused on a reserved key |
| `Frames.NamesAreDistinct` | im/common/frames.py:26-57 | no two frame types share a wire name |
| `Channels.ChannelKeepsOrder` | im/server/handler.py:129-150 | after any interleaving of senders, closers and the writer, for any bytes received so far in any chunks, the line buffer refuses nothing and the decoded frames are a first part of what `send` accepted, less those that cannot be encoded, equal field by field, provided each encoded frame fits the line cap |
| `JsonText.SomeLibraryIsFaithful` | im/common/codec.py:30-38 | the hypothesis on the JSON library can be met: a printer that gives every value a text of its own with no newline, and the parser that undoes it |
| `Channels.EveryRunIsInStep` | im/server/handler.py:58-70 | over every interleaving the outbox stays within its limit, taken and queued frames are the accepted ones in order, and the wire is a prefix of their encodings, cut short only by a failing socket |
| `Channels.LineComesBack` | im/common/codec.py:30-47 | the line of a sendable frame decodes to that frame |
| `Channels.ClientHandler.WriteLoop` | im/server/handler.py:129-150 | writes the queue in order, skips what cannot be encoded, stops at the sentinel or a failing socket; if it does neither, the wire is the encoding of everything accepted |
| `Keyrings.SealsIffNobodyIsMissing` | im/crypto/keyring.py:101-127 | a room message is sealed if and only if no other member's key is missing, and then for exactly the members and the sender |
| `Keyrings.SealedIsOpened` | im/crypto/keyring.py:89-134 | what one seals for the other, the other opens |
| `Keyrings.OpensIffItWasSealed` | im/crypto/keyring.py:129-134 | a body opens to a text if and only if it is that text sealed under the key held for this person, with this nonce, in this sender's name |
| `Keyrings.Keyring.RememberKey` | im/crypto/keyring.py:43-51 | stores the key; a changed key drops the derived one, so the cache stays right |
| `Keyrings.Keyring.ForgetKey` | im/crypto/keyring.py:56-58 | drops that person's key and derived key |
| `Keyrings.Keyring.FindKey` | im/crypto/keyring.py:60-71 | the cached answer equals deriving afresh; asking for one's own key files it |
| `Keyrings.Keyring.FileSelf` | im/crypto/keyring.py:83-87 | one's own public half under one's own name, unless a key is there |
| `Keyrings.Keyring.SealOne` | im/crypto/keyring.py:89-99 | sealed under the key held, or None |
| `Keyrings.Keyring.SealRoom` | im/crypto/keyring.py:101-123 | one share for each member and the sender, or None |
| `Keyrings.Keyring.MissingKeys` | im/crypto/keyring.py:125-127 | exactly the members whose key is unknown, sorted |
| `Keyrings.Keyring.OpenOne` | im/crypto/keyring.py:129-134 | opened with the key held, or a failure |
| `EndToEnd.DirectTextSurvives` | im/client/controller/chat.py:365-450 | what is typed to a person goes out sealed and reads as exactly that text for them in the live frame, in the frame a flush makes of the row it is stored as and in its history entry, and for the sender in theirs |
| `EndToEnd.RoomTextSurvives` | im/client/controller/chat.py:365-450 | what is typed to a room reads as exactly that text, in the same three forms, for every member who can resolve the sender's key |
| `EndToEnd.OwnRoomTextIsRecovered` | im/client/controller/chat.py:421-450 | a sender recovers their own room text from history if and only if their ring resolves their own name to the key it was sealed under |
| `EndToEnd.OwnNameMustBeKnown` | im/crypto/keyring.py:60-87 | a ring told its own name resolves it; a ring built without it does not |
| `EndToEnd.EveryPathReads` | im/client/controller/chat.py:365-379 | on each path a reader reads the text if and only if the ring resolves the key that path asks for |
| `Scrollback.HistoryIsLoaded` | im/client/controller/chat.py:396-450 | after a HISTORY_RESULT is heard the conversation holds one message for each row in the server's order, with its id, author and time, one's own exactly if one is its author, readable text as it is and a sealed text exactly if the ring resolves the key it was sealed under |
| `EndToEnd.TypedTextIsRead` | im/server/router.py:457-480 | client, server, client: the online recipient is handed one new message and it reads as what was typed |
| `EndToEnd.TypedRoomTextIsRead` | im/server/router.py:482-526 | the same for every online member of a room the sender knew of |
| `Afterwards.TypedTextIsReadAfterAbsence` | im/server/router.py:662-682 | client, server, any run, client: whenever the recipient of a typed text is online again, one of the messages they have been handed since reads as what was typed, and hearing it ends their conversation with the sender in that text |
| `Afterwards.ReadIsDisplayed` | im/client/controller/chat.py:309-329 | what a client reads of a message it hears is what its conversation then ends in |
| `Afterwards.TypedRoomTextIsReadAfterAbsence` | im/server/router.py:482-526 | the same for every member of the room the sender knew of |
| `Afterwards.TypedTextIsReadFromHistory` | im/server/router.py:576-623 | after any run, whichever of the two asks for the conversation, the answer holds an entry that reads as what was typed, if fewer rows than the page holds came after it; and once their client hears the answer the conversation shows that text under its id and author |
| `Afterwards.TypedRoomTextIsReadFromHistory` | im/server/router.py:576-623 | the same for every member the sender knew of who is in the room when they ask |
| `Outbound.NothingTypedIsLost` | im/client/controller/chat.py:50-128 | in every controller run the multiset of non-blank texts typed to a target equals texts sent plus texts held |
| `Outbound.NothingGoesOutUnsealed` | im/client/controller/chat.py:50-104 | every MSG on the connection was sealed: a nonce and a ciphertext under the target's key, or one share for exactly the members known at that step and the sender |
| `OutboundOrder.TextsGoOutInOrder` | im/client/controller/chat.py:106-128 | texts to any person whose name the ring never took for the client's own go out in the order typed, and wait only while that person's key is unknown |
| `OwnName.OwnTextsOvertake` | im/client/controller/chat.py:106-128 | that condition is needed: in every world there is a run in which two texts are typed to one's own name, the second goes out and the first stays held |
| `Shown.EveryMessageIsShown` | im/client/controller/chat.py:274-329 | in every run of a client with a keyring, a conversation whose history was not loaded holds of others exactly one message for each frame heard that belongs there (its room, else its sender) and does not wait for its sender's key, with the frame's id, sender, time and the text it opened to; and of oneself exactly one for each message put on the connection to it, with that id, time, text and signing name |
| `Conversations.ConversationsGrow` | im/client/controller/chat.py:309-363 | from any moment of any run on, with or without a keyring and after a history load as well as before, until the next load: the messages a conversation gains are exactly those its steps show, in order, and one for each message sent to it |
| `Shown.MessagesAreShownInOrder` | im/client/controller/chat.py:339-363 | the encrypted messages of any peer whose name the ring never took for the client's own are shown in each conversation in the order heard, those that still wait coming last |
| `Shown.PlainClientsShowAll` | im/client/controller/chat.py:274-307 | a client without a keyring shows every message heard, in order |
| `Inbound.MessagesAreFiledInOrder` | im/client/controller/chat.py:358-363 | over all conversations, encrypted messages of such a peer are filed in arrival order and wait only while the key is unknown |
| `ControllerObject.ChatController.HoldText` | im/client/controller/chat.py:106-116 | queued behind the others; only the first asks for keys |
| `ControllerObject.ChatController.ReleaseHeld` | im/client/controller/chat.py:118-128 | every waiting text is sent in turn and what was on screen is put back |
| `ControllerObject.ChatController.ChooseKey` | im/client/controller/chat.py:130-150 | selected, and one READ receipt for each message of the other side if any was unread |
| `ControllerObject.ChatController.TakeFrame` | im/client/controller/chat.py:234-267 | dispatch of every frame type: the client, its wire and the events its model emitted become those of the specification |
| `ControllerObject.ChatController.FileAwaiting` | im/client/controller/chat.py:358-363 | every waiting message filed in order |
| `ControllerObject.ChatController.TryRooms` | im/client/controller/chat.py:346-356 | every room that texts wait for is released in turn, if no key is missing any more |
| `ControllerObject.ChatController.TakeHistory` | im/client/controller/chat.py:396-419 | the conversation becomes the rows, each opened with the key its author calls for |
| `ControllerViews.EveryRunIsSeen` | im/client/controller/chat.py:118-128 | after every controller run, releases included, folding exactly the events that run emitted reproduces the model's view state and its active conversation, and what is on screen has nothing unread |
| `ControllerViews.OnlyConfirmedChatsOpen` | im/client/controller/chat.py:174-218 | for every client and step, what comes on screen is what the user chose, somebody already known, or a room that was asked for and that we are in |
| `Stage.StageIsAsTold` | im/client/controller/chat.py:452-496 | over every run: the name is that of the last login heard, each room's members are those last heard, the connection is as last reported, and on screen is what was last chosen or confirmed |
| `Stage.KeysAreHeard` | im/client/controller/chat.py:339-347 | the ring holds for each person the key last heard, and no key that was not heard but for a name it took for its own |
| `Outgoing.ReceiptsGoOut` | im/client/controller/chat.py:130-150 | over every run the receipts on the connection are, in order, DELIVERED for each direct message shown, READ for each message of the other side when a conversation with something unread comes on screen, and those a gesture asks for |
| `Outgoing.RequestsGoOut` | im/client/controller/chat.py:174-231 | over every run the requests about rooms and people on the connection are exactly those the gestures and the refusal ROOM_EXISTS call for, in order |
| `Outgoing.KeysAreAskedFor` | im/client/controller/chat.py:106-116 | over every run whoever has texts held for them, or messages waiting, was asked about |
| `Hints.LabelsAreHeard` | im/client/controller/chat.py:331-337 | over every run, until its history is loaded, a message keeps its place and all but its label, and its label is the highest of where it stood and of the receipts heard from the other side of its conversation for it |
| `Hints.TypingIsHeard` | im/client/controller/chat.py:387-394 | over every run exactly those are shown as typing in a conversation who were last heard to have started and of whom nothing was shown there since |
| `Hints.PeopleAreHeard` | im/client/controller/chat.py:381-385 | over every run the roster and contacts are the fold of the frames heard |
| `Hints.PeopleAreTheServers` | im/client/controller/chat.py:490-496 | a client that heard what its session was sent shows exactly who else is online and its contacts with whether they are |
| `Views.ViewsLiveOnEvents` | im/client/model/chat.py:76-92 | after every sequence of calls the fold of emitted events is the model's unread counts, typing sets, room members, connection state and active conversation; unread is the other party's messages added off screen since the last selection; the active conversation is at zero |
| `Views.TypingIsSaid` | im/client/model/chat.py:262-277 | after every sequence of calls exactly those are typing who were last said to be and of whom no message was added since |
| `ClientReceipts.LabelIsHighest` | im/client/model/chat.py:196-215 | a message's label is the highest of its start and the receipts seen since the last history load, and stays one of the three labels |
| `ClientReceipts.RunMessages` | im/client/model/chat.py:165-215 | the messages of a conversation after a run depend only on the calls that name it |
| `ModelObject.ChatModel.ReplaceRoster` | im/client/model/chat.py:96-105 | the loops mark exactly the listed names online and every other known name offline |
| `ModelObject.ChatModel.ReplaceContacts` | im/client/model/chat.py:107-121 | the loops replace the list, leaving out empty names, and put its names on the roster without overwriting presence; silent if the same |
| `ModelObject.ChatModel.SetReceipt` | im/client/model/chat.py:196-215 | the first message of that id moves up, never down |
| `Retrying.RetrySchedule` | im/client/net/session.py:147-175 | each wait of the supervisor, with k failures just before it, is between (1 - jitter) and 1 times min(first * factor^k, maximum) |
| `Retrying.SuccessRestarts` | im/client/net/session.py:177-204 | one success starts again from k = 0 and k counts the failures from there |
| `Retrying.NominalRises` | im/client/net/backoff.py:51-53 | nominal delays never decrease and never pass the maximum |
| `Retrying.NominalSettles` | im/client/net/backoff.py:51-53 | they reach the maximum after finitely many attempts and stay there |
| `Retrying.DelayIsWithin` | im/client/net/backoff.py:55-61 | jitter takes off at most its share; without jitter the delay is the nominal one |
| `Retrying.DefaultSchedule` | im/client/net/backoff.py:18-25 | as shipped: doubling from one second, thirty from the sixth attempt on |
| `Retrying.Supervisor.Watch` | im/client/net/session.py:147-204 | the loop waits exactly the schedule's delays and counts reconnects and consecutive failures |

## Left out

- The views, theme, dialogs, `tools/`, `demo/` and the entry points: user interface and scripts.
- Sockets, TLS, real threads, timeouts, heartbeats and `im/client/net/state.py`.
- The internals of X25519, HKDF, AES-GCM, scrypt, base64, `json` and SQLite; a public key or a JSON field of the wrong type is not modelled, so requests and inbound frames arrive with their fields already read and a missing text is the empty one.
- Lone surrogates: a Dafny character is a Unicode scalar value, so text that Python cannot encode does not occur; frames that cannot be encoded are those whose payload collides with a reserved key.
- A sorted list of distinct names in a frame, an event or a member tuple is the set it lists.
- Conversations are values in the model's map, not objects of their own; two holders of one conversation object are not modelled.
- In the interleaved machine, receipts, typing, history, key requests and every frame other than MSG; a login's credential check and the handlers' error replies are not separate steps there.
- The server without a message store or without contacts.
- `_read_loop`'s BAD_FRAME and LINE_TOO_LONG replies; search and snippets; `contact_names`, `keys` and other listings for display.
- De-duplication of a resent id beyond the stored row; liveness or order of held room texts when membership changes while waiting; roster accuracy after an automatic reconnect, whose LOGIN_OK is not forwarded.
- Float rounding and overflow in the retry schedule, which is over reals; that the supervisor always retries, since an exception it does not catch ends it.
- NaN, infinities and Python's limit on the digits of an integer in JSON text.
- OutboundOrder.TextsGoOutInOrder: says nothing about texts to a name the ring took for the client's own, where `OwnName.OwnTextsOvertake` shows that a later text can overtake a held one; which runs under such a name keep the order is not characterised.
- Inbound.MessagesAreFiledInOrder: says nothing about messages from a name the ring took for the client's own, for the same reason.
- Absences.MarkerNonceIsDiscarded: a text under the marker nonce that is JSON but no object makes the source raise after the queue was cleared; the model leaves the row out as it does for text that is not JSON.
