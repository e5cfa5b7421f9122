# Messaging service of the ReWear swap marketplace, in Dafny

The ReWear front end keeps its chat state in one in-memory `MessagingService`
object. The object holds:

- a Map from conversation id to conversation record. A record holds the
  participants, the swapped item, a status, the cached last message and an
  unread counter.
- a Map from conversation id to that conversation's message history.
- a Set of subscriber callbacks.

The service seeds three conversations and a six-message history. It lets the
local user (`user-1`) send messages, mark conversations read and open new
conversations, and it feeds in simulated replies from "Emma L." on a timer.
Every insertion goes through a private `addMessage`. That method appends to the
history, updates the record when there is one, and calls every subscriber.

The project has five modules:

- `Domain` (`domain.dfy`): the records and the minted ids `msg-<now>` and
  `conv-<now>`, with their decimal rendering.
- `Store` (`store.dfy`): the service state as a value. It has one transition
  function per operation, and the function's ensures clauses state what the
  operation does. `Store.Consistent` is the bookkeeping invariant: every record
  has a history, is stored under its own id, and caches the last message of that
  history. Every transition preserves it.
- `Fixtures` (`fixtures.dfy`): the seeded data, the three seeding passes, and the
  state they produce. The last seeding pass also caches `msg-6` on `conv-1`.
- `Session` (`session.dfy`): any sequence of calls, and what holds after it:
  - consistency is kept;
  - histories are in call order and append-only;
  - the unread counter counts messages received since the last reset;
  - a subscriber is called once per insertion while it is subscribed, and never
    once it has been removed.
- `Service` (`service.dfy`): the `MessagingService` class. Its fields are the two
  maps, the key order, the subscriber list, and a ghost log of callback
  invocations that exists only for the proofs.
  Each method updates the fields in place and is proved to move the object's
  `Snapshot()` exactly as the matching `Store` transition. So every `Store` and
  `Session` property holds of the object. The `forEach` passes of the source
  are `while` loops with invariants.

A JavaScript Map and Set iterate in insertion order. The model therefore keeps
the conversation keys in a duplicate-free sequence, `order`, and keeps the
subscribers as a duplicate-free sequence.

A callback is known only by its identity (`Listener`), because its body is
foreign code. Each call `listener(conversationId, message)` is appended to
`notifications`, and `Store.CallsTo` counts the calls a subscriber received.

The clock (`Date.now()`) and the random draws of the simulation are
parameters: `now`, `convPick`, `arrives` and `responsePick`.

## Model

| member | source | states |
|---|---|---|
| Domain.LastOf | src/services/messagingService.ts:144-149 | the cached last message is None exactly for an empty history, and otherwise the history's final element |
| Domain.Decimal | src/services/messagingService.ts:196 | the rendering of a clock reading is never empty and is one digit exactly below 10 |
| Domain.DecimalInjective | src/services/messagingService.ts:196 | two clock readings print alike only when they are equal |
| Domain.MessageIdUnique | src/services/messagingService.ts:196 | two `msg-${Date.now()}` ids (`Domain.MessageId`) are equal exactly when the two clock readings are; a send and a simulated reply in the same millisecond share an id |
| Domain.ConversationIdUnique | src/services/messagingService.ts:250 | two `conv-${Date.now()}` ids (`Domain.ConversationId`) are equal exactly when the two clock readings are |
| Store.Fanout | src/services/messagingService.ts:227-229 | one notification per subscriber, in subscription order, each carrying the conversation id and the message |
| Store.FanoutCallsEachOnce | src/services/messagingService.ts:227-229 | over a duplicate-free subscriber set, one fan-out calls a subscriber once if it is subscribed and never otherwise |
| Store.AddMessage | src/services/messagingService.ts:211-230 | the message is appended to its history (read through `Store.MessagesFor`, the `get(id) \|\| []` of line 212), and an unknown id gets a new history; other histories and all keys are kept; a known record caches the message and gains one unread only if the message is not own, with its other fields kept (the update `Store.Record`, lines 219-222); other records are kept; every subscriber is notified; consistency is preserved |
| Store.AddMessageCallsEachListenerOnce | src/services/messagingService.ts:227-229 | each insertion adds exactly one call for every current subscriber and none for anyone else |
| Store.SendMessage | src/services/messagingService.ts:195-209 | the returned message (built by `Store.OwnMessage`) is own, from `user-1` named "You" with an empty avatar, with the given content, conversation, id `msg-<now>` and timestamp; it is the one inserted by `addMessage`; it ends the history; the counter is unchanged; the record caches it |
| Store.MarkConversationAsRead | src/services/messagingService.ts:232-238 | a known record's counter becomes 0 with its other fields kept; an unknown id changes nothing; other records and all other state are kept; consistency is preserved |
| Store.MarkConversationAsReadIdempotent | src/services/messagingService.ts:232-238 | marking a conversation read twice is the same as marking it once |
| Store.CreateConversation | src/services/messagingService.ts:249-265 | returns `conv-<now>`; stores under it an active record (`Store.NewConversation`) for `user-1` and the participant, with no unread and no last message, and an empty history; keeps every other record and history; appends the id to the key order only if it is new; preserves consistency |
| Store.CreateConversationOverwrites | src/services/messagingService.ts:262-263 | a create that hits an existing id keeps its place in the order and empties its non-empty history |
| Store.Without | src/services/messagingService.ts:245 | `Set.delete`: removes exactly that callback, keeps the set duplicate-free, and leaves it unchanged when the callback is absent |
| Store.WithoutKeepsOrder | src/services/messagingService.ts:245 | removing a registered callback keeps every other callback in its original order |
| Store.SubscribeToMessages | src/services/messagingService.ts:240-241 | `Set.add`: the callback joins the subscribers; a second add changes nothing; nothing else changes |
| Store.Unsubscribe | src/services/messagingService.ts:244-246 | exactly that callback leaves the subscribers; nothing else changes; consistency is preserved |
| Store.UnsubscribeIdempotent | src/services/messagingService.ts:244-246 | calling the unsubscribe closure twice is the same as calling it once |
| Store.UnsubscribeUndoesSubscribe | src/services/messagingService.ts:240-246 | subscribing a new callback and then unsubscribing it restores the state exactly |
| Fixtures.SeedMessage | src/services/messagingService.ts:74-135 | a seeded message lies in `conv-1`, keeps its id and timestamp, and is own exactly when it is from `user-1` |
| Fixtures.SeedMessages | src/services/messagingService.ts:74-135 | six seeded messages, all addressed to `conv-1` |
| Fixtures.SeedMessagesChronological | src/services/messagingService.ts:74-135 | the seeded history has distinct ids and strictly increasing timestamps |
| Fixtures.RegisterKeys | src/services/messagingService.ts:68-71 | the first pass (`Fixtures.Register`) adds to both maps exactly the ids of the fixture records |
| Fixtures.RegisterRecords | src/services/messagingService.ts:68-71 | the first pass gives every fixture id an empty history and stores only records from the fixture list |
| Fixtures.RegisterKeepsOrder | src/services/messagingService.ts:68-71 | the first pass keeps the key order duplicate-free and equal to the key set |
| Fixtures.Thread | src/services/messagingService.ts:137-141 | the second pass adds exactly the ids the messages name to the history map |
| Fixtures.ThreadHistory | src/services/messagingService.ts:137-141 | after the second pass, each history is its old contents followed by the messages addressed to it, in order |
| Fixtures.ThreadAllTo | src/services/messagingService.ts:137-141 | messages all addressed to one known conversation extend that history alone |
| Fixtures.WithLastMessages | src/services/messagingService.ts:144-149 | the third pass caches the last message of every non-empty history and leaves records with empty histories alone |
| Fixtures.RegisterSeed | src/services/messagingService.ts:38-71 | the first pass gives three records, in order `conv-1`, `conv-2`, `conv-3`, each with an empty history |
| Fixtures.ThreadSeed | src/services/messagingService.ts:74-141 | the second pass puts the whole seeded history on `conv-1` |
| Fixtures.LastMessagesSeed | src/services/messagingService.ts:144-149 | the third pass caches `msg-6` on `conv-1` and leaves the other two records alone |
| Fixtures.SeedStateIs | src/services/messagingService.ts:36-150 | the three passes together produce exactly the written-out seeded state |
| Fixtures.SeededStoreFacts | src/services/messagingService.ts:36-150 | seeded: keys `conv-1..3` in that order; `conv-1` holds `msg-1..msg-6`, caches `msg-6` and shows 1 unread; `conv-2` and `conv-3` are empty and cache nothing; no subscribers; no calls |
| Fixtures.SeededStoreConsistent | src/services/messagingService.ts:36-150 | the seeded state satisfies the bookkeeping invariant |
| Fixtures.InboundMessage | src/services/messagingService.ts:165-181 | a simulated reply is not own, comes from `user-2` ("Emma L.", with her avatar) and not from `user-1`, carries the drawn canned response, and is addressed to the drawn conversation with id `msg-<now>` and timestamp `now` |
| Session.RunPreservesConsistency | src/services/messagingService.ts:187-265 | every sequence of calls keeps the bookkeeping invariant |
| Session.HistoryIsCallOrder | src/services/messagingService.ts:211-214 | a history lists the messages inserted into it in call order: after its stored prefix, or after the last create that emptied it |
| Session.HistoryAppendOnly | src/services/messagingService.ts:211-214 | calls that do not recreate a conversation only append to its history, and its record caches the last message |
| Session.ConversationExists | src/services/messagingService.ts:249-265 | a conversation exists after some calls exactly when it existed before or was created by one of them (records are never removed) |
| Session.UnreadCountsReceivedSinceReset | src/services/messagingService.ts:218-237 | the unread counter equals the number of messages received from others since the conversation was last marked read or created (added to the stored count when neither happened), whatever the local user sends |
| Session.UnsubscribedNeverCalled | src/services/messagingService.ts:240-247 | a callback that is not subscribed, and not subscribed again, is never called |
| Session.SubscribedCalledOncePerInsertion | src/services/messagingService.ts:227-247 | a subscribed callback that nobody removes is called exactly once per inserted message |
| Service.MessagingService.constructor | src/services/messagingService.ts:31-150 | the new object is consistent and holds exactly `Fixtures.SeedState`, the composition of the three seeding passes, which `Fixtures.SeedStateIs` identifies with the written-out seeded state |
| Service.MessagingService.RegisterConversations | src/services/messagingService.ts:68-71 | the first seeding loop moves the state as the first pass |
| Service.MessagingService.ThreadMessages | src/services/messagingService.ts:137-141 | the second seeding loop moves the histories as the second pass and touches nothing else |
| Service.MessagingService.FillLastMessages | src/services/messagingService.ts:144-149 | the third seeding loop, over the keys in Map order, moves the records as the third pass and touches nothing else |
| Service.MessagingService.GetConversations | src/services/messagingService.ts:187-189 | returns every record once per key, in insertion order, and only stored records |
| Service.MessagingService.GetMessages | src/services/messagingService.ts:191-193 | returns the stored history, or an empty one for an id without a history |
| Service.MessagingService.AddMessage | src/services/messagingService.ts:211-230 | moves the object as `Store.AddMessage` and keeps it consistent |
| Service.MessagingService.NotifyListeners | src/services/messagingService.ts:227-229 | the listener loop logs one call per subscriber, in order, and changes nothing else |
| Service.MessagingService.SendMessage | src/services/messagingService.ts:195-209 | returns the message and the new state `Store.SendMessage` describes |
| Service.MessagingService.MarkConversationAsRead | src/services/messagingService.ts:232-238 | moves the object as `Store.MarkConversationAsRead` |
| Service.MessagingService.SubscribeToMessages | src/services/messagingService.ts:240-247 | adds the callback as `Store.SubscribeToMessages` and returns the closure that removes that callback |
| Service.MessagingService.Unsubscribe | src/services/messagingService.ts:244-246 | moves the object as `Store.Unsubscribe` |
| Service.MessagingService.CreateConversation | src/services/messagingService.ts:249-265 | returns the id and the new state `Store.CreateConversation` describes |
| Service.MessagingService.SimulateTick | src/services/messagingService.ts:154-183 | a tick with a message inserts the simulated reply into the drawn conversation as `addMessage`; a tick without one changes nothing |

## Left out

- The timer of `startRealTimeSimulation` (the `setInterval` and its random
  10–30 s period) is not modelled; `SimulateTick` is one firing of it. The two
  `Math.random()` index draws and the 20% draw are parameters.
- `Date.now()` is a parameter. One call takes one reading, which serves both for
  the minted id and for the timestamp. The source reads the clock twice.
  Likewise, the seeded timestamps count back from one reading.
- Service.MessagingService.SimulateTick: requires at least one conversation.
  With none, the source would index an empty key array and insert under
  `undefined`. The model's keys are strings, so it cannot say that. The case
  cannot arise: seeding creates three records, and `Session.ConversationExists`
  shows that records are never removed.
- Callback bodies are foreign code. Their effects, and an exception thrown by
  one, are not modelled. In the source, such an exception would abort the rest
  of the `forEach` and propagate out of `sendMessage`.
- Aliasing is not modelled. `getConversations` and `getMessages` return the live
  record objects and the live history array, which callers could mutate. The
  model returns values.
- A callback that subscribes or unsubscribes during a notification pass is not
  modelled; the modelled `forEach` iterates over the list as it was when it began.
- Service.MessagingService.SubscribeToMessages: callbacks are compared by
  identity, as the Set does. Two distinct closures with equal code are two
  distinct `Listener` values.
- `unreadCount` is an unbounded `nat`. The loss of precision of a JavaScript
  number above 2^53 is not modelled.
- Dates are integer milliseconds; `Date` objects are not modelled.
- The exported singleton (`messagingService`) is not modelled; the class
  constructor stands for it.
- The page that uses the service (`src/components/MessagesPage.tsx`) is user
  interface and is not part of this model.

## Behaviour of the code worth knowing

- `addMessage`, and so `sendMessage`, does not fail on an id that has no record
  (src/services/messagingService.ts:212-218). It starts a history for that id,
  creates no record, and still notifies every subscriber (`Store.AddMessage`).
- `markConversationAsRead` on an id that has no record does nothing and reports no
  error (src/services/messagingService.ts:233-234).
- Nothing catches an exception thrown by a callback
  (src/services/messagingService.ts:227-229). Such an exception would end the
  notification pass and reach the caller of `sendMessage`.
- `createConversation` mints `conv-<now>` without checking whether that id is
  taken (src/services/messagingService.ts:250-262). Two creates within the same
  millisecond get the same id. The second create replaces the first record and
  empties its history, and the id keeps its place in the key order
  (`Store.CreateConversationOverwrites`).
- The seeded `conv-1` shows 1 unread (src/services/messagingService.ts:43),
  although four of its six seeded messages come from the other participant. The
  counter is the fixture's constant; nothing recomputes it.
