/**
 * The messaging store as a value: its state and one transition function per
 * operation of the service. Each transition states, in its ensures clauses, what
 * the operation does to the histories, the conversation records and the
 * subscribers, and that it keeps the store consistent.
 */
module Store {
  import opened Domain

  /**
   * `conversations` and `messages` are the two maps of the service; since a
   * JavaScript Map iterates in insertion order, `order` lists the conversation
   * keys in that order. `listeners` is the subscriber Set, also in insertion
   * order, and `notifications` records every callback invocation so far.
   */
  datatype State = State(
    conversations: map<string, Conversation>,
    order: seq<string>,
    messages: map<string, seq<Message>>,
    listeners: seq<Listener>,
    notifications: seq<Notification>)

  /** What an operation returns beside the new state. */
  datatype Returned<T> = Returned(state: State, value: T)

  /** `messages.get(id) || []`: the stored history, or an empty one. */
  function MessagesFor(msgs: map<string, seq<Message>>, id: string): seq<Message> {
    if id in msgs then msgs[id] else []
  }

  /** The shape the two keyed collections and the subscriber set always have. */
  ghost predicate WellFormed(s: State) {
    && NoDuplicates(s.order)
    && (forall k :: k in s.conversations <==> k in s.order)
    && NoDuplicates(s.listeners)
  }

  /**
   * The bookkeeping invariant: every conversation has a history, is stored under
   * its own id, and caches the last message of that history (None while empty).
   */
  ghost predicate Consistent(s: State) {
    && WellFormed(s)
    && forall k :: k in s.conversations ==>
         && k in s.messages
         && s.conversations[k].id == k
         && s.conversations[k].lastMessage == LastOf(s.messages[k])
  }

  /** The invocations of `listeners.forEach(listener => listener(convId, m))`. */
  function Fanout(ls: seq<Listener>, convId: string, m: Message): (r: seq<Notification>)
    ensures |r| == |ls|
    ensures forall i :: 0 <= i < |ls| ==> r[i] == Notification(ls[i], convId, m)
  {
    if ls == [] then [] else Fanout(ls[..|ls| - 1], convId, m) + [Notification(ls[|ls| - 1], convId, m)]
  }

  /** How many times a log has invoked listener `l`. */
  function CallsTo(log: seq<Notification>, l: Listener): nat {
    if log == [] then 0
    else CallsTo(log[..|log| - 1], l) + (if log[|log| - 1].listener == l then 1 else 0)
  }

  lemma {:induction false} CallsToAppend(a: seq<Notification>, b: seq<Notification>, l: Listener)
    ensures CallsTo(a + b, l) == CallsTo(a, l) + CallsTo(b, l)
  {
    if b == [] {
      assert a + b == a;
    } else {
      var b' := b[..|b| - 1];
      assert (a + b)[..|a + b| - 1] == a + b';
      CallsToAppend(a, b', l);
    }
  }

  /** With a duplicate-free subscriber list, one fan-out calls each subscriber exactly once. */
  lemma {:induction false} FanoutCallsEachOnce(ls: seq<Listener>, convId: string, m: Message, l: Listener)
    requires NoDuplicates(ls)
    ensures CallsTo(Fanout(ls, convId, m), l) == if l in ls then 1 else 0
  {
    if ls != [] {
      var ls' := ls[..|ls| - 1];
      var f := Fanout(ls, convId, m);
      assert f[..|f| - 1] == Fanout(ls', convId, m);
      FanoutCallsEachOnce(ls', convId, m, l);
      assert l in ls <==> l in ls' || l == ls[|ls| - 1];
      if l == ls[|ls| - 1] {
        assert l !in ls';
      }
    }
  }

  /** The record update of `addMessage`: cache the message, count it if received. */
  function Record(c: Conversation, m: Message): Conversation {
    c.(lastMessage := Some(m), unreadCount := if m.isOwn then c.unreadCount else c.unreadCount + 1)
  }

  /**
   * `addMessage(convId, m)`: append to the history (creating it for an unknown id),
   * update the record if there is one, then invoke every subscriber.
   */
  function AddMessage(s: State, convId: string, m: Message): (r: State)
    ensures MessagesFor(r.messages, convId) == MessagesFor(s.messages, convId) + [m]
    ensures r.messages.Keys == s.messages.Keys + {convId}
    ensures forall k :: k != convId ==> MessagesFor(r.messages, k) == MessagesFor(s.messages, k)
    ensures r.conversations.Keys == s.conversations.Keys && r.order == s.order
    ensures forall k :: k in s.conversations && k != convId ==> r.conversations[k] == s.conversations[k]
    ensures convId in s.conversations ==>
      var before, after := s.conversations[convId], r.conversations[convId];
      && after.lastMessage == Some(m)
      && after.lastMessage == LastOf(MessagesFor(r.messages, convId))
      && after.unreadCount == (if m.isOwn then before.unreadCount else before.unreadCount + 1)
      && after.(lastMessage := before.lastMessage, unreadCount := before.unreadCount) == before
    ensures r.listeners == s.listeners
    ensures r.notifications == s.notifications + Fanout(s.listeners, convId, m)
    ensures Consistent(s) ==> Consistent(r)
  {
    var messages := s.messages[convId := MessagesFor(s.messages, convId) + [m]];
    var conversations :=
      if convId in s.conversations then s.conversations[convId := Record(s.conversations[convId], m)]
      else s.conversations;
    s.(conversations := conversations, messages := messages,
       notifications := s.notifications + Fanout(s.listeners, convId, m))
  }

  /** Each insertion invokes every current subscriber once and nobody else. */
  lemma AddMessageCallsEachListenerOnce(s: State, convId: string, m: Message, l: Listener)
    requires WellFormed(s)
    ensures CallsTo(AddMessage(s, convId, m).notifications, l)
         == CallsTo(s.notifications, l) + (if l in s.listeners then 1 else 0)
  {
    var r := AddMessage(s, convId, m);
    assert r.notifications == s.notifications + Fanout(s.listeners, convId, m);
    CallsToAppend(s.notifications, Fanout(s.listeners, convId, m), l);
    FanoutCallsEachOnce(s.listeners, convId, m, l);
  }

  /** The message `sendMessage` builds: own, from the local user, minted at `now`. */
  function OwnMessage(convId: string, content: string, now: nat): Message {
    Message(MessageId(now), CURRENT_USER_ID, "You", "", content, now, true, convId)
  }

  /** `sendMessage(convId, content)` at clock reading `now`; returns the inserted message. */
  function SendMessage(s: State, convId: string, content: string, now: nat): (r: Returned<Message>)
    ensures r.value.isOwn && r.value.senderId == CURRENT_USER_ID
    ensures r.value.senderName == "You" && r.value.senderAvatar == ""
    ensures r.value.content == content && r.value.conversationId == convId
    ensures r.value.id == MessageId(now) && r.value.timestamp == now
    ensures r.state == AddMessage(s, convId, r.value)
    ensures MessagesFor(r.state.messages, convId) == MessagesFor(s.messages, convId) + [r.value]
    ensures convId in s.conversations ==>
      && r.state.conversations[convId].unreadCount == s.conversations[convId].unreadCount
      && r.state.conversations[convId].lastMessage == Some(r.value)
    ensures Consistent(s) ==> Consistent(r.state)
  {
    var m := OwnMessage(convId, content, now);
    Returned(AddMessage(s, convId, m), m)
  }

  /** `markConversationAsRead(id)`: reset the counter; an unknown id changes nothing. */
  function MarkConversationAsRead(s: State, id: string): (r: State)
    ensures id !in s.conversations ==> r == s
    ensures r.conversations.Keys == s.conversations.Keys
    ensures id in s.conversations ==>
      && r.conversations[id].unreadCount == 0
      && r.conversations[id].(unreadCount := s.conversations[id].unreadCount) == s.conversations[id]
    ensures forall k :: k in s.conversations && k != id ==> r.conversations[k] == s.conversations[k]
    ensures r.(conversations := s.conversations) == s
    ensures Consistent(s) ==> Consistent(r)
  {
    if id in s.conversations then
      s.(conversations := s.conversations[id := s.conversations[id].(unreadCount := 0)])
    else
      s
  }

  lemma MarkConversationAsReadIdempotent(s: State, id: string)
    ensures MarkConversationAsRead(MarkConversationAsRead(s, id), id) == MarkConversationAsRead(s, id)
  {
  }

  /** The record `createConversation` builds: active, nothing unread, no last message. */
  function NewConversation(id: string, participantId: string, itemId: string, itemTitle: string): Conversation {
    Conversation(id, [CURRENT_USER_ID, participantId], None, 0, itemId, itemTitle, Active)
  }

  /**
   * `createConversation(participantId, itemId, itemTitle)` at clock reading `now`.
   * An id that is already taken is overwritten: its record is replaced and its
   * history emptied, and it keeps its place in the iteration order.
   */
  function CreateConversation(s: State, now: nat, participantId: string, itemId: string, itemTitle: string)
    : (r: Returned<string>)
    ensures r.value == ConversationId(now)
    ensures r.value in r.state.conversations && r.value in r.state.messages
    ensures r.state.conversations[r.value]
         == Conversation(r.value, [CURRENT_USER_ID, participantId], None, 0, itemId, itemTitle, Active)
    ensures r.state.messages[r.value] == []
    ensures r.state.conversations.Keys == s.conversations.Keys + {r.value}
    ensures forall k :: k in s.conversations && k != r.value ==> r.state.conversations[k] == s.conversations[k]
    ensures r.state.messages.Keys == s.messages.Keys + {r.value}
    ensures forall k :: k != r.value ==> MessagesFor(r.state.messages, k) == MessagesFor(s.messages, k)
    ensures r.state.order == if r.value in s.conversations then s.order else s.order + [r.value]
    ensures r.state.listeners == s.listeners && r.state.notifications == s.notifications
    ensures Consistent(s) ==> Consistent(r.state)
  {
    var id := ConversationId(now);
    var order := if id in s.conversations then s.order else s.order + [id];
    var st := s.(conversations := s.conversations[id := NewConversation(id, participantId, itemId, itemTitle)],
                 order := order,
                 messages := s.messages[id := []]);
    assert Consistent(s) ==> WellFormed(st) by {
      if Consistent(s) && id !in s.conversations {
        assert forall i :: 0 <= i < |s.order| ==> s.order[i] in s.conversations;
      }
    }
    Returned(st, id)
  }

  /** A second create at the same clock reading loses the first one's history. */
  lemma CreateConversationOverwrites(s: State, now: nat, participantId: string, itemId: string, itemTitle: string)
    requires ConversationId(now) in s.conversations
    requires MessagesFor(s.messages, ConversationId(now)) != []
    ensures var r := CreateConversation(s, now, participantId, itemId, itemTitle);
      && r.state.order == s.order
      && MessagesFor(r.state.messages, r.value) == []
  {
  }

  /** The subscriber list with `l` removed, the others kept in order (`Set.delete`). */
  function Without(ls: seq<Listener>, l: Listener): (r: seq<Listener>)
    ensures forall x :: x in r <==> x in ls && x != l
    ensures NoDuplicates(ls) ==> NoDuplicates(r)
    ensures l !in ls ==> r == ls
  {
    if ls == [] then []
    else
      var last := ls[|ls| - 1];
      var rest := Without(ls[..|ls| - 1], l);
      assert ls == ls[..|ls| - 1] + [last];
      assert NoDuplicates(ls) ==> NoDuplicates(ls[..|ls| - 1]) && last !in ls[..|ls| - 1];
      if last == l then rest else rest + [last]
  }

  /** Removing a registered callback keeps every other callback in its order. */
  lemma {:induction false} WithoutKeepsOrder(ls: seq<Listener>, l: Listener, i: nat)
    requires NoDuplicates(ls) && i < |ls| && ls[i] == l
    ensures Without(ls, l) == ls[..i] + ls[i + 1..]
  {
    var pre, last := ls[..|ls| - 1], ls[|ls| - 1];
    assert NoDuplicates(pre) && last !in pre;
    if i == |ls| - 1 {
      assert ls[..i] == pre && ls[i + 1..] == [];
    } else {
      assert last != l;
      WithoutKeepsOrder(pre, l, i);
      assert pre[..i] == ls[..i];
      assert ls[i + 1..] == pre[i + 1..] + [last];
    }
  }

  /** `listeners.add(l)`: a callback already registered keeps its place. */
  function SubscribeToMessages(s: State, l: Listener): (r: State)
    ensures forall x :: x in r.listeners <==> x in s.listeners || x == l
    ensures l in s.listeners ==> r == s
    ensures l !in s.listeners ==> r.listeners == s.listeners + [l]
    ensures r.(listeners := s.listeners) == s
    ensures Consistent(s) ==> Consistent(r)
  {
    if l in s.listeners then s else s.(listeners := s.listeners + [l])
  }

  /** The returned closure, `listeners.delete(l)`. */
  function Unsubscribe(s: State, l: Listener): (r: State)
    ensures forall x :: x in r.listeners <==> x in s.listeners && x != l
    ensures r.(listeners := s.listeners) == s
    ensures Consistent(s) ==> Consistent(r)
  {
    s.(listeners := Without(s.listeners, l))
  }

  /** Calling the unsubscribe closure twice is the same as calling it once. */
  lemma UnsubscribeIdempotent(s: State, l: Listener)
    ensures Unsubscribe(Unsubscribe(s, l), l) == Unsubscribe(s, l)
  {
  }

  /** Unsubscribing a fresh subscription restores the subscriber list exactly. */
  lemma UnsubscribeUndoesSubscribe(s: State, l: Listener)
    requires l !in s.listeners
    ensures Unsubscribe(SubscribeToMessages(s, l), l) == s
  {
    var ls := s.listeners + [l];
    assert ls[..|ls| - 1] == s.listeners;
  }
}
