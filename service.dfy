/**
 * The service object: the two maps and the subscriber set as fields that its
 * methods update in place. Every method is proved to move the object's
 * snapshot exactly as the matching transition of the Store module does, so the
 * properties proved there (and over whole sessions) hold of the object.
 */
module Service {
  import opened Domain
  import Store
  import Fixtures

  /** The closure `subscribeToMessages` returns; it removes its own callback only. */
  datatype Unsubscriber = Unsubscriber(listener: Listener)

  class MessagingService {
    var conversations: map<string, Conversation>
    /** The keys of `conversations` in the Map's insertion order. */
    var conversationOrder: seq<string>
    var messages: map<string, seq<Message>>
    /** The subscriber Set, in insertion order. */
    var listeners: seq<Listener>
    /** Every callback invocation made so far: a record for the proofs, not service state. */
    ghost var notifications: seq<Notification>

    ghost function Snapshot(): Store.State
      reads this
    {
      Store.State(conversations, conversationOrder, messages, listeners, notifications)
    }

    ghost predicate Valid()
      reads this
    {
      Store.Consistent(Snapshot())
    }

    /** `initializeMockData`, with the clock reading the fixture timestamps count back from. */
    constructor (now: int)
      ensures Valid()
      ensures Snapshot() == Fixtures.SeedState(now)
    {
      conversations, conversationOrder, messages := map[], [], map[];
      listeners, notifications := [], [];
      new;
      RegisterConversations(Fixtures.SeedConversations());
      Fixtures.RegisterKeepsOrder(Fixtures.EMPTY, Fixtures.SeedConversations());
      ThreadMessages(Fixtures.SeedMessages(now));
      FillLastMessages();
      Fixtures.SeedStateIs(now);
      Fixtures.SeededStoreConsistent(now);
      assert Snapshot() == Fixtures.SeededStore(now);
    }

    /** The first seeding pass: register every fixture conversation with an empty history. */
    method RegisterConversations(mockConversations: seq<Conversation>)
      modifies this
      ensures Snapshot() == Fixtures.Register(old(Snapshot()), mockConversations)
    {
      var i := 0;
      while i < |mockConversations|
        invariant 0 <= i <= |mockConversations|
        invariant Snapshot() == Fixtures.Register(old(Snapshot()), mockConversations[..i])
      {
        var conv := mockConversations[i];
        assert mockConversations[..i + 1][..i] == mockConversations[..i];
        if conv.id !in conversations {
          conversationOrder := conversationOrder + [conv.id];
        }
        conversations := conversations[conv.id := conv];
        messages := messages[conv.id := []];
        i := i + 1;
      }
      assert mockConversations[..i] == mockConversations;
    }

    /** The second seeding pass: push every fixture message onto its conversation's history. */
    method ThreadMessages(mockMessages: seq<Message>)
      modifies this
      ensures messages == Fixtures.Thread(old(messages), mockMessages)
      ensures conversations == old(conversations) && conversationOrder == old(conversationOrder)
      ensures listeners == old(listeners) && notifications == old(notifications)
    {
      var i := 0;
      while i < |mockMessages|
        invariant 0 <= i <= |mockMessages|
        invariant messages == Fixtures.Thread(old(messages), mockMessages[..i])
        invariant conversations == old(conversations) && conversationOrder == old(conversationOrder)
        invariant listeners == old(listeners) && notifications == old(notifications)
      {
        var msg := mockMessages[i];
        assert mockMessages[..i + 1][..i] == mockMessages[..i];
        assert Fixtures.Thread(old(messages), mockMessages[..i + 1])
            == Fixtures.Push(Fixtures.Thread(old(messages), mockMessages[..i]), msg);
        var conversationMessages := if msg.conversationId in messages then messages[msg.conversationId] else [];
        conversationMessages := conversationMessages + [msg];
        messages := messages[msg.conversationId := conversationMessages];
        i := i + 1;
      }
      assert mockMessages[..i] == mockMessages;
    }

    /** The third seeding pass, over the conversations in Map order. */
    method FillLastMessages()
      requires NoDuplicates(conversationOrder)
      requires forall k :: k in conversations <==> k in conversationOrder
      modifies this
      ensures conversations == Fixtures.WithLastMessages(old(conversations), messages)
      ensures messages == old(messages) && conversationOrder == old(conversationOrder)
      ensures listeners == old(listeners) && notifications == old(notifications)
    {
      ghost var convs0, msgs := conversations, messages;
      ghost var done: set<string> := {};
      var i := 0;
      while i < |conversationOrder|
        invariant 0 <= i <= |conversationOrder|
        invariant done == set j | 0 <= j < i :: conversationOrder[j]
        invariant conversations.Keys == convs0.Keys
        invariant forall k :: k in conversations ==>
          conversations[k] == if k in done then Fixtures.FillLast(convs0[k], Store.MessagesFor(msgs, k)) else convs0[k]
        invariant messages == msgs && conversationOrder == old(conversationOrder)
        invariant listeners == old(listeners) && notifications == old(notifications)
      {
        var convId := conversationOrder[i];
        assert convId !in done;
        var convMessages := if convId in messages then messages[convId] else [];
        if |convMessages| > 0 {
          conversations := conversations[convId := conversations[convId].(lastMessage := Some(convMessages[|convMessages| - 1]))];
        }
        done := done + {convId};
        i := i + 1;
      }
      assert forall k :: k in conversations ==> k in done;
      Fixtures.WithLastMessagesIs(convs0, msgs, conversations);
    }

    /** `getConversations`: every record, in the Map's insertion order. */
    method GetConversations() returns (r: seq<Conversation>)
      requires Valid()
      ensures |r| == |conversationOrder|
      ensures forall i :: 0 <= i < |r| ==> r[i] == conversations[conversationOrder[i]]
      ensures forall k :: k in conversations ==> conversations[k] in r
      ensures forall c :: c in r ==> c.id in conversations && conversations[c.id] == c
    {
      r := [];
      var i := 0;
      while i < |conversationOrder|
        invariant 0 <= i <= |conversationOrder|
        invariant |r| == i
        invariant forall j :: 0 <= j < i ==> r[j] == conversations[conversationOrder[j]]
      {
        r := r + [conversations[conversationOrder[i]]];
        i := i + 1;
      }
      forall k | k in conversations ensures conversations[k] in r {
        var j :| 0 <= j < |conversationOrder| && conversationOrder[j] == k;
        assert r[j] == conversations[k];
      }
    }

    /** `getMessages`: the stored history, or an empty one for an id without a list. */
    method GetMessages(conversationId: string) returns (r: seq<Message>)
      ensures conversationId in messages ==> r == messages[conversationId]
      ensures conversationId !in messages ==> r == []
    {
      r := if conversationId in messages then messages[conversationId] else [];
    }

    /** `addMessage`: append, update the record if there is one, then call every subscriber. */
    method AddMessage(conversationId: string, message: Message)
      requires Valid()
      modifies this
      ensures Valid()
      ensures Snapshot() == Store.AddMessage(old(Snapshot()), conversationId, message)
    {
      var conversationMessages := if conversationId in messages then messages[conversationId] else [];
      conversationMessages := conversationMessages + [message];
      messages := messages[conversationId := conversationMessages];
      if conversationId in conversations {
        var conversation := conversations[conversationId];
        conversation := conversation.(lastMessage := Some(message));
        if !message.isOwn {
          conversation := conversation.(unreadCount := conversation.unreadCount + 1);
        }
        assert conversation == Store.Record(old(conversations)[conversationId], message);
        conversations := conversations[conversationId := conversation];
      }
      NotifyListeners(conversationId, message);
      ghost var target := Store.AddMessage(old(Snapshot()), conversationId, message);
      assert Snapshot() == target;
    }

    /** The `forEach` at the end of `addMessage`: call every subscriber, in order, once. */
    method NotifyListeners(conversationId: string, message: Message)
      modifies this
      ensures notifications == old(notifications) + Store.Fanout(listeners, conversationId, message)
      ensures Snapshot() == old(Snapshot()).(notifications := notifications)
    {
      var i := 0;
      while i < |listeners|
        invariant 0 <= i <= |listeners|
        invariant notifications == old(notifications) + Store.Fanout(listeners[..i], conversationId, message)
        invariant Snapshot() == old(Snapshot()).(notifications := notifications)
      {
        assert listeners[..i + 1][..i] == listeners[..i];
        notifications := notifications + [Notification(listeners[i], conversationId, message)];
        i := i + 1;
      }
      assert listeners[..i] == listeners;
    }

    /** `sendMessage`: insert an own message minted at `now` and return it. */
    method SendMessage(conversationId: string, content: string, now: nat) returns (m: Message)
      requires Valid()
      modifies this
      ensures Valid()
      ensures Store.SendMessage(old(Snapshot()), conversationId, content, now) == Store.Returned(Snapshot(), m)
    {
      m := Message(MessageId(now), CURRENT_USER_ID, "You", "", content, now, true, conversationId);
      AddMessage(conversationId, m);
    }

    /** `markConversationAsRead`. */
    method MarkConversationAsRead(conversationId: string)
      requires Valid()
      modifies this
      ensures Valid()
      ensures Snapshot() == Store.MarkConversationAsRead(old(Snapshot()), conversationId)
    {
      if conversationId in conversations {
        var conversation := conversations[conversationId];
        conversation := conversation.(unreadCount := 0);
        conversations := conversations[conversationId := conversation];
      }
    }

    /** `subscribeToMessages`: register the callback and hand back its unsubscribe closure. */
    method SubscribeToMessages(callback: Listener) returns (unsubscribe: Unsubscriber)
      requires Valid()
      modifies this
      ensures Valid()
      ensures Snapshot() == Store.SubscribeToMessages(old(Snapshot()), callback)
      ensures unsubscribe == Unsubscriber(callback)
    {
      if callback !in listeners {
        listeners := listeners + [callback];
      }
      unsubscribe := Unsubscriber(callback);
    }

    /** Invoking the closure returned by `subscribeToMessages`: `Set.delete` of its callback. */
    method Unsubscribe(unsubscribe: Unsubscriber)
      requires Valid()
      modifies this
      ensures Valid()
      ensures Snapshot() == Store.Unsubscribe(old(Snapshot()), unsubscribe.listener)
    {
      listeners := Store.Without(listeners, unsubscribe.listener);
    }

    /** `createConversation` at clock reading `now`; returns the new id. */
    method CreateConversation(participantId: string, itemId: string, itemTitle: string, now: nat)
      returns (conversationId: string)
      requires Valid()
      modifies this
      ensures Valid()
      ensures Store.CreateConversation(old(Snapshot()), now, participantId, itemId, itemTitle)
           == Store.Returned(Snapshot(), conversationId)
    {
      conversationId := ConversationId(now);
      var newConversation := Conversation(conversationId, [CURRENT_USER_ID, participantId], None, 0, itemId, itemTitle, Active);
      if conversationId !in conversations {
        conversationOrder := conversationOrder + [conversationId];
      }
      conversations := conversations[conversationId := newConversation];
      messages := messages[conversationId := []];
      ghost var target := Store.CreateConversation(old(Snapshot()), now, participantId, itemId, itemTitle);
      assert Snapshot() == target.state;
    }

    /**
     * One tick of the simulated inbound traffic: `convPick` and `responsePick`
     * stand for the two random indices and `arrives` for the 20% draw.
     */
    method SimulateTick(convPick: nat, arrives: bool, responsePick: nat, now: nat)
      requires Valid()
      requires convPick < |conversationOrder| && responsePick < |Fixtures.MOCK_RESPONSES|
      modifies this
      ensures Valid()
      ensures Snapshot() == if arrives then
        var convId := old(conversationOrder)[convPick];
        Store.AddMessage(old(Snapshot()), convId, Fixtures.InboundMessage(convId, now, responsePick))
        else old(Snapshot())
    {
      var randomConvId := conversationOrder[convPick];
      if arrives {
        var newMessage := Message(MessageId(now), "user-2", "Emma L.", Fixtures.EMMA_AVATAR,
                                  Fixtures.MOCK_RESPONSES[responsePick], now, false, randomConvId);
        AddMessage(randomConvId, newMessage);
      }
    }
  }
}
