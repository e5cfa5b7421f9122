/**
 * The data the service is seeded with at construction, the pure description of
 * the three seeding passes, and the canned message of the simulated inbound path.
 */
module Fixtures {
  import opened Domain
  import opened Store

  const EMPTY := State(map[], [], map[], [], [])

  const EMMA_AVATAR := "https://images.pexels.com/photos/1239291/pexels-photo-1239291.jpeg?auto=compress&cs=tinysrgb&w=100"

  const MINUTE := 60 * 1000

  function SeedConversations(): seq<Conversation> {
    [ Conversation("conv-1", ["user-1", "user-2"], None, 1, "item-1", "Vintage Denim Jacket", SwapAgreed),
      Conversation("conv-2", ["user-1", "user-3"], None, 0, "item-2", "Designer Sneakers", Interested),
      Conversation("conv-3", ["user-1", "user-4"], None, 0, "item-3", "Silk Blouse", Completed) ]
  }

  const CONTENT_1 := "Hi! I'm really interested in your vintage denim jacket. Would you be open to a direct swap?"
  const CONTENT_2 := "Hi Emma! Yes, I'd definitely be interested. What item were you thinking of swapping?"
  const CONTENT_3 := "I have a wool winter coat from Zara that's in excellent condition. Here are some photos:"
  const CONTENT_4 := "That coat looks perfect! I love the color. It seems like a fair swap to me."
  const CONTENT_5 := "Wonderful! I'm so excited. The jacket is exactly what I've been looking for."
  const CONTENT_6 := "Sounds great! When would you like to meet for the exchange?"

  /** A seeded conv-1 message, from Emma (user-2) or from the local user. */
  function SeedMessage(id: string, fromEmma: bool, content: string, timestamp: int): (m: Message)
    ensures m.id == id && m.timestamp == timestamp
    ensures m.conversationId == "conv-1" && m.isOwn == !fromEmma
    ensures m.isOwn <==> m.senderId == CURRENT_USER_ID
  {
    if fromEmma then Message(id, "user-2", "Emma L.", EMMA_AVATAR, content, timestamp, false, "conv-1")
    else Message(id, "user-1", "You", "", content, timestamp, true, "conv-1")
  }

  /** The seeded history of conv-1, stamped relative to the clock reading `now`. */
  function SeedMessages(now: int): (ms: seq<Message>)
    ensures |ms| == 6 && forall i :: 0 <= i < |ms| ==> ms[i].conversationId == "conv-1"
  {
    [ SeedMessage("msg-1", true, CONTENT_1, now - 120 * MINUTE),
      SeedMessage("msg-2", false, CONTENT_2, now - 60 * MINUTE),
      SeedMessage("msg-3", true, CONTENT_3, now - 45 * MINUTE),
      SeedMessage("msg-4", false, CONTENT_4, now - 30 * MINUTE),
      SeedMessage("msg-5", true, CONTENT_5, now - 15 * MINUTE),
      SeedMessage("msg-6", true, CONTENT_6, now - 2 * MINUTE) ]
  }

  /** The seeded history is in chronological order and its ids are distinct. */
  lemma SeedMessagesChronological(now: int)
    ensures var ms := SeedMessages(now);
      forall i, j :: 0 <= i < j < |ms| ==> ms[i].id != ms[j].id && ms[i].timestamp < ms[j].timestamp
  {
  }

  /** One step of the first pass: `conversations.set(c.id, c); messages.set(c.id, [])`. */
  function Put(s: State, c: Conversation): State {
    s.(conversations := s.conversations[c.id := c],
       order := if c.id in s.conversations then s.order else s.order + [c.id],
       messages := s.messages[c.id := []])
  }

  /** The first pass over the seeded conversations. */
  function Register(s: State, cs: seq<Conversation>): (r: State)
    ensures r.listeners == s.listeners && r.notifications == s.notifications
  {
    if cs == [] then s else Put(Register(s, cs[..|cs| - 1]), cs[|cs| - 1])
  }

  /** The ids of a list of records. */
  function Ids(cs: seq<Conversation>): set<string> {
    if cs == [] then {} else Ids(cs[..|cs| - 1]) + {cs[|cs| - 1].id}
  }

  /** The first pass adds exactly the ids of `cs` as keys of both maps. */
  lemma {:induction false} RegisterKeys(s: State, cs: seq<Conversation>)
    ensures Register(s, cs).conversations.Keys == s.conversations.Keys + Ids(cs)
    ensures Register(s, cs).messages.Keys == s.messages.Keys + Ids(cs)
  {
    if cs != [] {
      RegisterKeys(s, cs[..|cs| - 1]);
    }
  }

  /**
   * The first pass gives every id of `cs` an empty history and only ever stores
   * records taken from `cs`.
   */
  lemma {:induction false} RegisterRecords(s: State, cs: seq<Conversation>)
    ensures forall c :: c in cs ==> c.id in Register(s, cs).messages && Register(s, cs).messages[c.id] == []
    ensures forall k :: k in Register(s, cs).conversations && k !in s.conversations ==>
      Register(s, cs).conversations[k] in cs
  {
    if cs != [] {
      var pre, last := cs[..|cs| - 1], cs[|cs| - 1];
      RegisterRecords(s, pre);
      assert forall c :: c in cs ==> c in pre || c == last;
      assert forall c :: c in pre ==> c in cs;
    }
  }

  /** The first pass keeps the key order duplicate-free and in step with the keys. */
  lemma {:induction false} RegisterKeepsOrder(s: State, cs: seq<Conversation>)
    requires NoDuplicates(s.order)
    requires forall k :: k in s.conversations <==> k in s.order
    ensures NoDuplicates(Register(s, cs).order)
    ensures forall k :: k in Register(s, cs).conversations <==> k in Register(s, cs).order
  {
    if cs != [] {
      RegisterKeepsOrder(s, cs[..|cs| - 1]);
      var t, c := Register(s, cs[..|cs| - 1]), cs[|cs| - 1];
      if c.id !in t.conversations {
        assert c.id !in t.order;
        assert (t.order + [c.id])[..|t.order|] == t.order;
      }
    }
  }

  /** The messages of `ms` that belong to conversation `k`, in order. */
  function Addressed(ms: seq<Message>, k: string): seq<Message> {
    if ms == [] then []
    else Addressed(ms[..|ms| - 1], k) + (if ms[|ms| - 1].conversationId == k then [ms[|ms| - 1]] else [])
  }

  /** The conversation ids the messages of `ms` name. */
  function Targets(ms: seq<Message>): set<string> {
    if ms == [] then {} else Targets(ms[..|ms| - 1]) + {ms[|ms| - 1].conversationId}
  }

  /** One step of the second pass: push `m` onto its conversation's history. */
  function Push(msgs: map<string, seq<Message>>, m: Message): map<string, seq<Message>> {
    msgs[m.conversationId := MessagesFor(msgs, m.conversationId) + [m]]
  }

  /** The second pass: every history gains the messages addressed to it, in order. */
  function Thread(msgs: map<string, seq<Message>>, ms: seq<Message>): (r: map<string, seq<Message>>)
    ensures r.Keys == msgs.Keys + Targets(ms)
  {
    if ms == [] then msgs else Push(Thread(msgs, ms[..|ms| - 1]), ms[|ms| - 1])
  }

  /** After the second pass, every history has gained the messages addressed to it, in order. */
  lemma {:induction false} ThreadHistory(msgs: map<string, seq<Message>>, ms: seq<Message>, k: string)
    ensures MessagesFor(Thread(msgs, ms), k) == MessagesFor(msgs, k) + Addressed(ms, k)
  {
    if ms != [] {
      var m := ms[|ms| - 1];
      ThreadHistory(msgs, ms[..|ms| - 1], k);
      if k == m.conversationId {
        assert Addressed(ms, k) == Addressed(ms[..|ms| - 1], k) + [m];
      } else {
        assert Addressed(ms, k) == Addressed(ms[..|ms| - 1], k) + [];
      }
    }
  }

  /** One step of the third pass: cache the last message of a non-empty history. */
  function FillLast(c: Conversation, history: seq<Message>): Conversation {
    if |history| > 0 then c.(lastMessage := Some(history[|history| - 1])) else c
  }

  /** The third pass, over every conversation. */
  function WithLastMessages(convs: map<string, Conversation>, msgs: map<string, seq<Message>>)
    : (r: map<string, Conversation>)
    ensures r.Keys == convs.Keys
    ensures forall k :: k in convs && MessagesFor(msgs, k) != [] ==>
      && r[k].lastMessage == LastOf(MessagesFor(msgs, k))
      && r[k].(lastMessage := convs[k].lastMessage) == convs[k]
    ensures forall k :: k in convs && MessagesFor(msgs, k) == [] ==> r[k] == convs[k]
  {
    map k | k in convs :: FillLast(convs[k], MessagesFor(msgs, k))
  }

  /** A map that fills in every record from its history is the third pass's result. */
  lemma WithLastMessagesIs(convs: map<string, Conversation>, msgs: map<string, seq<Message>>,
                           r: map<string, Conversation>)
    requires r.Keys == convs.Keys
    requires forall k :: k in r ==> k in convs && r[k] == FillLast(convs[k], MessagesFor(msgs, k))
    ensures r == WithLastMessages(convs, msgs)
  {
  }

  lemma {:induction false} AddressedAll(ms: seq<Message>, k: string)
    requires forall i :: 0 <= i < |ms| ==> ms[i].conversationId == k
    ensures Addressed(ms, k) == ms
  {
    if ms != [] {
      AddressedAll(ms[..|ms| - 1], k);
    }
  }

  lemma {:induction false} AddressedNone(ms: seq<Message>, k: string)
    requires forall i :: 0 <= i < |ms| ==> ms[i].conversationId != k
    ensures Addressed(ms, k) == []
  {
    if ms != [] {
      AddressedNone(ms[..|ms| - 1], k);
    }
  }

  /** The first pass yields the three records, each with an empty history. */
  lemma RegisterSeed()
    ensures var cs := SeedConversations();
      Register(EMPTY, cs) == State(map["conv-1" := cs[0], "conv-2" := cs[1], "conv-3" := cs[2]],
               ["conv-1", "conv-2", "conv-3"],
               map["conv-1" := [], "conv-2" := [], "conv-3" := []], [], [])
  {
    var cs := SeedConversations();
    assert cs[..3][..2] == cs[..2] && cs[..2][..1] == [cs[0]] && cs[..1][..0] == [];
    var s1 := Put(EMPTY, cs[0]);
    assert Register(EMPTY, cs[..1]) == s1;
    var s2 := Put(s1, cs[1]);
    assert Register(EMPTY, cs[..2]) == s2;
    assert Register(EMPTY, cs) == Put(s2, cs[2]);
  }

  lemma {:induction false} TargetsOnly(ms: seq<Message>, k: string)
    requires forall i :: 0 <= i < |ms| ==> ms[i].conversationId == k
    ensures Targets(ms) <= {k}
  {
    if ms != [] {
      TargetsOnly(ms[..|ms| - 1], k);
    }
  }

  /** A pass over messages all addressed to `k` extends the history of `k` alone. */
  lemma ThreadAllTo(msgs: map<string, seq<Message>>, ms: seq<Message>, k: string)
    requires forall i :: 0 <= i < |ms| ==> ms[i].conversationId == k
    requires k in msgs
    ensures Thread(msgs, ms) == msgs[k := msgs[k] + ms]
  {
    var r := Thread(msgs, ms);
    var e := msgs[k := msgs[k] + ms];
    TargetsOnly(ms, k);
    assert r.Keys == e.Keys;
    forall j | j in r ensures r[j] == e[j] {
      assert r[j] == MessagesFor(r, j);
      ThreadHistory(msgs, ms, j);
      if j == k {
        AddressedAll(ms, k);
      } else {
        AddressedNone(ms, j);
      }
    }
  }

  /** The state right after the three seeding passes, started at clock reading `now`. */
  function SeedState(now: int): State {
    var s1 := Register(EMPTY, SeedConversations());
    var msgs := Thread(s1.messages, SeedMessages(now));
    State(WithLastMessages(s1.conversations, msgs), s1.order, msgs, [], [])
  }

  /** The third pass caches msg-6 on conv-1 and leaves the other two records alone. */
  lemma LastMessagesSeed(now: int)
    ensures var cs, ms := SeedConversations(), SeedMessages(now);
      WithLastMessages(map["conv-1" := cs[0], "conv-2" := cs[1], "conv-3" := cs[2]],
                       map["conv-1" := ms, "conv-2" := [], "conv-3" := []])
      == map["conv-1" := cs[0].(lastMessage := Some(ms[5])), "conv-2" := cs[1], "conv-3" := cs[2]]
  {
    var cs, ms := SeedConversations(), SeedMessages(now);
    var convs := map["conv-1" := cs[0], "conv-2" := cs[1], "conv-3" := cs[2]];
    var msgs := map["conv-1" := ms, "conv-2" := [], "conv-3" := []];
    var r := WithLastMessages(convs, msgs);
    assert MessagesFor(msgs, "conv-1") == ms;
    assert MessagesFor(msgs, "conv-2") == [] && MessagesFor(msgs, "conv-3") == [];
    assert r["conv-1"] == cs[0].(lastMessage := Some(ms[5]));
  }

  /** The seeded state written out: the fixture records, conv-1 caching msg-6. */
  function SeededStore(now: int): State {
    State(map["conv-1" := SeedConversations()[0].(lastMessage := Some(SeedMessages(now)[5])),
              "conv-2" := SeedConversations()[1],
              "conv-3" := SeedConversations()[2]],
          ["conv-1", "conv-2", "conv-3"],
          map["conv-1" := SeedMessages(now), "conv-2" := [], "conv-3" := []], [], [])
  }

  /** The second pass puts the whole seeded history on conv-1. */
  lemma ThreadSeed(now: int)
    ensures Thread(map["conv-1" := [], "conv-2" := [], "conv-3" := []], SeedMessages(now))
         == map["conv-1" := SeedMessages(now), "conv-2" := [], "conv-3" := []]
  {
    var m0: map<string, seq<Message>> := map["conv-1" := [], "conv-2" := [], "conv-3" := []];
    ThreadAllTo(m0, SeedMessages(now), "conv-1");
    assert [] + SeedMessages(now) == SeedMessages(now);
  }

  /** The three passes together produce exactly the written-out seeded state. */
  lemma SeedStateIs(now: int)
    ensures SeedState(now) == SeededStore(now)
  {
    var cs, ms := SeedConversations(), SeedMessages(now);
    RegisterSeed();
    var s1 := Register(EMPTY, cs);
    assert s1.messages == map["conv-1" := [], "conv-2" := [], "conv-3" := []];
    assert s1.conversations == map["conv-1" := cs[0], "conv-2" := cs[1], "conv-3" := cs[2]];
    ThreadSeed(now);
    var msgs := Thread(s1.messages, ms);
    assert msgs == map["conv-1" := ms, "conv-2" := [], "conv-3" := []];
    LastMessagesSeed(now);
    assert WithLastMessages(s1.conversations, msgs) == SeededStore(now).conversations;
  }

  /**
   * The seeded store is consistent: three conversations in fixture order, each
   * with a history; conv-1 holds msg-1 to msg-6 in order, caches msg-6 and has one
   * unread message; the other two are empty and cache nothing.
   */
  lemma SeededStoreFacts(now: int)
    ensures SeededStore(now).order == ["conv-1", "conv-2", "conv-3"]
    ensures SeededStore(now).conversations.Keys == {"conv-1", "conv-2", "conv-3"}
    ensures SeededStore(now).messages == map["conv-1" := SeedMessages(now), "conv-2" := [], "conv-3" := []]
    ensures SeededStore(now).conversations["conv-1"].unreadCount == 1
    ensures SeededStore(now).conversations["conv-1"].lastMessage == Some(SeedMessages(now)[5])
    ensures SeededStore(now).conversations["conv-2"].lastMessage == None
    ensures SeededStore(now).conversations["conv-3"].lastMessage == None
    ensures SeededStore(now).listeners == [] && SeededStore(now).notifications == []
  {
  }

  /** The seeded state satisfies the bookkeeping invariant. */
  lemma SeededStoreConsistent(now: int)
    ensures Consistent(SeededStore(now))
  {
    var r := SeededStore(now);
    assert NoDuplicates(r.order);
    assert forall k :: k in r.conversations <==> k in r.order;
    assert r.conversations["conv-1"].lastMessage == LastOf(r.messages["conv-1"]);
  }

  /** The canned replies of the simulated inbound traffic. */
  const MOCK_RESPONSES: seq<string> := [
    "That sounds perfect!",
    "Can you send me more photos?",
    "What time works best for you?",
    "I'm available this weekend",
    "The item looks great in the photos",
    "Let's meet at the coffee shop downtown",
    "Perfect! I'm excited for this swap",
    "Do you have any other items available?"
  ]

  /** The message one simulated delivery manufactures; `pick` stands for the random choice. */
  function InboundMessage(convId: string, now: nat, pick: nat): (m: Message)
    requires pick < |MOCK_RESPONSES|
    ensures !m.isOwn && m.senderId != CURRENT_USER_ID
    ensures m.content == MOCK_RESPONSES[pick] && m.conversationId == convId
    ensures m.id == MessageId(now) && m.timestamp == now
    ensures m.senderId == "user-2" && m.senderName == "Emma L." && m.senderAvatar == EMMA_AVATAR
  {
    Message(MessageId(now), "user-2", "Emma L.", EMMA_AVATAR, MOCK_RESPONSES[pick], now, false, convId)
  }
}
