/** The records the messaging service stores, and the identifiers it mints. */
module Domain {

  datatype Option<T> = None | Some(value: T)

  /** The closed set of states a swap conversation can be in. */
  datatype Status = Active | SwapAgreed | Completed | Interested | Proposal

  /** One chat message; `timestamp` stands for the `Date` in milliseconds. */
  datatype Message = Message(
    id: string,
    senderId: string,
    senderName: string,
    senderAvatar: string,
    content: string,
    timestamp: int,
    isOwn: bool,
    conversationId: string)

  /** A conversation summary, with the cached last message and the unread counter. */
  datatype Conversation = Conversation(
    id: string,
    participants: seq<string>,
    lastMessage: Option<Message>,
    unreadCount: nat,
    itemId: string,
    itemTitle: string,
    status: Status)

  /** A subscriber callback, known only by its identity: its body is foreign code. */
  type Listener = nat

  /** One invocation `listener(conversationId, message)` of a subscriber callback. */
  datatype Notification = Notification(listener: Listener, conversationId: string, message: Message)

  /** The local user; the service never changes it. */
  const CURRENT_USER_ID := "user-1"

  /** The last element of a message history, or None when it is empty. */
  function LastOf(ms: seq<Message>): (r: Option<Message>)
    ensures r.None? <==> ms == []
    ensures r.Some? ==> r.value == ms[|ms| - 1]
  {
    if ms == [] then None else Some(ms[|ms| - 1])
  }

  predicate NoDuplicates<T(==)>(xs: seq<T>) {
    forall i, j :: 0 <= i < j < |xs| ==> xs[i] != xs[j]
  }

  function Digit(d: nat): (c: char)
    requires d < 10
    ensures '0' <= c <= '9' && c as int - '0' as int == d
  {
    "0123456789"[d]
  }

  /** The decimal rendering of a number, as a template literal prints `Date.now()`. */
  function Decimal(n: nat): (r: string)
    ensures |r| >= 1
    ensures |r| == 1 <==> n < 10
  {
    if n < 10 then [Digit(n)] else Decimal(n / 10) + [Digit(n % 10)]
  }

  /** Two clock readings print the same only when they are equal. */
  lemma {:induction false} DecimalInjective(a: nat, b: nat)
    requires Decimal(a) == Decimal(b)
    ensures a == b
  {
    if a >= 10 && b >= 10 {
      var ra, rb := Decimal(a), Decimal(b);
      assert ra[..|ra| - 1] == Decimal(a / 10);
      assert rb[..|rb| - 1] == Decimal(b / 10);
      DecimalInjective(a / 10, b / 10);
      assert Digit(a % 10) == ra[|ra| - 1] == rb[|rb| - 1] == Digit(b % 10);
    }
  }

  /** The identifier `conv-${now}` that creating a conversation mints. */
  function ConversationId(now: nat): string {
    "conv-" + Decimal(now)
  }

  /** The identifier `msg-${now}` that sending or receiving a message mints. */
  function MessageId(now: nat): string {
    "msg-" + Decimal(now)
  }

  /** Minted identifiers collide exactly when the clock readings coincide. */
  lemma ConversationIdUnique(a: nat, b: nat)
    ensures ConversationId(a) == ConversationId(b) <==> a == b
  {
    if ConversationId(a) == ConversationId(b) {
      assert Decimal(a) == ConversationId(a)[5..];
      assert Decimal(b) == ConversationId(b)[5..];
      DecimalInjective(a, b);
    }
  }

  lemma MessageIdUnique(a: nat, b: nat)
    ensures MessageId(a) == MessageId(b) <==> a == b
  {
    if MessageId(a) == MessageId(b) {
      assert Decimal(a) == MessageId(a)[4..];
      assert Decimal(b) == MessageId(b)[4..];
      DecimalInjective(a, b);
    }
  }
}
