/**
 * Sessions: any sequence of calls into the service, applied to a store. The
 * lemmas here state what holds after every such sequence: the store stays
 * consistent, histories list their messages in call order and only grow, the
 * unread counter counts the received messages since the last reset, and
 * subscribers are called once per insertion while subscribed and never after.
 */
module Session {
  import opened Domain
  import Store

  /** One call into the service; `Deliver` is an `addMessage` from the inbound path. */
  datatype Op =
    | Send(convId: string, content: string, now: nat)
    | Deliver(convId: string, message: Message)
    | MarkRead(convId: string)
    | Create(now: nat, participantId: string, itemId: string, itemTitle: string)
    | Subscribe(listener: Listener)
    | Unsubscribe(listener: Listener)

  function Apply(s: Store.State, op: Op): Store.State {
    match op
    case Send(c, content, now) => Store.SendMessage(s, c, content, now).state
    case Deliver(c, m) => Store.AddMessage(s, c, m)
    case MarkRead(c) => Store.MarkConversationAsRead(s, c)
    case Create(now, p, item, title) => Store.CreateConversation(s, now, p, item, title).state
    case Subscribe(l) => Store.SubscribeToMessages(s, l)
    case Unsubscribe(l) => Store.Unsubscribe(s, l)
  }

  /** The store after the calls of `ops`, in order. */
  function Run(s: Store.State, ops: seq<Op>): Store.State {
    if ops == [] then s else Apply(Run(s, ops[..|ops| - 1]), ops[|ops| - 1])
  }

  lemma {:induction false} RunConcat(s: Store.State, a: seq<Op>, b: seq<Op>)
    ensures Run(s, a + b) == Run(Run(s, a), b)
  {
    if b == [] {
      assert a + b == a;
    } else {
      assert (a + b)[..|a + b| - 1] == a + b[..|b| - 1];
      RunConcat(s, a, b[..|b| - 1]);
    }
  }

  /** Every sequence of calls keeps the store consistent. */
  lemma {:induction false} RunPreservesConsistency(s: Store.State, ops: seq<Op>)
    requires Store.Consistent(s)
    ensures Store.Consistent(Run(s, ops))
  {
    if ops != [] {
      RunPreservesConsistency(s, ops[..|ops| - 1]);
    }
  }

  /** The message a call inserts into conversation `c`, if it inserts one there. */
  function InsertedInto(op: Op, c: string): seq<Message> {
    match op
    case Send(c', content, now) => if c' == c then [Store.OwnMessage(c', content, now)] else []
    case Deliver(c', m) => if c' == c then [m] else []
    case _ => []
  }

  /** All messages the calls of `ops` insert into `c`, in call order. */
  function Posted(ops: seq<Op>, c: string): seq<Message> {
    if ops == [] then [] else Posted(ops[..|ops| - 1], c) + InsertedInto(ops[|ops| - 1], c)
  }

  predicate Creates(op: Op, c: string) {
    op.Create? && ConversationId(op.now) == c
  }

  /** The index of the last call that creates `c`, or -1. */
  function LastCreate(ops: seq<Op>, c: string): (k: int)
    ensures -1 <= k < |ops|
    ensures k >= 0 ==> Creates(ops[k], c)
    ensures forall i :: k < i < |ops| ==> !Creates(ops[i], c)
  {
    if ops == [] then -1
    else if Creates(ops[|ops| - 1], c) then |ops| - 1
    else LastCreate(ops[..|ops| - 1], c)
  }

  lemma PostedSnoc(ops: seq<Op>, k: int, c: string)
    requires -1 <= k < |ops| - 1
    ensures Posted(ops[k + 1..], c) == Posted(ops[k + 1..|ops| - 1], c) + InsertedInto(ops[|ops| - 1], c)
  {
    var t := ops[k + 1..];
    assert t[..|t| - 1] == ops[k + 1..|ops| - 1];
  }

  /** One call: a create of `c` empties its history, an insertion into `c` extends it. */
  lemma StepHistory(t: Store.State, op: Op, c: string)
    ensures Store.MessagesFor(Apply(t, op).messages, c)
         == if Creates(op, c) then [] else Store.MessagesFor(t.messages, c) + InsertedInto(op, c)
  {
    match op
    case Send(c', content, now) =>
    case Deliver(c', m) =>
    case MarkRead(c') =>
      assert Apply(t, op).messages == t.messages;
    case Create(now, p, item, title) =>
    case Subscribe(l) =>
      assert Apply(t, op).messages == t.messages;
    case Unsubscribe(l) =>
      assert Apply(t, op).messages == t.messages;
  }

  /** What the history of `c` should hold after `ops`: the reference for call order. */
  function ExpectedHistory(s: Store.State, ops: seq<Op>, c: string): seq<Message> {
    var k := LastCreate(ops, c);
    if k < 0 then Store.MessagesFor(s.messages, c) + Posted(ops, c) else Posted(ops[k + 1..], c)
  }

  lemma ExpectedHistorySnoc(s: Store.State, ops: seq<Op>, c: string)
    requires ops != []
    ensures var pre, op := ops[..|ops| - 1], ops[|ops| - 1];
      ExpectedHistory(s, ops, c)
      == if Creates(op, c) then [] else ExpectedHistory(s, pre, c) + InsertedInto(op, c)
  {
    var pre, op := ops[..|ops| - 1], ops[|ops| - 1];
    if Creates(op, c) {
      assert ops[|ops|..] == [];
    } else {
      ExpectedHistorySnocKept(s, ops, c);
    }
  }

  lemma ExpectedHistorySnocKept(s: Store.State, ops: seq<Op>, c: string)
    requires ops != [] && !Creates(ops[|ops| - 1], c)
    ensures ExpectedHistory(s, ops, c) == ExpectedHistory(s, ops[..|ops| - 1], c) + InsertedInto(ops[|ops| - 1], c)
  {
    var pre, op := ops[..|ops| - 1], ops[|ops| - 1];
    var k := LastCreate(pre, c);
    assert LastCreate(ops, c) == k;
    if k >= 0 {
      PostedSinceSnoc(ops, k, c);
    } else {
      assert Posted(ops, c) == Posted(pre, c) + InsertedInto(op, c);
    }
  }

  lemma PostedSinceSnoc(ops: seq<Op>, k: nat, c: string)
    requires k < |ops| - 1
    ensures Posted(ops[k + 1..], c) == Posted(ops[..|ops| - 1][k + 1..], c) + InsertedInto(ops[|ops| - 1], c)
  {
    PostedSnoc(ops, k, c);
    assert ops[k + 1..|ops| - 1] == ops[..|ops| - 1][k + 1..];
  }

  /**
   * A history lists the messages inserted into it in call order, after its
   * stored prefix, or after the last create that emptied it.
   */
  lemma {:induction false} HistoryIsCallOrder(s: Store.State, ops: seq<Op>, c: string)
    ensures Store.MessagesFor(Run(s, ops).messages, c) == ExpectedHistory(s, ops, c)
  {
    if ops == [] {
      assert Run(s, ops) == s;
    } else {
      var pre, op := ops[..|ops| - 1], ops[|ops| - 1];
      HistoryIsCallOrder(s, pre, c);
      StepHistory(Run(s, pre), op, c);
      ExpectedHistorySnoc(s, ops, c);
    }
  }

  /**
   * Histories are append-only: more calls, none of which recreates `c`, only
   * add messages after those already there, and the record caches the last one.
   */
  lemma HistoryAppendOnly(s: Store.State, ops: seq<Op>, more: seq<Op>, c: string)
    requires forall i :: 0 <= i < |more| ==> !Creates(more[i], c)
    ensures var before, after := Run(s, ops), Run(s, ops + more);
      Store.MessagesFor(after.messages, c) == Store.MessagesFor(before.messages, c) + Posted(more, c)
    ensures Store.Consistent(s) && c in Run(s, ops + more).conversations ==>
      Run(s, ops + more).conversations[c].lastMessage == LastOf(Store.MessagesFor(Run(s, ops + more).messages, c))
  {
    RunConcat(s, ops, more);
    HistoryIsCallOrder(Run(s, ops), more, c);
    assert LastCreate(more, c) < 0;
    if Store.Consistent(s) {
      RunPreservesConsistency(s, ops + more);
    }
  }

  predicate Resets(op: Op, c: string) {
    (op.MarkRead? && op.convId == c) || Creates(op, c)
  }

  /** The index of the last call that resets the counter of `c`, or -1. */
  function LastReset(ops: seq<Op>, c: string): (k: int)
    ensures -1 <= k < |ops|
    ensures k >= 0 ==> Resets(ops[k], c)
    ensures forall i :: k < i < |ops| ==> !Resets(ops[i], c)
  {
    if ops == [] then -1
    else if Resets(ops[|ops| - 1], c) then |ops| - 1
    else LastReset(ops[..|ops| - 1], c)
  }

  /** How many messages from others the calls of `ops` insert into `c`. */
  function ReceivedCount(ops: seq<Op>, c: string): nat {
    if ops == [] then 0
    else
      var op := ops[|ops| - 1];
      ReceivedCount(ops[..|ops| - 1], c) + ReceivedBy(op, c)
  }

  /** What the unread counter of `c` should read after `ops`. */
  function ExpectedUnread(s: Store.State, ops: seq<Op>, c: string): nat {
    var k := LastReset(ops, c);
    if k >= 0 then ReceivedCount(ops[k + 1..], c)
    else (if c in s.conversations then s.conversations[c].unreadCount else 0) + ReceivedCount(ops, c)
  }

  /** Conversations are only ever added: `c` exists after `ops` iff it existed or was created. */
  lemma {:induction false} ConversationExists(s: Store.State, ops: seq<Op>, c: string)
    ensures c in Run(s, ops).conversations <==> c in s.conversations || LastCreate(ops, c) >= 0
  {
    if ops != [] {
      ConversationExists(s, ops[..|ops| - 1], c);
    }
  }

  /** What one call adds to the counter of `c`: one for a message received from others. */
  function ReceivedBy(op: Op, c: string): nat {
    if op.Deliver? && op.convId == c && !op.message.isOwn then 1 else 0
  }

  /** One call: a reset of `c` zeroes its counter, anything else adds what it received. */
  lemma StepUnread(t: Store.State, op: Op, c: string)
    requires c in Apply(t, op).conversations
    ensures !Creates(op, c) ==> c in t.conversations
    ensures Apply(t, op).conversations[c].unreadCount
         == if Resets(op, c) then 0 else t.conversations[c].unreadCount + ReceivedBy(op, c)
  {
  }

  lemma ExpectedUnreadSnoc(s: Store.State, ops: seq<Op>, c: string)
    requires ops != []
    ensures var pre, op := ops[..|ops| - 1], ops[|ops| - 1];
      ExpectedUnread(s, ops, c)
      == if Resets(op, c) then 0 else ExpectedUnread(s, pre, c) + ReceivedBy(op, c)
  {
    if Resets(ops[|ops| - 1], c) {
      assert ops[|ops|..] == [];
    } else {
      ExpectedUnreadSnocKept(s, ops, c);
    }
  }

  lemma ExpectedUnreadSnocKept(s: Store.State, ops: seq<Op>, c: string)
    requires ops != [] && !Resets(ops[|ops| - 1], c)
    ensures ExpectedUnread(s, ops, c) == ExpectedUnread(s, ops[..|ops| - 1], c) + ReceivedBy(ops[|ops| - 1], c)
  {
    var pre := ops[..|ops| - 1];
    var k := LastReset(ops, c);
    assert k == LastReset(pre, c);
    if k >= 0 {
      ReceivedCountSuffixSnoc(ops, k + 1, c);
      assert ops[k + 1..|ops| - 1] == pre[k + 1..];
    } else {
      assert ReceivedCount(ops, c) == ReceivedCount(pre, c) + ReceivedBy(ops[|ops| - 1], c);
    }
  }

  lemma ReceivedCountSuffixSnoc(ops: seq<Op>, j: nat, c: string)
    requires j < |ops|
    ensures ReceivedCount(ops[j..], c) == ReceivedCount(ops[j..|ops| - 1], c) + ReceivedBy(ops[|ops| - 1], c)
  {
    var u := ops[j..];
    assert u[..|u| - 1] == ops[j..|ops| - 1];
  }

  /**
   * The unread counter of a conversation equals the number of messages received
   * from others since it was last marked read or created (plus its stored value
   * when neither happened), whatever the local user sends in between.
   */
  lemma {:induction false} UnreadCountsReceivedSinceReset(s: Store.State, ops: seq<Op>, c: string)
    requires c in Run(s, ops).conversations
    ensures Run(s, ops).conversations[c].unreadCount == ExpectedUnread(s, ops, c)
  {
    if ops == [] {
      assert Run(s, ops) == s;
    } else {
      var pre, op := ops[..|ops| - 1], ops[|ops| - 1];
      StepUnread(Run(s, pre), op, c);
      ExpectedUnreadSnoc(s, ops, c);
      if !Resets(op, c) {
        UnreadCountsReceivedSinceReset(s, pre, c);
      }
    }
  }

  /** An unsubscribed callback, never subscribed again, is not called by any later call. */
  lemma {:induction false} UnsubscribedNeverCalled(s: Store.State, ops: seq<Op>, l: Listener)
    requires Store.Consistent(s) && l !in s.listeners
    requires forall i :: 0 <= i < |ops| ==> ops[i] != Subscribe(l)
    ensures l !in Run(s, ops).listeners
    ensures Store.CallsTo(Run(s, ops).notifications, l) == Store.CallsTo(s.notifications, l)
  {
    if ops != [] {
      var pre, op := ops[..|ops| - 1], ops[|ops| - 1];
      UnsubscribedNeverCalled(s, pre, l);
      var t := Run(s, pre);
      RunPreservesConsistency(s, pre);
      match op
      case Send(c, content, now) =>
        Store.AddMessageCallsEachListenerOnce(t, c, Store.OwnMessage(c, content, now), l);
      case Deliver(c, m) =>
        Store.AddMessageCallsEachListenerOnce(t, c, m, l);
      case MarkRead(c) =>
      case Create(now, p, item, title) =>
      case Subscribe(l') =>
      case Unsubscribe(l') =>
    }
  }

  /** How many calls of `ops` insert a message (into any conversation, known or not). */
  function Insertions(ops: seq<Op>): nat {
    if ops == [] then 0
    else Insertions(ops[..|ops| - 1]) + (if ops[|ops| - 1].Send? || ops[|ops| - 1].Deliver? then 1 else 0)
  }

  /** A subscribed callback that nobody unsubscribes is called exactly once per insertion. */
  lemma {:induction false} SubscribedCalledOncePerInsertion(s: Store.State, ops: seq<Op>, l: Listener)
    requires Store.Consistent(s) && l in s.listeners
    requires forall i :: 0 <= i < |ops| ==> ops[i] != Unsubscribe(l)
    ensures l in Run(s, ops).listeners
    ensures Store.CallsTo(Run(s, ops).notifications, l) == Store.CallsTo(s.notifications, l) + Insertions(ops)
  {
    if ops != [] {
      var pre, op := ops[..|ops| - 1], ops[|ops| - 1];
      SubscribedCalledOncePerInsertion(s, pre, l);
      var t := Run(s, pre);
      RunPreservesConsistency(s, pre);
      match op
      case Send(c, content, now) =>
        Store.AddMessageCallsEachListenerOnce(t, c, Store.OwnMessage(c, content, now), l);
      case Deliver(c, m) =>
        Store.AddMessageCallsEachListenerOnce(t, c, m, l);
      case MarkRead(c) =>
      case Create(now, p, item, title) =>
      case Subscribe(l') =>
      case Unsubscribe(l') =>
    }
  }
}
