/** Unread counters of a support conversation, and what they count once messages can be recalled. */
module ChatCounters {
  import opened Wrappers
  import opened Tally

  type AdminId = nat
  type MessageId = nat

  datatype Sender = USER | ADMIN | SYSTEM
  datatype Reader = ByUser | ByAdmin
  datatype Message = Message(sender: Sender, senderId: nat, isRead: bool)

  /** Rows of one conversation; a recalled message is deleted. */
  datatype Chat = Chat(messages: seq<Option<Message>>, unreadUserCount: int, unreadAdminCount: int)

  datatype ChatError = MessageNotFound | NotAnAdminMessage | NotYourMessage

  const EMPTY_CHAT := Chat([], 0, 0)

  function Send(c: Chat, sender: Sender, senderId: nat): Chat {
    Chat(c.messages + [Some(Message(sender, senderId, false))],
         if sender == ADMIN then c.unreadUserCount + 1 else c.unreadUserCount,
         if sender == USER then c.unreadAdminCount + 1 else c.unreadAdminCount)
  }

  /** The messages a reader's visit marks. */
  function SenderSeenBy(reader: Reader): Sender {
    if reader == ByUser then ADMIN else USER
  }

  function MarkRow(row: Option<Message>, sender: Sender): Option<Message> {
    if row.Some? && row.value.sender == sender then Some(row.value.(isRead := true)) else row
  }

  function MarkRows(rows: seq<Option<Message>>, sender: Sender): (rows': seq<Option<Message>>)
    ensures |rows'| == |rows| && forall i :: 0 <= i < |rows| ==> rows'[i] == MarkRow(rows[i], sender)
  {
    seq(|rows|, i requires 0 <= i < |rows| => MarkRow(rows[i], sender))
  }

  function Mark(c: Chat, reader: Reader): Chat {
    Chat(MarkRows(c.messages, SenderSeenBy(reader)),
         if reader == ByUser then 0 else c.unreadUserCount,
         if reader == ByAdmin then 0 else c.unreadAdminCount)
  }

  function Recall(c: Chat, id: MessageId, admin: AdminId): (Chat, Result<MessageId, ChatError>) {
    if id >= |c.messages| || c.messages[id].None? then (c, Err(MessageNotFound))
    else if c.messages[id].value.sender != ADMIN then (c, Err(NotAnAdminMessage))
    else if c.messages[id].value.senderId != admin then (c, Err(NotYourMessage))
    else (c.(messages := c.messages[id := None]), Ok(id))
  }

  datatype Event = DoSend(sender: Sender, senderId: nat) | DoMark(reader: Reader) | DoRecall(id: MessageId, admin: AdminId)

  function Step(c: Chat, e: Event): Chat {
    match e
    case DoSend(sender, senderId) => Send(c, sender, senderId)
    case DoMark(reader) => Mark(c, reader)
    case DoRecall(id, admin) => Recall(c, id, admin).0
  }

  function Run(events: seq<Event>): Chat {
    if events == [] then EMPTY_CHAT else Step(Run(events[..|events| - 1]), events[|events| - 1])
  }

  // ---------- what is counted ----------

  function UnreadFrom(sender: Sender): Option<Message> -> int {
    (row: Option<Message>) => if row.Some? && row.value.sender == sender && !row.value.isRead then 1 else 0
  }

  /** Unread ADMIN messages recalled since the user last read. */
  function RecalledUnread(events: seq<Event>): nat {
    if events == [] then 0
    else
      var init := events[..|events| - 1];
      NextRecalled(Run(init), events[|events| - 1], RecalledUnread(init))
  }

  function NextRecalled(c: Chat, e: Event, before: nat): nat {
    if e == DoMark(ByUser) then 0
    else if e.DoRecall? && Recall(c, e.id, e.admin).1.Ok? && !c.messages[e.id].value.isRead then before + 1
    else before
  }

  /** Messages of one kind sent since their reader last read. */
  function SentSince(events: seq<Event>, sender: Sender, reader: Reader): nat {
    if events == [] then 0
    else
      var init, e := events[..|events| - 1], events[|events| - 1];
      if e == DoMark(reader) then 0
      else SentSince(init, sender, reader) + if e.DoSend? && e.sender == sender then 1 else 0
  }

  lemma MarkSums(rows: seq<Option<Message>>, sender: Sender)
    ensures SumBy(MarkRows(rows, sender), UnreadFrom(sender)) == 0
    ensures forall other: Sender :: other != sender ==>
              SumBy(MarkRows(rows, sender), UnreadFrom(other)) == SumBy(rows, UnreadFrom(other))
  {
    SumZero(MarkRows(rows, sender), UnreadFrom(sender));
    forall other: Sender | other != sender
      ensures SumBy(MarkRows(rows, sender), UnreadFrom(other)) == SumBy(rows, UnreadFrom(other))
    {
      SumSame(MarkRows(rows, sender), rows, UnreadFrom(other), UnreadFrom(other));
    }
  }

  /** How far the user counter runs ahead of the unread ADMIN messages, and the admin counter of the USER ones. */
  function Ahead(c: Chat): (int, int) {
    (c.unreadUserCount - SumBy(c.messages, UnreadFrom(ADMIN)), c.unreadAdminCount - SumBy(c.messages, UnreadFrom(USER)))
  }

  lemma SendKeepsAhead(c: Chat, sender: Sender, senderId: nat)
    ensures Ahead(Send(c, sender, senderId)) == Ahead(c)
  {
    SumAppend(c.messages, Some(Message(sender, senderId, false)), UnreadFrom(USER));
    SumAppend(c.messages, Some(Message(sender, senderId, false)), UnreadFrom(ADMIN));
  }

  lemma MarkClearsAhead(c: Chat, reader: Reader)
    ensures Ahead(Mark(c, reader)) == if reader == ByUser then (0, Ahead(c).1) else (Ahead(c).0, 0)
  {
    MarkSums(c.messages, SenderSeenBy(reader));
  }

  lemma RecallMovesAhead(c: Chat, id: MessageId, admin: AdminId)
    ensures var (c', r) := Recall(c, id, admin);
            Ahead(c') == if r.Ok? && !c.messages[id].value.isRead then (Ahead(c).0 + 1, Ahead(c).1) else Ahead(c)
  {
    if Recall(c, id, admin).1.Ok? {
      SumUpdate(c.messages, id, None, UnreadFrom(USER));
      SumUpdate(c.messages, id, None, UnreadFrom(ADMIN));
    }
  }

  lemma AheadStep(c: Chat, e: Event, recalled: nat)
    requires Ahead(c) == (recalled, 0)
    ensures Ahead(Step(c, e)) == (NextRecalled(c, e, recalled), 0)
  {
    match e
    case DoSend(sender, senderId) => SendKeepsAhead(c, sender, senderId);
    case DoMark(reader) => MarkClearsAhead(c, reader);
    case DoRecall(id, admin) => RecallMovesAhead(c, id, admin);
  }

  /**
   In every reachable state the admin counter is the number of unread USER messages, and the user counter the
   number of unread ADMIN messages plus those recalled unread since the user last read.
  */
  lemma CountersOverRuns(events: seq<Event>)
    ensures var c := Run(events);
      && c.unreadAdminCount == SumBy(c.messages, UnreadFrom(USER))
      && c.unreadUserCount == SumBy(c.messages, UnreadFrom(ADMIN)) + RecalledUnread(events)
  {
    AheadOverRuns(events);
  }

  lemma {:induction false} AheadOverRuns(events: seq<Event>)
    ensures Ahead(Run(events)) == (RecalledUnread(events), 0)
  {
    if events != [] {
      var init := events[..|events| - 1];
      AheadOverRuns(init);
      AheadStep(Run(init), events[|events| - 1], RecalledUnread(init));
    }
  }

  /** So the user counter is exact precisely when no unread message was recalled since the last visit. */
  lemma UserCounterExactIff(events: seq<Event>)
    ensures Run(events).unreadUserCount == SumBy(Run(events).messages, UnreadFrom(ADMIN)) <==> RecalledUnread(events) == 0
  {
    CountersOverRuns(events);
  }

  /** Both counters are simply the messages of the other side since the last visit; SYSTEM messages count for nobody. */
  lemma {:induction false} CountersAreSendsSinceRead(events: seq<Event>)
    ensures Run(events).unreadUserCount == SentSince(events, ADMIN, ByUser)
    ensures Run(events).unreadAdminCount == SentSince(events, USER, ByAdmin)
  {
    if events != [] {
      CountersAreSendsSinceRead(events[..|events| - 1]);
    }
  }

  /** Administrators recall messages of their own, and nothing else; a recall deletes the row and leaves the counters. */
  lemma RecallOutcome(c: Chat, id: MessageId, admin: AdminId)
    ensures var (c', r) := Recall(c, id, admin);
      && (r.Ok? <==> id < |c.messages| && c.messages[id].Some? && c.messages[id].value.sender == ADMIN && c.messages[id].value.senderId == admin)
      && (r.Ok? ==> c' == c.(messages := c.messages[id := None]))
      && (r.Err? ==> c' == c && match r.error
                                case MessageNotFound => id >= |c.messages| || c.messages[id].None?
                                case NotAnAdminMessage => id < |c.messages| && c.messages[id].Some? && c.messages[id].value.sender != ADMIN
                                case NotYourMessage => id < |c.messages| && c.messages[id].Some? && c.messages[id].value.senderId != admin)
  {
  }

  /** A visit marks exactly the other side's messages, and a message arrives unread. */
  lemma ReadFlags(c: Chat, reader: Reader, i: MessageId, sender: Sender, senderId: nat)
    requires i < |c.messages| && c.messages[i].Some?
    ensures var m, row := c.messages[i].value, Mark(c, reader).messages;
      && |row| == |c.messages| && row[i].Some?
      && row[i].value == m.(isRead := m.isRead || (reader == ByUser && m.sender == ADMIN) || (reader == ByAdmin && m.sender == USER))
    ensures Send(c, sender, senderId).messages == c.messages + [Some(Message(sender, senderId, false))]
  {
  }

  // ---------- the rows, updated in place ----------

  class Conversation {
    var messages: seq<Option<Message>>
    var unreadUserCount: int
    var unreadAdminCount: int
    ghost var log: seq<Event>

    ghost function State(): Chat
      reads this
    {
      Chat(messages, unreadUserCount, unreadAdminCount)
    }

    /** The row is what its history makes it, so the counting laws hold of it. */
    ghost predicate Valid()
      reads this
    {
      State() == Run(log)
    }

    constructor ()
      ensures Valid() && log == []
    {
      messages, unreadUserCount, unreadAdminCount, log := [], 0, 0, [];
    }

    ghost method Record(e: Event)
      modifies this`log
      ensures log == old(log) + [e]
      ensures Run(log) == Step(Run(old(log)), e)
    {
      assert (log + [e])[..|log|] == log;
      log := log + [e];
    }

    method SendMessage(sender: Sender, senderId: nat) returns (id: MessageId)
      requires Valid()
      modifies this
      ensures Valid() && log == old(log) + [DoSend(sender, senderId)]
      ensures State() == Send(old(State()), sender, senderId)
      ensures id == |old(messages)|
    {
      id := |messages|;
      messages := messages + [Some(Message(sender, senderId, false))];
      if sender == USER {
        unreadAdminCount := unreadAdminCount + 1;
      } else if sender == ADMIN {
        unreadUserCount := unreadUserCount + 1;
      }
      Record(DoSend(sender, senderId));
    }

    method MarkAsRead(reader: Reader)
      requires Valid()
      modifies this
      ensures Valid() && log == old(log) + [DoMark(reader)]
      ensures State() == Mark(old(State()), reader)
      ensures SumBy(messages, UnreadFrom(SenderSeenBy(reader))) == 0
    {
      ghost var c := State();
      if reader == ByUser {
        unreadUserCount := 0;
      } else {
        unreadAdminCount := 0;
      }
      var sender := if reader == ByUser then ADMIN else USER;
      for n := 0 to |messages|
        invariant |messages| == |c.messages| && log == old(log)
        invariant unreadUserCount == Mark(c, reader).unreadUserCount && unreadAdminCount == Mark(c, reader).unreadAdminCount
        invariant forall i :: 0 <= i < |messages| ==>
          messages[i] == if i < n then MarkRow(c.messages[i], sender) else c.messages[i]
      {
        if messages[n].Some? && messages[n].value.sender == sender && !messages[n].value.isRead {
          messages := messages[n := Some(messages[n].value.(isRead := true))];
        }
      }
      assert messages == MarkRows(c.messages, sender);
      MarkSums(c.messages, sender);
      Record(DoMark(reader));
    }

    method RecallMessage(id: MessageId, admin: AdminId) returns (r: Result<MessageId, ChatError>)
      requires Valid()
      modifies this
      ensures Valid() && log == old(log) + [DoRecall(id, admin)]
      ensures (State(), r) == Recall(old(State()), id, admin)
    {
      Record(DoRecall(id, admin));
      if id >= |messages| || messages[id].None? {
        return Err(MessageNotFound);
      }
      if messages[id].value.sender != ADMIN {
        return Err(NotAnAdminMessage);
      }
      if messages[id].value.senderId != admin {
        return Err(NotYourMessage);
      }
      messages := messages[id := None];
      r := Ok(id);
    }
  }
}
