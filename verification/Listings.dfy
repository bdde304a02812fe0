/** What the listings tell, on the stored columns, and how they agree with reading. */
module Listings {
  import opened Vocabulary
  import opened Tables
  import opened Policy
  import opened Operations
  import opened Runs
  import opened Queries
  import opened Rules
  import Keyset

  // --- inbox ---

  /** The pending entries are exactly the caller's invited rows, each with its conversation as it
      stands, its inviter and its instant; they are arranged by that instant. */
  lemma InvitationsExactly(rooms: map<ConversationId, Room>, now: Instant, a: AgentId)
    ensures var pending := NaiveInbox(rooms, now, a).pending;
      && (forall c :: c in pending <==> c in rooms && a in rooms[c].parts && rooms[c].parts[a].status == Invited)
      && (forall c :: c in pending ==>
           var conv, row := rooms[c].conv, rooms[c].parts[a];
           pending[c] == PendingEntry(conv.(state := StateAt(conv, now)), row.invitedBy, row.invitedAt))
      && PendingStamps(rooms, a).Keys == pending.Keys
      && (forall c :: c in pending ==> PendingStamps(rooms, a)[c] == rooms[c].parts[a].invitedAt)
  {
  }

  /** The unread entries are exactly the caller's active rows whose cursor is short of the log,
      each with its conversation as it stands, the distance, the cursor and the last message. */
  lemma UnreadExactly(rooms: map<ConversationId, Room>, now: Instant, a: AgentId)
    ensures var unread := NaiveInbox(rooms, now, a).unread;
      && (forall c :: c in unread <==>
           c in rooms && a in rooms[c].parts && rooms[c].parts[a].status == Active && rooms[c].parts[a].lastReadSeq < |rooms[c].log|)
      && (forall c :: c in unread ==>
           var conv, cursor, n := rooms[c].conv, rooms[c].parts[a].lastReadSeq, |rooms[c].log|;
           unread[c] == UnreadEntry(conv.(state := StateAt(conv, now)), n - cursor, cursor, rooms[c].log[n - 1]))
  {
  }

  /** The unread entries are arranged by the latest stamp of their messages. */
  lemma UnreadStampsExactly(rooms: map<ConversationId, Room>, now: Instant, a: AgentId)
    ensures var stamps := UnreadStamps(rooms, a);
      && stamps.Keys == NaiveInbox(rooms, now, a).unread.Keys
      && forall c :: c in stamps ==>
           && (forall i :: 0 <= i < |rooms[c].log| ==> rooms[c].log[i].createdAt <= stamps[c])
           && exists i :: 0 <= i < |rooms[c].log| && rooms[c].log[i].createdAt == stamps[c]
  {
  }

  lemma TotalsExactly(rooms: map<ConversationId, Room>, now: Instant, a: AgentId)
    ensures var v := NaiveInbox(rooms, now, a); v.totalCount == |v.unread| + |v.pending|
  {
  }

  // --- conversations ---

  /** A conversation is listed exactly if the caller's row is invited or active and each filter
      given agrees with the caller's role, the type, and the state the conversation is in. */
  lemma ListedExactly(rooms: map<ConversationId, Room>, now: Instant, a: AgentId, f: Filter, stamp: Stamp)
    ensures stamp in ListedStamps(rooms, now, a, f) <==>
      && stamp.1 in rooms && stamp.0 == rooms[stamp.1].conv.createdAt && a in rooms[stamp.1].parts
      && var conv, row := rooms[stamp.1].conv, rooms[stamp.1].parts[a];
         && (row.status == Invited || row.status == Active)
         && (f.role.Some? ==> row.role == f.role.value)
         && (f.ctype.Some? ==> conv.ctype == f.ctype.value)
         && (f.state.Some? ==> StateAt(conv, now) == f.state.value)
  {
    if stamp in ListedStamps(rooms, now, a, f) {
      assert stamp.1 in rooms && Listed(rooms[stamp.1], now, a, f);
    }
  }

  /** Without filters exactly the conversations are listed that the caller could read at that
      instant, each shown as the read would show it. */
  lemma ListingIsReading(b: Board, now: Instant, actor: string, a: AgentId, c: ConversationId, since: int)
    requires c in b.rooms
    ensures var reply := OutcomeOf(b, Read(now, actor, a, c, since)).reply;
      && ((b.rooms[c].conv.createdAt, c) in ListedStamps(b.rooms, now, a, Filter(None, None, None)) <==> reply.History?)
      && (reply.History? ==> Shown(b.rooms[c], now) == reply.conv)
  {
    hide Above, MaxSeq, Views, Settle;
    ListedExactly(b.rooms, now, a, Filter(None, None, None), (b.rooms[c].conv.createdAt, c));
  }

  /** What is shown of a conversation is its row, in the state it is in. */
  lemma ShownExactly(r: Room, now: Instant)
    ensures Shown(r, now) == r.conv.(state := StateAt(r.conv, now))
  {
  }

  /** A cursor is read as the position whose texts it joins with its last bar; any other
      non-empty text is malformed, and never starts over. */
  lemma CursorsReadExactly(text: StampText, s: string)
    requires s != ""
    ensures forall t: Instant, c: ConversationId :: ReadCursor(text, Some(s)) == Behind((t, c)) <==>
      exists x, y :: s == x + "|" + y && '|' !in y && text.parseInstant(x) == Some(t) && text.parseId(y) == Some(c)
    ensures !ReadCursor(text, Some(s)).Beginning?
    ensures ReadCursor(text, None) == Beginning && ReadCursor(text, Some("")) == Beginning
  {
    var i := Keyset.LastBar(s);
    LastBarIsLast(s);
    if i >= 0 { assert s == s[..i] + "|" + s[i + 1..]; }
    forall x, y | s == x + "|" + y && '|' !in y ensures i >= 0 && x == s[..i] && y == s[i + 1..] {
      Keyset.LastBarFound(x, y);
    }
  }

  lemma {:induction false} LastBarIsLast(s: string)
    ensures var i := Keyset.LastBar(s);
      if i < 0 then '|' !in s else s[i] == '|' && '|' !in s[i + 1..]
  {
    if s != "" && s[|s| - 1] != '|' {
      var front := s[..|s| - 1];
      LastBarIsLast(front);
      var i := Keyset.LastBar(front);
      assert s == front + [s[|s| - 1]];
      if i >= 0 { assert s[i + 1..] == front[i + 1..] + [s[|s| - 1]]; }
    }
  }

  // --- agents ---

  /** The directory tells everything of an agent but its owner, and nothing that depends on it. */
  lemma PublicExactly(id: AgentId, row: Agent, owner: string)
    ensures var v := PublicOf(id, row);
      && v.id == id && v.sub == row.sub && v.displayName == row.displayName && v.ownerEmail == row.ownerEmail
      && v.accepted == row.accepted && v.status == row.status
    ensures PublicOf(id, row.(ownerSub := owner)) == PublicOf(id, row)
  {
  }

  lemma SubjectsExactly(b: Board)
    ensures forall s :: s in Subs(b) <==> exists a :: a in b.agents && b.agents[a].sub == s
  {
  }

  /** The participants of a conversation are told by their own and their agents' columns. */
  lemma ParticipantsExactly(agents: map<AgentId, Agent>, parts: map<AgentId, Participant>, a: AgentId)
    requires a in agents && a in parts
    ensures var v := ParticipantOf(agents, parts, a);
      && v.id == a && v.sub == agents[a].sub && v.displayName == agents[a].displayName
      && v.role == parts[a].role && v.status == parts[a].status && v.invitedBy == parts[a].invitedBy
  {
  }
}
