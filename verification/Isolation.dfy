/** Free text never crosses between owners when ownership comes from the agents table. */
module Isolation {
  import opened Vocabulary
  import opened StateMachine
  import opened Tables
  import opened Policy
  import opened Operations
  import opened Runs
  import opened Integrity
  import opened Queries

  /** An open conversation holds no note; in any other, everyone has the snapshot's one owner. */
  ghost predicate Isolated(agents: map<AgentId, Agent>, r: Room) {
    if r.conv.ctype.Open? then forall i :: 0 <= i < |r.log| ==> !r.log[i].mtype.Note?
    else forall a :: a in r.parts ==> a in agents && r.conv.snapshot == Some({agents[a].ownerSub})
  }

  ghost predicate AllIsolated(b: Board) {
    forall c :: c in b.rooms ==> Isolated(b.agents, b.rooms[c])
  }

  lemma FoundersShareTheirOwner(agents: map<AgentId, Agent>, founders: seq<AgentId>, ctype: ConversationType)
    requires founders != [] && !ctype.Open? && Admit(agents, founders, ctype, AgentTable).Admitted?
    ensures forall i :: 0 <= i < |founders| ==>
      founders[i] in agents && Admit(agents, founders, ctype, AgentTable).snapshot == Some({agents[founders[i]].ownerSub})
  {
    var owners := OwnersOf(AgentTable, agents, founders);
    forall i | 0 <= i < |founders| ensures founders[i] in agents && owners[i] == {agents[founders[i]].ownerSub} {
      assert owners[i] in owners;
    }
    forall i, j | 0 <= i < j < |founders| ensures owners[i] == owners[j] {
      assert ctype.Internal? || MayAssign(owners[i], owners[j]);
    }
    forall i | 0 <= i < |founders| ensures UnionOf(owners) == owners[i] {
      forall o | o in UnionOf(owners) ensures o in owners[i] {
        var j :| 0 <= j < |owners| && o in owners[j];
        assert owners[i] == owners[j];
      }
    }
  }

  lemma OpeningIsIsolated(b: Board, q: Opening, room: Room)
    requires MayOpen(b, q, room) && q.client == AgentTable
    ensures Isolated(b.agents, room)
  {
    hide FirstUnavailable, StartedSince, SortedTargets, Admit, TimeToLive, ResultingState;
    var ids := SortedTargets(q.initiator, q.named);
    var founders := [q.initiator] + ids;
    if !q.ctype.Open? {
      FoundersShareTheirOwner(b.agents, founders, q.ctype);
      forall a | a in room.parts ensures a in founders {
        assert a == founders[0] || a in ids;
      }
    }
  }

  lemma EventKeepsIsolation(agents: map<AgentId, Agent>, r: Room, ev: Event)
    requires Fits(r, ev) && Isolated(agents, r) && Cleared(agents, r, AgentTable, ev)
    requires ev.InviteSent? ==> r.parts != map[]
    ensures Isolated(agents, Evolve(r, ev))
  {
    hide AllAccept, Others, OthersOwners;
    if ev.InviteSent? && !r.conv.ctype.Open? {
      var a :| a in r.parts;
      assert VerifiedOwners(AgentTable, agents, ev.target) == {agents[ev.target].ownerSub};
    }
  }

  lemma EnrolmentKeepsIsolation(b: Board, id: AgentId, row: Agent)
    requires Integral(b) && AllIsolated(b) && MayEnrol(b.agents, id, row)
    ensures AllIsolated(b.(agents := b.agents[id := row]))
  {
    hide RoomOk;
  }

  lemma SettlingIsInnocent(agents: map<AgentId, Agent>, r: Room, now: Instant)
    requires Isolated(agents, r)
    ensures Isolated(agents, Settle(r, now))
  {
  }

  lemma TouchKeepsIsolation(b: Board, call: Call, c: ConversationId, now: Instant, event: Option<Event>)
    requires c in b.rooms && Isolated(b.agents, b.rooms[c]) && b.rooms[c].parts != map[]
    requires MayWrite(b, call, Touch(c, now, event)) && (call.OpenRoom? || call.Ask? ==> ClientOf(call) == AgentTable)
    ensures Isolated(b.agents, Touched(b.rooms[c], now, event))
  {
    hide WithinRate, ClosesRightly, MaxSeq, RoleMaySend, BoundaryFlag, Isolated, Cleared, Evolve;
    assert ClientOf(call) == AgentTable;
    SettlingIsInnocent(b.agents, b.rooms[c], now);
    if event.Some? { EventKeepsIsolation(b.agents, Settle(b.rooms[c], now), event.value); }
  }

  lemma RoomsArePeopled(b: Board, c: ConversationId)
    requires Integral(b) && c in b.rooms
    ensures b.rooms[c].parts != map[]
  {
    hide LogOk;
    assert RoomOk(b.rooms[c]) && b.rooms[c].conv.createdBy in b.rooms[c].parts;
  }

  lemma CallKeepsIsolation(b: Board, call: Call)
    requires Integral(b) && AllIsolated(b) && (call.OpenRoom? || call.Ask? ==> ClientOf(call) == AgentTable)
    ensures AllIsolated(Next(b, call))
  {
    hide OutcomeOf, RoomOk, MayOpen, MayEnrol, Allowed, Isolated, Settle, Evolve;
    CallsWriteWhatTheyMay(b, call);
    match OutcomeOf(b, call).writes
    case PutAgent(id, row) => EnrolmentKeepsIsolation(b, id, row);
    case Create(c, room) => OpeningIsIsolated(b, call.opening, room);
    case Touch(c, now, event) =>
      RoomsArePeopled(b, c);
      TouchKeepsIsolation(b, call, c, now, event);
    case Nothing =>
  }

  lemma {:induction false} ReachableBoardsAreIsolated(calls: seq<Call>)
    requires SameClient(calls, AgentTable)
    ensures AllIsolated(Run(calls))
  {
    hide Integral, Isolated, Next;
    if calls != [] {
      var front, last := calls[..|calls| - 1], calls[|calls| - 1];
      ReachableBoardsAreIsolated(front);
      ReachableBoardsAreIntegral(front);
      assert last.OpenRoom? || last.Ask? ==> ClientOf(last) == AgentTable;
      CallKeepsIsolation(Run(front), last);
    }
  }

  ghost predicate SameOwner(agents: map<AgentId, Agent>, a: AgentId, a': AgentId) {
    a in agents && a' in agents && agents[a].ownerSub == agents[a'].ownerSub
  }

  lemma NotesStayHome(b: Board, c: ConversationId, reader: AgentId, i: nat)
    requires Integral(b) && AllIsolated(b) && HasRow(b, c, reader)
    requires i < |b.rooms[c].log| && b.rooms[c].log[i].mtype.Note?
    ensures SameOwner(b.agents, reader, b.rooms[c].log[i].sender)
  {
    hide RowsOk;
    var r := b.rooms[c];
    assert RoomOk(r) && Isolated(b.agents, r);
    assert {b.agents[reader].ownerSub} == {b.agents[r.log[i].sender].ownerSub};
    assert b.agents[reader].ownerSub in {b.agents[r.log[i].sender].ownerSub};
  }

  /** In every run whose ownership comes from the agents table: a note returned by a read has a
      sender with the reader's own owner. */
  lemma FreeTextStaysWithItsOwner(
    calls: seq<Call>, now: Instant, actor: string, reader: AgentId, c: ConversationId, since: int, m: Message)
    requires SameClient(calls, AgentTable)
    requires var o := Get(Run(calls), now, actor, reader, c, since); o.reply.History? && m in o.reply.messages && m.mtype.Note?
    ensures SameOwner(Run(calls).agents, reader, m.sender)
  {
    hide Run;
    ReachableBoardsAreIsolated(calls);
    ReachableBoardsAreIntegral(calls);
    var b := Run(calls);
    hide Integral, AllIsolated, Above;
    AboveIsFromLog(b.rooms[c].log, since, m);
    var i :| 0 <= i < |b.rooms[c].log| && b.rooms[c].log[i] == m;
    NotesStayHome(b, c, reader, i);
  }

  /** The same for the latest message of an inbox entry. */
  lemma InboxNotesStayWithTheirOwner(calls: seq<Call>, now: Instant, reader: AgentId, c: ConversationId, entry: UnreadEntry)
    requires SameClient(calls, AgentTable)
    requires var unread := NaiveInbox(Run(calls).rooms, now, reader).unread; c in unread && unread[c] == entry
    requires entry.latest.mtype.Note?
    ensures SameOwner(Run(calls).agents, reader, entry.latest.sender)
  {
    hide Run, SameOwner, Integral, AllIsolated;
    ReachableBoardsAreIsolated(calls);
    ReachableBoardsAreIntegral(calls);
    var b := Run(calls);
    LatestIsLast(b.rooms, now, reader, c, entry);
    hide NaiveInbox;
    NotesStayHome(b, c, reader, |b.rooms[c].log| - 1);
  }

  lemma LatestIsLast(rooms: map<ConversationId, Room>, now: Instant, reader: AgentId, c: ConversationId, entry: UnreadEntry)
    requires var unread := NaiveInbox(rooms, now, reader).unread; c in unread && unread[c] == entry
    ensures c in rooms && reader in rooms[c].parts && rooms[c].log != [] && entry.latest == rooms[c].log[|rooms[c].log| - 1]
  {
    hide Shown;
  }
}
