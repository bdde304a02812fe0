/** The owner set of a conversation is frozen when it opens, for any one ownership client. */
module OwnerFreeze {
  import opened Vocabulary
  import opened StateMachine
  import opened Tables
  import opened Policy
  import opened Operations
  import opened Runs
  import opened Integrity

  // --- the snapshot never changes ---

  predicate SameTerms(before: Conversation, later: Conversation) {
    later == before.(state := later.state)
  }

  /** No call, with any client, changes a conversation's snapshot, type, creator or deadline. */
  lemma CallKeepsTerms(b: Board, call: Call, c: ConversationId)
    requires SubsGiven(b) && c in b.rooms
    ensures c in Next(b, call).rooms && SameTerms(b.rooms[c].conv, Next(b, call).rooms[c].conv)
  {
    hide OutcomeOf, MayOpen, MayEnrol, Allowed, PartsAfter;
    CallsWriteWhatTheyMay(b, call);
  }

  // --- everyone's owners are in the snapshot ---

  /** Of any room with an owner set: each participant's owners are known and inside it. */
  ghost predicate OwnersInside(client: OwnershipClient, agents: map<AgentId, Agent>, r: Room) {
    !r.conv.ctype.Open? ==>
      forall a :: a in r.parts ==>
        VerifiedOwners(client, agents, a) != {} && VerifiedOwners(client, agents, a) <= SnapshotOwners(r.conv)
  }

  predicate Founders(row: AuditRow, c: ConversationId) {
    row.action.ConversationStart? && row.conversation == Some(c) && row.agent.Some?
  }

  /** The snapshot is the union of the owner sets of those the conversation was opened among. */
  ghost predicate SnapshotFrom(client: OwnershipClient, agents: map<AgentId, Agent>, r: Room, row: AuditRow)
    requires row.action.ConversationStart? && row.agent.Some?
  {
    var founders := [row.agent.value] + row.action.targets;
    && (forall i :: 0 <= i < |founders| ==> founders[i] in agents)
    && (!r.conv.ctype.Open? ==> r.conv.snapshot == Some(UnionOf(OwnersOf(client, agents, founders))))
  }

  ghost predicate Frozen(b: Board, client: OwnershipClient) {
    && (forall c :: c in b.rooms ==> OwnersInside(client, b.agents, b.rooms[c]))
    && (forall i :: 0 <= i < |b.audit| && b.audit[i].action.ConversationStart? ==>
         var row := b.audit[i];
         row.agent.Some? && row.conversation.Some? && row.conversation.value in b.rooms
         && SnapshotFrom(client, b.agents, b.rooms[row.conversation.value], row))
    && (forall c :: c in b.rooms ==> exists i :: 0 <= i < |b.audit| && Founders(b.audit[i], c))
  }

  predicate SameOwners(agents: map<AgentId, Agent>, agents': map<AgentId, Agent>) {
    forall a :: a in agents ==> a in agents' && agents'[a].ownerSub == agents[a].ownerSub
  }

  lemma OwnersStay(client: OwnershipClient, agents: map<AgentId, Agent>, agents': map<AgentId, Agent>, a: AgentId)
    requires SameOwners(agents, agents') && a in agents
    ensures VerifiedOwners(client, agents', a) == VerifiedOwners(client, agents, a)
  {
  }

  lemma OwnerListsStay(
    client: OwnershipClient, agents: map<AgentId, Agent>, agents': map<AgentId, Agent>, ids: seq<AgentId>)
    requires SameOwners(agents, agents') && forall i :: 0 <= i < |ids| ==> ids[i] in agents
    ensures OwnersOf(client, agents', ids) == OwnersOf(client, agents, ids)
  {
    forall i | 0 <= i < |ids| ensures OwnersOf(client, agents', ids)[i] == OwnersOf(client, agents, ids)[i] {
      OwnersStay(client, agents, agents', ids[i]);
    }
  }

  lemma SnapshotFromStays(
    client: OwnershipClient, agents: map<AgentId, Agent>, agents': map<AgentId, Agent>, r: Room, r': Room, row: AuditRow)
    requires row.action.ConversationStart? && row.agent.Some? && SnapshotFrom(client, agents, r, row)
    requires SameOwners(agents, agents') && SameTerms(r.conv, r'.conv)
    ensures SnapshotFrom(client, agents', r', row)
  {
    OwnerListsStay(client, agents, agents', [row.agent.value] + row.action.targets);
    hide OwnersOf, UnionOf;
  }

  lemma OwnersInsideStays(
    client: OwnershipClient, agents: map<AgentId, Agent>, agents': map<AgentId, Agent>, r: Room)
    requires OwnersInside(client, agents, r) && SameOwners(agents, agents') && r.parts.Keys <= agents.Keys
    ensures OwnersInside(client, agents', r)
  {
    forall a | a in r.parts ensures VerifiedOwners(client, agents', a) == VerifiedOwners(client, agents, a) {
      OwnersStay(client, agents, agents', a);
    }
    hide VerifiedOwners;
  }

  lemma EventKeepsOwnersInside(client: OwnershipClient, agents: map<AgentId, Agent>, r: Room, ev: Event)
    requires Fits(r, ev) && OwnersInside(client, agents, r) && Cleared(agents, r, client, ev)
    ensures OwnersInside(client, agents, Evolve(r, ev))
  {
    hide VerifiedOwners, ContentRefusal, BoundaryFlag;
  }

  lemma OpeningFreezes(b: Board, q: Opening, room: Room)
    requires MayOpen(b, q, room)
    ensures OwnersInside(q.client, b.agents, room)
    ensures var row := OpeningRows(q.actor, q.id, SortedTargets(q.initiator, q.named), room)[0];
      Founders(row, q.id) && SnapshotFrom(q.client, b.agents, room, row)
  {
    hide StartedSince, SortedTargets, BoundaryRefusal, BoundaryFlag, RoleMaySend, TimeToLive, ResultingState, FirstUnavailable, PairwiseAdmitted;
    var ids := SortedTargets(q.initiator, q.named);
    var founders := [q.initiator] + ids;
    NoneUnavailable(b.agents, ids);
    if !q.ctype.Open? {
      var owners := OwnersOf(q.client, b.agents, founders);
      forall a | a in room.parts
        ensures VerifiedOwners(q.client, b.agents, a) != {}
        ensures VerifiedOwners(q.client, b.agents, a) <= UnionOf(owners)
      {
        assert a == founders[0] || a in ids;
        assert a in founders;
        var i :| 0 <= i < |founders| && founders[i] == a;
        assert owners[i] == VerifiedOwners(q.client, b.agents, a) && owners[i] in owners;
      }
    }
    assert founders[0] == q.initiator && forall i :: 1 <= i < |founders| ==> founders[i] in ids;
  }

  lemma CallKeepsOwners(b: Board, call: Call)
    requires SubsGiven(b)
    ensures SameOwners(b.agents, Next(b, call).agents)
  {
    hide OutcomeOf, MayOpen, Allowed;
    CallsWriteWhatTheyMay(b, call);
  }

  lemma CallKeepsOwnersInside(b: Board, call: Call, client: OwnershipClient, c: ConversationId)
    requires Integral(b) && (call.OpenRoom? || call.Ask? ==> ClientOf(call) == client)
    requires c in b.rooms && OwnersInside(client, b.agents, b.rooms[c])
    ensures c in Next(b, call).rooms && OwnersInside(client, Next(b, call).agents, Next(b, call).rooms[c])
  {
    hide OutcomeOf, RoomOk, MayOpen, MayEnrol, WithinRate, ClosesRightly, Cleared, OwnersInside, SameOwners, MaxSeq, BoundaryFlag, RoleMaySend;
    CallsWriteWhatTheyMay(b, call);
    CallKeepsOwners(b, call);
    var w := OutcomeOf(b, call).writes;
    if w.Touch? && w.c == c {
      var r := Settle(b.rooms[c], w.at);
      assert OwnersInside(client, b.agents, r) by { SettledOwnersInside(client, b.agents, b.rooms[c], w.at); }
      if w.event.Some? {
        ReadsMoveCursorsOnly(b, call);
        if w.event.value.CursorMoved? { assert Cleared(b.agents, r, client, w.event.value) by { CursorsAreCleared(b.agents, r, client, w.event.value); } }
        EventKeepsOwnersInside(client, b.agents, r, w.event.value);
      }
    } else {
      OwnersInsideStays(client, b.agents, Next(b, call).agents, b.rooms[c]);
    }
  }

  lemma CursorsAreCleared(agents: map<AgentId, Agent>, r: Room, client: OwnershipClient, ev: Event)
    requires ev.CursorMoved?
    ensures Cleared(agents, r, client, ev)
  {
  }

  lemma ReadsMoveCursorsOnly(b: Board, call: Call)
    ensures var w := OutcomeOf(b, call).writes; w.Touch? && w.event.Some? && !call.Ask? ==> w.event.value.CursorMoved?
  {
    hide Above, MaxSeq, Views, BySub, Admit, FirstMessageRefusal, Handle, StartedSince;
  }

  lemma SettledOwnersInside(client: OwnershipClient, agents: map<AgentId, Agent>, r: Room, now: Instant)
    requires OwnersInside(client, agents, r)
    ensures OwnersInside(client, agents, Settle(r, now))
  {
    hide VerifiedOwners;
  }

  // --- every run with one client ---

  predicate NoStart(rows: seq<AuditRow>) {
    forall i :: 0 <= i < |rows| ==> !rows[i].action.ConversationStart?
  }

  lemma EventsStartNothing(actor: string, c: ConversationId, r: Room, now: Instant, ev: Event)
    ensures NoStart(ExpiryRows(actor, c, r, now)) && NoStart(RowsFor(actor, c, ev))
  {
  }

  lemma OpeningStartsOnce(actor: string, c: ConversationId, ids: seq<AgentId>, room: Room, i: nat)
    requires |room.log| == 1 && i < |OpeningRows(actor, c, ids, room)|
    requires OpeningRows(actor, c, ids, room)[i].action.ConversationStart?
    ensures i == 0
  {
    hide ResultingState;
  }

  lemma TouchesStartNothing(b: Board, call: Call, c: ConversationId, now: Instant, event: Option<Event>, rows: seq<AuditRow>)
    requires Writable(b, Touch(c, now, event)) && RowsTell(b, call, Outcome(Touch(c, now, event), rows, Done))
    ensures NoStart(rows)
  {
    hide ExpiryRows, RowsFor;
    var expiry := ExpiryRows(ActorOf(call), c, b.rooms[c], now);
    EventsStartNothing(ActorOf(call), c, b.rooms[c], now, if event.Some? then event.value else InviteDeclined(0));
    if event.None? { assert rows == expiry + rows[|expiry|..]; }
  }

  lemma StartRowsComeFromOpenings(b: Board, call: Call, i: nat)
    requires SubsGiven(b)
    requires i < |OutcomeOf(b, call).rows| && OutcomeOf(b, call).rows[i].action.ConversationStart?
    ensures OutcomeOf(b, call).writes.Create? && i == 0
  {
    hide OutcomeOf, RowsFor, ExpiryRows, OpeningRows;
    RowsTellWrites(b, call);
    var o := OutcomeOf(b, call);
    match o.writes
    case Touch(c, now, event) => TouchesStartNothing(b, call, c, now, event, o.rows);
    case Create(c, room) => OpeningStartsOnce(ActorOf(call), c, SortedTargets(call.opening.initiator, call.opening.named), room, i);
    case _ =>
  }

  lemma CallKeepsFounders(b: Board, call: Call, client: OwnershipClient, c: ConversationId)
    requires Frozen(b, client) && c in b.rooms
    ensures exists i :: 0 <= i < |Next(b, call).audit| && Founders(Next(b, call).audit[i], c)
  {
    hide OutcomeOf, OwnersInside, SnapshotFrom;
    var i :| 0 <= i < |b.audit| && Founders(b.audit[i], c);
    assert Next(b, call).audit[i] == b.audit[i];
  }

  lemma NewRoomIsFrozen(b: Board, call: Call, client: OwnershipClient)
    requires SubsGiven(b) && (call.OpenRoom? || call.Ask? ==> ClientOf(call) == client)
    requires OutcomeOf(b, call).writes.Create?
    ensures var o := OutcomeOf(b, call);
      && o.rows != [] && Founders(o.rows[0], o.writes.c)
      && OwnersInside(client, b.agents, o.writes.room)
      && SnapshotFrom(client, b.agents, o.writes.room, o.rows[0])
  {
    hide OutcomeOf, MayOpen, OwnersInside, SnapshotFrom;
    RowsTellWrites(b, call);
    CallsWriteWhatTheyMay(b, call);
    OpeningFreezes(b, call.opening, OutcomeOf(b, call).writes.room);
  }

  lemma CallKeepsStartRows(b: Board, call: Call, client: OwnershipClient, i: nat)
    requires Integral(b) && Frozen(b, client) && (call.OpenRoom? || call.Ask? ==> ClientOf(call) == client)
    requires i < |Next(b, call).audit| && Next(b, call).audit[i].action.ConversationStart?
    ensures var b', row := Next(b, call), Next(b, call).audit[i];
      row.agent.Some? && row.conversation.Some? && row.conversation.value in b'.rooms
      && SnapshotFrom(client, b'.agents, b'.rooms[row.conversation.value], row)
  {
    hide OutcomeOf, RoomOk, OwnersInside, SnapshotFrom, SameOwners;
    var b', o := Next(b, call), OutcomeOf(b, call);
    if i < |b.audit| {
      var row := b.audit[i];
      assert b'.audit[i] == row;
      var c := row.conversation.value;
      CallKeepsTerms(b, call, c);
      CallKeepsOwners(b, call);
      SnapshotFromStays(client, b.agents, b'.agents, b.rooms[c], b'.rooms[c], row);
    } else {
      assert b'.audit[i] == o.rows[i - |b.audit|];
      StartRowsComeFromOpenings(b, call, i - |b.audit|);
      NewRoomIsFrozen(b, call, client);
    }
  }

  lemma CallKeepsFrozen(b: Board, call: Call, client: OwnershipClient)
    requires Integral(b) && Frozen(b, client) && (call.OpenRoom? || call.Ask? ==> ClientOf(call) == client)
    ensures Frozen(Next(b, call), client)
  {
    hide OutcomeOf, RoomOk, OwnersInside, SnapshotFrom, MayEnrol, MayOpen, Allowed;
    var b', o := Next(b, call), OutcomeOf(b, call);
    CallsWriteWhatTheyMay(b, call);
    forall c | c in b'.rooms
      ensures OwnersInside(client, b'.agents, b'.rooms[c])
      ensures exists i :: 0 <= i < |b'.audit| && Founders(b'.audit[i], c)
    {
      if c in b.rooms {
        CallKeepsOwnersInside(b, call, client, c);
        CallKeepsFounders(b, call, client, c);
      } else {
        NewRoomIsFrozen(b, call, client);
        assert b'.audit[|b.audit|] == o.rows[0];
      }
    }
    forall i | 0 <= i < |b'.audit| && b'.audit[i].action.ConversationStart?
      ensures var row := b'.audit[i];
        row.agent.Some? && row.conversation.Some? && row.conversation.value in b'.rooms
        && SnapshotFrom(client, b'.agents, b'.rooms[row.conversation.value], row)
    {
      CallKeepsStartRows(b, call, client, i);
    }
  }

  /** Over every run with one client, failing or not: every participant of an internal or
      asymmetric conversation, founders and later invitees alike, has a known non-empty owner
      set inside the snapshot, and the snapshot is the union of the founders' sets. */
  lemma {:induction false} OwnerSetsAreFrozen(calls: seq<Call>, client: OwnershipClient)
    requires SameClient(calls, client)
    ensures Frozen(Run(calls), client)
  {
    hide Integral, Frozen, Next;
    if calls == [] {
      assert Frozen(EMPTY_BOARD, client) by { NothingIsFrozen(client); }
    } else {
      var front, last := calls[..|calls| - 1], calls[|calls| - 1];
      OwnerSetsAreFrozen(front, client);
      ReachableBoardsAreIntegral(front);
      assert last.OpenRoom? || last.Ask? ==> ClientOf(last) == client;
      CallKeepsFrozen(Run(front), last, client);
    }
  }

  lemma NothingIsFrozen(client: OwnershipClient)
    ensures Frozen(EMPTY_BOARD, client)
  {
  }

  /** A conversation keeps its snapshot over any further run, with any clients. */
  lemma {:induction false} TermsAreForever(b: Board, calls: seq<Call>, c: ConversationId)
    requires Integral(b) && c in b.rooms
    ensures c in RunFrom(b, calls).rooms && SameTerms(b.rooms[c].conv, RunFrom(b, calls).rooms[c].conv)
    ensures Integral(RunFrom(b, calls))
  {
    hide Integral, Next;
    if calls != [] {
      var front, last := calls[..|calls| - 1], calls[|calls| - 1];
      TermsAreForever(b, front, c);
      CallKeepsIntegrity(RunFrom(b, front), last);
      assert SubsGiven(RunFrom(b, front)) by { SubsAreGiven(RunFrom(b, front)); }
      CallKeepsTerms(RunFrom(b, front), last, c);
    }
  }
}
