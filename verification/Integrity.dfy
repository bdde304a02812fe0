/** The integrity of the tables in every reachable state. */
module Integrity {
  import opened Vocabulary
  import opened Tables
  import opened Policy
  import opened Operations
  import opened Runs

  // --- target lists ---

  predicate Increasing(ids: seq<AgentId>) {
    forall i, j :: 0 <= i < j < |ids| ==> ids[i] < ids[j]
  }

  lemma InsertKeepsOrder(x: AgentId, ids: seq<AgentId>)
    requires Increasing(ids)
    ensures Increasing(Insert(x, ids))
    ensures forall y :: y in Insert(x, ids) <==> y == x || y in ids
  {
    if ids != [] && x > ids[0] {
      var rest := Insert(x, ids[1..]);
      InsertKeepsOrder(x, ids[1..]);
      assert ids == [ids[0]] + ids[1..];
      forall i | 0 <= i < |rest| ensures ids[0] < rest[i] {
        assert rest[i] in rest;
        assert rest[i] == x || rest[i] in ids[1..];
      }
    }
  }

  /** The target list holds exactly the named agents other than the initiator, each once. */
  lemma {:induction false} SortedTargetsExact(initiator: AgentId, named: seq<AgentId>)
    ensures Increasing(SortedTargets(initiator, named))
    ensures forall y :: y in SortedTargets(initiator, named) <==> y in named && y != initiator
  {
    if named != [] {
      var front, x := named[..|named| - 1], named[|named| - 1];
      SortedTargetsExact(initiator, front);
      assert named == front + [x];
      if x != initiator { InsertKeepsOrder(x, SortedTargets(initiator, front)); }
    }
  }

  lemma {:induction false} NoneUnavailable(agents: map<AgentId, Agent>, ids: seq<AgentId>)
    ensures FirstUnavailable(agents, ids).None? <==> forall a :: a in ids ==> BoardActive(agents, a)
  {
    if ids != [] {
      NoneUnavailable(agents, ids[1..]);
      assert ids == [ids[0]] + ids[1..];
    }
  }

  // --- one room ---

  /** The creator's row is the only owner row; an invited agent has not joined or read anything. */
  ghost predicate RowsOk(r: Room) {
    && r.conv.createdBy in r.parts
    && !r.parts[r.conv.createdBy].status.Invited?
    && (exists a :: a in r.parts && r.parts[a].role.Member?)
    && forall a :: a in r.parts ==>
         var p := r.parts[a];
         && (p.role.Owner? <==> a == r.conv.createdBy)
         && (p.invitedBy.None? <==> p.role.Owner?)
         && (p.status.Invited? ==> p.joinedAt.None? && p.lastReadSeq == 0)
         && (p.status.Active? ==> p.joinedAt.Some?)
         && p.lastReadSeq <= |r.log|
  }

  /** Messages are numbered 1, 2, 3, ... and sent by participants that had joined. */
  ghost predicate LogOk(r: Room) {
    && 1 <= |r.log|
    && forall i :: 0 <= i < |r.log| ==>
         var m := r.log[i];
         && m.seqNo == i + 1
         && BoundaryFlag(m.mtype, m.version).Some?
         && m.sender in r.parts && r.parts[m.sender].joinedAt.Some? && !r.parts[m.sender].status.Invited?
         && (m.mtype.NeedsClarification? && i > 0 ==> 1 <= m.payload.aboutSeq <= i)
  }

  ghost predicate RoomOk(r: Room) {
    RowsOk(r) && LogOk(r)
  }

  ghost predicate Integral(b: Board) {
    && (forall a :: a in b.agents ==> b.agents[a].sub != "")
    && (forall a, a' :: a in b.agents && a' in b.agents && b.agents[a].sub == b.agents[a'].sub ==> a == a')
    && (forall c :: c in b.rooms ==> RoomOk(b.rooms[c]) && b.rooms[c].parts.Keys <= b.agents.Keys)
  }

  lemma SubsAreGiven(b: Board)
    requires Integral(b)
    ensures SubsGiven(b)
  {
    hide RoomOk;
  }

  /** In a gaplessly numbered log the highest number is the length. */
  lemma {:induction false} GaplessMax(log: seq<Message>)
    requires forall i :: 0 <= i < |log| ==> log[i].seqNo == i + 1
    ensures MaxSeq(log) == |log|
  {
    if log != [] { GaplessMax(log[..|log| - 1]); }
  }

  lemma SettleKeepsRoomOk(r: Room, now: Instant)
    requires RoomOk(r)
    ensures RoomOk(Settle(r, now))
  {
  }

  lemma EventKeepsRowsOk(r: Room, now: Instant, ev: Event)
    requires RoomOk(r) && Admissible(r, now, ev)
    ensures RowsOk(Evolve(r, ev))
  {
    GaplessMax(r.log);
    hide LogOk, MaxSeq, BoundaryFlag, RoleMaySend;
    var r' := Evolve(r, ev);
    var w :| w in r.parts && r.parts[w].role.Member?;
    assert w in r'.parts && r'.parts[w].role.Member?;
    if ev.InviteSent? { assert ev.target != r.conv.createdBy; }
  }

  lemma EventKeepsLogOk(r: Room, now: Instant, ev: Event)
    requires RoomOk(r) && Admissible(r, now, ev)
    ensures LogOk(Evolve(r, ev))
  {
    GaplessMax(r.log);
    hide MaxSeq, BoundaryFlag, RoleMaySend;
  }

  lemma EventKeepsRoomOk(r: Room, now: Instant, ev: Event)
    requires RoomOk(r) && Admissible(r, now, ev)
    ensures RoomOk(Evolve(r, ev))
  {
    hide RowsOk, LogOk;
    EventKeepsRowsOk(r, now, ev);
    EventKeepsLogOk(r, now, ev);
  }

  lemma OpeningIsRoomOk(b: Board, q: Opening, room: Room)
    requires MayOpen(b, q, room)
    ensures RoomOk(room) && room.parts.Keys <= b.agents.Keys
  {
    var ids := SortedTargets(q.initiator, q.named);
    SortedTargetsExact(q.initiator, q.named);
    NoneUnavailable(b.agents, ids);
    assert ids[0] in ids && ids[0] in room.parts && room.parts[ids[0]].role.Member?;
  }

  // --- every run ---

  lemma EnrolmentKeepsIntegrity(b: Board, id: AgentId, row: Agent)
    requires Integral(b) && MayEnrol(b.agents, id, row)
    ensures Integral(b.(agents := b.agents[id := row]))
  {
    hide RoomOk;
  }

  lemma TouchKeepsIntegrity(b: Board, call: Call, c: ConversationId, now: Instant, event: Option<Event>)
    requires Integral(b) && MayWrite(b, call, Touch(c, now, event))
    ensures Integral(b.(rooms := b.rooms[c := Touched(b.rooms[c], now, event)]))
  {
    hide RoomOk, WithinRate, ClosesRightly, FreezeRefusal, ContentRefusal;
    var r := b.rooms[c];
    SettleKeepsRoomOk(r, now);
    if event.Some? { EventKeepsRoomOk(Settle(r, now), now, event.value); }
    assert Touched(r, now, event).parts.Keys <= b.agents.Keys;
  }

  lemma CallKeepsIntegrity(b: Board, call: Call)
    requires Integral(b)
    ensures Integral(Next(b, call))
  {
    hide OutcomeOf, RoomOk, MayOpen, Allowed, MayEnrol;
    CallsWriteWhatTheyMay(b, call);
    match OutcomeOf(b, call).writes
    case PutAgent(id, row) => EnrolmentKeepsIntegrity(b, id, row);
    case Create(c, room) => OpeningIsRoomOk(b, call.opening, room);
    case Touch(c, now, event) => TouchKeepsIntegrity(b, call, c, now, event);
    case Nothing =>
  }

  /** The tables are integral in every reachable state. */
  lemma {:induction false} ReachableBoardsAreIntegral(calls: seq<Call>)
    ensures Integral(Run(calls))
  {
    hide Next;
    if calls != [] {
      var front := calls[..|calls| - 1];
      ReachableBoardsAreIntegral(front);
      CallKeepsIntegrity(Run(front), calls[|calls| - 1]);
    }
  }
}
