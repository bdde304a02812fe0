/** Membership over every run: rows stay, statuses only move forward, and nothing is
    disclosed before consent. */
module Lifecycle {
  import opened Vocabulary
  import opened Tables
  import opened Policy
  import opened Operations
  import opened Runs
  import opened Integrity
  import opened Queries

  // --- statuses ---

  /** invited -> active or declined; active -> left or declined; left and declined stay. */
  predicate Forward(before: MemberStatus, later: MemberStatus) {
    match before
    case Invited => true
    case Active => !later.Invited?
    case Left => later.Left?
    case Declined => later.Declined?
  }

  predicate OneStep(before: MemberStatus, later: MemberStatus) {
    || before == later
    || (before.Invited? && (later.Active? || later.Declined?))
    || (before.Active? && (later.Left? || later.Declined?))
  }

  predicate RowKept(before: Participant, later: Participant) {
    && later.role == before.role && later.invitedBy == before.invitedBy && later.invitedAt == before.invitedAt
    && before.lastReadSeq <= later.lastReadSeq
    && (before.joinedAt.Some? ==> later.joinedAt == before.joinedAt)
  }

  lemma EventMovesRowsOn(r: Room, now: Instant, ev: Event, a: AgentId)
    requires RoomOk(r) && Admissible(r, now, ev) && a in r.parts
    ensures var r' := Evolve(r, ev);
      a in r'.parts && RowKept(r.parts[a], r'.parts[a]) && OneStep(r.parts[a].status, r'.parts[a].status)
  {
    hide MaxSeq, LogOk;
  }

  /** No call removes a row or rewrites who it is for; each moves a status at most one step. */
  lemma CallMovesRowsOn(b: Board, call: Call, c: ConversationId, a: AgentId)
    requires Integral(b) && HasRow(b, c, a)
    ensures HasRow(Next(b, call), c, a)
    ensures var p, p' := b.rooms[c].parts[a], Next(b, call).rooms[c].parts[a];
      RowKept(p, p') && OneStep(p.status, p'.status)
  {
    hide OutcomeOf, RoomOk, MayOpen, MayEnrol, WithinRate, ClosesRightly, Cleared;
    CallsWriteWhatTheyMay(b, call);
    var w := OutcomeOf(b, call).writes;
    if w.Touch? && w.c == c && w.event.Some? {
      SettleKeepsRoomOk(b.rooms[c], w.at);
      EventMovesRowsOn(Settle(b.rooms[c], w.at), w.at, w.event.value, a);
    }
  }

  lemma {:induction false} RunKeepsIntegrity(b: Board, calls: seq<Call>)
    requires Integral(b)
    ensures Integral(RunFrom(b, calls))
  {
    hide Integral, Next;
    if calls != [] {
      RunKeepsIntegrity(b, calls[..|calls| - 1]);
      CallKeepsIntegrity(RunFrom(b, calls[..|calls| - 1]), calls[|calls| - 1]);
    }
  }

  /** Over any further run a row stays, keeps its role and inviter, and its status only moves
      forward: left and declined are final, whoever invites again. */
  lemma {:induction false} RowsAreForever(b: Board, calls: seq<Call>, c: ConversationId, a: AgentId)
    requires Integral(b) && HasRow(b, c, a)
    ensures HasRow(RunFrom(b, calls), c, a)
    ensures var p, p' := b.rooms[c].parts[a], RunFrom(b, calls).rooms[c].parts[a];
      RowKept(p, p') && Forward(p.status, p'.status)
  {
    hide Integral, Next;
    if calls != [] {
      var front := calls[..|calls| - 1];
      RowsAreForever(b, front, c, a);
      RunKeepsIntegrity(b, front);
      CallMovesRowsOn(RunFrom(b, front), calls[|calls| - 1], c, a);
    }
  }

  /** In every reachable state each conversation has exactly one owner row, its creator's. */
  lemma OneOwnerRow(calls: seq<Call>, c: ConversationId, a: AgentId)
    requires c in Run(calls).rooms && a in Run(calls).rooms[c].parts
    ensures var r := Run(calls).rooms[c];
      r.conv.createdBy in r.parts && (r.parts[a].role.Owner? <==> a == r.conv.createdBy)
  {
    hide Run, LogOk;
    ReachableBoardsAreIntegral(calls);
    assert RoomOk(Run(calls).rooms[c]);
  }

  // --- closed conversations ---

  lemma CallKeepsClosed(b: Board, call: Call, c: ConversationId)
    requires SubsGiven(b) && c in b.rooms && !b.rooms[c].conv.state.ActiveState?
    ensures c in Next(b, call).rooms
    ensures Next(b, call).rooms[c].conv == b.rooms[c].conv && Next(b, call).rooms[c].log == b.rooms[c].log
  {
    hide OutcomeOf, MayOpen, MayEnrol, WithinRate, ClosesRightly, Cleared, PartsAfter, MaxSeq, BoundaryFlag, RoleMaySend;
    CallsWriteWhatTheyMay(b, call);
  }

  /** A completed, canceled or expired conversation keeps that state, and its log, over any further run. */
  lemma {:induction false} ClosedIsFinal(b: Board, calls: seq<Call>, c: ConversationId)
    requires Integral(b) && c in b.rooms && !b.rooms[c].conv.state.ActiveState?
    ensures var b' := RunFrom(b, calls);
      c in b'.rooms && b'.rooms[c].conv == b.rooms[c].conv && b'.rooms[c].log == b.rooms[c].log
  {
    hide Integral, Next;
    if calls != [] {
      var front := calls[..|calls| - 1];
      ClosedIsFinal(b, front, c);
      RunKeepsIntegrity(b, front);
      assert SubsGiven(RunFrom(b, front)) by { SubsAreGiven(RunFrom(b, front)); }
      CallKeepsClosed(RunFrom(b, front), calls[|calls| - 1], c);
    }
  }

  // --- consent ---

  predicate IsAcceptance(row: AuditRow, c: ConversationId, a: AgentId) {
    row.action.ParticipantAccept? && row.agent == Some(a) && row.conversation == Some(c)
  }

  ghost predicate HasAccepted(audit: seq<AuditRow>, c: ConversationId, a: AgentId) {
    exists i :: 0 <= i < |audit| && IsAcceptance(audit[i], c, a)
  }

  /** Whoever has joined either opened the conversation or has an acceptance on record. */
  ghost predicate JoinedByConsent(b: Board) {
    forall c, a :: HasRow(b, c, a) && b.rooms[c].parts[a].joinedAt.Some? ==>
      a == b.rooms[c].conv.createdBy || HasAccepted(b.audit, c, a)
  }

  lemma AcceptanceStays(audit: seq<AuditRow>, rows: seq<AuditRow>, c: ConversationId, a: AgentId)
    requires HasAccepted(audit, c, a) || HasAccepted(rows, c, a)
    ensures HasAccepted(audit + rows, c, a)
  {
    if HasAccepted(audit, c, a) {
      var i :| 0 <= i < |audit| && IsAcceptance(audit[i], c, a);
      assert IsAcceptance((audit + rows)[i], c, a);
    } else {
      var i :| 0 <= i < |rows| && IsAcceptance(rows[i], c, a);
      assert IsAcceptance((audit + rows)[|audit| + i], c, a);
    }
  }

  lemma JoiningIsAccepting(b: Board, call: Call, c: ConversationId, a: AgentId)
    requires Integral(b) && HasRow(Next(b, call), c, a) && Next(b, call).rooms[c].parts[a].joinedAt.Some?
    requires c in b.rooms && (a in b.rooms[c].parts ==> b.rooms[c].parts[a].joinedAt.None?)
    ensures HasAccepted(OutcomeOf(b, call).rows, c, a)
  {
    hide OutcomeOf, RoomOk, MayOpen, MayEnrol, WithinRate, ClosesRightly, Cleared, MaxSeq, BoundaryFlag, RoleMaySend, OpeningRows;
    CallsWriteWhatTheyMay(b, call);
    RowsTellWrites(b, call);
    var o := OutcomeOf(b, call);
    assert o.writes.Touch? && o.writes.c == c && o.writes.event.Some? && o.writes.event.value.Accepted?;
    var expiry := ExpiryRows(ActorOf(call), c, b.rooms[c], o.writes.at);
    assert IsAcceptance(o.rows[|expiry|], c, a);
  }

  lemma CallKeepsConsent(b: Board, call: Call)
    requires Integral(b) && JoinedByConsent(b)
    ensures JoinedByConsent(Next(b, call))
  {
    hide OutcomeOf, RoomOk, MayEnrol, WithinRate, ClosesRightly, Cleared, HasAccepted;
    CallsWriteWhatTheyMay(b, call);
    var b', o := Next(b, call), OutcomeOf(b, call);
    forall c, a | HasRow(b', c, a) && b'.rooms[c].parts[a].joinedAt.Some?
      ensures a == b'.rooms[c].conv.createdBy || HasAccepted(b'.audit, c, a)
    {
      if c in b.rooms {
        if HasRow(b, c, a) && b.rooms[c].parts[a].joinedAt.Some? {
          if a != b.rooms[c].conv.createdBy { AcceptanceStays(b.audit, o.rows, c, a); }
        } else {
          JoiningIsAccepting(b, call, c, a);
          AcceptanceStays(b.audit, o.rows, c, a);
        }
      }
    }
  }

  lemma {:induction false} ReachableJoinsAreByConsent(calls: seq<Call>)
    ensures JoinedByConsent(Run(calls))
  {
    hide Integral, Next;
    if calls != [] {
      var front := calls[..|calls| - 1];
      ReachableJoinsAreByConsent(front);
      ReachableBoardsAreIntegral(front);
      CallKeepsConsent(Run(front), calls[|calls| - 1]);
    }
  }

  /** Whenever a read returns a message, its reader opened the conversation or had accepted the
      invitation earlier in the run. */
  lemma ReadingFollowsConsent(calls: seq<Call>, now: Instant, actor: string, a: AgentId, c: ConversationId, since: int)
    ensures var b := Run(calls);
      var o := Get(b, now, actor, a, c, since);
      o.reply.History? && o.reply.messages != [] ==>
        c in b.rooms && (b.rooms[c].conv.createdBy == a || HasAccepted(b.audit, c, a))
  {
    hide Run, HasAccepted, Above, LogOk;
    var b := Run(calls);
    ReachableJoinsAreByConsent(calls);
    ReachableBoardsAreIntegral(calls);
    if HasRow(b, c, a) { assert RoomOk(b.rooms[c]); }
  }

  /** The same for the latest message an inbox shows; invitations show none. */
  lemma InboxFollowsConsent(calls: seq<Call>, now: Instant, a: AgentId, c: ConversationId)
    ensures var b := Run(calls);
      c in NaiveInbox(b.rooms, now, a).unread ==>
        c in b.rooms && (b.rooms[c].conv.createdBy == a || HasAccepted(b.audit, c, a))
  {
    hide Run, HasAccepted, LogOk;
    var b := Run(calls);
    ReachableJoinsAreByConsent(calls);
    ReachableBoardsAreIntegral(calls);
    if HasRow(b, c, a) { assert RoomOk(b.rooms[c]); }
  }
}
