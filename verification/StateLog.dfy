/** The stored conversation state against the message log, in every reachable state. */
module StateLog {
  import opened Vocabulary
  import opened StateMachine
  import opened Tables
  import opened Policy
  import opened Operations
  import opened Runs
  import opened Integrity

  function Last(r: Room): Message
    requires r.log != []
  {
    r.log[|r.log| - 1]
  }

  /** A decline that is not the opening message, with every member row declined. */
  ghost predicate DeclinedByAll(r: Room) {
    |r.log| >= 2 && Last(r).mtype.Decline? && AllMembersDeclined(r.parts)
  }

  /** The state is what the last message made it, and a terminal message is the last one. */
  ghost predicate StateMatchesLog(r: Room) {
    && r.log != []
    && StateMatchesLast(r, Last(r).mtype)
    && (forall i :: 0 <= i < |r.log| - 1 ==> !Terminal(r.log[i].mtype))
    && SendersHaveRoles(r)
  }

  ghost predicate StateMatchesLast(r: Room, t: MessageType) {
    && (r.conv.state.CompletedState? <==> t.Confirm? || t.TaskComplete?)
    && (t.TaskCancel? || t.TaskDecline? ==> r.conv.state.CanceledState?)
    && (r.conv.state.CanceledState? ==> t.TaskCancel? || t.TaskDecline? || DeclinedByAll(r))
  }

  ghost predicate SendersHaveRoles(r: Room) {
    forall i :: 0 <= i < |r.log| ==>
      var m := r.log[i];
      && m.sender in r.parts
      && (m.mtype.TaskCancel? ==> m.sender == r.conv.createdBy)
      && (m.mtype.TaskDecline? ==> m.sender != r.conv.createdBy)
  }

  lemma PostKeepsStateMatch(r: Room, now: Instant, ev: Event)
    requires RowsOk(r) && StateMatchesLog(r) && Admissible(r, now, ev) && ClosesRightly(r, ev) && ev.Posted?
    ensures StateMatchesLog(Evolve(r, ev))
  {
    hide MaxSeq, BoundaryFlag, AllMembersDeclined;
    var r' := Evolve(r, ev);
    assert Last(r') == ev.message;
    assert StateMatchesLast(r', ev.message.mtype) by { hide RoleMaySend; }
    forall i | 0 <= i < |r'.log| - 1 ensures !Terminal(r'.log[i].mtype) {
      if i == |r.log| - 1 { assert r'.log[i] == Last(r); }
    }
  }

  lemma EventKeepsStateMatch(r: Room, now: Instant, ev: Event)
    requires RoomOk(r) && StateMatchesLog(r) && Admissible(r, now, ev) && ClosesRightly(r, ev)
    ensures StateMatchesLog(Evolve(r, ev))
  {
    hide MaxSeq, LogOk, BoundaryFlag, AllMembersDeclined, ResultingState, RoleMaySend;
    if ev.Posted? {
      PostKeepsStateMatch(r, now, ev);
    } else if DeclinedByAll(r) && r.conv.state.CanceledState? {
      AllDeclinedStays(r, now, ev);
    }
  }

  /** Once every member has declined, only a post could change that, and none is legal. */
  lemma AllDeclinedStays(r: Room, now: Instant, ev: Event)
    requires RoomOk(r) && Admissible(r, now, ev) && AllMembersDeclined(r.parts) && !r.conv.state.ActiveState?
    ensures AllMembersDeclined(Evolve(r, ev).parts)
  {
    hide MaxSeq, LogOk, BoundaryFlag;
    var w :| w in r.parts && r.parts[w].role.Member?;
    assert w in Evolve(r, ev).parts && Evolve(r, ev).parts[w].role.Member?;
  }

  lemma OpeningMatches(b: Board, q: Opening, room: Room)
    requires MayOpen(b, q, room)
    ensures StateMatchesLog(room)
  {
    hide Admit, BoundaryRefusal, FirstUnavailable, StartedSince, SortedTargets, BoundaryFlag;
  }

  ghost predicate StatesMatchLogs(b: Board) {
    forall c :: c in b.rooms ==> StateMatchesLog(b.rooms[c])
  }

  lemma CallKeepsStateMatch(b: Board, call: Call)
    requires Integral(b) && StatesMatchLogs(b)
    ensures StatesMatchLogs(Next(b, call))
  {
    hide OutcomeOf, RoomOk, MayOpen, MayEnrol, WithinRate, Cleared, StateMatchesLog;
    CallsWriteWhatTheyMay(b, call);
    match OutcomeOf(b, call).writes
    case Create(c, room) => OpeningMatches(b, call.opening, room);
    case Touch(c, now, event) =>
      var r := Settle(b.rooms[c], now);
      SettleKeepsRoomOk(b.rooms[c], now);
      assert StateMatchesLog(r) by { SettleKeepsStateMatch(b.rooms[c], now); }
      if event.Some? { EventKeepsStateMatch(r, now, event.value); }
    case _ =>
  }

  lemma SettleKeepsStateMatch(r: Room, now: Instant)
    requires StateMatchesLog(r)
    ensures StateMatchesLog(Settle(r, now))
  {
  }

  /** In every reachable state: completed exactly if the last message is a confirm or a task
      completion; a last task cancellation or task refusal makes it canceled; canceled only
      by one of those or by a later-than-opening decline with every member declined; no
      terminal message is followed by another; the senders have the required roles. */
  lemma {:induction false} ReachableStatesMatchLogs(calls: seq<Call>)
    ensures StatesMatchLogs(Run(calls))
  {
    hide StateMatchesLog, Integral, Next;
    if calls != [] {
      var front := calls[..|calls| - 1];
      ReachableStatesMatchLogs(front);
      ReachableBoardsAreIntegral(front);
      CallKeepsStateMatch(Run(front), calls[|calls| - 1]);
    }
  }

  /** An active or expired conversation holds no terminal message at all. */
  lemma OpenLogsHoldNoTerminal(calls: seq<Call>, c: ConversationId, i: nat)
    requires c in Run(calls).rooms && i < |Run(calls).rooms[c].log|
    requires Run(calls).rooms[c].conv.state.ActiveState? || Run(calls).rooms[c].conv.state.ExpiredState?
    ensures !Terminal(Run(calls).rooms[c].log[i].mtype)
  {
    hide Run;
    ReachableStatesMatchLogs(calls);
    assert StateMatchesLog(Run(calls).rooms[c]);
  }

  // --- when a shared decline cancels ---

  predicate About(row: AuditRow, c: ConversationId) {
    row.conversation == Some(c)
  }

  /** Whether an invitation to `c` was declined after the last message posted to it. */
  function InviteDeclinedSincePost(audit: seq<AuditRow>, c: ConversationId): bool {
    if audit == [] then false
    else
      var row := audit[|audit| - 1];
      if About(row, c) && row.action.MessagePost? then false
      else if About(row, c) && row.action.ParticipantDeclineInvite? then true
      else InviteDeclinedSincePost(audit[..|audit| - 1], c)
  }

  /** The cascade happened unless an invitation was declined after the last message. */
  ghost predicate CascadeExact(b: Board, c: ConversationId) {
    c in b.rooms && DeclinedByAll(b.rooms[c]) ==>
      (b.rooms[c].conv.state.CanceledState? <==> !InviteDeclinedSincePost(b.audit, c))
  }

  /** Rows that neither post to `c` nor decline an invitation to it. */
  predicate Neutral(rows: seq<AuditRow>, c: ConversationId) {
    forall i :: 0 <= i < |rows| && About(rows[i], c) ==>
      !rows[i].action.MessagePost? && !rows[i].action.ParticipantDeclineInvite?
  }

  lemma {:induction false} NeutralRowsKeepFlag(audit: seq<AuditRow>, rows: seq<AuditRow>, c: ConversationId)
    requires Neutral(rows, c)
    ensures InviteDeclinedSincePost(audit + rows, c) == InviteDeclinedSincePost(audit, c)
  {
    if rows == [] {
      assert audit + rows == audit;
    } else {
      NeutralRowsKeepFlag(audit, rows[..|rows| - 1], c);
      assert (audit + rows)[..|audit + rows| - 1] == audit + rows[..|rows| - 1];
      assert About(rows[|rows| - 1], c) ==> !rows[|rows| - 1].action.MessagePost?;
    }
  }

  lemma RowSetsFlag(audit: seq<AuditRow>, before: seq<AuditRow>, row: AuditRow, rest: seq<AuditRow>, c: ConversationId)
    requires About(row, c) && (row.action.MessagePost? || row.action.ParticipantDeclineInvite?) && Neutral(rest, c)
    ensures InviteDeclinedSincePost(audit + (before + [row] + rest), c) <==> row.action.ParticipantDeclineInvite?
  {
    var upTo := audit + before + [row];
    assert audit + (before + [row] + rest) == upTo + rest;
    assert upTo[..|upTo| - 1] == audit + before && upTo[|upTo| - 1] == row;
    NeutralRowsKeepFlag(upTo, rest, c);
  }

  /** A member that has just joined or been invited has not declined. */
  lemma JoiningBlocks(r: Room, now: Instant, ev: Event)
    requires RoomOk(r) && Admissible(r, now, ev) && (ev.Accepted? || ev.InviteSent?)
    ensures !AllMembersDeclined(Evolve(r, ev).parts)
  {
    hide MaxSeq, LogOk, BoundaryFlag, RoleMaySend;
    var a, parts := if ev.Accepted? then ev.agent else ev.target, Evolve(r, ev).parts;
    assert a in parts && parts[a].role.Member? && !parts[a].status.Declined?;
  }

  /** What the event does to the people and the last message, as far as the cascade goes. */
  lemma CascadeAfter(r: Room, now: Instant, ev: Event)
    requires RoomOk(r) && StateMatchesLog(r) && Admissible(r, now, ev) && ClosesRightly(r, ev)
    requires DeclinedByAll(Evolve(r, ev))
    ensures var r' := Evolve(r, ev);
      && (ev.Posted? ==> r'.conv.state.CanceledState?)
      && (ev.InviteDeclined? ==> !r'.conv.state.CanceledState?)
      && (!ev.Posted? && !ev.InviteDeclined? ==> DeclinedByAll(r) && r'.conv.state == r.conv.state)
  {
    hide MaxSeq, LogOk, BoundaryFlag, RoleMaySend;
    var r' := Evolve(r, ev);
    match ev
    case Posted(m, close) => assert Last(r') == m;
    case InviteDeclined(a) => assert r.parts[a].role.Member? && !r.parts[a].status.Declined?;
    case CursorMoved(a, n) => SamePeople(r.parts, r'.parts);
    case HasLeft(a) => assert r'.parts[a].role.Owner?; SamePeople(r.parts, r'.parts);
    case _ => JoiningBlocks(r, now, ev);
  }

  lemma EventSetsFlag(audit: seq<AuditRow>, expiry: seq<AuditRow>, actor: string, c: ConversationId, ev: Event)
    requires Neutral(expiry, c)
    ensures InviteDeclinedSincePost(audit + (expiry + RowsFor(actor, c, ev)), c) ==
      if ev.Posted? then false else if ev.InviteDeclined? then true else InviteDeclinedSincePost(audit, c)
  {
    hide InviteDeclinedSincePost;
    var rows := RowsFor(actor, c, ev);
    if ev.Posted? || ev.InviteDeclined? {
      assert expiry + rows == expiry + [rows[0]] + rows[1..];
      RowSetsFlag(audit, expiry, rows[0], rows[1..], c);
    } else {
      NeutralRowsKeepFlag(audit, expiry + rows, c);
    }
  }

  lemma SamePeople(parts: map<AgentId, Participant>, parts': map<AgentId, Participant>)
    requires parts.Keys == parts'.Keys && AllMembersDeclined(parts')
    requires forall a :: a in parts ==> parts[a].role == parts'[a].role && (parts[a].role.Member? ==> parts[a].status == parts'[a].status)
    ensures AllMembersDeclined(parts)
  {
    var w :| w in parts' && parts'[w].role.Member?;
    assert w in parts && parts[w].role.Member?;
  }

  lemma QuietRowsAreNeutral(rows: seq<AuditRow>, c: ConversationId)
    requires Quiet(rows)
    ensures Neutral(rows, c)
  {
  }

  /** Rows about some other conversation. */
  predicate Elsewhere(rows: seq<AuditRow>, c: ConversationId) {
    forall i :: 0 <= i < |rows| ==> !About(rows[i], c)
  }

  lemma OpeningRowsAreElsewhere(actor: string, c': ConversationId, ids: seq<AgentId>, room: Room, c: ConversationId)
    requires |room.log| == 1 && c' != c
    ensures Elsewhere(OpeningRows(actor, c', ids, room), c)
  {
    hide ResultingState;
  }

  lemma EventRowsAreElsewhere(actor: string, c': ConversationId, ev: Event, c: ConversationId)
    requires c' != c
    ensures Elsewhere(RowsFor(actor, c', ev), c)
  {
  }

  lemma ConcatIsNeutral(xs: seq<AuditRow>, ys: seq<AuditRow>, c: ConversationId)
    requires Neutral(xs, c) && Neutral(ys, c)
    ensures Neutral(xs + ys, c)
  {
  }

  lemma ElsewhereIsNeutral(rows: seq<AuditRow>, c: ConversationId)
    requires Elsewhere(rows, c)
    ensures Neutral(rows, c)
  {
  }

  /** A call's rows are neutral to every conversation it does not post to or decline an invitation to. */
  lemma OtherRowsAreNeutral(b: Board, call: Call, c: ConversationId)
    requires SubsGiven(b) && c in b.rooms
    requires var w := OutcomeOf(b, call).writes; w.Touch? && w.c == c ==> w.event.None?
    ensures Neutral(OutcomeOf(b, call).rows, c)
  {
    hide OutcomeOf, MayOpen, MayEnrol, Allowed, Neutral, Elsewhere, Quiet, OpeningRows, RowsFor, ExpiryRows;
    RowsTellWrites(b, call);
    CallsWriteWhatTheyMay(b, call);
    var o, actor := OutcomeOf(b, call), ActorOf(call);
    match o.writes
    case Create(c', room) =>
      var ids := SortedTargets(call.opening.initiator, call.opening.named);
      OpeningRowsAreElsewhere(actor, c', ids, room, c);
      ElsewhereIsNeutral(o.rows, c);
    case Touch(c', now, event) =>
      var expiry := ExpiryRows(actor, c', b.rooms[c'], now);
      var rest := if event.Some? then RowsFor(actor, c', event.value) else o.rows[|expiry|..];
      assert o.rows == expiry + rest;
      ExpiryRowsAreNeutral(actor, c', b.rooms[c'], now, c);
      if event.Some? {
        EventRowsAreElsewhere(actor, c', event.value, c);
        ElsewhereIsNeutral(rest, c);
      } else {
        QuietRowsAreNeutral(rest, c);
      }
      ConcatIsNeutral(expiry, rest, c);
    case _ => QuietRowsAreNeutral(o.rows, c);
  }

  ghost predicate CascadesExact(b: Board) {
    forall c :: c in b.rooms ==> CascadeExact(b, c)
  }

  lemma EventKeepsCascade(
    audit: seq<AuditRow>, actor: string, c: ConversationId, r: Room, now: Instant, ev: Event)
    requires RoomOk(r) && StateMatchesLog(r)
    requires DeclinedByAll(r) ==> (r.conv.state.CanceledState? <==> !InviteDeclinedSincePost(audit, c))
    requires Admissible(Settle(r, now), now, ev) && ClosesRightly(Settle(r, now), ev)
    ensures var r' := Touched(r, now, Some(ev));
      var audit' := audit + (ExpiryRows(actor, c, r, now) + RowsFor(actor, c, ev));
      DeclinedByAll(r') ==> (r'.conv.state.CanceledState? <==> !InviteDeclinedSincePost(audit', c))
  {
    hide RoomOk, StateMatchesLog, ClosesRightly, InviteDeclinedSincePost, AllMembersDeclined, RowsFor, MaxSeq;
    var settled := Settle(r, now);
    assert DeclinedByAll(settled) == DeclinedByAll(r);
    ExpiryRowsAreNeutral(actor, c, r, now, c);
    EventSetsFlag(audit, ExpiryRows(actor, c, r, now), actor, c, ev);
    SettleKeepsRoomOk(r, now);
    SettleKeepsStateMatch(r, now);
    if DeclinedByAll(Evolve(settled, ev)) { CascadeAfter(settled, now, ev); }
  }

  lemma CallKeepsCascade(b: Board, call: Call, c: ConversationId)
    requires Integral(b) && StatesMatchLogs(b) && CascadesExact(b) && c in b.rooms
    ensures CascadeExact(Next(b, call), c)
  {
    hide OutcomeOf, RoomOk, MayOpen, MayEnrol, WithinRate, Cleared, StateMatchesLog, InviteDeclinedSincePost, Neutral,
      AllMembersDeclined, Admissible, Evolve;
    CallsWriteWhatTheyMay(b, call);
    var o, r := OutcomeOf(b, call), b.rooms[c];
    assert CascadeExact(b, c);
    if o.writes.Touch? && o.writes.c == c && o.writes.event.Some? {
      RowsTellWrites(b, call);
      EventKeepsCascade(b.audit, ActorOf(call), c, r, o.writes.at, o.writes.event.value);
    } else {
      OtherRowsAreNeutral(b, call, c);
      NeutralRowsKeepFlag(b.audit, o.rows, c);
    }
  }

  lemma ExpiryRowsAreNeutral(actor: string, c': ConversationId, r: Room, now: Instant, c: ConversationId)
    ensures Neutral(ExpiryRows(actor, c', r, now), c)
  {
  }

  lemma CallKeepsCascades(b: Board, call: Call)
    requires Integral(b) && StatesMatchLogs(b) && CascadesExact(b)
    ensures CascadesExact(Next(b, call))
  {
    hide OutcomeOf, Integral, StateMatchesLog, MayEnrol, Allowed, InviteDeclinedSincePost, AllMembersDeclined;
    assert SubsGiven(b) by { SubsAreGiven(b); }
    CallsWriteWhatTheyMay(b, call);
    forall c | c in Next(b, call).rooms ensures CascadeExact(Next(b, call), c) {
      if c in b.rooms { CallKeepsCascade(b, call, c); }
    }
  }

  /** In every reachable state, when the last message is a later-than-opening decline and every
      member has declined, the conversation is canceled if and only if no invitation to it was
      declined after that message. */
  lemma {:induction false} SharedDeclineCancelsExactly(calls: seq<Call>)
    ensures CascadesExact(Run(calls))
  {
    hide StatesMatchLogs, Integral, Next, CascadeExact;
    if calls != [] {
      var front := calls[..|calls| - 1];
      SharedDeclineCancelsExactly(front);
      ReachableBoardsAreIntegral(front);
      ReachableStatesMatchLogs(front);
      CallKeepsCascades(Run(front), calls[|calls| - 1]);
    }
  }
}
