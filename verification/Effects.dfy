/** What each call leaves in the tables, answers and audits, on the stored columns: the reference
    to `Rules` for the calls that succeed. No function that computes an outcome is used in it. */
module Effects {
  import opened Vocabulary
  import opened Text
  import opened Tables
  import opened Policy
  import opened Operations
  import opened Runs
  import opened Integrity
  import opened Queries
  import opened Rules
  import opened Grants

  // --- one conversation ---

  ghost predicate EveryMemberDeclined(parts: map<AgentId, Participant>) {
    && (exists x :: x in parts && parts[x].role.Member?)
    && forall x :: x in parts && parts[x].role.Member? ==> parts[x].status.Declined?
  }

  /** The state a message leaves an active conversation in; `parts` are the rows after it. */
  ghost function StateAfter(t: MessageType, parts: map<AgentId, Participant>): ConversationState {
    if t.Confirm? || t.TaskComplete? then CompletedState
    else if t.TaskDecline? || t.TaskCancel? then CanceledState
    else if t.Decline? && EveryMemberDeclined(parts) then CanceledState
    else ActiveState
  }

  /** One more than the highest number in the log. */
  predicate IsNextNumber(log: seq<Message>, n: nat) {
    && (forall i :: 0 <= i < |log| ==> log[i].seqNo < n)
    && (n > 1 ==> exists i :: 0 <= i < |log| && log[i].seqNo == n - 1)
    && n >= 1
  }

  ghost predicate RoomAfterAsk(r: Room, now: Instant, a: AgentId, q: Request, r': Room)
    requires a in r.parts
  {
    var conv, row := r.conv.(state := StateAt(r.conv, now)), r.parts[a];
    match q
    case AcceptInvite => r' == Room(conv, r.parts[a := row.(status := Active, joinedAt := Some(now))], r.log)
    case DeclineInvite => r' == Room(conv, r.parts[a := row.(status := Declined)], r.log)
    case Leave => r' == Room(conv, r.parts[a := row.(status := Left)], r.log)
    case Invite(target, stamp) =>
      r' == Room(conv, r.parts[target := Participant(Member, Invited, Some(a), stamp, None, 0)], r.log)
    case Post(t, version, raw, stamp) =>
      && raw.fields.Some?
      && |r'.log| == |r.log| + 1 && r'.log[..|r.log|] == r.log
      && var m := r'.log[|r.log|];
         && IsNextNumber(r.log, m.seqNo) && m == Message(m.seqNo, a, t, version, raw.fields.value, stamp)
         && r'.parts == (if t.Decline? then r.parts[a := row.(status := Declined)] else r.parts)
         && r'.conv == r.conv.(state := StateAfter(t, r'.parts))
  }

  /** The reply tells the rows as they are stored afterwards. */
  predicate RepliesToAsk(r': Room, a: AgentId, q: Request, reply: Reply) {
    match q
    case AcceptInvite => a in r'.parts && reply == Membership(r'.parts[a])
    case Invite(target, _) => target in r'.parts && reply == Membership(r'.parts[target])
    case Post(_, _, _, _) => r'.log != [] && reply == Receipt(r'.log[|r'.log| - 1])
    case _ => reply == Done
  }

  /** Everything but one conversation is as it was. */
  predicate OnlyTouches(b: Board, b': Board, c: ConversationId) {
    b'.agents == b.agents && c in b.rooms && c in b'.rooms && b'.rooms == b.rooms[c := b'.rooms[c]]
  }

  lemma {:induction false} NextNumberExactly(log: seq<Message>)
    ensures IsNextNumber(log, MaxSeq(log) + 1)
  {
    if log != [] {
      var front, n := log[..|log| - 1], |log| - 1;
      NextNumberExactly(front);
      if MaxSeq(log) == log[n].seqNo {
        assert log[n].seqNo == MaxSeq(log);
      } else {
        var i :| 0 <= i < |front| && front[i].seqNo == MaxSeq(front);
        assert log[i].seqNo == MaxSeq(log);
      }
    }
  }

  lemma PostsEvolveExactly(r: Room, now: Instant, m: Message)
    requires m.sender in r.parts && IsNextNumber(r.log, m.seqNo) && StateAt(r.conv, now).ActiveState?
    ensures var r' := Evolve(Settle(r, now), Posted(m, CloseOnPost(Settle(r, now), m.sender, m.mtype)));
      && r'.log == r.log + [m]
      && r'.parts == (if m.mtype.Decline? then r.parts[m.sender := r.parts[m.sender].(status := Declined)] else r.parts)
      && r'.conv == r.conv.(state := StateAfter(m.mtype, r'.parts))
  {
  }

  lemma GrantsEvolveExactly(
    agents: map<AgentId, Agent>, r: Room, now: Instant, a: AgentId, q: Request, client: OwnershipClient)
    requires a in r.parts && Decide(agents, Settle(r, now), now, a, q, client).Grant?
    ensures var s := Settle(r, now);
      var ev := Decide(agents, s, now, a, q, client).event;
      RoomAfterAsk(r, now, a, q, Evolve(s, ev)) && RepliesToAsk(Evolve(s, ev), a, q, ReplyTo(s, ev))
  {
    hide CountSince, ContentRefusal, MaxSeq, CloseOnPost, RoleMaySend, FreezeRefusal, IsNextNumber, StateAfter;
    if q.Post? {
      NextNumberExactly(r.log);
      PayloadsExactly(q.mtype, q.version, q.raw);
      var m := Decide(agents, Settle(r, now), now, a, q, client).event.message;
      PostsEvolveExactly(r, now, m);
    }
  }

  /** A request that is not refused changes its own conversation exactly as it should, and its
      reply tells what is stored then. */
  lemma AsksTakeEffectExactly(b: Board, call: Call)
    requires call.Ask? && WhyNot(b, call).None?
    ensures var b' := Next(b, call);
      && OnlyTouches(b, b', call.c) && Seated(b, call.c, call.agent)
      && RoomAfterAsk(b.rooms[call.c], call.at, call.agent, call.request, b'.rooms[call.c])
      && RepliesToAsk(b'.rooms[call.c], call.agent, call.request, OutcomeOf(b, call).reply)
  {
    hide Decide, RequestRefusal, Settle, ExpiryRows, RowsFor, Evolve, ReplyTo, RoomAfterAsk, RepliesToAsk;
    DecidesExactly(b.agents, b.rooms[call.c], call.at, call.agent, call.request, call.client);
    GrantsEvolveExactly(b.agents, b.rooms[call.c], call.at, call.agent, call.request, call.client);
  }

  // --- refusals ---

  /** Whether a call is refused after looking at the conversation, and so settles its state. */
  predicate LooksAt(b: Board, call: Call, c: ConversationId) {
    call.Ask? && call.c == c && Seated(b, c, call.agent) && (call.request.Post? ==> IsEnabled(b.agents, call.agent))
  }

  /** A refused call changes nothing but the state of a conversation it has looked at, to what
      that is by now. */
  lemma RefusalsTakeEffectExactly(b: Board, call: Call)
    requires WhyNot(b, call).Some?
    ensures var b' := Next(b, call);
      && b'.agents == b.agents && b'.rooms.Keys == b.rooms.Keys
      && forall c :: c in b.rooms ==>
           b'.rooms[c] == if LooksAt(b, call, c) then b.rooms[c].(conv := b.rooms[c].conv.(state := StateAt(b.rooms[c].conv, call.at)))
                          else b.rooms[c]
  {
    CallsSucceedExactly(b, call);
    RefusedWrites(b, call);
    hide WhyNot, OutcomeOf;
    if call.Ask? && Seated(b, call.c, call.agent) { SettledExactly(b.rooms[call.c], call.at); }
  }

  lemma RefusedWrites(b: Board, call: Call)
    requires OutcomeOf(b, call).reply.Failure?
    ensures var w := OutcomeOf(b, call).writes;
      if call.Ask? && LooksAt(b, call, call.c) then w == Touch(call.c, call.at, None) else w == Nothing
  {
    hide Decide, Settle, ExpiryRows, RowsFor, PartsAfter, Admit, FirstMessageRefusal, StartedSince, SortedTargets, FirstUnavailable,
      Above, MaxSeq, Views, Strip, EnrolmentFault, BySub;
  }

  /** The agent and the conversation a denial row names are those that exist. */
  function Known<K, V>(m: map<K, V>, k: K): Option<K> {
    if k in m then Some(k) else None
  }

  /** The columns of the row a refused request or read leaves. */
  ghost function RefusalRow(b: Board, call: Call, e: Error): AuditRow
    requires call.Ask? || call.Read?
  {
    var c, a := call.c, call.agent;
    if call.Ask? && call.request.Post? && !IsEnabled(b.agents, a) then AuditRow(call.actor, Denied(e, None), Known(b.agents, a), None)
    else if !Seated(b, c, a) then AuditRow(call.actor, Denied(e, Some(a)), Known(b.agents, a), Known(b.rooms, c))
    else if call.Read? then AuditRow(call.actor, Denied(e, None), Some(a), Some(c))
    else
      var refusal := RequestRefusal(b.agents, b.rooms[c], call.at, a, call.request, call.client);
      AuditRow(call.actor, Denied(e, if refusal.Some? then refusal.value.about else None), Some(a), Some(c))
  }

  /** The row of a conversation that is found past its deadline. */
  function FlipRows(actor: string, c: ConversationId, r: Room, now: Instant): seq<AuditRow> {
    if StateAt(r.conv, now) != r.conv.state then [AuditRow(actor, ConversationExpire, None, Some(c))] else []
  }

  lemma FlipRowsExactly(actor: string, c: ConversationId, r: Room, now: Instant)
    ensures ExpiryRows(actor, c, r, now) == FlipRows(actor, c, r, now)
  {
  }

  /** A refused request or read appends, after the row of a lazy expiry, exactly this row. */
  lemma RefusalRowsExactly(b: Board, call: Call)
    requires (call.Ask? || call.Read?) && WhyNot(b, call).Some?
    ensures var o, row := OutcomeOf(b, call), RefusalRow(b, call, WhyNot(b, call).value);
      o.rows == (if LooksAt(b, call, call.c) then FlipRows(call.actor, call.c, b.rooms[call.c], call.at) else []) + [row]
  {
    hide Decide, RequestRefusal, Settle, ExpiryRows, FlipRows, RowsFor, ReplyTo, Above, MaxSeq, Views;
    if call.Ask? && Seated(b, call.c, call.agent) {
      FlipRowsExactly(call.actor, call.c, b.rooms[call.c], call.at);
      DecidesExactly(b.agents, b.rooms[call.c], call.at, call.agent, call.request, call.client);
    }
  }

  /** The row of a refused opening that leaves one: the initiator if it exists, no conversation,
      and of the targets that are unavailable the one with the least identifier. */
  lemma OpeningRefusalRowsExactly(b: Board, q: Opening)
    requires OpeningRefusal(b, q).Some?
    ensures var rows, e := Start(b, q).rows, OpeningRefusal(b, q).value;
      if e.InvalidInput? || e.UnknownType? || e.Conflict? then rows == []
      else
        && |rows| == 1 && rows[0].actor == q.actor && rows[0].conversation == None
        && rows[0].agent == Known(b.agents, q.initiator)
        && rows[0].action.Denied? && rows[0].action.error == e
        && (if e == AccessDenied(UnknownAgent) && IsEnabled(b.agents, q.initiator) then
              rows[0].action.about.Some? && IsLeastUnavailable(b, q, rows[0].action.about.value)
            else rows[0].action.about == None)
  {
    hide Admit, FirstMessageRefusal, OpeningRefusal, SortedTargets, FirstUnavailable, OpeningRows, NewRoom, StartedSince, IsLeastUnavailable;
    var call := OpenRoom(q);
    StartsSucceedExactly(b, call);
    var ids := SortedTargets(q.initiator, q.named);
    TargetsExactly(q);
    SortedTargetsExact(q.initiator, q.named);
    NoneUnavailable(b.agents, ids);
    if FirstUnavailable(b.agents, ids).Some? {
      FirstIsLeast(b.agents, ids);
      LeastIsLeast(b, q, ids, FirstUnavailable(b.agents, ids).value);
    }
    if FirstUnavailable(b.agents, ids).None? { NoUnknownAgentLater(b, q, ids); }
  }

  predicate IsLeastUnavailable(b: Board, q: Opening, x: AgentId) {
    Targets(q, x) && !IsEnabled(b.agents, x) && forall y :: Targets(q, y) && !IsEnabled(b.agents, y) ==> x <= y
  }

  lemma {:induction false} FirstIsLeast(agents: map<AgentId, Agent>, ids: seq<AgentId>)
    requires Increasing(ids) && FirstUnavailable(agents, ids).Some?
    ensures var x := FirstUnavailable(agents, ids).value;
      x in ids && !IsEnabled(agents, x) && forall y :: y in ids && !IsEnabled(agents, y) ==> x <= y
  {
    if BoardActive(agents, ids[0]) {
      FirstIsLeast(agents, ids[1..]);
      assert ids == [ids[0]] + ids[1..];
    }
  }

  lemma LeastIsLeast(b: Board, q: Opening, ids: seq<AgentId>, x: AgentId)
    requires forall y :: y in ids <==> Targets(q, y)
    requires x in ids && !IsEnabled(b.agents, x) && forall y :: y in ids && !IsEnabled(b.agents, y) ==> x <= y
    ensures IsLeastUnavailable(b, q, x)
  {
  }

  lemma NoUnknownAgentLater(b: Board, q: Opening, ids: seq<AgentId>)
    requires FirstUnavailable(b.agents, ids).None?
    ensures var admission := Admit(b.agents, [q.initiator] + ids, q.ctype, q.client);
      admission.NotAdmitted? ==> admission.reason != UnknownAgent
    ensures var refusal := FirstMessageRefusal(b.agents, q, ids);
      refusal.Some? ==> refusal.value.BadSchema? || (refusal.value.AccessDenied? && refusal.value.reason != UnknownAgent)
  {
    hide BoundaryRefusal;
    BoundaryNeverUnknown(b, q, ids);
  }

  lemma BoundaryNeverUnknown(b: Board, q: Opening, ids: seq<AgentId>)
    ensures forall flag :: BoundaryRefusal(b.agents, q.ctype, q.initiator, SetOf(ids), flag, q.client) != Some(UnknownAgent)
  {
  }

  // --- what a granted request is recorded as ---

  ghost function RequestRows(b: Board, call: Call, r': Room): seq<AuditRow>
    requires call.Ask?
  {
    var actor, a, c := call.actor, call.agent, Some(call.c);
    match call.request
    case AcceptInvite => [AuditRow(actor, ParticipantAccept, Some(a), c)]
    case DeclineInvite => [AuditRow(actor, ParticipantDeclineInvite, Some(a), c)]
    case Leave => [AuditRow(actor, ParticipantLeave, Some(a), c)]
    case Invite(target, _) => [AuditRow(actor, ParticipantInvite(a), Some(target), c)]
    case Post(t, _, _, _) =>
      (if r'.log != [] then [AuditRow(actor, MessagePost(r'.log[|r'.log| - 1].seqNo, t), Some(a), c)] else [])
      + (if t.Decline? then [AuditRow(actor, ParticipantDecline, Some(a), c)] else [])
      + (if r'.conv.state.ActiveState? then [] else [AuditRow(actor, ConversationClose(r'.conv.state, t), Some(a), c)])
  }

  lemma GrantsAreRecordedExactly(b: Board, call: Call, r: Room)
    requires call.Ask? && call.agent in r.parts
    requires Decide(b.agents, Settle(r, call.at), call.at, call.agent, call.request, call.client).Grant?
    ensures var s := Settle(r, call.at);
      var ev := Decide(b.agents, s, call.at, call.agent, call.request, call.client).event;
      RowsFor(call.actor, call.c, ev) == RequestRows(b, call, Evolve(s, ev))
  {
    hide CountSince, ContentRefusal, MaxSeq, AllMembersDeclined, FreezeRefusal, ValidatePayload, Settle;
  }

  lemma AsksAreRecordedExactly(b: Board, call: Call)
    requires call.Ask? && WhyNot(b, call).None?
    ensures Seated(b, call.c, call.agent) && call.c in Next(b, call).rooms
    ensures OutcomeOf(b, call).rows ==
      FlipRows(call.actor, call.c, b.rooms[call.c], call.at) + RequestRows(b, call, Next(b, call).rooms[call.c])
  {
    hide Decide, RequestRefusal, Settle, ExpiryRows, FlipRows, RowsFor, Evolve, ReplyTo, RequestRows;
    DecidesExactly(b.agents, b.rooms[call.c], call.at, call.agent, call.request, call.client);
    FlipRowsExactly(call.actor, call.c, b.rooms[call.c], call.at);
    GrantsAreRecordedExactly(b, call, b.rooms[call.c]);
  }

  // --- reading ---

  /** Every participant's role, status and inviter, and nobody else's. */
  predicate TellsMembers(parts: map<AgentId, Participant>, members: map<AgentId, MemberView>) {
    && members.Keys == parts.Keys
    && forall x :: x in parts ==>
         members[x].role == parts[x].role && members[x].status == parts[x].status && members[x].invitedBy == parts[x].invitedBy
  }

  /** The messages of a gapless log that lie above `since`. */
  function Behind(log: seq<Message>, since: int): seq<Message> {
    if since <= 0 then log else if since >= |log| then [] else log[since..]
  }

  /** An answered read, on a gapless log: it tells the conversation row stored after it, each
      participant, and whether and by whom the caller is invited; an invited caller gets no
      message, an active one every message above `since`, and its cursor moves up to the last. */
  ghost predicate ReadsAs(r: Room, now: Instant, a: AgentId, since: int, r': Room, reply: Reply)
    requires a in r.parts
  {
    var row, got := r.parts[a], Behind(r.log, since);
    && reply.History?
    && r'.conv == r.conv.(state := StateAt(r.conv, now)) && r'.log == r.log
    && reply.conv == r'.conv && TellsMembers(r'.parts, reply.members)
    && (reply.invited <==> row.status.Invited?)
    && reply.invitedBy == (if row.status.Invited? then row.invitedBy else None)
    && reply.messages == (if row.status.Invited? then [] else got)
    && r'.parts == (if row.status.Active? && got != [] && |r.log| > row.lastReadSeq
                    then r.parts[a := row.(lastReadSeq := |r.log|)] else r.parts)
    && a in r'.parts && reply.lastReadSeq == r'.parts[a].lastReadSeq
  }

  lemma ReadsTakeEffectExactly(b: Board, call: Call)
    requires Integral(b) && call.Read? && WhyNot(b, call).None?
    ensures var b' := Next(b, call);
      && OnlyTouches(b, b', call.c) && Seated(b, call.c, call.agent)
      && ReadsAs(b.rooms[call.c], call.at, call.agent, call.since, b'.rooms[call.c], OutcomeOf(b, call).reply)
    ensures OutcomeOf(b, call).rows == FlipRows(call.actor, call.c, b.rooms[call.c], call.at)
  {
    hide Integral, Settle, StateAt, ExpiryRows, FlipRows, Above, MaxSeq, Gapless;
    var r := b.rooms[call.c];
    SettledExactly(r, call.at);
    FlipRowsExactly(call.actor, call.c, r, call.at);
    assert Gapless(r.log) by { LogsAreGapless(b); }
    BehindExactly(r.log, call.since);
  }

  lemma BehindExactly(log: seq<Message>, since: int)
    requires Gapless(log)
    ensures Above(log, since) == Behind(log, since)
    ensures MaxSeq(Above(log, since)) == if Behind(log, since) == [] then 0 else |log|
  {
    AboveIsSuffix(log, since);
    GaplessMax(log);
    if 0 < since < |log| { TailMax(log, since); }
  }

  lemma {:induction false} TailMax(log: seq<Message>, since: nat)
    requires Gapless(log) && since < |log|
    ensures MaxSeq(log[since..]) == |log|
  {
    var tail := log[since..];
    if since + 1 < |log| {
      TailMax(log[..|log| - 1], since);
      assert tail[..|tail| - 1] == log[..|log| - 1][since..];
    } else {
      assert tail[..0] == [];
    }
  }

  // --- openings ---

  function DaysToLive(ctype: ConversationType): int {
    if ctype.Open? then 7 else if ctype.Asymmetric? then 14 else 30
  }

  /** A conversation as its opening leaves it. */
  ghost predicate OpensAs(agents: map<AgentId, Agent>, q: Opening, room: Room) {
    var conv := room.conv;
    && conv.ctype == q.ctype && conv.createdBy == q.initiator && conv.createdAt == q.stamp
    && conv.expiresAt == (if q.expiresAt.Some? then q.expiresAt.value else q.now + DaysToLive(q.ctype) * 24 * AN_HOUR)
    && conv.state == (if q.mtype.Confirm? || q.mtype.TaskComplete? then CompletedState
                      else if q.mtype.TaskCancel? then CanceledState else ActiveState)
    && (conv.snapshot.None? <==> q.ctype.Open?)
    && (conv.snapshot.Some? ==> forall o :: o in conv.snapshot.value <==> exists x :: Founds(q, x) && Owns(q.client, agents, x, o))
    && (forall x :: x in room.parts <==> Founds(q, x))
    && (forall x :: x in room.parts ==>
         room.parts[x] == if x == q.initiator then Participant(Owner, Active, None, q.stamp, Some(q.now), 0)
                          else Participant(Member, Invited, Some(q.initiator), q.stamp, None, 0))
    && q.raw.fields.Some? && room.log == [Message(1, q.initiator, q.mtype, q.version, q.raw.fields.value, q.stamp)]
  }

  ghost function OpeningRowsOf(q: Opening, ids: seq<AgentId>, room: Room): seq<AuditRow> {
    [AuditRow(q.actor, ConversationStart(q.ctype, ids, room.conv.snapshot), Some(q.initiator), Some(q.id)),
     AuditRow(q.actor, MessagePost(1, q.mtype), Some(q.initiator), Some(q.id))]
    + if room.conv.state.ActiveState? then []
      else [AuditRow(q.actor, ConversationClose(room.conv.state, q.mtype), Some(q.initiator), Some(q.id))]
  }

  /** The targets of an opening as recorded: sorted, each once. */
  ghost predicate ListsTargets(q: Opening, ids: seq<AgentId>) {
    Increasing(ids) && forall x :: x in ids <==> Targets(q, x)
  }

  lemma RoomsOpenExactly(b: Board, q: Opening, snapshot: Option<set<string>>, ids: seq<AgentId>)
    requires OpeningRefusal(b, q).None? && ids == SortedTargets(q.initiator, q.named)
    requires Admit(b.agents, [q.initiator] + ids, q.ctype, q.client) == Admitted(snapshot)
    ensures ValidatePayload(q.mtype, q.version, q.raw).Some?
    ensures var payload := ValidatePayload(q.mtype, q.version, q.raw).value;
      var room := NewRoom(q.now, q.stamp, q.initiator, q.ctype, ids, snapshot,
                          Message(1, q.initiator, q.mtype, q.version, payload, q.stamp), q.expiresAt);
      OpensAs(b.agents, q, room) && OpeningRows(q.actor, q.id, ids, room) == OpeningRowsOf(q, ids, room)
  {
    hide Admit, SortedTargets, UnverifiedText, CrossingText, Verified, Inside, Share, Owns, Named, OpenedSince, UnionOf, OwnersOf;
    TargetsExactly(q);
    AdmitExactly(b.agents, [q.initiator] + ids, q.ctype, q.client);
    PayloadsExactly(q.mtype, q.version, q.raw);
  }

  /** An opening that is not refused adds exactly its conversation, answers with the row stored,
      and records its targets sorted, each once. */
  lemma OpeningsTakeEffectExactly(b: Board, q: Opening)
    requires OpeningRefusal(b, q).None?
    ensures var call := OpenRoom(q);
      var b', o := Next(b, call), OutcomeOf(b, call);
      && b'.agents == b.agents && q.id !in b.rooms && b'.rooms.Keys == b.rooms.Keys + {q.id}
      && (forall c :: c in b.rooms ==> b'.rooms[c] == b.rooms[c])
      && OpensAs(b.agents, q, b'.rooms[q.id]) && o.reply == Opened(q.id, b'.rooms[q.id].conv)
      && exists ids :: ListsTargets(q, ids) && o.rows == OpeningRowsOf(q, ids, b'.rooms[q.id])
  {
    hide Admit, FirstMessageRefusal, OpeningRefusal, SortedTargets, FirstUnavailable, OpeningRows, NewRoom, StartedSince, OpensAs,
      OpeningRowsOf, Targets;
    var call := OpenRoom(q);
    StartsSucceedExactly(b, call);
    var ids := SortedTargets(q.initiator, q.named);
    SortedTargetsExact(q.initiator, q.named);
    TargetsExactly(q);
    assert ListsTargets(q, ids);
    var admission := Admit(b.agents, [q.initiator] + ids, q.ctype, q.client);
    if admission.Admitted? { RoomsOpenExactly(b, q, admission.snapshot, ids); }
  }

  // --- registration ---

  /** A registration that is not refused adds an agent under a new subject, or renews the one
      agent of a known subject in everything but its subject and owner. */
  lemma RegistrationsTakeEffectExactly(b: Board, q: Enrolment)
    requires Integral(b) && RegistrationRefusal(b, q).None?
    ensures var call, sub, name, types := Enrol(q), Strip(q.sub), Strip(q.displayName), set t | t in q.accepted;
      var b', o := Next(b, call), OutcomeOf(b, call);
      && b'.rooms == b.rooms
      && (forall a :: a in b.agents && b.agents[a].sub == sub ==>
           && b'.agents == b.agents[a := Agent(sub, b.agents[a].ownerSub, q.ownerEmail, name, types, Enabled, q.now)]
           && o.reply == Registration(a, b'.agents[a])
           && o.rows == [AuditRow(sub, AgentRegister(false), Some(a), None)])
      && ((forall a :: a in b.agents ==> b.agents[a].sub != sub) ==>
           && q.id !in b.agents
           && b'.agents == b.agents[q.id := Agent(sub, q.ownerSub, q.ownerEmail, name, types, Enabled, q.now)]
           && o.reply == Registration(q.id, b'.agents[q.id])
           && o.rows == [AuditRow(sub, AgentRegister(true), Some(q.id), None)])
  {
    hide Strip, RoomOk;
    RegistrationsSucceedExactly(b, q);
    assert TypesIn(q.accepted) == set t | t in q.accepted;
    hide EnrolmentFault, RegistrationRefusal;
  }

  /** Suspending changes nothing but that agent's status. */
  lemma SuspensionsTakeEffectExactly(b: Board, at: Instant, a: AgentId)
    ensures var b' := Next(b, Suspend(at, a));
      && b'.rooms == b.rooms && b'.audit == b.audit
      && b'.agents == if a in b.agents then b.agents[a := b.agents[a].(status := Suspended)] else b.agents
  {
  }

  /** Unlike other refusals, that of a registration leaves no row. */
  lemma RefusedRegistrationsRecordNothing(b: Board, q: Enrolment)
    requires RegistrationRefusal(b, q).Some?
    ensures Register(b, q).rows == []
  {
    hide Strip;
  }
}
