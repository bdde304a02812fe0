/** What each service call does, as a function of the board it finds: the rows it writes,
    the audit rows it adds and its reply. `Service` refines these step by step. */
module Operations {
  import opened Vocabulary
  import opened StateMachine
  import opened Text
  import opened Tables
  import opened Policy

  // --- changes to one room ---

  datatype Event =
    | Accepted(agent: AgentId, at: Instant)
    | InviteDeclined(agent: AgentId)
    | HasLeft(agent: AgentId)
    | InviteSent(inviter: AgentId, target: AgentId, at: Instant)
    | Posted(message: Message, close: Option<ConversationState>)
    | CursorMoved(agent: AgentId, upTo: nat)

  predicate Fits(r: Room, ev: Event) {
    match ev
    case InviteSent(_, _, _) => true
    case Posted(m, _) => m.sender in r.parts
    case _ => ev.agent in r.parts
  }

  function NewMember(inviter: AgentId, at: Instant): Participant {
    Participant(Member, Invited, Some(inviter), at, None, 0)
  }

  function PartsAfter(r: Room, ev: Event): map<AgentId, Participant>
    requires Fits(r, ev)
  {
    match ev
    case Accepted(a, at) => r.parts[a := r.parts[a].(status := Active, joinedAt := Some(at))]
    case InviteDeclined(a) => r.parts[a := r.parts[a].(status := Declined)]
    case HasLeft(a) => r.parts[a := r.parts[a].(status := Left)]
    case InviteSent(inviter, target, at) => r.parts[target := NewMember(inviter, at)]
    case Posted(m, _) =>
      if m.mtype.Decline? then r.parts[m.sender := r.parts[m.sender].(status := Declined)] else r.parts
    case CursorMoved(a, n) => r.parts[a := r.parts[a].(lastReadSeq := n)]
  }

  function Evolve(r: Room, ev: Event): Room
    requires Fits(r, ev)
  {
    var state := if ev.Posted? && ev.close.Some? then ev.close.value else r.conv.state;
    Room(r.conv.(state := state), PartsAfter(r, ev), if ev.Posted? then r.log + [ev.message] else r.log)
  }

  /** The audit rows an event leaves behind. */
  function RowsFor(actor: string, c: ConversationId, ev: Event): seq<AuditRow> {
    match ev
    case Accepted(a, _) => [AuditRow(actor, ParticipantAccept, Some(a), Some(c))]
    case InviteDeclined(a) => [AuditRow(actor, ParticipantDeclineInvite, Some(a), Some(c))]
    case HasLeft(a) => [AuditRow(actor, ParticipantLeave, Some(a), Some(c))]
    case InviteSent(inviter, target, _) => [AuditRow(actor, ParticipantInvite(inviter), Some(target), Some(c))]
    case Posted(m, close) =>
      [AuditRow(actor, MessagePost(m.seqNo, m.mtype), Some(m.sender), Some(c))]
      + (if m.mtype.Decline? then [AuditRow(actor, ParticipantDecline, Some(m.sender), Some(c))] else [])
      + ClosingRows(actor, c, m.sender, m.mtype, close)
    case CursorMoved(_, _) => []
  }

  function ClosingRows(
    actor: string, c: ConversationId, a: AgentId, via: MessageType, close: Option<ConversationState>): seq<AuditRow>
  {
    if close.Some? then [AuditRow(actor, ConversationClose(close.value, via), Some(a), Some(c))] else []
  }

  function ExpiryRows(actor: string, c: ConversationId, r: Room, now: Instant): seq<AuditRow> {
    if Overdue(r, now) then [AuditRow(actor, ConversationExpire, None, Some(c))] else []
  }

  // --- outcomes ---

  datatype Writes =
    | Nothing
    | PutAgent(id: AgentId, row: Agent)
    | Create(c: ConversationId, room: Room)
    | Touch(c: ConversationId, at: Instant, event: Option<Event>)   // lazy expiry, then the event

  datatype MemberView = MemberView(role: Role, status: MemberStatus, invitedBy: Option<AgentId>)

  datatype Reply =
    | Failure(error: Error)
    | Registration(id: AgentId, agent: Agent)
    | Opened(c: ConversationId, conv: Conversation)
    | Membership(row: Participant)
    | Done
    | Receipt(message: Message)
    | History(conv: Conversation, members: map<AgentId, MemberView>, messages: seq<Message>,
              invited: bool, invitedBy: Option<AgentId>, lastReadSeq: nat)

  datatype Outcome = Outcome(writes: Writes, rows: seq<AuditRow>, reply: Reply)

  predicate Writable(b: Board, w: Writes) {
    w.Touch? ==> w.c in b.rooms && (w.event.Some? ==> Fits(Settle(b.rooms[w.c], w.at), w.event.value))
  }

  function Touched(r: Room, at: Instant, event: Option<Event>): Room
    requires event.Some? ==> Fits(Settle(r, at), event.value)
  {
    if event.Some? then Evolve(Settle(r, at), event.value) else Settle(r, at)
  }

  function Commit(b: Board, o: Outcome): Board
    requires Writable(b, o.writes)
  {
    var audit := b.audit + o.rows;
    match o.writes
    case Nothing => b.(audit := audit)
    case PutAgent(id, row) => b.(agents := b.agents[id := row], audit := audit)
    case Create(c, room) => b.(rooms := b.rooms[c := room], audit := audit)
    case Touch(c, at, event) => b.(rooms := b.rooms[c := Touched(b.rooms[c], at, event)], audit := audit)
  }

  /** A denial's row. */
  function Refusal(
    actor: string, e: Error, agent: Option<AgentId>, c: Option<ConversationId>, about: Option<AgentId>): AuditRow
  {
    AuditRow(actor, Denied(e, about), agent, c)
  }

  function IfAgent(agents: map<AgentId, Agent>, a: AgentId): Option<AgentId> {
    if a in agents then Some(a) else None
  }

  function IfRoom(rooms: map<ConversationId, Room>, c: ConversationId): Option<ConversationId> {
    if c in rooms then Some(c) else None
  }

  // --- membership and posting ---

  /** `stamp` is the instant the request's transaction began, which the database writes into the
      rows it adds; the service's own clock is read later, a post's after the wait for its lock. */
  datatype Request =
    | AcceptInvite
    | DeclineInvite
    | Leave
    | Invite(target: AgentId, stamp: Instant)
    | Post(mtype: MessageType, version: int, raw: RawPayload, stamp: Instant)

  function RequiredStatus(q: Request): MemberStatus {
    if q.AcceptInvite? || q.DeclineInvite? then Invited else Active
  }

  datatype Verdict = Refuse(error: Error, about: Option<AgentId>) | Grant(event: Event)

  ghost function InviteVerdict(
    agents: map<AgentId, Agent>, r: Room, stamp: Instant, a: AgentId, target: AgentId, client: OwnershipClient): Verdict
  {
    if !r.conv.state.ActiveState? then Refuse(BadState(Inviting, r.conv.state), None)
    else if !BoardActive(agents, target) then Refuse(AccessDenied(UnknownAgent), Some(target))
    else
      var frozen := FreezeRefusal(r.conv, VerifiedOwners(client, agents, target));
      if frozen.Some? then Refuse(AccessDenied(frozen.value), Some(target))
      else if target in r.parts then Refuse(AccessDenied(AlreadyParticipant), Some(target))
      else Grant(InviteSent(a, target, stamp))
  }

  /** The capability gate looks at active receivers only, the boundary rule at invited ones too. */
  ghost function ContentRefusal(
    agents: map<AgentId, Agent>, r: Room, a: AgentId, t: MessageType, boundarySafe: bool, client: OwnershipClient): Option<Reason>
  {
    var active := Others(agents, r.parts, a, Active);
    if !AllAccept(agents, active, t) then Some(TypeNotAccepted)
    else BoundaryRefusal(agents, r.conv.ctype, a, active + Others(agents, r.parts, a, Invited), boundarySafe, client)
  }

  ghost function CloseOnPost(r: Room, a: AgentId, t: MessageType): Option<ConversationState>
    requires a in r.parts
  {
    ResultingState(t, t.Decline? && AllMembersDeclined(r.parts[a := r.parts[a].(status := Declined)]))
  }

  ghost function PostVerdict(
    agents: map<AgentId, Agent>, r: Room, now: Instant, a: AgentId,
    t: MessageType, version: int, raw: RawPayload, stamp: Instant, client: OwnershipClient): Verdict
    requires a in r.parts
  {
    if CountSince(r.log, a, now - HOUR) >= MAX_MESSAGES_PER_HOUR then Refuse(RateLimited(MessagesPerHour), None)
    else if !IsMessageLegal(r.conv.state, t) then Refuse(BadState(Posting(t), r.conv.state), None)
    else if !RoleMaySend(t, r.parts[a].role) then Refuse(AccessDenied(WrongSenderRole), None)
    else
      var payload, next := ValidatePayload(t, version, raw), MaxSeq(r.log) + 1;
      if payload.None? then Refuse(BadSchema(t), None)
      else
        var refusal := ContentRefusal(agents, r, a, t, BoundaryFlag(t, version).value, client);
        if refusal.Some? then Refuse(AccessDenied(refusal.value), None)
        else if t.NeedsClarification? && payload.value.aboutSeq >= next then Refuse(BadSchema(t), None)
        else Grant(Posted(Message(next, a, t, version, payload.value, stamp), CloseOnPost(r, a, t)))
  }

  /** The decision for a participant, on the room after lazy expiry. */
  ghost function Decide(
    agents: map<AgentId, Agent>, r: Room, now: Instant, a: AgentId, q: Request, client: OwnershipClient): (v: Verdict)
    requires a in r.parts
    ensures v.Grant? ==> Fits(r, v.event)
  {
    var status := r.parts[a].status;
    if status != RequiredStatus(q) then Refuse(AccessDenied(WrongStatus(status)), None)
    else match q
      case AcceptInvite =>
        if r.conv.state.CompletedState? || r.conv.state.CanceledState? then
          Refuse(AccessDenied(WrongConversationState(r.conv.state)), None)
        else Grant(Accepted(a, now))
      case DeclineInvite => Grant(InviteDeclined(a))
      case Leave => Grant(HasLeft(a))
      case Invite(target, stamp) => InviteVerdict(agents, r, stamp, a, target, client)
      case Post(t, version, raw, stamp) => PostVerdict(agents, r, now, a, t, version, raw, stamp, client)
  }

  function ReplyTo(r: Room, ev: Event): Reply
    requires Fits(r, ev)
  {
    match ev
    case Accepted(a, _) => Membership(PartsAfter(r, ev)[a])
    case InviteSent(inviter, target, at) => Membership(NewMember(inviter, at))
    case Posted(m, _) => Receipt(m)
    case _ => Done
  }

  /** No such conversation, or no participant row: refused before anything is touched. */
  function NotMemberOutcome(b: Board, actor: string, a: AgentId, c: ConversationId): Outcome {
    var e := AccessDenied(NotMember);
    Outcome(Nothing, [Refusal(actor, e, IfAgent(b.agents, a), IfRoom(b.rooms, c), Some(a))], Failure(e))
  }

  function UnknownAgentOutcome(b: Board, actor: string, a: AgentId): Outcome {
    var e := AccessDenied(UnknownAgent);
    Outcome(Nothing, [Refusal(actor, e, IfAgent(b.agents, a), None, None)], Failure(e))
  }

  predicate HasRow(b: Board, c: ConversationId, a: AgentId) {
    c in b.rooms && a in b.rooms[c].parts
  }

  ghost function Handle(
    b: Board, now: Instant, actor: string, a: AgentId, c: ConversationId, q: Request, client: OwnershipClient): (o: Outcome)
    ensures Writable(b, o.writes)
  {
    if q.Post? && !BoardActive(b.agents, a) then UnknownAgentOutcome(b, actor, a)
    else if !HasRow(b, c, a) then NotMemberOutcome(b, actor, a, c)
    else
      var r, expiry := Settle(b.rooms[c], now), ExpiryRows(actor, c, b.rooms[c], now);
      match Decide(b.agents, r, now, a, q, client)
      case Refuse(e, about) =>
        Outcome(Touch(c, now, None), expiry + [Refusal(actor, e, Some(a), Some(c), about)], Failure(e))
      case Grant(ev) => Outcome(Touch(c, now, Some(ev)), expiry + RowsFor(actor, c, ev), ReplyTo(r, ev))
  }

  // --- reading ---

  function Views(parts: map<AgentId, Participant>): map<AgentId, MemberView> {
    map a | a in parts :: MemberView(parts[a].role, parts[a].status, parts[a].invitedBy)
  }

  /** The messages numbered above `since`, in order. */
  function Above(log: seq<Message>, since: int): seq<Message> {
    if log == [] then []
    else
      var rest, m := Above(log[..|log| - 1], since), log[|log| - 1];
      if m.seqNo > since then rest + [m] else rest
  }

  /** The state shown to readers: an overdue row reads as expired before anything flips it. */
  function Shown(r: Room, now: Instant): Conversation {
    Settle(r, now).conv
  }

  function Get(b: Board, now: Instant, actor: string, a: AgentId, c: ConversationId, since: int): (o: Outcome)
    ensures Writable(b, o.writes)
  {
    if !HasRow(b, c, a) then NotMemberOutcome(b, actor, a, c)
    else
      var p := b.rooms[c].parts[a];
      if p.status.Left? || p.status.Declined? then
        var e := AccessDenied(WrongStatus(p.status));
        Outcome(Nothing, [Refusal(actor, e, Some(a), Some(c), None)], Failure(e))
      else
        var r, expiry := Settle(b.rooms[c], now), ExpiryRows(actor, c, b.rooms[c], now);
        if p.status.Invited? then
          Outcome(Touch(c, now, None), expiry, History(r.conv, Views(r.parts), [], true, p.invitedBy, p.lastReadSeq))
        else
          var messages := Above(r.log, since);
          var cursor := if MaxSeq(messages) > p.lastReadSeq then MaxSeq(messages) else p.lastReadSeq;
          Outcome(Touch(c, now, if cursor != p.lastReadSeq then Some(CursorMoved(a, cursor)) else None), expiry,
                  History(r.conv, Views(r.parts), messages, false, None, cursor))
  }

  // --- opening ---

  function Insert(x: AgentId, ids: seq<AgentId>): seq<AgentId> {
    if ids == [] || x < ids[0] then [x] + ids
    else if x == ids[0] then ids
    else [ids[0]] + Insert(x, ids[1..])
  }

  /** The named targets without the initiator, sorted, each once. */
  function SortedTargets(initiator: AgentId, named: seq<AgentId>): seq<AgentId> {
    if named == [] then []
    else
      var rest, x := SortedTargets(initiator, named[..|named| - 1]), named[|named| - 1];
      if x == initiator then rest else Insert(x, rest)
  }

  function SetOf(ids: seq<AgentId>): set<AgentId> {
    set a | a in ids
  }

  function FirstUnavailable(agents: map<AgentId, Agent>, ids: seq<AgentId>): Option<AgentId> {
    if ids == [] then None
    else if !BoardActive(agents, ids[0]) then Some(ids[0])
    else FirstUnavailable(agents, ids[1..])
  }

  function FounderRows(initiator: AgentId, ids: seq<AgentId>, now: Instant, stamp: Instant): map<AgentId, Participant> {
    (map a | a in ids :: NewMember(initiator, stamp))[initiator := Participant(Owner, Active, None, stamp, Some(now), 0)]
  }

  function NewRoom(
    now: Instant, stamp: Instant, initiator: AgentId, ctype: ConversationType, ids: seq<AgentId>, snapshot: Option<set<string>>,
    first: Message, expiresAt: Option<Instant>): Room
  {
    var close := ResultingState(first.mtype, false);
    Room(
      Conversation(ctype, if close.Some? then close.value else ActiveState, initiator,
                   if expiresAt.Some? then expiresAt.value else now + TimeToLive(ctype), stamp, snapshot),
      FounderRows(initiator, ids, now, stamp), [first])
  }

  function OpeningRows(actor: string, c: ConversationId, ids: seq<AgentId>, room: Room): seq<AuditRow>
    requires |room.log| == 1
  {
    var m := room.log[0];
    [AuditRow(actor, ConversationStart(room.conv.ctype, ids, room.conv.snapshot), Some(m.sender), Some(c)),
     AuditRow(actor, MessagePost(1, m.mtype), Some(m.sender), Some(c))]
    + ClosingRows(actor, c, m.sender, m.mtype, ResultingState(m.mtype, false))
  }

  /** `now` is the service's clock, `stamp` the instant the transaction began. */
  datatype Opening = Opening(
    now: Instant, stamp: Instant, id: ConversationId, actor: string, initiator: AgentId, ctype: ConversationType,
    named: seq<AgentId>, mtype: MessageType, version: int, raw: RawPayload,
    expiresAt: Option<Instant>, client: OwnershipClient)

  function RefuseOpening(q: Opening, e: Error, about: Option<AgentId>): Outcome {
    Outcome(Nothing, [Refusal(q.actor, e, Some(q.initiator), None, about)], Failure(e))
  }

  /** The checks on the first message, `None` when all pass. */
  ghost function FirstMessageRefusal(agents: map<AgentId, Agent>, q: Opening, ids: seq<AgentId>): Option<Error> {
    var targets := SetOf(ids);
    if ValidatePayload(q.mtype, q.version, q.raw).None? then Some(BadSchema(q.mtype))
    else if !RoleMaySend(q.mtype, Owner) then Some(AccessDenied(WrongSenderRole))
    else if !AllAccept(agents, targets, q.mtype) then Some(AccessDenied(TypeNotAccepted))
    else
      var refusal := BoundaryRefusal(
        agents, q.ctype, q.initiator, targets, BoundaryFlag(q.mtype, q.version).value, q.client);
      if refusal.Some? then Some(AccessDenied(refusal.value)) else None
  }

  ghost function Start(b: Board, q: Opening): (o: Outcome)
    ensures Writable(b, o.writes)
  {
    var ids := SortedTargets(q.initiator, q.named);
    if !BoardActive(b.agents, q.initiator) then UnknownAgentOutcome(b, q.actor, q.initiator)
    else if q.ctype.OtherConversation? then
      Outcome(Nothing, [], Failure(if |q.ctype.name| > MAX_TYPE_LENGTH then InvalidInput else UnknownType))
    else if ids == [] then Outcome(Nothing, [], Failure(InvalidInput))
    else if |StartedSince(b.rooms, q.initiator, q.now - HOUR)| >= MAX_STARTS_PER_HOUR then
      RefuseOpening(q, RateLimited(StartsPerHour), None)
    else if FirstUnavailable(b.agents, ids).Some? then
      RefuseOpening(q, AccessDenied(UnknownAgent), FirstUnavailable(b.agents, ids))
    else
      var admission := Admit(b.agents, [q.initiator] + ids, q.ctype, q.client);
      if admission.NotAdmitted? then RefuseOpening(q, AccessDenied(admission.reason), None)
      else
        var refusal := FirstMessageRefusal(b.agents, q, ids);
        if refusal.Some? then RefuseOpening(q, refusal.value, None)
        else if q.id in b.rooms then Outcome(Nothing, [], Failure(Conflict))
        else
          var payload := ValidatePayload(q.mtype, q.version, q.raw).value;
          var room := NewRoom(q.now, q.stamp, q.initiator, q.ctype, ids, admission.snapshot,
                              Message(1, q.initiator, q.mtype, q.version, payload, q.stamp), q.expiresAt);
          Outcome(Create(q.id, room), OpeningRows(q.actor, q.id, ids, room), Opened(q.id, room.conv))
  }

  // --- board admission ---

  datatype Enrolment = Enrolment(
    now: Instant, id: AgentId, sub: string, ownerSub: string, ownerEmail: string, displayName: string,
    accepted: seq<MessageType>)

  ghost function BySub(agents: map<AgentId, Agent>, sub: string): Option<AgentId> {
    if exists a :: a in agents && agents[a].sub == sub then
      var a :| a in agents && agents[a].sub == sub; Some(a)
    else None
  }

  function TypesIn(accepted: seq<MessageType>): set<MessageType> {
    set t | t in accepted
  }

  /** Why an enrolment is malformed, if it is. */
  function EnrolmentFault(q: Enrolment): Option<Error> {
    var name := Strip(q.displayName);
    if Strip(q.sub) == "" || !(1 <= |name| <= MAX_DISPLAY_NAME_LENGTH) || !(1 <= |q.accepted| <= MAX_ACCEPTED_TYPES)
       || exists t :: t in q.accepted && NameTooLong(t)
    then Some(InvalidInput)
    else if exists t :: t in q.accepted && !Registered(t) then Some(UnknownType)
    else None
  }

  /** A second enrolment under a known `sub` keeps its first `ownerSub`. */
  ghost function Register(b: Board, q: Enrolment): (o: Outcome)
    ensures Writable(b, o.writes)
  {
    var sub, fault := Strip(q.sub), EnrolmentFault(q);
    if fault.Some? then Outcome(Nothing, [], Failure(fault.value))
    else
      var known := BySub(b.agents, sub);
      var newRow := Agent(sub, q.ownerSub, q.ownerEmail, Strip(q.displayName), TypesIn(q.accepted), Enabled, q.now);
      if known.None? && q.id in b.agents then Outcome(Nothing, [], Failure(Conflict))
      else
        var id := if known.Some? then known.value else q.id;
        var row := if known.Some? then newRow.(ownerSub := b.agents[id].ownerSub) else newRow;
        Outcome(PutAgent(id, row), [AuditRow(sub, AgentRegister(known.None?), Some(id), None)], Registration(id, row))
  }
}
