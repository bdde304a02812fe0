/** The rules of the board stated once more, on the stored columns of the participants, rooms and
    agents concerned, as a reference: no function that computes an outcome is used here. */
module Rules {
  import opened Vocabulary
  import opened Tables
  import Text
  import O = Operations
  import R = Runs

  const AN_HOUR: int := 3_600_000_000

  // --- columns ---

  predicate Seated(b: Board, c: ConversationId, a: AgentId) {
    c in b.rooms && a in b.rooms[c].parts
  }

  predicate IsEnabled(agents: map<AgentId, Agent>, a: AgentId) {
    a in agents && agents[a].status.Enabled?
  }

  /** The state a conversation is in at `now`: an active one has expired from its deadline on. */
  function StateAt(conv: Conversation, now: Instant): ConversationState {
    if conv.state.ActiveState? && conv.expiresAt <= now then ExpiredState else conv.state
  }

  /** `x` is somebody else's row with an agent behind it, in the given status. */
  predicate Other(agents: map<AgentId, Agent>, parts: map<AgentId, Participant>, a: AgentId, x: AgentId, status: MemberStatus) {
    x != a && x in parts && x in agents && parts[x].status == status
  }

  predicate Hears(agents: map<AgentId, Agent>, parts: map<AgentId, Participant>, a: AgentId, x: AgentId) {
    Other(agents, parts, a, x, Active) || Other(agents, parts, a, x, Invited)
  }

  ghost function Hearers(agents: map<AgentId, Agent>, parts: map<AgentId, Participant>, a: AgentId): iset<AgentId> {
    iset x | Hears(agents, parts, a, x)
  }

  // --- owners ---

  predicate Owns(client: OwnershipClient, agents: map<AgentId, Agent>, a: AgentId, o: string) {
    match client
    case AgentTable => a in agents && o == agents[a].ownerSub
    case External(answers) => a in answers && o in answers[a]
  }

  ghost predicate Verified(client: OwnershipClient, agents: map<AgentId, Agent>, a: AgentId) {
    exists o :: Owns(client, agents, a, o)
  }

  ghost predicate Inside(client: OwnershipClient, agents: map<AgentId, Agent>, a: AgentId, b: AgentId) {
    forall o :: Owns(client, agents, a, o) ==> Owns(client, agents, b, o)
  }

  ghost predicate Share(client: OwnershipClient, agents: map<AgentId, Agent>, a: AgentId, b: AgentId) {
    exists o :: Owns(client, agents, a, o) && Owns(client, agents, b, o)
  }

  // --- messages ---

  predicate PayloadFits(t: MessageType, version: int, raw: RawPayload) {
    && !t.OtherMessage? && version == 1 && raw.fields.Some?
    && (t.NeedsClarification? ==> raw.fields.value.aboutSeq >= 1)
    && (t.Note? ==> 1 <= |raw.fields.value.text| <= 4000)
  }

  /** The places in the log of what `a` sent after `after`. */
  function SentSince(log: seq<Message>, a: AgentId, after: Instant): set<nat> {
    set i: nat | i < |log| && log[i].sender == a && log[i].createdAt > after
  }

  /** Only free text is restricted: an open conversation takes none, an asymmetric one only if
      sender and receivers are verified and the receivers' owners are the sender's. */
  ghost predicate UnverifiedText(
    client: OwnershipClient, agents: map<AgentId, Agent>, ctype: ConversationType, t: MessageType, a: AgentId, others: iset<AgentId>)
  {
    ctype.Asymmetric? && t.Note?
    && (!Verified(client, agents, a) || exists x :: x in others && !Verified(client, agents, x))
  }

  ghost predicate CrossingText(
    client: OwnershipClient, agents: map<AgentId, Agent>, ctype: ConversationType, t: MessageType, a: AgentId, others: iset<AgentId>)
  {
    t.Note? && (ctype.Open? || (ctype.Asymmetric? && exists x :: x in others && !Inside(client, agents, x, a)))
  }

  // --- why a call is refused ---

  datatype Refused = Refused(error: Error, about: Option<AgentId>)

  ghost function PostRefusal(
    agents: map<AgentId, Agent>, r: Room, now: Instant, a: AgentId,
    t: MessageType, version: int, raw: RawPayload, client: OwnershipClient): Option<Refused>
    requires a in r.parts
  {
    var state, hearers := StateAt(r.conv, now), Hearers(agents, r.parts, a);
    if |SentSince(r.log, a, now - AN_HOUR)| >= 30 then Some(Refused(RateLimited(MessagesPerHour), None))
    else if t.OtherMessage? || !state.ActiveState? then Some(Refused(BadState(Posting(t), state), None))
    else if (t.TaskCancel? && r.parts[a].role.Member?) || (t.TaskDecline? && r.parts[a].role.Owner?) then
      Some(Refused(AccessDenied(WrongSenderRole), None))
    else if !PayloadFits(t, version, raw) then Some(Refused(BadSchema(t), None))
    else if exists x :: Other(agents, r.parts, a, x, Active) && t !in agents[x].accepted then
      Some(Refused(AccessDenied(TypeNotAccepted), None))
    else if UnverifiedText(client, agents, r.conv.ctype, t, a, hearers) then
      Some(Refused(AccessDenied(OwnershipUnverified), None))
    else if r.conv.ctype.OtherConversation? then Some(Refused(AccessDenied(UnknownConversationType), None))
    else if CrossingText(client, agents, r.conv.ctype, t, a, hearers) then Some(Refused(AccessDenied(BoundaryCrossing), None))
    else if t.NeedsClarification? && !exists i :: 0 <= i < |r.log| && r.log[i].seqNo >= raw.fields.value.aboutSeq then
      Some(Refused(BadSchema(t), None))
    else None
  }

  ghost function InviteRefusal(
    agents: map<AgentId, Agent>, r: Room, now: Instant, target: AgentId, client: OwnershipClient): Option<Refused>
  {
    var state, closed := StateAt(r.conv, now), !r.conv.ctype.Open?;
    if !state.ActiveState? then Some(Refused(BadState(Inviting, state), None))
    else if !IsEnabled(agents, target) then Some(Refused(AccessDenied(UnknownAgent), Some(target)))
    else if closed && !Verified(client, agents, target) then Some(Refused(AccessDenied(OwnershipUnverified), Some(target)))
    else if closed && exists o :: Owns(client, agents, target, o) && !(r.conv.snapshot.Some? && o in r.conv.snapshot.value) then
      Some(Refused(AccessDenied(OwnerSetFrozen), Some(target)))
    else if target in r.parts then Some(Refused(AccessDenied(AlreadyParticipant), Some(target)))
    else None
  }

  ghost function RequestRefusal(
    agents: map<AgentId, Agent>, r: Room, now: Instant, a: AgentId, q: O.Request, client: OwnershipClient): Option<Refused>
    requires a in r.parts
  {
    var status := r.parts[a].status;
    if (q.AcceptInvite? || q.DeclineInvite?) && !status.Invited? then Some(Refused(AccessDenied(WrongStatus(status)), None))
    else if (q.Leave? || q.Invite? || q.Post?) && !status.Active? then Some(Refused(AccessDenied(WrongStatus(status)), None))
    else match q
      case AcceptInvite =>
        if r.conv.state.CompletedState? || r.conv.state.CanceledState? then
          Some(Refused(AccessDenied(WrongConversationState(r.conv.state)), None))
        else None
      case DeclineInvite => None
      case Leave => None
      case Invite(target, _) => InviteRefusal(agents, r, now, target, client)
      case Post(t, version, raw, _) => PostRefusal(agents, r, now, a, t, version, raw, client)
  }

  function OpenedSince(rooms: map<ConversationId, Room>, a: AgentId, after: Instant): set<ConversationId> {
    set c | c in rooms && rooms[c].conv.createdBy == a && rooms[c].conv.createdAt > after
  }

  /** Whom an opening names besides its initiator. */
  predicate Targets(q: O.Opening, x: AgentId) {
    x in q.named && x != q.initiator
  }

  ghost function Named(q: O.Opening): iset<AgentId> {
    iset x | Targets(q, x)
  }

  predicate Founds(q: O.Opening, x: AgentId) {
    x == q.initiator || Targets(q, x)
  }

  ghost function OpeningRefusal(b: Board, q: O.Opening): Option<Error> {
    var targets := Named(q);
    if !IsEnabled(b.agents, q.initiator) then Some(AccessDenied(UnknownAgent))
    else if q.ctype.OtherConversation? then Some(if |q.ctype.name| > 100 then InvalidInput else UnknownType)
    else if !exists x :: x in targets then Some(InvalidInput)
    else if |OpenedSince(b.rooms, q.initiator, q.now - AN_HOUR)| >= 10 then Some(RateLimited(StartsPerHour))
    else if exists x :: x in targets && !IsEnabled(b.agents, x) then Some(AccessDenied(UnknownAgent))
    else if !q.ctype.Open? && exists x :: Founds(q, x) && !Verified(q.client, b.agents, x) then
      Some(AccessDenied(OwnershipUnverified))
    else if q.ctype.Internal? && exists x, y :: Founds(q, x) && Founds(q, y) && !Inside(q.client, b.agents, x, y) then
      Some(AccessDenied(NotSameOwner))
    else if q.ctype.Asymmetric? && exists x, y :: Founds(q, x) && Founds(q, y) && !Share(q.client, b.agents, x, y) then
      Some(AccessDenied(NoOwnerOverlap))
    else if !PayloadFits(q.mtype, q.version, q.raw) then Some(BadSchema(q.mtype))
    else if q.mtype.TaskDecline? then Some(AccessDenied(WrongSenderRole))
    else if exists x :: x in targets && q.mtype !in b.agents[x].accepted then Some(AccessDenied(TypeNotAccepted))
    else if CrossingText(q.client, b.agents, q.ctype, q.mtype, q.initiator, targets) then Some(AccessDenied(BoundaryCrossing))
    else if q.id in b.rooms then Some(Conflict)
    else None
  }

  function RegistrationRefusal(b: Board, q: O.Enrolment): Option<Error> {
    if Text.Strip(q.sub) == "" then Some(InvalidInput)
    else if Text.Strip(q.displayName) == "" || |Text.Strip(q.displayName)| > 255 then Some(InvalidInput)
    else if q.accepted == [] || |q.accepted| > 20 then Some(InvalidInput)
    else if exists t :: t in q.accepted && t.OtherMessage? && |t.name| > 100 then Some(InvalidInput)
    else if exists t :: t in q.accepted && t.OtherMessage? then Some(UnknownType)
    else if q.id in b.agents && forall a :: a in b.agents ==> b.agents[a].sub != Text.Strip(q.sub) then Some(Conflict)
    else None
  }

  /** Why a call is refused, `None` if it is not. */
  ghost function WhyNot(b: Board, call: R.Call): Option<Error> {
    match call
    case Ask(now, _, a, c, q, client) =>
      if q.Post? && !IsEnabled(b.agents, a) then Some(AccessDenied(UnknownAgent))
      else if !Seated(b, c, a) then Some(AccessDenied(NotMember))
      else
        var refusal := RequestRefusal(b.agents, b.rooms[c], now, a, q, client);
        if refusal.Some? then Some(refusal.value.error) else None
    case Read(_, _, a, c, _) =>
      if !Seated(b, c, a) then Some(AccessDenied(NotMember))
      else
        var status := b.rooms[c].parts[a].status;
        if status.Left? || status.Declined? then Some(AccessDenied(WrongStatus(status))) else None
    case OpenRoom(q) => OpeningRefusal(b, q)
    case Enrol(q) => RegistrationRefusal(b, q)
    case Suspend(_, _) => None
  }
}
