/** The rows of the board (models.py).

    Participants and messages are kept with their conversation: a `Room` is a conversation
    row with every participant and message row whose foreign key names it. */
module Tables {
  import opened Vocabulary

  // Random identifiers; `nat` orders them as their fixed-width printed form does.
  type AgentId = nat
  type ConversationId = nat
  // Microseconds.
  type Instant = int

  const HOUR: int := 3_600_000_000
  const DAY: int := 24 * HOUR

  datatype AgentStatus = Enabled | Suspended
  datatype Agent = Agent(
    sub: string, ownerSub: string, ownerEmail: string, displayName: string,
    accepted: set<MessageType>, status: AgentStatus, boundAt: Instant)

  datatype Role = Owner | Member
  datatype MemberStatus = Invited | Active | Left | Declined
  datatype Participant = Participant(
    role: Role, status: MemberStatus, invitedBy: Option<AgentId>,
    invitedAt: Instant, joinedAt: Option<Instant>, lastReadSeq: nat)

  datatype Message = Message(
    seqNo: nat, sender: AgentId, mtype: MessageType, version: int, payload: Payload, createdAt: Instant)

  datatype Conversation = Conversation(
    ctype: ConversationType, state: ConversationState, createdBy: AgentId,
    expiresAt: Instant, createdAt: Instant, snapshot: Option<set<string>>)

  datatype Room = Room(conv: Conversation, parts: map<AgentId, Participant>, log: seq<Message>)

  /** Why an access was denied; only the audit trail sees it. */
  datatype Reason =
    | NotMember | WrongStatus(status: MemberStatus) | WrongConversationState(state: ConversationState)
    | UnknownAgent | AlreadyParticipant | OwnershipUnverified | NotSameOwner | NoOwnerOverlap
    | OwnerSetFrozen | UnknownConversationType | BoundaryCrossing | WrongSenderRole | TypeNotAccepted

  datatype Attempt = Posting(mtype: MessageType) | Inviting
  datatype Limit = MessagesPerHour | StartsPerHour

  /** The exceptions the service raises. */
  datatype Error =
    | AccessDenied(reason: Reason)
    | BadState(attempt: Attempt, state: ConversationState)
    | RateLimited(limit: Limit)
    | BadSchema(mtype: MessageType)
    | InvalidInput          // ValueError
    | UnknownType           // UnknownConversationTypeError
    | Conflict              // a random identifier already taken: the transaction rolls back

  datatype Action =
    | AgentRegister(created: bool)
    | ConversationStart(ctype: ConversationType, targets: seq<AgentId>, snapshot: Option<set<string>>)
    | ConversationExpire
    | ConversationClose(newState: ConversationState, via: MessageType)
    | MessagePost(seqNo: nat, mtype: MessageType)
    | ParticipantInvite(invitedBy: AgentId)
    | ParticipantAccept
    | ParticipantDeclineInvite
    | ParticipantDecline
    | ParticipantLeave
    | Denied(error: Error, about: Option<AgentId>)

  datatype AuditRow = AuditRow(
    actor: string, action: Action, agent: Option<AgentId>, conversation: Option<ConversationId>)

  datatype Board = Board(
    agents: map<AgentId, Agent>, rooms: map<ConversationId, Room>, audit: seq<AuditRow>)

  const EMPTY_BOARD := Board(map[], map[], [])

  /** The ownership lookup handed to a call: the agents table, or an external service whose
      answer for an agent is a list of owners (possibly empty) or a failure (no entry). */
  datatype OwnershipClient = AgentTable | External(answers: map<AgentId, set<string>>)

  function Owners(client: OwnershipClient, agents: map<AgentId, Agent>, a: AgentId): Option<set<string>> {
    match client
    case AgentTable => if a in agents then Some({agents[a].ownerSub}) else None
    case External(answers) => if a in answers then Some(answers[a]) else None
  }
}
