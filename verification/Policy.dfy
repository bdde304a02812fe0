/** The policy helpers of service.py: pure rules over rows, without the audit trail. */
module Policy {
  import opened Vocabulary
  import opened StateMachine
  import opened Tables

  const MAX_MESSAGES_PER_HOUR := 30
  const MAX_STARTS_PER_HOUR := 10

  function TimeToLive(ctype: ConversationType): int {
    match ctype
    case Open => 7 * DAY
    case Asymmetric => 14 * DAY
    case Internal => 30 * DAY
    case OtherConversation(_) => 0
  }

  predicate BoardActive(agents: map<AgentId, Agent>, a: AgentId) {
    a in agents && agents[a].status.Enabled?
  }

  // --- lazy expiry ---

  predicate Overdue(r: Room, now: Instant) {
    r.conv.state.ActiveState? && r.conv.expiresAt <= now
  }

  /** The room after lazy expiry at `now`. */
  function Settle(r: Room, now: Instant): Room {
    if Overdue(r, now) then r.(conv := r.conv.(state := ExpiredState)) else r
  }

  // --- rate limits ---

  /** Messages of `a` in `log` stamped after `after`. */
  function CountSince(log: seq<Message>, a: AgentId, after: Instant): nat {
    if log == [] then 0
    else
      var m := log[|log| - 1];
      CountSince(log[..|log| - 1], a, after) + if m.sender == a && m.createdAt > after then 1 else 0
  }

  function StartedSince(rooms: map<ConversationId, Room>, a: AgentId, after: Instant): set<ConversationId> {
    set c | c in rooms && rooms[c].conv.createdBy == a && rooms[c].conv.createdAt > after
  }

  // --- numbering ---

  function MaxSeq(log: seq<Message>): nat {
    if log == [] then 0
    else
      var rest, last := MaxSeq(log[..|log| - 1]), log[|log| - 1].seqNo;
      if rest < last then last else rest
  }

  // --- admission ---

  predicate MayAssign(a: set<string>, b: set<string>) {
    a * b != {}
  }

  predicate MayInvite(inviter: MemberStatus) {
    inviter.Active?
  }

  /** Every pair of founders satisfies the type's predicate. */
  predicate PairwiseAdmitted(ctype: ConversationType, owners: seq<set<string>>) {
    forall i, j :: 0 <= i < j < |owners| ==>
      if ctype.Internal? then owners[i] == owners[j] else MayAssign(owners[i], owners[j])
  }

  ghost function UnionOf(sets: seq<set<string>>): set<string> {
    set i, o | 0 <= i < |sets| && o in sets[i] :: o
  }

  datatype Admission = Admitted(snapshot: Option<set<string>>) | NotAdmitted(reason: Reason)

  /** The owners of `a` the service may rely on; none when the lookup fails or comes back empty. */
  function VerifiedOwners(client: OwnershipClient, agents: map<AgentId, Agent>, a: AgentId): set<string> {
    var answer := Owners(client, agents, a);
    if answer.Some? then answer.value else {}
  }

  function OwnersOf(client: OwnershipClient, agents: map<AgentId, Agent>, ids: seq<AgentId>): seq<set<string>> {
    seq(|ids|, i requires 0 <= i < |ids| => VerifiedOwners(client, agents, ids[i]))
  }

  ghost function Admit(
    agents: map<AgentId, Agent>, founders: seq<AgentId>, ctype: ConversationType, client: OwnershipClient): Admission
  {
    var owners := OwnersOf(client, agents, founders);
    if ctype.Open? then Admitted(None)
    else if {} in owners then NotAdmitted(OwnershipUnverified)
    else if !PairwiseAdmitted(ctype, owners) then
      NotAdmitted(if ctype.Internal? then NotSameOwner else NoOwnerOverlap)
    else Admitted(Some(UnionOf(owners)))
  }

  function SnapshotOwners(conv: Conversation): set<string> {
    if conv.snapshot.Some? then conv.snapshot.value else {}
  }

  /** Why inviting an agent with these verified owners is refused, if it is. */
  function FreezeRefusal(conv: Conversation, owners: set<string>): Option<Reason> {
    if conv.ctype.Open? then None
    else if owners == {} then Some(OwnershipUnverified)
    else if !(owners <= SnapshotOwners(conv)) then Some(OwnerSetFrozen)
    else None
  }

  // --- message checks ---

  predicate RoleMaySend(t: MessageType, role: Role) {
    match t
    case TaskCancel => role.Owner?
    case TaskDecline => role.Member?
    case _ => true
  }

  ghost predicate AllAccept(agents: map<AgentId, Agent>, receivers: set<AgentId>, t: MessageType) {
    forall a :: a in receivers && a in agents ==> t in agents[a].accepted
  }

  ghost function OthersOwners(client: OwnershipClient, agents: map<AgentId, Agent>, others: set<AgentId>): set<string> {
    set a, o | a in others && o in VerifiedOwners(client, agents, a) :: o
  }

  /** Why the boundary rule refuses a registered message, if it does. */
  ghost function BoundaryRefusal(
    agents: map<AgentId, Agent>, ctype: ConversationType, sender: AgentId, others: set<AgentId>,
    boundarySafe: bool, client: OwnershipClient): Option<Reason>
  {
    var lookup := ctype.Asymmetric? && !boundarySafe;
    var senderOwners := if lookup then VerifiedOwners(client, agents, sender) else {};
    var otherOwners := if lookup then OthersOwners(client, agents, others) else {};
    if lookup && (senderOwners == {} || exists a :: a in others && VerifiedOwners(client, agents, a) == {}) then
      Some(OwnershipUnverified)
    else if IsBoundaryCrossingSafe(ctype, boundarySafe, senderOwners, otherOwners) then None
    else Some(if ctype.OtherConversation? then UnknownConversationType else BoundaryCrossing)
  }

  /** The participants a message from `sender` is checked against, with a given status. */
  function Others(
    agents: map<AgentId, Agent>, parts: map<AgentId, Participant>, sender: AgentId, status: MemberStatus): set<AgentId>
  {
    set a | a in parts && a in agents && a != sender && parts[a].status == status
  }

  ghost predicate AllMembersDeclined(parts: map<AgentId, Participant>) {
    && (exists a :: a in parts && parts[a].role.Member?)
    && forall a :: a in parts && parts[a].role.Member? ==> parts[a].status.Declined?
  }
}
