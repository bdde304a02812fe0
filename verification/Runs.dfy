/** Runs of the board: any sequence of service calls from the empty board, and what each
    call is allowed to change. */
module Runs {
  import opened Vocabulary
  import opened Text
  import opened Tables
  import opened Policy
  import opened Operations

  datatype Call =
    | Enrol(enrolment: Enrolment)
    | Suspend(at: Instant, agent: AgentId)              // operators, outside the service
    | OpenRoom(opening: Opening)
    | Ask(at: Instant, actor: string, agent: AgentId, c: ConversationId, request: Request, client: OwnershipClient)
    | Read(at: Instant, actor: string, agent: AgentId, c: ConversationId, since: int)

  function Time(call: Call): Instant {
    match call
    case Enrol(q) => q.now
    case OpenRoom(q) => q.now
    case _ => call.at
  }

  function ClientOf(call: Call): OwnershipClient {
    match call
    case OpenRoom(q) => q.client
    case Ask(_, _, _, _, _, client) => client
    case _ => AgentTable
  }

  ghost function OutcomeOf(b: Board, call: Call): (o: Outcome)
    ensures Writable(b, o.writes)
  {
    match call
    case Enrol(q) => Register(b, q)
    case Suspend(_, a) =>
      Outcome(if a in b.agents then PutAgent(a, b.agents[a].(status := Suspended)) else Nothing, [], Done)
    case OpenRoom(q) => Start(b, q)
    case Ask(now, actor, a, c, q, client) => Handle(b, now, actor, a, c, q, client)
    case Read(now, actor, a, c, since) => Get(b, now, actor, a, c, since)
  }

  ghost function Next(b: Board, call: Call): Board {
    Commit(b, OutcomeOf(b, call))
  }

  ghost function RunFrom(b: Board, calls: seq<Call>): Board {
    if calls == [] then b else Next(RunFrom(b, calls[..|calls| - 1]), calls[|calls| - 1])
  }

  ghost function Run(calls: seq<Call>): Board {
    RunFrom(EMPTY_BOARD, calls)
  }

  /** The clock never runs backwards. */
  predicate Clocked(calls: seq<Call>) {
    forall i, j :: 0 <= i < j < |calls| ==> Time(calls[i]) <= Time(calls[j])
  }

  /** Every ownership lookup of the run is answered by the same client. */
  predicate SameClient(calls: seq<Call>, client: OwnershipClient) {
    forall i :: 0 <= i < |calls| && (calls[i].OpenRoom? || calls[i].Ask?) ==> ClientOf(calls[i]) == client
  }

  // --- what a call may write ---

  /** The statuses, states and numbers under which an event happens to a settled room. */
  ghost predicate Admissible(r: Room, now: Instant, ev: Event) {
    && Fits(r, ev)
    && match ev
       case Accepted(a, at) =>
         r.parts[a].status.Invited? && at == now && (r.conv.state.ActiveState? || r.conv.state.ExpiredState?)
       case InviteDeclined(a) => r.parts[a].status.Invited?
       case HasLeft(a) => r.parts[a].status.Active?
       case InviteSent(inviter, target, _) =>
         && inviter in r.parts && r.parts[inviter].status.Active? && r.conv.state.ActiveState?
         && target !in r.parts
       case Posted(m, _) =>
         && r.parts[m.sender].status.Active? && r.conv.state.ActiveState?
         && m.seqNo == MaxSeq(r.log) + 1
         && BoundaryFlag(m.mtype, m.version).Some? && RoleMaySend(m.mtype, r.parts[m.sender].role)
         && (m.mtype.NeedsClarification? ==> 1 <= m.payload.aboutSeq < m.seqNo)
       case CursorMoved(a, n) => r.parts[a].status.Active? && r.parts[a].lastReadSeq < n <= MaxSeq(r.log)
  }

  ghost predicate WithinRate(r: Room, now: Instant, ev: Event) {
    ev.Posted? ==> CountSince(r.log, ev.message.sender, now - HOUR) < MAX_MESSAGES_PER_HOUR
  }

  ghost predicate ClosesRightly(r: Room, ev: Event)
    requires Fits(r, ev)
  {
    ev.Posted? ==> ev.close == CloseOnPost(r, ev.message.sender, ev.message.mtype)
  }

  /** What the ownership and capability rules demand of an event. */
  ghost predicate Cleared(agents: map<AgentId, Agent>, r: Room, client: OwnershipClient, ev: Event) {
    match ev
    case InviteSent(_, target, _) =>
      BoardActive(agents, target) && FreezeRefusal(r.conv, VerifiedOwners(client, agents, target)).None?
    case Posted(m, _) =>
      var flag := BoundaryFlag(m.mtype, m.version);
      flag.Some? && ContentRefusal(agents, r, m.sender, m.mtype, flag.value, client).None?
    case _ => true
  }

  ghost predicate Allowed(agents: map<AgentId, Agent>, r: Room, now: Instant, client: OwnershipClient, ev: Event) {
    Admissible(r, now, ev) && WithinRate(r, now, ev) && ClosesRightly(r, ev) && Cleared(agents, r, client, ev)
  }

  ghost predicate MayOpen(b: Board, q: Opening, room: Room) {
    var ids := SortedTargets(q.initiator, q.named);
    var admission := Admit(b.agents, [q.initiator] + ids, q.ctype, q.client);
    && !q.ctype.OtherConversation? && ids != []
    && BoardActive(b.agents, q.initiator) && FirstUnavailable(b.agents, ids).None?
    && |StartedSince(b.rooms, q.initiator, q.now - HOUR)| < MAX_STARTS_PER_HOUR
    && admission.Admitted?
    && |room.log| == 1
    && room == NewRoom(q.now, q.stamp, q.initiator, q.ctype, ids, admission.snapshot, room.log[0], q.expiresAt)
    && var m := room.log[0];
       && m.seqNo == 1 && m.sender == q.initiator && m.createdAt == q.stamp
       && BoundaryFlag(m.mtype, m.version).Some? && RoleMaySend(m.mtype, Owner)
       && BoundaryRefusal(b.agents, q.ctype, q.initiator, SetOf(ids),
                          BoundaryFlag(m.mtype, m.version).value, q.client).None?
  }

  /** Subjects are given, unique and fixed, and so is the owner. */
  ghost predicate MayEnrol(agents: map<AgentId, Agent>, id: AgentId, row: Agent) {
    && row.sub != ""
    && (id in agents ==> row.sub == agents[id].sub && row.ownerSub == agents[id].ownerSub)
    && (id !in agents ==> forall a :: a in agents ==> agents[a].sub != row.sub)
  }

  /** The instant a call's transaction began. */
  function Stamp(call: Call): Instant {
    match call
    case OpenRoom(q) => q.stamp
    case Ask(_, _, _, _, Invite(_, stamp), _) => stamp
    case Ask(_, _, _, _, Post(_, _, _, stamp), _) => stamp
    case _ => Time(call)
  }

  ghost predicate MayWrite(b: Board, call: Call, w: Writes) {
    match w
    case Nothing => true
    case PutAgent(id, row) => MayEnrol(b.agents, id, row)
    case Create(c, room) => call.OpenRoom? && c == call.opening.id && c !in b.rooms && MayOpen(b, call.opening, room)
    case Touch(c, now, event) =>
      && c in b.rooms && now == Time(call)
      && (event.Some? ==> Allowed(b.agents, Settle(b.rooms[c], now), now, ClientOf(call), event.value))
      && (event.Some? && event.value.Posted? ==> event.value.message.createdAt == Stamp(call))
  }

  predicate SubsGiven(b: Board) {
    forall a :: a in b.agents ==> b.agents[a].sub != ""
  }

  lemma MaxSeqSnoc(log: seq<Message>, m: Message)
    ensures MaxSeq(log + [m]) == if MaxSeq(log) < m.seqNo then m.seqNo else MaxSeq(log)
  {
    assert (log + [m])[..|log|] == log;
  }

  lemma MaxSeqAbove(log: seq<Message>, since: int)
    ensures MaxSeq(Above(log, since)) <= MaxSeq(log)
  {
    if log != [] {
      MaxSeqAbove(log[..|log| - 1], since);
      MaxSeqSnoc(Above(log[..|log| - 1], since), log[|log| - 1]);
    }
  }

  lemma DecisionsAreAllowed(
    agents: map<AgentId, Agent>, r: Room, now: Instant, a: AgentId, q: Request, client: OwnershipClient)
    requires a in r.parts
    ensures var v := Decide(agents, r, now, a, q, client); v.Grant? ==> Allowed(agents, r, now, client, v.event)
  {
  }

  lemma OpeningsAreAllowed(b: Board, call: Call)
    requires call.OpenRoom?
    ensures MayWrite(b, call, OutcomeOf(b, call).writes)
  {
  }

  lemma ReadsAreAllowed(b: Board, call: Call)
    requires call.Read?
    ensures MayWrite(b, call, OutcomeOf(b, call).writes)
  {
    if HasRow(b, call.c, call.agent) { MaxSeqAbove(b.rooms[call.c].log, call.since); }
  }

  /** A new subject is given and is nobody else's. */
  lemma NewSubjectIsAllowed(b: Board, q: Enrolment)
    requires BySub(b.agents, Strip(q.sub)).None?
    ensures var w := Register(b, q).writes; w.Nothing? || (w.PutAgent? && MayEnrol(b.agents, w.id, w.row))
  {
    hide Strip, TypesIn;
  }

  /** A known subject keeps its subject and owner. */
  lemma KnownSubjectIsAllowed(b: Board, q: Enrolment)
    requires BySub(b.agents, Strip(q.sub)).Some?
    ensures var w := Register(b, q).writes; w.Nothing? || (w.PutAgent? && MayEnrol(b.agents, w.id, w.row))
  {
    hide Strip, TypesIn;
  }

  lemma RegistrationsAreAllowed(b: Board, q: Enrolment)
    ensures var w := Register(b, q).writes; w.Nothing? || (w.PutAgent? && MayEnrol(b.agents, w.id, w.row))
  {
    hide Register, MayEnrol, BySub, Strip;
    if BySub(b.agents, Strip(q.sub)).None? { NewSubjectIsAllowed(b, q); } else { KnownSubjectIsAllowed(b, q); }
  }

  lemma EnrolmentsAreAllowed(b: Board, call: Call)
    requires call.Enrol? || call.Suspend?
    requires SubsGiven(b)
    ensures MayWrite(b, call, OutcomeOf(b, call).writes)
  {
    if call.Enrol? { RegistrationsAreAllowed(b, call.enrolment); }
  }

  lemma RequestsAreAllowed(b: Board, call: Call)
    requires call.Ask?
    ensures MayWrite(b, call, OutcomeOf(b, call).writes)
  {
    if HasRow(b, call.c, call.agent) {
      DecisionsAreAllowed(b.agents, Settle(b.rooms[call.c], call.at), call.at, call.agent, call.request, call.client);
    }
  }

  /** Every call writes only what is allowed of it. */
  lemma CallsWriteWhatTheyMay(b: Board, call: Call)
    requires SubsGiven(b)
    ensures MayWrite(b, call, OutcomeOf(b, call).writes)
  {
    match call
    case OpenRoom(_) => OpeningsAreAllowed(b, call);
    case Read(_, _, _, _, _) => ReadsAreAllowed(b, call);
    case Ask(_, _, _, _, _, _) => RequestsAreAllowed(b, call);
    case _ => EnrolmentsAreAllowed(b, call);
  }

  // --- what a call leaves in the audit trail ---

  predicate Quiet(rows: seq<AuditRow>) {
    forall i :: 0 <= i < |rows| ==> rows[i].action.Denied? || rows[i].action.AgentRegister?
  }

  function ActorOf(call: Call): string {
    match call
    case OpenRoom(q) => q.actor
    case Ask(_, actor, _, _, _, _) => actor
    case Read(_, actor, _, _, _) => actor
    case _ => ""
  }

  /** The audit rows of an outcome tell what it writes. */
  ghost predicate RowsTell(b: Board, call: Call, o: Outcome)
    requires Writable(b, o.writes)
  {
    match o.writes
    case Nothing => Quiet(o.rows)
    case PutAgent(_, _) => Quiet(o.rows)
    case Create(c, room) =>
      && call.OpenRoom? && |room.log| == 1
      && o.rows == OpeningRows(ActorOf(call), c, SortedTargets(call.opening.initiator, call.opening.named), room)
    case Touch(c, now, event) =>
      var expiry := ExpiryRows(ActorOf(call), c, b.rooms[c], now);
      if event.Some? then o.rows == expiry + RowsFor(ActorOf(call), c, event.value)
      else |expiry| <= |o.rows| && o.rows[..|expiry|] == expiry && Quiet(o.rows[|expiry|..])
  }

  lemma RequestRowsTell(b: Board, call: Call)
    requires call.Ask?
    ensures RowsTell(b, call, OutcomeOf(b, call))
  {
    hide Decide, RowsFor;
  }

  lemma OpeningRowsTell(b: Board, call: Call)
    requires call.OpenRoom?
    ensures RowsTell(b, call, OutcomeOf(b, call))
  {
    hide Admit, FirstMessageRefusal, OpeningRows, StartedSince;
  }

  lemma ReadRowsTell(b: Board, call: Call)
    requires call.Read?
    ensures RowsTell(b, call, OutcomeOf(b, call))
  {
    hide Above, MaxSeq, Views, Settle, Overdue;
  }

  lemma EnrolmentRowsTell(b: Board, call: Call)
    requires call.Enrol? || call.Suspend?
    ensures RowsTell(b, call, OutcomeOf(b, call))
  {
    hide Strip, BySub;
  }

  lemma RowsTellWrites(b: Board, call: Call)
    ensures RowsTell(b, call, OutcomeOf(b, call))
  {
    hide OutcomeOf, RowsTell, Writable;
    match call
    case OpenRoom(_) => OpeningRowsTell(b, call);
    case Ask(_, _, _, _, _, _) => RequestRowsTell(b, call);
    case Read(_, _, _, _, _) => ReadRowsTell(b, call);
    case _ => EnrolmentRowsTell(b, call);
  }
}
