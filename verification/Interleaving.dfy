/** Concurrent transactions on one conversation. A post runs in separate steps under the row
    lock of `SELECT ... FOR UPDATE`; every other call reads, and later writes, without it. Reads
    see committed rows only. Any schedule is a run; a step that would block does nothing. */
module Interleaving {
  import opened Vocabulary
  import opened StateMachine
  import opened Tables
  import opened Policy
  import opened Operations
  import opened Runs
  import opened Integrity

  type TxId = nat

  /** A post as submitted, with the instant its transaction begins and the clock reading its
      checks use, which is taken once it holds the lock. */
  datatype Submission = Submission(
    stamp: Instant, now: Instant, sender: AgentId, mtype: MessageType, version: int, raw: RawPayload, client: OwnershipClient)

  /** The rows of the other participants as the content checks found them. */
  datatype Crowd = Crowd(agents: map<AgentId, Agent>, parts: map<AgentId, Participant>)

  /** How far a post has got, with what it has read and staged. `conv` is the conversation row as
      the transaction sees it, its own staged writes included. */
  datatype Phase =
    | Waiting
    | Locked
    | Loaded(conv: Conversation, row: Participant)
    | Checked(conv: Conversation, row: Participant, crowd: Crowd, payload: Payload)
    | Numbered(conv: Conversation, row: Participant, crowd: Crowd, payload: Payload, next: nat)
    | Inserted(conv: Conversation, row: Participant, crowd: Crowd, message: Message)
    | Closed(conv: Conversation, row: Participant, crowd: Crowd, message: Message, counted: map<AgentId, Participant>)

  datatype PostTx = PostTx(sub: Submission, phase: Phase)

  /** What an unlocked call is about to write: the change it decided on from the participant rows
      it has seen, and whether it saw the conversation overdue. */
  datatype LateWrite = LateWrite(event: Option<Event>, expire: bool, seen: map<AgentId, Participant>)

  /** `room` holds committed rows only. `overwritten` is history: members whose declined row a
      late write has replaced. */
  datatype System = System(
    room: Room, lock: Option<TxId>, posts: map<TxId, PostTx>, late: map<TxId, LateWrite>, overwritten: set<AgentId>)

  datatype Step =
    | Submit(tx: TxId, sub: Submission)
    | LockRow(tx: TxId)                        // SELECT ... FOR UPDATE
    | LoadRow(tx: TxId)                        // participant row, lazy expiry
    | Check(tx: TxId, agents: map<AgentId, Agent>)
    | Number(tx: TxId)                         // max(seq) + 1
    | InsertRow(tx: TxId)                      // flush of the message and the sender's own status
    | CountDeclined(tx: TxId)                  // read of the members' statuses
    | Publish(tx: TxId)                        // commit
    | Crash(tx: TxId)                          // rollback
    | ReadUnlocked(tx: TxId, agents: map<AgentId, Agent>, call: Call)
    | WriteUnlocked(tx: TxId)

  // --- the steps of a post ---

  function Release(s: System, tx: TxId, room: Room): System {
    s.(room := room, lock := None, posts := s.posts - {tx})
  }

  function Move(s: System, tx: TxId, phase: Phase): System
    requires tx in s.posts
  {
    s.(posts := s.posts[tx := s.posts[tx].(phase := phase)])
  }

  /** The checks between loading and numbering; a refusal commits the staged expiry. */
  ghost function CheckRefusal(
    crowd: Crowd, conv: Conversation, log: seq<Message>, row: Participant, q: Submission): Option<Error>
  {
    var r := Room(conv, crowd.parts, log);
    if !row.status.Active? then Some(AccessDenied(WrongStatus(row.status)))
    else if CountSince(log, q.sender, q.now - HOUR) >= MAX_MESSAGES_PER_HOUR then Some(RateLimited(MessagesPerHour))
    else if !IsMessageLegal(conv.state, q.mtype) then Some(BadState(Posting(q.mtype), conv.state))
    else if !RoleMaySend(q.mtype, row.role) then Some(AccessDenied(WrongSenderRole))
    else if ValidatePayload(q.mtype, q.version, q.raw).None? then Some(BadSchema(q.mtype))
    else
      var refusal := ContentRefusal(crowd.agents, r, q.sender, q.mtype, BoundaryFlag(q.mtype, q.version).value, q.client);
      if refusal.Some? then Some(AccessDenied(refusal.value)) else None
  }

  /** The members' statuses a decline counts: committed rows, and its own staged one. */
  function WithOwnDecline(parts: map<AgentId, Participant>, m: Message): map<AgentId, Participant> {
    if m.mtype.Decline? && m.sender in parts then parts[m.sender := parts[m.sender].(status := Declined)] else parts
  }

  ghost function CloseBy(conv: Conversation, m: Message, counted: map<AgentId, Participant>): Conversation {
    var close := ResultingState(m.mtype, m.mtype.Decline? && AllMembersDeclined(counted));
    if close.Some? then conv.(state := close.value) else conv
  }

  /** The unique constraint on (conversation, seq). */
  predicate Taken(log: seq<Message>, n: nat) {
    exists i :: 0 <= i < |log| && log[i].seqNo == n
  }

  ghost function AdvancePost(s: System, tx: TxId, step: Step): System
    requires tx in s.posts
  {
    var q, r := s.posts[tx].sub, s.room;
    match s.posts[tx].phase
    case Waiting => if step.LockRow? && s.lock.None? then Move(s.(lock := Some(tx)), tx, Locked) else s
    case Locked =>
      if !step.LoadRow? then s
      else if q.sender !in r.parts then Release(s, tx, r)
      else Move(s, tx, Loaded(Settle(r, q.now).conv, r.parts[q.sender]))
    case Loaded(conv, row) =>
      if !step.Check? then s
      else
        var crowd := Crowd(step.agents, r.parts);
        if CheckRefusal(crowd, conv, r.log, row, q).Some? then Release(s, tx, r.(conv := conv))
        else Move(s, tx, Checked(conv, row, crowd, ValidatePayload(q.mtype, q.version, q.raw).value))
    case Checked(conv, row, crowd, payload) =>
      if !step.Number? then s
      else
        var next := MaxSeq(r.log) + 1;
        if q.mtype.NeedsClarification? && payload.aboutSeq >= next then Release(s, tx, r.(conv := conv))
        else Move(s, tx, Numbered(conv, row, crowd, payload, next))
    case Numbered(conv, row, crowd, payload, next) =>
      if !step.InsertRow? then s
      else if Taken(r.log, next) then Release(s, tx, r)
      else Move(s, tx, Inserted(conv, row, crowd, Message(next, q.sender, q.mtype, q.version, payload, q.stamp)))
    case Inserted(conv, row, crowd, m) =>
      if !step.CountDeclined? then s
      else
        var counted := WithOwnDecline(r.parts, m);
        Move(s, tx, Closed(CloseBy(conv, m, counted), row, crowd, m, counted))
    case Closed(conv, _, _, m, _) =>
      if !step.Publish? then s else Release(s, tx, Room(conv, WithOwnDecline(r.parts, m), r.log + [m]))
  }

  // --- unlocked calls ---

  /** Calls on the conversation other than posts, each seen as a call on a board of this one room. */
  predicate Unlocked(call: Call) {
    (call.Ask? && call.c == 0 && !call.request.Post?) || (call.Read? && call.c == 0)
  }

  function OneRoom(agents: map<AgentId, Agent>, r: Room): Board {
    Board(agents, map[0 := r], [])
  }

  /** What the call decides to write, from the committed rows it reads. */
  ghost function Plan(agents: map<AgentId, Agent>, r: Room, call: Call): LateWrite
    requires Unlocked(call)
  {
    match OutcomeOf(OneRoom(agents, r), call).writes
    case Touch(_, at, event) => LateWrite(event, Overdue(r, at), r.parts)
    case _ => LateWrite(None, false, r.parts)
  }

  /** The write as it lands: changed columns only, on whatever row it finds. A second row for the
      same participant is refused by the primary key, and the transaction rolls back. */
  predicate Lands(r: Room, w: LateWrite) {
    w.event.Some? ==>
      if w.event.value.InviteSent? then w.event.value.target !in r.parts else Fits(r, w.event.value)
  }

  function Landed(r: Room, w: LateWrite): Room
    requires Lands(r, w)
  {
    var r1 := if w.expire then r.(conv := r.conv.(state := ExpiredState)) else r;
    if w.event.Some? then Evolve(r1, w.event.value) else r1
  }

  function Undone(parts: map<AgentId, Participant>, parts': map<AgentId, Participant>): set<AgentId> {
    set a | a in parts && a in parts' && parts[a].status.Declined? && !parts'[a].status.Declined?
  }

  function Land(s: System, tx: TxId): System
    requires tx in s.late
  {
    var rest := s.(late := s.late - {tx});
    if !Lands(s.room, s.late[tx]) then rest
    else
      var r' := Landed(s.room, s.late[tx]);
      rest.(room := r', overwritten := s.overwritten + Undone(s.room.parts, r'.parts))
  }

  // --- schedules ---

  /** One step of a schedule; a step that cannot happen, or would block, changes nothing. */
  ghost function After(s: System, step: Step): System {
    match step
    case Submit(tx, q) => if tx in s.posts || tx in s.late then s else s.(posts := s.posts[tx := PostTx(q, Waiting)])
    case ReadUnlocked(tx, agents, call) =>
      if tx in s.posts || tx in s.late || !Unlocked(call) then s
      else s.(late := s.late[tx := Plan(agents, s.room, call)])
    case WriteUnlocked(tx) =>
      if tx !in s.late || (s.late[tx].expire && s.lock.Some?) then s else Land(s, tx)
    case Crash(tx) =>
      if s.lock == Some(tx) then Release(s, tx, s.room) else s.(posts := s.posts - {tx}, late := s.late - {tx})
    case _ => if step.tx in s.posts then AdvancePost(s, step.tx, step) else s
  }

  function Idle(room: Room): System {
    System(room, None, map[], map[], {})
  }

  ghost function Exec(s: System, steps: seq<Step>): System {
    if steps == [] then s else After(Exec(s, steps[..|steps| - 1]), steps[|steps| - 1])
  }

  /** A conversation as opening leaves it. */
  ghost predicate Fresh(room: Room) {
    && |room.log| == 1 && room.log[0].seqNo == 1
    && (Terminal(room.log[0].mtype) ==> !room.conv.state.ActiveState?)
    && exists a :: a in room.parts && room.parts[a].role.Member?
  }

  lemma OpenedRoomsAreFresh(b: Board, q: Opening, room: Room)
    requires MayOpen(b, q, room)
    ensures Fresh(room)
  {
    hide Admit, BoundaryRefusal, StartedSince, BoundaryFlag;
    OpeningIsRoomOk(b, q, room);
  }

  // --- the invariant ---

  /** Numbered 1..n, clarifications point back, and a terminal message is last and closed the room. */
  ghost predicate LogSound(r: Room) {
    && |r.log| >= 1
    && (forall i :: 0 <= i < |r.log| ==> r.log[i].seqNo == i + 1)
    && (forall i :: 1 <= i < |r.log| && r.log[i].mtype.NeedsClarification? ==> 1 <= r.log[i].payload.aboutSeq <= i)
    && (forall i :: 0 <= i < |r.log| && Terminal(r.log[i].mtype) ==> i == |r.log| - 1 && !r.conv.state.ActiveState?)
  }

  /** `a` posted a decline after the opening. */
  predicate DeclinedBy(log: seq<Message>, a: AgentId) {
    exists i :: 1 <= i < |log| && log[i].sender == a && log[i].mtype.Decline?
  }

  ghost predicate DeclinesKept(r: Room, overwritten: set<AgentId>) {
    forall a :: DeclinedBy(r.log, a) && a !in overwritten ==> a in r.parts && r.parts[a].status.Declined?
  }

  /** Every member has declined by a message, `besides` counted in, and none was overwritten since. */
  ghost predicate AllDeclined(r: Room, overwritten: set<AgentId>, besides: set<AgentId>) {
    forall a :: a in r.parts && r.parts[a].role.Member? ==> a !in overwritten && (DeclinedBy(r.log, a) || a in besides)
  }

  ghost predicate HasMember(r: Room) {
    exists a :: a in r.parts && r.parts[a].role.Member?
  }

  /** What a post holding the lock knows of the committed rows. */
  ghost predicate Knows(r: Room, overwritten: set<AgentId>, p: PostTx) {
    var q, ph := p.sub, p.phase;
    && (!ph.Waiting? && !ph.Locked? ==> q.sender in r.parts)
    && match ph
       case Waiting => false
       case Locked => true
       case Loaded(conv, _) => conv == Settle(r, q.now).conv
       case Checked(conv, row, crowd, payload) => Passed(r, q, conv, row, crowd, payload)
       case Numbered(conv, row, crowd, payload, next) =>
         Passed(r, q, conv, row, crowd, payload) && next == |r.log| + 1 && PointsBack(q.mtype, payload, next)
       case Inserted(conv, row, crowd, m) => Passed(r, q, conv, row, crowd, m.payload) && IsNext(r, q, m)
       case Closed(conv, row, crowd, m, counted) =>
         && Passed(r, q, r.conv, row, crowd, m.payload) && IsNext(r, q, m)
         && conv == CloseBy(r.conv, m, counted)
         && (m.mtype.Decline? && AllDeclined(r, overwritten, {q.sender}) ==> !conv.state.ActiveState?)
  }

  predicate PointsBack(t: MessageType, payload: Payload, next: nat) {
    t.NeedsClarification? ==> 1 <= payload.aboutSeq < next
  }

  predicate IsNext(r: Room, q: Submission, m: Message) {
    && m == Message(|r.log| + 1, q.sender, q.mtype, q.version, m.payload, q.stamp)
    && PointsBack(q.mtype, m.payload, m.seqNo)
  }

  ghost predicate Passed(r: Room, q: Submission, conv: Conversation, row: Participant, crowd: Crowd, payload: Payload) {
    && conv == r.conv && r.conv.state.ActiveState? && Settle(r, q.now) == r
    && CheckRefusal(crowd, conv, r.log, row, q).None?
    && ValidatePayload(q.mtype, q.version, q.raw) == Some(payload)
  }

  ghost predicate OneHolder(s: System) {
    && (forall tx :: tx in s.posts && !s.posts[tx].phase.Waiting? ==> s.lock == Some(tx))
    && (s.lock.Some? ==> s.lock.value in s.posts && Knows(s.room, s.overwritten, s.posts[s.lock.value]))
  }

  ghost predicate LateFits(s: System) {
    forall tx :: tx in s.late && s.late[tx].event.Some? ==>
      && !s.late[tx].event.value.Posted? && Fits(s.room, s.late[tx].event.value)
      && SuitsWhatItSaw(s.late[tx].seen, s.late[tx].event.value)
  }

  predicate SuitsWhatItSaw(seen: map<AgentId, Participant>, ev: Event) {
    match ev
    case Accepted(a, _) => a in seen && seen[a].status.Invited?
    case InviteDeclined(a) => a in seen && seen[a].status.Invited?
    case HasLeft(a) => a in seen && seen[a].status.Active?
    case InviteSent(_, target, _) => target !in seen
    case _ => true
  }

  ghost predicate RoomSound(r: Room, overwritten: set<AgentId>) {
    && LogSound(r) && HasMember(r) && DeclinesKept(r, overwritten)
    && (AllDeclined(r, overwritten, {}) ==> !r.conv.state.ActiveState?)
  }

  ghost predicate Inv(s: System) {
    RoomSound(s.room, s.overwritten) && OneHolder(s) && LateFits(s)
  }

  // --- every step keeps it ---

  lemma DeclinesGrow(log: seq<Message>, m: Message, a: AgentId)
    requires |log| >= 1
    ensures DeclinedBy(log + [m], a) <==> DeclinedBy(log, a) || (m.sender == a && m.mtype.Decline?)
  {
    var log' := log + [m];
    if DeclinedBy(log, a) {
      var i :| 1 <= i < |log| && log[i].sender == a && log[i].mtype.Decline?;
      assert log'[i] == log[i];
    }
    assert log'[|log|] == m;
  }

  lemma PublishKeepsLogSound(r: Room, q: Submission, row: Participant, crowd: Crowd, m: Message, r': Room)
    requires LogSound(r) && Passed(r, q, r.conv, row, crowd, m.payload) && IsNext(r, q, m)
    requires r'.log == r.log + [m] && (Terminal(m.mtype) ==> !r'.conv.state.ActiveState?)
    ensures LogSound(r')
  {
    hide CheckRefusal, ValidatePayload, Settle;
  }

  lemma PublishKeepsDeclines(r: Room, overwritten: set<AgentId>, m: Message, r': Room)
    requires |r.log| >= 1 && DeclinesKept(r, overwritten) && m.sender in r.parts && HasMember(r)
    requires r'.log == r.log + [m] && r'.parts == WithOwnDecline(r.parts, m)
    ensures DeclinesKept(r', overwritten) && HasMember(r')
  {
    forall a | DeclinedBy(r'.log, a) && a !in overwritten ensures a in r'.parts && r'.parts[a].status.Declined? {
      DeclinesGrow(r.log, m, a);
    }
    var w :| w in r.parts && r.parts[w].role.Member?;
    assert r'.parts[w].role.Member?;
  }

  /** Before this post a member had not declined; after it all have only if the sender was the last. */
  lemma AllDeclinedNarrows(r: Room, overwritten: set<AgentId>, m: Message, r': Room)
    requires |r.log| >= 1 && m.sender in r.parts
    requires r'.log == r.log + [m] && r'.parts == WithOwnDecline(r.parts, m)
    requires AllDeclined(r', overwritten, {})
    ensures AllDeclined(r, overwritten, if m.mtype.Decline? then {m.sender} else {})
  {
    forall a | a in r.parts && r.parts[a].role.Member?
      ensures a !in overwritten && (DeclinedBy(r.log, a) || (m.mtype.Decline? && a == m.sender))
    {
      assert a in r'.parts && r'.parts[a].role.Member?;
      DeclinesGrow(r.log, m, a);
    }
  }

  lemma PublishKeepsRoomSound(s: System, tx: TxId)
    requires Inv(s) && tx in s.posts && s.posts[tx].phase.Closed?
    ensures RoomSound(AdvancePost(s, tx, Publish(tx)).room, s.overwritten)
  {
    hide CheckRefusal, ValidatePayload, LogSound, DeclinesKept, DeclinedBy, Settle, AllMembersDeclined, AllDeclined;
    var r, p := s.room, s.posts[tx];
    var Closed(conv, row, crowd, m, counted) := p.phase;
    var r' := Room(conv, WithOwnDecline(r.parts, m), r.log + [m]);
    assert |r.log| >= 1 by { SoundLogHasOpening(r); }
    PublishKeepsLogSound(r, p.sub, row, crowd, m, r');
    PublishKeepsDeclines(r, s.overwritten, m, r');
    if AllDeclined(r', s.overwritten, {}) { AllDeclinedNarrows(r, s.overwritten, m, r'); }
  }

  lemma SoundLogHasOpening(r: Room)
    requires LogSound(r)
    ensures |r.log| >= 1 && MaxSeq(r.log) == |r.log| && !Taken(r.log, |r.log| + 1)
  {
    GaplessMax(r.log);
  }

  /** Counting its own decline in, a post that completes the declines closes the room. */
  lemma CountClosesExactly(r: Room, overwritten: set<AgentId>, q: Submission, m: Message)
    requires RoomSound(r, overwritten) && m.sender in r.parts && m.mtype.Decline?
    requires AllDeclined(r, overwritten, {m.sender})
    ensures AllMembersDeclined(WithOwnDecline(r.parts, m))
  {
    hide LogSound, DeclinedBy;
    var counted := WithOwnDecline(r.parts, m);
    var w :| w in r.parts && r.parts[w].role.Member?;
    assert w in counted && counted[w].role.Member?;
  }

  lemma CheckKeepsKnowing(s: System, tx: TxId, step: Step)
    requires Inv(s) && tx in s.posts && s.posts[tx].phase.Loaded? && step.Check?
    ensures OneHolder(AdvancePost(s, tx, step))
  {
    hide ContentRefusal, LogSound, DeclinesKept, AllDeclined, CountSince;
  }

  lemma NumberKeepsKnowing(s: System, tx: TxId, step: Step)
    requires Inv(s) && tx in s.posts && s.posts[tx].phase.Checked? && step.Number?
    ensures OneHolder(AdvancePost(s, tx, step))
  {
    hide CheckRefusal, LogSound, DeclinesKept, AllDeclined;
    SoundLogHasOpening(s.room);
  }

  lemma InsertKeepsKnowing(s: System, tx: TxId, step: Step)
    requires Inv(s) && tx in s.posts && s.posts[tx].phase.Numbered? && step.InsertRow?
    ensures OneHolder(AdvancePost(s, tx, step))
    ensures AdvancePost(s, tx, step).posts[tx].phase.Inserted?
  {
    hide CheckRefusal, LogSound, DeclinesKept, AllDeclined, Taken;
    SoundLogHasOpening(s.room);
  }

  lemma CountKeepsKnowing(s: System, tx: TxId, step: Step)
    requires Inv(s) && tx in s.posts && s.posts[tx].phase.Inserted? && step.CountDeclined?
    ensures OneHolder(AdvancePost(s, tx, step))
  {
    hide CheckRefusal, LogSound, DeclinesKept, AllDeclined, AllMembersDeclined, WithOwnDecline, Settle;
    var m := s.posts[tx].phase.message;
    if m.mtype.Decline? && AllDeclined(s.room, s.overwritten, {m.sender}) {
      CountClosesExactly(s.room, s.overwritten, s.posts[tx].sub, m);
    }
  }

  lemma OtherStepsKeepKnowing(s: System, tx: TxId, step: Step)
    requires Inv(s) && tx in s.posts
    requires var ph := s.posts[tx].phase; ph.Waiting? || ph.Locked? || ph.Closed?
    ensures OneHolder(AdvancePost(s, tx, step))
  {
    hide CheckRefusal, LogSound, DeclinesKept, AllDeclined, AllMembersDeclined, WithOwnDecline, Settle, Passed, IsNext;
  }

  lemma PostStepKeepsHolder(s: System, tx: TxId, step: Step)
    requires Inv(s) && tx in s.posts
    ensures OneHolder(AdvancePost(s, tx, step))
  {
    hide OneHolder, RoomSound, LateFits;
    match s.posts[tx].phase
    case Loaded(_, _) => if step.Check? { CheckKeepsKnowing(s, tx, step); }
    case Checked(_, _, _, _) => if step.Number? { NumberKeepsKnowing(s, tx, step); }
    case Numbered(_, _, _, _, _) => if step.InsertRow? { InsertKeepsKnowing(s, tx, step); }
    case Inserted(_, _, _, _) => if step.CountDeclined? { CountKeepsKnowing(s, tx, step); }
    case _ => OtherStepsKeepKnowing(s, tx, step);
  }

  lemma ExpiryKeepsRoomSound(r: Room, overwritten: set<AgentId>, conv: Conversation)
    requires RoomSound(r, overwritten) && (conv.state.ActiveState? ==> r.conv.state.ActiveState?)
    ensures RoomSound(r.(conv := conv), overwritten)
  {
  }

  lemma PostStepKeepsRoom(s: System, tx: TxId, step: Step)
    requires Inv(s) && tx in s.posts
    ensures var s' := AdvancePost(s, tx, step);
      RoomSound(s'.room, s'.overwritten) && s.room.parts.Keys <= s'.room.parts.Keys
  {
    hide RoomSound, LateFits, CheckRefusal, Taken;
    if s.posts[tx].phase.Closed? && step.Publish? {
      assert s.posts[tx].phase.Closed? && RoomSound(AdvancePost(s, tx, Publish(tx)).room, s.overwritten) by {
        PublishKeepsRoomSound(s, tx);
      }
    } else if s.posts[tx].phase.Loaded? || s.posts[tx].phase.Checked? {
      ExpiryKeepsRoomSound(s.room, s.overwritten, s.posts[tx].phase.conv);
    }
  }

  lemma PlansFit(agents: map<AgentId, Agent>, r: Room, call: Call)
    requires Unlocked(call)
    ensures var w := Plan(agents, r, call);
      w.event.Some? ==> !w.event.value.Posted? && Fits(r, w.event.value) && SuitsWhatItSaw(w.seen, w.event.value)
  {
    hide Decide, Above, MaxSeq, Views;
    if call.Ask? && HasRow(OneRoom(agents, r), 0, call.agent) { DecisionsFit(agents, r, call); }
  }

  lemma DecisionsFit(agents: map<AgentId, Agent>, r: Room, call: Call)
    requires Unlocked(call) && call.Ask? && call.agent in r.parts
    ensures var settled := Settle(r, call.at);
      var v := Decide(agents, settled, call.at, call.agent, call.request, call.client);
      v.Grant? ==> !v.event.Posted? && Fits(r, v.event) && SuitsWhatItSaw(r.parts, v.event)
  {
    hide InviteVerdict;
    if call.request.Invite? { InvitesAreInvites(agents, Settle(r, call.at), call); }
  }

  lemma InvitesAreInvites(agents: map<AgentId, Agent>, r: Room, call: Call)
    requires call.Ask? && call.request.Invite?
    ensures var v := InviteVerdict(agents, r, call.request.stamp, call.agent, call.request.target, call.client);
      v.Grant? ==> v.event.InviteSent? && v.event.target !in r.parts
  {
    hide FreezeRefusal;
  }

  lemma LandingKeepsRoomSound(r: Room, overwritten: set<AgentId>, w: LateWrite)
    requires RoomSound(r, overwritten) && Lands(r, w) && (w.event.Some? ==> !w.event.value.Posted?)
    ensures var r' := Landed(r, w); RoomSound(r', overwritten + Undone(r.parts, r'.parts))
  {
    hide LogSound, DeclinedBy;
    var r' := Landed(r, w);
    assert LogSound(r') by { LandedLogSound(r, w); }
    var m :| m in r.parts && r.parts[m].role.Member?;
    assert m in r'.parts && r'.parts[m].role.Member?;
    assert r'.log == r.log;
    if AllDeclined(r', overwritten + Undone(r.parts, r'.parts), {}) {
      forall a | a in r.parts && r.parts[a].role.Member? ensures a !in overwritten && DeclinedBy(r.log, a) {
        assert a in r'.parts && r'.parts[a].role.Member?;
      }
    }
  }

  lemma LandedLogSound(r: Room, w: LateWrite)
    requires LogSound(r) && Lands(r, w) && (w.event.Some? ==> !w.event.value.Posted?)
    ensures LogSound(Landed(r, w)) && Landed(r, w).log == r.log && r.parts.Keys <= Landed(r, w).parts.Keys
    ensures !w.expire ==> Landed(r, w).conv == r.conv
    ensures Landed(r, w).conv.state.ActiveState? ==> r.conv.state.ActiveState?
  {
  }

  lemma LandingKeepsKnowing(r: Room, overwritten: set<AgentId>, w: LateWrite, p: PostTx)
    requires LogSound(r) && Knows(r, overwritten, p) && Lands(r, w) && (w.event.Some? ==> !w.event.value.Posted?) && !w.expire
    ensures var r' := Landed(r, w); Knows(r', overwritten + Undone(r.parts, r'.parts), p)
  {
    hide CheckRefusal, LogSound, DeclinedBy, AllMembersDeclined, ValidatePayload;
    var r' := Landed(r, w);
    LandedLogSound(r, w);
    if AllDeclined(r', overwritten + Undone(r.parts, r'.parts), {p.sub.sender}) {
      forall a | a in r.parts && r.parts[a].role.Member?
        ensures a !in overwritten && (DeclinedBy(r.log, a) || a in {p.sub.sender})
      {
        assert a in r'.parts && r'.parts[a].role.Member?;
      }
    }
  }

  lemma LandingKeepsInv(s: System, tx: TxId)
    requires Inv(s) && tx in s.late && (s.late[tx].expire ==> s.lock.None?)
    ensures Inv(Land(s, tx))
  {
    hide RoomSound, Knows, Landed, Undone;
    var w := s.late[tx];
    if Lands(s.room, w) {
      assert LogSound(s.room) by { SoundRoom(s.room, s.overwritten); }
      LandingKeepsRoomSound(s.room, s.overwritten, w);
      LandedLogSound(s.room, w);
      if s.lock.Some? { LandingKeepsKnowing(s.room, s.overwritten, w, s.posts[s.lock.value]); }
    }
  }

  lemma SoundRoom(r: Room, overwritten: set<AgentId>)
    requires RoomSound(r, overwritten)
    ensures LogSound(r)
  {
  }

  lemma StepKeepsInv(s: System, step: Step)
    requires Inv(s)
    ensures Inv(After(s, step))
  {
    hide RoomSound, Knows, AdvancePost, Land, Plan;
    match step
    case Submit(tx, q) =>
    case ReadUnlocked(tx, agents, call) => if Unlocked(call) { PlansFit(agents, s.room, call); }
    case WriteUnlocked(tx) => if tx in s.late && (s.late[tx].expire ==> s.lock.None?) { LandingKeepsInv(s, tx); }
    case Crash(tx) =>
    case _ =>
      if step.tx in s.posts {
        PostStepKeepsHolder(s, step.tx, step);
        PostStepKeepsRoom(s, step.tx, step);
        PostStepKeepsLate(s, step.tx, step);
      }
  }

  lemma PostStepKeepsLate(s: System, tx: TxId, step: Step)
    requires Inv(s) && tx in s.posts
    ensures LateFits(AdvancePost(s, tx, step))
  {
    hide RoomSound, OneHolder, CheckRefusal, Taken, MaxSeq, CloseBy, Settle;
  }

  lemma {:induction false} EveryScheduleKeepsInv(room: Room, steps: seq<Step>)
    requires Fresh(room)
    ensures Inv(Exec(Idle(room), steps))
  {
    hide After, Inv;
    if steps == [] {
      FreshRoomIsSound(room);
    } else {
      EveryScheduleKeepsInv(room, steps[..|steps| - 1]);
      StepKeepsInv(Exec(Idle(room), steps[..|steps| - 1]), steps[|steps| - 1]);
    }
  }

  lemma FreshRoomIsSound(room: Room)
    requires Fresh(room)
    ensures Inv(Idle(room))
  {
    var w :| w in room.parts && room.parts[w].role.Member?;
    assert !DeclinedBy(room.log, w);
  }

  // --- what holds in every schedule ---

  /** For any number of concurrent posts: the committed numbers are exactly 1..n, every
      clarification after the opening names a stored earlier message, and the number a post has
      read is n + 1, so that its insertion never meets the unique constraint. */
  lemma InterleavedLogsAreGapless(room: Room, steps: seq<Step>)
    requires Fresh(room)
    ensures var s := Exec(Idle(room), steps);
      && (forall i :: 0 <= i < |s.room.log| ==> s.room.log[i].seqNo == i + 1)
      && (forall i :: 1 <= i < |s.room.log| && s.room.log[i].mtype.NeedsClarification? ==>
            1 <= s.room.log[i].payload.aboutSeq <= i)
      && (forall tx :: tx in s.posts && s.posts[tx].phase.Numbered? ==>
            s.lock == Some(tx) && s.posts[tx].phase.next == |s.room.log| + 1 && !Taken(s.room.log, s.posts[tx].phase.next))
  {
    hide Exec, CheckRefusal;
    EveryScheduleKeepsInv(room, steps);
    SoundLogHasOpening(Exec(Idle(room), steps).room);
  }

  lemma StepKeepsClosed(s: System, step: Step)
    requires Inv(s) && !s.room.conv.state.ActiveState?
    ensures After(s, step).room.log == s.room.log && !After(s, step).room.conv.state.ActiveState?
  {
    hide RoomSound, Plan, CheckRefusal, Taken, MaxSeq, CloseBy, ValidatePayload;
    match step
    case WriteUnlocked(tx) =>
      if tx in s.late && Lands(s.room, s.late[tx]) {
        assert LogSound(s.room) by { SoundRoom(s.room, s.overwritten); }
        LandedLogSound(s.room, s.late[tx]);
      }
    case _ =>
  }

  /** A conversation that is no longer active never becomes active again, and no message is ever
      committed to it. */
  lemma {:induction false} ClosedStaysClosed(room: Room, steps: seq<Step>, more: seq<Step>)
    requires Fresh(room) && !Exec(Idle(room), steps).room.conv.state.ActiveState?
    ensures var s, s' := Exec(Idle(room), steps), Exec(Idle(room), steps + more);
      s'.room.log == s.room.log && !s'.room.conv.state.ActiveState?
  {
    hide After;
    if more == [] {
      assert steps + more == steps;
    } else {
      var front := more[..|more| - 1];
      ClosedStaysClosed(room, steps, front);
      assert (steps + more)[..|steps + more| - 1] == steps + front;
      EveryScheduleKeepsInv(room, steps + front);
      StepKeepsClosed(Exec(Idle(room), steps + front), more[|more| - 1]);
    }
  }

  // --- when a closed state is replaced ---

  /** A late write that saw the conversation overdue lands on one that has closed meanwhile. */
  predicate ReplacesClosed(s: System, step: Step) {
    && step.WriteUnlocked? && step.tx in s.late && s.late[step.tx].expire && s.lock.None?
    && Lands(s.room, s.late[step.tx]) && !s.room.conv.state.ExpiredState?
  }

  lemma StepReplacesExactly(s: System, step: Step)
    requires Inv(s) && !s.room.conv.state.ActiveState?
    ensures After(s, step).room.conv != s.room.conv <==> ReplacesClosed(s, step)
    ensures ReplacesClosed(s, step) ==> After(s, step).room.conv == s.room.conv.(state := ExpiredState)
  {
    hide RoomSound, Plan, CheckRefusal, Taken, MaxSeq, CloseBy, ValidatePayload, PartsAfter;
  }

  ghost predicate NothingReplaces(room: Room, steps: seq<Step>, more: seq<Step>) {
    forall i :: 0 <= i < |more| ==> !ReplacesClosed(Exec(Idle(room), steps + more[..i]), more[i])
  }

  lemma NothingReplacesSnoc(room: Room, steps: seq<Step>, front: seq<Step>, last: Step)
    ensures NothingReplaces(room, steps, front + [last]) <==>
      NothingReplaces(room, steps, front) && !ReplacesClosed(Exec(Idle(room), steps + front), last)
  {
    hide Exec, ReplacesClosed;
    var more := front + [last];
    assert more[..|front|] == front && more[|front|] == last;
    assert forall i :: 0 <= i < |front| ==> front[..i] == more[..i] && front[i] == more[i];
  }

  /** From any closed point of any schedule, the conversation row is unchanged if and only if no
      such write has landed since; if one has, the state is expired and nothing else differs. */
  lemma {:induction false} ClosedStateIsReplacedExactly(room: Room, steps: seq<Step>, more: seq<Step>)
    requires Fresh(room) && !Exec(Idle(room), steps).room.conv.state.ActiveState?
    ensures var s, s' := Exec(Idle(room), steps), Exec(Idle(room), steps + more);
      && (s'.room.conv == s.room.conv <==> NothingReplaces(room, steps, more))
      && (s'.room.conv == s.room.conv || s'.room.conv == s.room.conv.(state := ExpiredState))
  {
    hide After, Inv, ReplacesClosed, NothingReplaces;
    if more == [] {
      assert steps + more == steps;
      assert NothingReplaces(room, steps, []) by { NothingIsReplacedYet(room, steps); }
    } else {
      var front, last := more[..|more| - 1], more[|more| - 1];
      ClosedStateIsReplacedExactly(room, steps, front);
      assert (steps + more)[..|steps + more| - 1] == steps + front && more == front + [last];
      var s := Exec(Idle(room), steps + front);
      EveryScheduleKeepsInv(room, steps + front);
      ClosedStaysClosed(room, steps, front);
      StepReplacesExactly(s, last);
      NothingReplacesSnoc(room, steps, front, last);
      if s.room.conv.state.ExpiredState? { ExpiredIsNotReplaced(s, last); }
    }
  }

  lemma NothingIsReplacedYet(room: Room, steps: seq<Step>)
    ensures NothingReplaces(room, steps, [])
  {
  }

  lemma ExpiredIsNotReplaced(s: System, step: Step)
    requires s.room.conv.state.ExpiredState?
    ensures !ReplacesClosed(s, step)
  {
  }

  /** A call stages the expiry exactly if it finds the conversation active with its clock at or
      past the deadline, and its caller is a participant that a read would let in. */
  lemma PlanExpiresExactly(agents: map<AgentId, Agent>, r: Room, call: Call)
    requires Unlocked(call)
    ensures Plan(agents, r, call).expire <==>
      && r.conv.state.ActiveState? && r.conv.expiresAt <= call.at && call.agent in r.parts
      && (call.Read? ==> r.parts[call.agent].status.Invited? || r.parts[call.agent].status.Active?)
  {
    hide Decide, Above, MaxSeq, Views, RowsFor, ReplyTo;
  }

  /** An unlocked call that reads the conversation active with its clock at or past the deadline. */
  predicate SeesOverdue(s: System, step: Step) {
    step.ReadUnlocked? && Unlocked(step.call) && s.room.conv.state.ActiveState? && s.room.conv.expiresAt <= step.call.at
  }

  lemma StepStagesExpiry(s: System, step: Step, tx: TxId)
    requires !SeesOverdue(s, step) && (tx in s.late ==> !s.late[tx].expire)
    ensures tx in After(s, step).late ==> !After(s, step).late[tx].expire
  {
    hide Plan, CheckRefusal, Taken, MaxSeq, CloseBy, ValidatePayload;
    if step.ReadUnlocked? && Unlocked(step.call) { PlanExpiresExactly(step.agents, s.room, step.call); }
  }

  lemma {:induction false} StagedExpiryWasSeen(room: Room, steps: seq<Step>, tx: TxId)
    requires forall i :: 0 <= i < |steps| ==> !SeesOverdue(Exec(Idle(room), steps[..i]), steps[i])
    ensures tx in Exec(Idle(room), steps).late ==> !Exec(Idle(room), steps).late[tx].expire
  {
    hide After, SeesOverdue;
    if steps != [] {
      var n := |steps| - 1;
      var front := steps[..n];
      assert forall i :: 0 <= i < n ==> front[..i] == steps[..i] && front[i] == steps[i];
      StagedExpiryWasSeen(room, front, tx);
      StepStagesExpiry(Exec(Idle(room), front), steps[n], tx);
    }
  }

  /** If no unlocked call reads the conversation active with its clock at or past the deadline,
      a closed conversation keeps its state in every schedule. */
  lemma UnseenDeadlineKeepsState(room: Room, steps: seq<Step>, more: seq<Step>)
    requires Fresh(room) && !Exec(Idle(room), steps).room.conv.state.ActiveState?
    requires forall i :: 0 <= i < |steps + more| ==> !SeesOverdue(Exec(Idle(room), (steps + more)[..i]), (steps + more)[i])
    ensures Exec(Idle(room), steps + more).room.conv == Exec(Idle(room), steps).room.conv
  {
    hide Exec, SeesOverdue;
    ClosedStateIsReplacedExactly(room, steps, more);
    hide After;
    forall i | 0 <= i < |more| ensures !ReplacesClosed(Exec(Idle(room), steps + more[..i]), more[i]) {
      var before := steps + more[..i];
      assert forall j :: 0 <= j < |before| ==> before[..j] == (steps + more)[..j] && before[j] == (steps + more)[j];
      if more[i].WriteUnlocked? { StagedExpiryWasSeen(room, before, more[i].tx); }
    }
  }

  /** After a committed confirm, task completion, task refusal or task cancellation no further
      message ever commits. */
  lemma TerminalMessageIsLast(room: Room, steps: seq<Step>, more: seq<Step>, i: nat)
    requires Fresh(room) && i < |Exec(Idle(room), steps).room.log|
    requires Terminal(Exec(Idle(room), steps).room.log[i].mtype)
    ensures Exec(Idle(room), steps + more).room.log == Exec(Idle(room), steps).room.log
    ensures i == |Exec(Idle(room), steps).room.log| - 1
  {
    hide Exec, OneHolder, LateFits;
    EveryScheduleKeepsInv(room, steps);
    ClosedStaysClosed(room, steps, more);
  }

  /** Every late write of the schedule lands on a row with the status it read. */
  ghost predicate WritesFindWhatTheyRead(room: Room, steps: seq<Step>) {
    forall i :: 0 <= i < |steps| && steps[i].WriteUnlocked? ==> FindsWhatItRead(Exec(Idle(room), steps[..i]), steps[i].tx)
  }

  predicate WritesStatus(w: LateWrite) {
    w.event.Some? && (w.event.value.Accepted? || w.event.value.HasLeft? || w.event.value.InviteDeclined?)
  }

  predicate FindsWhatItRead(s: System, tx: TxId) {
    tx in s.late && WritesStatus(s.late[tx]) ==>
      var a, seen := s.late[tx].event.value.agent, s.late[tx].seen;
      a in seen && a in s.room.parts && seen[a].status == s.room.parts[a].status
  }

  lemma FoundRowsAreNotUndone(s: System, tx: TxId)
    requires Inv(s) && FindsWhatItRead(s, tx) && tx in s.late
    ensures Land(s, tx).overwritten == s.overwritten
  {
    hide RoomSound, OneHolder;
  }

  lemma {:induction false} NothingIsOverwritten(room: Room, steps: seq<Step>)
    requires Fresh(room) && WritesFindWhatTheyRead(room, steps)
    ensures Exec(Idle(room), steps).overwritten == {}
  {
    hide Inv, Land, AdvancePost, Plan;
    if steps != [] {
      var n := |steps| - 1;
      var front, step := steps[..n], steps[n];
      forall i | 0 <= i < n && front[i].WriteUnlocked?
        ensures FindsWhatItRead(Exec(Idle(room), front[..i]), front[i].tx)
      {
        assert steps[i] == front[i] && front[..i] == steps[..i];
      }
      NothingIsOverwritten(room, front);
      EveryScheduleKeepsInv(room, front);
      var s := Exec(Idle(room), front);
      if step.WriteUnlocked? {
        assert FindsWhatItRead(s, step.tx);
        if step.tx in s.late { FoundRowsAreNotUndone(s, step.tx); }
      } else {
        PostStepsOverwriteNothing(s, step);
      }
    }
  }

  lemma PostStepsOverwriteNothing(s: System, step: Step)
    requires !step.WriteUnlocked?
    ensures After(s, step).overwritten == s.overwritten
  {
    hide Plan, CheckRefusal, Taken, MaxSeq, CloseBy, ValidatePayload;
  }

  /** No lost cascade: members posting declines concurrently cannot all miss that everybody has
      now declined, unless some late write replaced a declined row; and that takes a write
      landing on a row whose status changed after it was read. */
  lemma NoCascadeIsLost(room: Room, steps: seq<Step>)
    requires Fresh(room)
    ensures var s := Exec(Idle(room), steps);
      (forall a :: a in s.room.parts && s.room.parts[a].role.Member? ==> DeclinedBy(s.room.log, a) && a !in s.overwritten) ==>
        !s.room.conv.state.ActiveState?
    ensures WritesFindWhatTheyRead(room, steps) ==> Exec(Idle(room), steps).overwritten == {}
  {
    hide Exec, OneHolder, LogSound, LateFits;
    EveryScheduleKeepsInv(room, steps);
    if WritesFindWhatTheyRead(room, steps) { NothingIsOverwritten(room, steps); }
  }

  /** The decline that completes the declines closes the room if and only if every other
      member's row still says declined when it counts; one that does not was overwritten. */
  lemma LastDeclineClosesExactly(room: Room, steps: seq<Step>, tx: TxId)
    requires Fresh(room)
    requires var s := Exec(Idle(room), steps);
      && tx in s.posts && s.posts[tx].phase.Inserted? && s.posts[tx].phase.message.mtype.Decline?
      && forall a :: a in s.room.parts && s.room.parts[a].role.Member? ==> DeclinedBy(s.room.log, a) || a == s.posts[tx].sub.sender
    ensures var s := Exec(Idle(room), steps);
      var sender, s', parts := s.posts[tx].sub.sender, After(s, CountDeclined(tx)), s.room.parts;
      && tx in s'.posts && s'.posts[tx].phase.Closed?
      && (s'.posts[tx].phase.conv.state.CanceledState? <==>
            forall a :: a in parts && parts[a].role.Member? && a != sender ==> parts[a].status.Declined?)
      && (forall a :: a in parts && parts[a].role.Member? && a != sender && !parts[a].status.Declined? ==> a in s.overwritten)
  {
    hide Exec, CheckRefusal, LogSound, DeclinedBy, LateFits;
    EveryScheduleKeepsInv(room, steps);
    var s := Exec(Idle(room), steps);
    var counted := WithOwnDecline(s.room.parts, s.posts[tx].phase.message);
    var w :| w in s.room.parts && s.room.parts[w].role.Member?;
    assert w in counted && counted[w].role.Member?;
    if AllMembersDeclined(counted) {
      forall a | a in s.room.parts && s.room.parts[a].role.Member? && a != s.posts[tx].sub.sender
        ensures s.room.parts[a].status.Declined?
      {
        assert counted[a] == s.room.parts[a];
      }
    }
  }

  // --- refinement: undisturbed calls are atomic ---

  /** An unlocked call whose write lands on the rows it read does what the atomic call does. */
  lemma UndisturbedCallsAreAtomic(agents: map<AgentId, Agent>, r: Room, call: Call)
    requires Unlocked(call)
    ensures Lands(r, Plan(agents, r, call))
    ensures Landed(r, Plan(agents, r, call)) == Next(OneRoom(agents, r), call).rooms[0]
  {
    hide Decide, Above, MaxSeq, Views, RowsFor, ReplyTo;
    PlansFit(agents, r, call);
    CallsWriteHere(agents, r, call);
  }

  lemma CallsWriteHere(agents: map<AgentId, Agent>, r: Room, call: Call)
    requires Unlocked(call)
    ensures var w := OutcomeOf(OneRoom(agents, r), call).writes;
      w.Nothing? || (w.Touch? && w.c == 0)
    ensures var w := OutcomeOf(OneRoom(agents, r), call).writes;
      w.Touch? ==> w.at == call.at && Plan(agents, r, call) == LateWrite(w.event, Overdue(r, call.at), r.parts)
  {
    hide Decide, Above, MaxSeq, Views, RowsFor, ReplyTo;
  }

  /** The participant rows a post has read are still the committed ones. */
  ghost predicate Undisturbed(s: System, tx: TxId)
    requires tx in s.posts
  {
    var a, parts := s.posts[tx].sub.sender, s.room.parts;
    match s.posts[tx].phase
    case Loaded(_, row) => a in parts && row == parts[a]
    case Checked(_, row, crowd, _) => a in parts && row == parts[a] && crowd.parts == parts
    case Closed(_, row, crowd, m, counted) =>
      a in parts && row == parts[a] && crowd.parts == parts && counted == WithOwnDecline(parts, m)
    case _ => true
  }

  ghost function AtomicPost(agents: map<AgentId, Agent>, r: Room, q: Submission): Verdict
    requires q.sender in r.parts
  {
    Decide(agents, Settle(r, q.now), q.now, q.sender, Request.Post(q.mtype, q.version, q.raw, q.stamp), q.client)
  }

  /** A passed or failed check, in the order the atomic post takes them. */
  lemma CheckIsAtomic(agents: map<AgentId, Agent>, r: Room, q: Submission)
    requires q.sender in r.parts
    ensures var settled := Settle(r, q.now);
      var refusal := CheckRefusal(Crowd(agents, r.parts), settled.conv, r.log, r.parts[q.sender], q);
      if refusal.Some? then AtomicPost(agents, r, q) == Refuse(refusal.value, None)
      else
        var payload, next := ValidatePayload(q.mtype, q.version, q.raw).value, MaxSeq(r.log) + 1;
        AtomicPost(agents, r, q) ==
          if q.mtype.NeedsClarification? && payload.aboutSeq >= next then Refuse(BadSchema(q.mtype), None)
          else Grant(Posted(Message(next, q.sender, q.mtype, q.version, payload, q.stamp), CloseOnPost(settled, q.sender, q.mtype)))
  {
    hide ContentRefusal, CountSince, MaxSeq, CloseOnPost, ValidatePayload, RoleMaySend;
    var settled := Settle(r, q.now);
    assert Room(settled.conv, r.parts, r.log) == settled;
  }

  /** Whenever a post commits, in any schedule, and the participant rows it read are still the
      committed ones, it leaves the room exactly as the atomic post does: the same message, the
      same statuses, the same state. */
  lemma CommittedPostsAreAtomic(room: Room, steps: seq<Step>, tx: TxId)
    requires Fresh(room) && tx in Exec(Idle(room), steps).posts && Undisturbed(Exec(Idle(room), steps), tx)
    requires Exec(Idle(room), steps).posts[tx].phase.Closed?
    ensures var s := Exec(Idle(room), steps);
      var p := s.posts[tx];
      var verdict := AtomicPost(p.phase.crowd.agents, s.room, p.sub);
      && verdict.Grant? && verdict.event.Posted? && verdict.event.message == p.phase.message
      && After(s, Publish(tx)).room == Touched(s.room, p.sub.now, Some(verdict.event))
  {
    hide Exec, CheckRefusal, LogSound, DeclinesKept, AllDeclined, AllMembersDeclined;
    EveryScheduleKeepsInv(room, steps);
    var s := Exec(Idle(room), steps);
    SoundLogHasOpening(s.room);
    CheckIsAtomic(s.posts[tx].phase.crowd.agents, s.room, s.posts[tx].sub);
  }

  /** A post refused by its checks is one the atomic post refuses, with the same lazy expiry. */
  lemma RefusedPostsAreAtomic(room: Room, steps: seq<Step>, tx: TxId, step: Step)
    requires Fresh(room) && tx in Exec(Idle(room), steps).posts && Undisturbed(Exec(Idle(room), steps), tx)
    requires var ph := Exec(Idle(room), steps).posts[tx].phase;
      (ph.Loaded? && step.Check? && step.tx == tx) || (ph.Checked? && step == Number(tx))
    requires tx !in After(Exec(Idle(room), steps), step).posts
    ensures var s := Exec(Idle(room), steps);
      var agents := if step.Check? then step.agents else s.posts[tx].phase.crowd.agents;
      && AtomicPost(agents, s.room, s.posts[tx].sub).Refuse?
      && After(s, step).room == Settle(s.room, s.posts[tx].sub.now)
  {
    hide Exec, CheckRefusal, LogSound, DeclinesKept, AllDeclined, AllMembersDeclined, CloseOnPost;
    EveryScheduleKeepsInv(room, steps);
    var s := Exec(Idle(room), steps);
    CheckIsAtomic(if step.Check? then step.agents else s.posts[tx].phase.crowd.agents, s.room, s.posts[tx].sub);
  }
}
