/** What concurrent unlocked writes can still do: two schedules that show why the claims of
    `Interleaving` stop where they do. */
module LateWrites {
  import opened Vocabulary
  import opened Tables
  import opened Policy
  import opened Operations
  import opened Runs
  import opened Interleaving

  lemma {:induction false} ExecAppend(s: System, xs: seq<Step>, ys: seq<Step>)
    ensures Exec(s, xs + ys) == Exec(Exec(s, xs), ys)
  {
    hide After;
    if ys == [] {
      assert xs + ys == xs;
    } else {
      ExecAppend(s, xs, ys[..|ys| - 1]);
      assert (xs + ys)[..|xs + ys| - 1] == xs + ys[..|ys| - 1];
    }
  }

  lemma ExecSnoc(s: System, xs: seq<Step>, y: Step)
    ensures Exec(s, xs + [y]) == After(Exec(s, xs), y)
  {
    hide After;
    assert (xs + [y])[..|xs|] == xs;
  }

  /** A post up to, not including, its commit. */
  function Staging(tx: TxId, q: Submission, agents: map<AgentId, Agent>): seq<Step> {
    [Submit(tx, q), LockRow(tx), LoadRow(tx), Check(tx, agents), Number(tx), InsertRow(tx), CountDeclined(tx)]
  }

  ghost predicate Free(s: System, tx: TxId) {
    Inv(s) && s.lock.None? && tx !in s.posts && tx !in s.late
  }

  /** A post that has got to `phase` and holds the lock, nothing else changed. */
  function Holding(s: System, tx: TxId, q: Submission, phase: Phase): System {
    s.(lock := Some(tx), posts := s.posts[tx := PostTx(q, phase)])
  }

  /** The system while a granted post is ready to commit. */
  ghost function Staged(s: System, tx: TxId, q: Submission, agents: map<AgentId, Agent>, m: Message): System
    requires q.sender in s.room.parts
  {
    var r := s.room;
    var counted := WithOwnDecline(r.parts, m);
    Holding(s, tx, q, Closed(CloseBy(r.conv, m, counted), r.parts[q.sender], Crowd(agents, r.parts), m, counted))
  }

  lemma ExecOne(s: System, a: Step)
    ensures Exec(s, [a]) == After(s, a)
  {
    hide After;
    assert [a][..0] == [];
  }

  lemma ExecCons(s: System, a: Step, rest: seq<Step>)
    ensures Exec(s, [a] + rest) == Exec(After(s, a), rest)
  {
    hide After, Exec;
    ExecOne(s, a);
    ExecAppend(s, [a], rest);
  }

  lemma GrantsAreActive(agents: map<AgentId, Agent>, r: Room, q: Submission)
    requires q.sender in r.parts && AtomicPost(agents, r, q).Grant?
    ensures Settle(r, q.now) == r && r.conv.state.ActiveState?
  {
    hide CountSince, RoleMaySend, ValidatePayload, ContentRefusal, MaxSeq, CloseOnPost;
  }

  lemma FreeRoomNumbers(s: System, tx: TxId)
    requires Free(s, tx)
    ensures MaxSeq(s.room.log) == |s.room.log| && !Taken(s.room.log, |s.room.log| + 1)
  {
    hide OneHolder, LateFits, MaxSeq, Taken;
    SoundRoom(s.room, s.overwritten);
    SoundLogHasOpening(s.room);
  }

  lemma LockStep(s: System, tx: TxId, q: Submission)
    requires s.lock.None? && tx !in s.posts && tx !in s.late
    ensures After(After(s, Submit(tx, q)), LockRow(tx)) == Holding(s, tx, q, Locked)
  {
    hide CheckRefusal, Taken, MaxSeq, CloseBy, Plan;
  }

  lemma LoadStep(s: System, tx: TxId, q: Submission)
    requires q.sender in s.room.parts && Settle(s.room, q.now) == s.room
    ensures After(Holding(s, tx, q, Locked), LoadRow(tx)) == Holding(s, tx, q, Loaded(s.room.conv, s.room.parts[q.sender]))
  {
    hide CheckRefusal, Taken, MaxSeq, CloseBy, Plan, Settle;
  }

  lemma CheckStep(s: System, tx: TxId, q: Submission, row: Participant, agents: map<AgentId, Agent>, payload: Payload)
    requires var r := s.room;
      CheckRefusal(Crowd(agents, r.parts), r.conv, r.log, row, q).None? && ValidatePayload(q.mtype, q.version, q.raw) == Some(payload)
    ensures After(Holding(s, tx, q, Loaded(s.room.conv, row)), Check(tx, agents)) ==
      Holding(s, tx, q, Checked(s.room.conv, row, Crowd(agents, s.room.parts), payload))
  {
    hide CheckRefusal, Taken, MaxSeq, CloseBy, Plan, ValidatePayload;
  }

  lemma NumberAndInsertSteps(s: System, tx: TxId, q: Submission, row: Participant, crowd: Crowd, payload: Payload)
    requires var r := s.room; MaxSeq(r.log) == |r.log| && !Taken(r.log, |r.log| + 1)
    requires !(q.mtype.NeedsClarification? && payload.aboutSeq >= |s.room.log| + 1)
    ensures var conv, m := s.room.conv, Message(|s.room.log| + 1, q.sender, q.mtype, q.version, payload, q.stamp);
      After(After(Holding(s, tx, q, Checked(conv, row, crowd, payload)), Number(tx)), InsertRow(tx)) ==
        Holding(s, tx, q, Inserted(conv, row, crowd, m))
  {
    hide CheckRefusal, Taken, MaxSeq, CloseBy, Plan;
  }

  lemma CountStep(s: System, tx: TxId, q: Submission, row: Participant, crowd: Crowd, m: Message)
    ensures var conv, counted := s.room.conv, WithOwnDecline(s.room.parts, m);
      After(Holding(s, tx, q, Inserted(conv, row, crowd, m)), CountDeclined(tx)) ==
        Holding(s, tx, q, Closed(CloseBy(conv, m, counted), row, crowd, m, counted))
  {
    hide CheckRefusal, Taken, MaxSeq, CloseBy, Plan, WithOwnDecline;
  }

  lemma GrantsPassChecks(s: System, tx: TxId, q: Submission, agents: map<AgentId, Agent>) returns (payload: Payload)
    requires Free(s, tx) && q.sender in s.room.parts && AtomicPost(agents, s.room, q).Grant?
    ensures var r := s.room;
      && CheckRefusal(Crowd(agents, r.parts), r.conv, r.log, r.parts[q.sender], q).None?
      && ValidatePayload(q.mtype, q.version, q.raw) == Some(payload)
      && !(q.mtype.NeedsClarification? && payload.aboutSeq >= |r.log| + 1)
      && AtomicPost(agents, r, q) ==
        Grant(Posted(Message(|r.log| + 1, q.sender, q.mtype, q.version, payload, q.stamp), CloseOnPost(r, q.sender, q.mtype)))
  {
    hide Inv, CloseOnPost, ValidatePayload, AtomicPost, MaxSeq, ContentRefusal, CountSince;
    FreeRoomNumbers(s, tx);
    GrantsAreActive(agents, s.room, q);
    CheckIsAtomic(agents, s.room, q);
    payload := ValidatePayload(q.mtype, q.version, q.raw).value;
  }

  /** A post that runs uninterrupted reaches its commit with what the atomic post would write. */
  lemma UninterruptedPostStages(s: System, tx: TxId, q: Submission, agents: map<AgentId, Agent>)
    requires Free(s, tx) && q.sender in s.room.parts && AtomicPost(agents, s.room, q).Grant?
    ensures AtomicPost(agents, s.room, q).event.Posted?
    ensures Exec(s, Staging(tx, q, agents)) == Staged(s, tx, q, agents, AtomicPost(agents, s.room, q).event.message)
  {
    hide After, Exec, Holding, CheckRefusal, AtomicPost, ValidatePayload, Taken, Inv, CloseBy, CloseOnPost, WithOwnDecline, Settle, MaxSeq;
    var row, crowd := s.room.parts[q.sender], Crowd(agents, s.room.parts);
    var payload := GrantsPassChecks(s, tx, q, agents);
    GrantsAreActive(agents, s.room, q);
    FreeRoomNumbers(s, tx);
    LockStep(s, tx, q);
    LoadStep(s, tx, q);
    CheckStep(s, tx, q, row, agents, payload);
    NumberAndInsertSteps(s, tx, q, row, crowd, payload);
    CountStep(s, tx, q, row, crowd, AtomicPost(agents, s.room, q).event.message);
    ExecSeven(s, Staging(tx, q, agents));
  }

  lemma ExecFrom(s: System, steps: seq<Step>, i: nat)
    requires i < |steps|
    ensures Exec(s, steps[i..]) == Exec(After(s, steps[i]), steps[i + 1..])
  {
    hide After, Exec;
    ExecCons(s, steps[i], steps[i + 1..]);
    assert steps[i..] == [steps[i]] + steps[i + 1..];
  }

  lemma ExecSeven(s: System, steps: seq<Step>)
    requires |steps| == 7
    ensures Exec(s, steps) ==
      After(After(After(After(After(After(After(s, steps[0]), steps[1]), steps[2]), steps[3]), steps[4]), steps[5]), steps[6])
  {
    hide After;
    var s1 := After(s, steps[0]);
    var s2 := After(s1, steps[1]);
    var s3 := After(s2, steps[2]);
    var s4 := After(s3, steps[3]);
    var s5 := After(s4, steps[4]);
    var s6 := After(s5, steps[5]);
    assert steps[0..] == steps && steps[7..] == [];
    ExecFrom(s, steps, 0);
    ExecFrom(s1, steps, 1);
    ExecFrom(s2, steps, 2);
    ExecFrom(s3, steps, 3);
    ExecFrom(s4, steps, 4);
    ExecFrom(s5, steps, 5);
    ExecFrom(s6, steps, 6);
  }

  /** The system with a granted post committed. */
  ghost function Committed(s: System, q: Submission, agents: map<AgentId, Agent>): System
    requires q.sender in s.room.parts && AtomicPost(agents, s.room, q).Grant?
  {
    s.(room := Touched(s.room, q.now, Some(AtomicPost(agents, s.room, q).event)))
  }

  /** A post that runs uninterrupted commits exactly the atomic post. */
  lemma UninterruptedPostCommits(s: System, tx: TxId, q: Submission, agents: map<AgentId, Agent>)
    requires Free(s, tx) && q.sender in s.room.parts && AtomicPost(agents, s.room, q).Grant?
    ensures Exec(s, Staging(tx, q, agents) + [Publish(tx)]) == Committed(s, q, agents)
  {
    hide Exec, Inv;
    UninterruptedPostStages(s, tx, q, agents);
    ExecSnoc(s, Staging(tx, q, agents), Publish(tx));
    StagedPublishes(s, tx, q, agents);
  }

  lemma StagedPublishes(s: System, tx: TxId, q: Submission, agents: map<AgentId, Agent>)
    requires Free(s, tx) && q.sender in s.room.parts && AtomicPost(agents, s.room, q).Grant?
    requires AtomicPost(agents, s.room, q).event.Posted?
    ensures After(Staged(s, tx, q, agents, AtomicPost(agents, s.room, q).event.message), Publish(tx)) == Committed(s, q, agents)
  {
    hide CheckRefusal, RoomSound, AllMembersDeclined, ValidatePayload, MaxSeq;
    CheckIsAtomic(agents, s.room, q);
    GrantsAreActive(agents, s.room, q);
  }

  // --- the schedules ---

  function People(): map<AgentId, Agent> {
    var all := {AvailabilityRequest, Confirm, Decline};
    map[0 := Agent("a", "o", "", "", all, Enabled, 0), 1 := Agent("b", "o", "", "", all, Enabled, 0),
        2 := Agent("c", "o", "", "", all, Enabled, 0)]
  }

  function Joined(role: Role): Participant {
    Participant(role, Active, if role.Owner? then None else Some(0), 0, Some(0), 0)
  }

  /** An internal conversation of agent 0 with agents 1 and 2, all joined, to expire at 100. */
  function Talk(): Room {
    Room(
      Conversation(Internal, ActiveState, 0, 100, 0, Some({"o"})),
      map[0 := Joined(Owner), 1 := Joined(Member), 2 := Joined(Member)],
      [Message(1, 0, AvailabilityRequest, 1, Payload(0, ""), 0)])
  }

  /** The opening the talk grows from. */
  function Question(): Opening {
    Opening(0, 0, 7, "a", 0, Internal, [1, 2], AvailabilityRequest, 1, RawPayload(Some(Payload(0, ""))), Some(100), AgentTable)
  }

  function Invitations(): Room {
    NewRoom(0, 0, 0, Internal, [1, 2], Some({"o"}), Message(1, 0, AvailabilityRequest, 1, Payload(0, ""), 0), Some(100))
  }

  function Accepting(a: AgentId): Call {
    Ask(0, "b", a, 0, AcceptInvite, AgentTable)
  }

  function BothAccept(): seq<Step> {
    [ReadUnlocked(1, People(), Accepting(1)), WriteUnlocked(1), ReadUnlocked(2, People(), Accepting(2)), WriteUnlocked(2)]
  }

  lemma EveryoneSharesAnOwner()
    ensures Admit(People(), [0] + [1, 2], Internal, AgentTable) == Admitted(Some({"o"}))
  {
    var founders := [0] + [1, 2];
    var owners := OwnersOf(AgentTable, People(), founders);
    assert forall i :: 0 <= i < 3 ==> owners[i] == {"o"};
    assert UnionOf(owners) == {"o"} by { assert "o" in owners[0]; }
  }

  lemma TargetsAreSorted()
    ensures SortedTargets(0, [1, 2]) == [1, 2]
  {
    assert [1, 2][..1] == [1] && [1][..0] == [];
    assert SortedTargets(0, [1]) == [1];
    assert Insert(2, [1]) == [1, 2];
  }

  lemma QuestionPasses()
    ensures FirstUnavailable(People(), [1, 2]).None? && FirstMessageRefusal(People(), Question(), [1, 2]).None?
  {
    assert [1, 2][1..] == [2];
    hide Owners;
  }

  lemma QuestionOpens(b: Board)
    requires b == Board(People(), map[], [])
    ensures Next(b, OpenRoom(Question())).rooms == map[7 := Invitations()]
  {
    hide Admit, SortedTargets, FirstUnavailable, FirstMessageRefusal, OpeningRows, NewRoom, Settle;
    TargetsAreSorted();
    QuestionPasses();
    EveryoneSharesAnOwner();
    assert StartedSince(b.rooms, 0, Question().now - HOUR) == {};
  }

  /** An invited participant accepts without interruption. */
  lemma AcceptanceLands(s: System, tx: TxId, a: AgentId)
    requires s.late == map[] && s.lock.None? && s.posts == map[]
    requires a in s.room.parts && s.room.parts[a].status.Invited? && s.room.conv == Talk().conv
    ensures After(After(s, ReadUnlocked(tx, People(), Accepting(a))), WriteUnlocked(tx)) ==
      s.(room := s.room.(parts := s.room.parts[a := s.room.parts[a].(status := Active, joinedAt := Some(0))]))
  {
    hide People;
    var w := LateWrite(Some(Accepted(a, 0)), false, s.room.parts);
    assert Plan(People(), s.room, Accepting(a)) == w;
    hide Plan;
    assert Undone(s.room.parts, Landed(s.room, w).parts) == {};
  }

  /** The talk is reached: agent 0 opens it, and both invited agents accept. */
  lemma TalkIsReached(more: seq<Step>)
    ensures Next(Board(People(), map[], []), OpenRoom(Question())).rooms == map[7 := Invitations()]
    ensures Exec(Idle(Invitations()), BothAccept() + more) == Exec(Idle(Talk()), more)
  {
    hide Next, Plan, People, After, Accepting;
    QuestionOpens(Board(People(), map[], []));
    var steps := BothAccept();
    var s := Idle(Invitations());
    assert steps == steps[0..] && steps[4..] == [];
    AcceptanceLands(s, 1, 1);
    ExecFrom(s, steps, 0);
    ExecFrom(After(s, steps[0]), steps, 1);
    var s2 := After(After(s, steps[0]), steps[1]);
    AcceptanceLands(s2, 2, 2);
    ExecFrom(s2, steps, 2);
    ExecFrom(After(s2, steps[2]), steps, 3);
    assert Exec(s, steps) == Idle(Talk());
    hide Exec;
    ExecAppend(s, steps, more);
  }

  function Sends(now: Instant, a: AgentId, t: MessageType): Submission {
    Submission(now, now, a, t, 1, RawPayload(Some(Payload(0, ""))), AgentTable)
  }

  /** In an internal conversation an active participant whose type everybody accepts is granted
      the post, short of the rate limit. */
  lemma PlainPostIsGranted(r: Room, q: Submission, agents: map<AgentId, Agent>)
    requires q.sender in r.parts && r.parts[q.sender].status.Active?
    requires r.conv.ctype.Internal? && r.conv.state.ActiveState? && q.now < r.conv.expiresAt
    requires CountSince(r.log, q.sender, q.now - HOUR) < MAX_MESSAGES_PER_HOUR
    requires (q.mtype.Confirm? || q.mtype.Decline? || q.mtype.AvailabilityRequest?) && q.version == 1 && q.raw.fields.Some?
    requires forall a :: a in agents ==> q.mtype in agents[a].accepted
    ensures AtomicPost(agents, r, q) ==
      Grant(Posted(Message(MaxSeq(r.log) + 1, q.sender, q.mtype, 1, q.raw.fields.value, q.stamp), CloseOnPost(r, q.sender, q.mtype)))
  {
    hide MaxSeq, CloseOnPost, CountSince;
  }

  lemma CountAtMost(log: seq<Message>, a: AgentId, after: Instant)
    ensures CountSince(log, a, after) <= |log|
  {
  }

  lemma DeclineAndNoCascade(r: Room, q: Submission, agents: map<AgentId, Agent>, b: AgentId)
    requires q.raw.fields.Some? && q.sender in r.parts
    requires AtomicPost(agents, r, q) ==
      Grant(Posted(Message(MaxSeq(r.log) + 1, q.sender, Decline, 1, q.raw.fields.value, q.stamp), CloseOnPost(r, q.sender, Decline)))
    requires r.conv.state.ActiveState? && q.now < r.conv.expiresAt && |r.log| >= 1
    requires b in r.parts && b != q.sender && r.parts[b].role.Member? && !r.parts[b].status.Declined?
    ensures var r' := Touched(r, q.now, Some(AtomicPost(agents, r, q).event));
      && r'.conv == r.conv && |r'.log| == |r.log| + 1 && DeclinedBy(r'.log, q.sender)
      && (forall a :: DeclinedBy(r.log, a) ==> DeclinedBy(r'.log, a))
      && r'.parts == r.parts[q.sender := r.parts[q.sender].(status := Declined)]
  {
    hide MaxSeq, AtomicPost, DeclinedBy;
    var m := AtomicPost(agents, r, q).event.message;
    forall a ensures DeclinedBy(r.log + [m], a) <==> DeclinedBy(r.log, a) || a == q.sender { DeclinesGrow(r.log, m, a); }
    var parts := r.parts[q.sender := r.parts[q.sender].(status := Declined)];
    assert b in parts && parts[b] == r.parts[b];
  }

  const LEAVE_CALL: Call := Ask(1, "b", 1, 0, Leave, AgentTable)
  function FirstDecline(): seq<Step> {
    Staging(1, Sends(2, 1, Decline), People()) + [Publish(1)]
  }
  function SecondDecline(): seq<Step> {
    Staging(2, Sends(3, 2, Decline), People()) + [Publish(2)]
  }

  /** Agent 1's `leave` reads its row, agent 1 declines by message, the leave lands late, agent 2 declines. */
  function LostCascade(): seq<Step> {
    [ReadUnlocked(9, People(), LEAVE_CALL)] + FirstDecline() + [WriteUnlocked(9)] + SecondDecline()
  }

  lemma TalkIsFresh()
    ensures Fresh(Talk())
  {
    assert 1 in Talk().parts && Talk().parts[1].role.Member?;
  }

  lemma LeaveIsPlanned()
    ensures Exec(Idle(Talk()), [ReadUnlocked(9, People(), LEAVE_CALL)]) ==
      Idle(Talk()).(late := map[9 := LateWrite(Some(HasLeft(1)), false, Talk().parts)])
  {
    ExecOne(Idle(Talk()), ReadUnlocked(9, People(), LEAVE_CALL));
  }

  lemma DeclineCommits(s: System, tx: TxId, q: Submission, b: AgentId)
    requires Free(s, tx) && q == Sends(q.now, q.sender, Decline)
    requires var r := s.room;
      && r.conv == Talk().conv && 1 <= |r.log| < 30 && q.now < 100 && r.parts.Keys == {0, 1, 2}
      && q.sender in r.parts && r.parts[q.sender].status.Active?
      && b in r.parts && b != q.sender && r.parts[b].role.Member? && !r.parts[b].status.Declined?
    ensures var s' := Exec(s, Staging(tx, q, People()) + [Publish(tx)]);
      && s' == s.(room := s'.room)
      && s'.room.conv == s.room.conv && |s'.room.log| == |s.room.log| + 1 && DeclinedBy(s'.room.log, q.sender)
      && (forall a :: DeclinedBy(s.room.log, a) ==> DeclinedBy(s'.room.log, a))
      && s'.room.parts == s.room.parts[q.sender := s.room.parts[q.sender].(status := Declined)]
  {
    hide AtomicPost, Exec, Inv, DeclinedBy, MaxSeq, CloseOnPost;
    CountAtMost(s.room.log, q.sender, q.now - HOUR);
    PlainPostIsGranted(s.room, q, People());
    UninterruptedPostCommits(s, tx, q, People());
    DeclineAndNoCascade(s.room, q, People(), b);
  }

  /** After the first decline has been replaced by the late `leave`. */
  ghost predicate LeftInstead(s: System) {
    && s.room.conv == Talk().conv && |s.room.log| == 2 && DeclinedBy(s.room.log, 1)
    && s.room.parts == Talk().parts[1 := Talk().parts[1].(status := Left)]
    && s.lock.None? && s.posts == map[] && s.late == map[] && s.overwritten == {1}
  }

  lemma FirstDeclineIsLost()
    ensures LeftInstead(Exec(Idle(Talk()), [ReadUnlocked(9, People(), LEAVE_CALL)] + FirstDecline() + [WriteUnlocked(9)]))
  {
    hide Exec, DeclinedBy, After, Inv, People;
    TalkIsFresh();
    LeaveIsPlanned();
    var read := [ReadUnlocked(9, People(), LEAVE_CALL)];
    EveryScheduleKeepsInv(Talk(), read);
    DeclineCommits(Exec(Idle(Talk()), read), 1, Sends(2, 1, Decline), 2);
    ExecAppend(Idle(Talk()), read, FirstDecline());
    ExecSnoc(Idle(Talk()), read + FirstDecline(), WriteUnlocked(9));
    LeaveLands(Exec(Idle(Talk()), read + FirstDecline()));
  }

  /** Both members have declined by message and the conversation stays active: a late write had
      replaced the first decline. */
  lemma LateLeaveLosesTheCascade()
    ensures var s := Exec(Idle(Talk()), LostCascade());
      && (forall a :: a in s.room.parts && s.room.parts[a].role.Member? ==> DeclinedBy(s.room.log, a))
      && s.room.conv.state.ActiveState? && s.overwritten == {1}
  {
    hide Exec, DeclinedBy, After, Inv, FirstDecline, People, Fresh;
    TalkIsFresh();
    FirstDeclineIsLost();
    var before := [ReadUnlocked(9, People(), LEAVE_CALL)] + FirstDecline() + [WriteUnlocked(9)];
    EveryScheduleKeepsInv(Talk(), before);
    DeclineCommits(Exec(Idle(Talk()), before), 2, Sends(3, 2, Decline), 1);
    ExecAppend(Idle(Talk()), before, SecondDecline());
  }

  lemma LeaveLands(s: System)
    requires s.late == map[9 := LateWrite(Some(HasLeft(1)), false, Talk().parts)]
    requires s.room.parts == Talk().parts[1 := Talk().parts[1].(status := Declined)] && s.overwritten == {}
    ensures After(s, WriteUnlocked(9)) ==
      s.(room := s.room.(parts := Talk().parts[1 := Talk().parts[1].(status := Left)]), late := map[], overwritten := {1})
  {
  }

  const POLL: Call := Read(100, "a", 0, 0, 1)

  /** A confirm reaches its commit at 99; a poll at 100 reads the conversation as overdue; the
      confirm commits. */
  function Completing(): seq<Step> {
    Staging(1, Sends(99, 1, Confirm), People()) + [ReadUnlocked(9, People(), POLL)] + [Publish(1)]
  }

  lemma PollIsPlanned(s: System)
    requires s.room == Talk() && 9 !in s.posts && 9 !in s.late
    ensures After(s, ReadUnlocked(9, People(), POLL)) == s.(late := s.late[9 := LateWrite(None, true, Talk().parts)])
  {
    assert Above(Talk().log, 1) == [];
  }

  lemma ConfirmIsStaged(s: System)
    requires s == Exec(Idle(Talk()), Staging(1, Sends(99, 1, Confirm), People()))
    ensures s.room == Talk() && s.lock == Some(1) && s.late == map[] && s.posts.Keys == {1}
    ensures s.posts[1].phase.Closed? && s.posts[1].phase.conv.state == CompletedState
  {
    hide AtomicPost, Exec, Inv, CloseOnPost, MaxSeq;
    TalkIsFresh();
    FreshRoomIsSound(Talk());
    CountAtMost(Talk().log, 1, 99 - HOUR);
    PlainPostIsGranted(Talk(), Sends(99, 1, Confirm), People());
    UninterruptedPostStages(Idle(Talk()), 1, Sends(99, 1, Confirm), People());
  }

  /** The unlocked expiry write replaces `completed`: the state is not final, only never active again. */
  lemma LateExpiryReplacesCompletion()
    ensures Exec(Idle(Talk()), Completing()).room.conv.state == CompletedState
    ensures Exec(Idle(Talk()), Completing() + [WriteUnlocked(9)]).room.conv.state == ExpiredState
  {
    hide Exec, Plan, People, CheckRefusal, Taken, MaxSeq, CloseBy, Staging, Talk;
    var staging := Staging(1, Sends(99, 1, Confirm), People());
    var s := Exec(Idle(Talk()), staging);
    ConfirmIsStaged(s);
    ExecSnoc(Idle(Talk()), staging, ReadUnlocked(9, People(), POLL));
    PollIsPlanned(s);
    ExecSnoc(Idle(Talk()), staging + [ReadUnlocked(9, People(), POLL)], Publish(1));
    ExecSnoc(Idle(Talk()), Completing(), WriteUnlocked(9));
  }

  const REFUSING: Call := Ask(0, "b", 1, 0, DeclineInvite, AgentTable)

  /** Agent 1's acceptance reads the invitation, agent 1 declines it, the acceptance lands late. */
  const REVIVAL: seq<Step> :=
    [ReadUnlocked(1, People(), Accepting(1)), ReadUnlocked(2, People(), REFUSING), WriteUnlocked(2), WriteUnlocked(1)]

  lemma AcceptanceIsPlanned()
    ensures Plan(People(), Invitations(), Accepting(1)) == LateWrite(Some(Accepted(1, 0)), false, Invitations().parts)
  {
    hide People;
  }

  lemma RefusalIsPlanned()
    ensures Plan(People(), Invitations(), REFUSING) == LateWrite(Some(InviteDeclined(1)), false, Invitations().parts)
  {
    hide People;
  }

  lemma InvitationPlans(s: System)
    requires s == Idle(Invitations())
    ensures After(After(s, REVIVAL[0]), REVIVAL[1]) ==
      s.(late := map[1 := LateWrite(Some(Accepted(1, 0)), false, s.room.parts),
                     2 := LateWrite(Some(InviteDeclined(1)), false, s.room.parts)])
  {
    hide People, Plan, Invitations;
    AcceptanceIsPlanned();
    RefusalIsPlanned();
  }

  /** The late acceptance makes the agent active again that had declined the invitation. */
  lemma LateAcceptanceRevives()
    ensures var s := Exec(Idle(Invitations()), REVIVAL[..3]); 1 in s.room.parts && s.room.parts[1].status.Declined?
    ensures var s := Exec(Idle(Invitations()), REVIVAL); 1 in s.room.parts && s.room.parts[1].status.Active?
  {
    hide Plan, People, Accepting;
    var s := Idle(Invitations());
    InvitationPlans(s);
    var s2 := After(After(s, REVIVAL[0]), REVIVAL[1]);
    var s3 := After(s2, REVIVAL[2]);
    assert s3.room.parts[1].status.Declined? && 1 in s3.late && s3.late[1] == s2.late[1] && s3.lock.None?;
    assert After(s3, REVIVAL[3]).room.parts[1].status.Active?;
    hide After;
    RunsInOrder(s);
  }

  lemma RunsInOrder(s: System)
    ensures Exec(s, REVIVAL[..3]) == After(After(After(s, REVIVAL[0]), REVIVAL[1]), REVIVAL[2])
    ensures Exec(s, REVIVAL) == After(Exec(s, REVIVAL[..3]), REVIVAL[3])
  {
    hide After, People, Accepting;
    ExecOne(s, REVIVAL[0]);
    ExecSnoc(s, REVIVAL[..1], REVIVAL[1]);
    ExecSnoc(s, REVIVAL[..2], REVIVAL[2]);
    assert REVIVAL[..1] == [REVIVAL[0]] && REVIVAL[..2] == REVIVAL[..1] + [REVIVAL[1]] && REVIVAL[..3] == REVIVAL[..2] + [REVIVAL[2]];
    ExecSnoc(s, REVIVAL[..3], REVIVAL[3]);
    assert REVIVAL == REVIVAL[..3] + [REVIVAL[3]];
  }
}
