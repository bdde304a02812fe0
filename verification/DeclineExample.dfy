/** A run in which every member has declined and the last message is a decline, yet the
    conversation stays active: declining an invitation does not cascade. */
module DeclineExample {
  import opened Vocabulary
  import opened Text
  import opened Tables
  import opened Policy
  import opened Operations
  import opened Runs
  import opened Integrity
  import opened StateLog

  const TYPES := [AvailabilityRequest, Decline]
  const ANN := Agent("a", "o", "", "Ann", TypesIn(TYPES), Enabled, 0)
  const BEN := Agent("b", "p", "", "Ben", TypesIn(TYPES), Enabled, 0)
  const CID := Agent("c", "q", "", "Cid", TypesIn(TYPES), Enabled, 0)
  const PEOPLE: map<AgentId, Agent> := map[1 := ANN, 2 := BEN, 3 := CID]
  const FIELDS := RawPayload(Some(Payload(0, "")))

  const ENROLMENTS: seq<Call> := [
    Enrol(Enrolment(0, 1, "a", "o", "", "Ann", TYPES)),
    Enrol(Enrolment(0, 2, "b", "p", "", "Ben", TYPES)),
    Enrol(Enrolment(0, 3, "c", "q", "", "Cid", TYPES))]

  const QUESTION := Opening(0, 0, 7, "a", 1, Open, [2, 3], AvailabilityRequest, 1, FIELDS, None, AgentTable)
  const REPLIES: seq<Call> := [
    OpenRoom(QUESTION),
    Ask(1, "b", 2, 7, AcceptInvite, AgentTable),
    Ask(2, "b", 2, 7, Post(Decline, 1, FIELDS, 2), AgentTable),
    Ask(3, "c", 3, 7, DeclineInvite, AgentTable)]

  const HOST := Participant(Owner, Active, None, 0, Some(0), 0)
  const GUEST := NewMember(1, 0)
  const CONV := Conversation(Open, ActiveState, 1, 7 * DAY, 0, None)
  const ASKED := Message(1, 1, AvailabilityRequest, 1, Payload(0, ""), 0)
  const REFUSED := Message(2, 2, Decline, 1, Payload(0, ""), 2)
  const OPENED := Room(CONV, map[1 := HOST, 2 := GUEST, 3 := GUEST], [ASKED])
  const JOINED := OPENED.(parts := OPENED.parts[2 := GUEST.(status := Active, joinedAt := Some(1))])
  const ANSWERED := Room(CONV, JOINED.parts[2 := JOINED.parts[2].(status := Declined)], [ASKED, REFUSED])
  const ENDED := ANSWERED.(parts := ANSWERED.parts[3 := GUEST.(status := Declined)])

  ghost predicate Is(b: Board, agents: map<AgentId, Agent>, rooms: map<ConversationId, Room>) {
    b.agents == agents && b.rooms == rooms
  }

  lemma Enrolled(b: Board, id: AgentId, row: Agent)
    requires id !in b.agents && row.status.Enabled? && row.boundAt == 0 && row.accepted == TypesIn(TYPES)
    requires Strip(row.sub) == row.sub && row.sub != ""
    requires Strip(row.displayName) == row.displayName && 1 <= |row.displayName| <= MAX_DISPLAY_NAME_LENGTH
    requires forall a :: a in b.agents ==> b.agents[a].sub != row.sub
    ensures var q := Enrolment(0, id, row.sub, row.ownerSub, row.ownerEmail, row.displayName, TYPES);
      Is(Next(b, Enrol(q)), b.agents[id := row], b.rooms)
  {
    hide Strip, TypesIn;
  }

  lemma NoOuterSpace(s: string)
    requires s != "" && !IsSpace(s[0]) && !IsSpace(s[|s| - 1])
    ensures Strip(s) == s
  {
  }

  lemma RunOneMore(b: Board, calls: seq<Call>, call: Call)
    ensures RunFrom(b, calls + [call]) == Next(RunFrom(b, calls), call)
  {
    hide Next;
    assert (calls + [call])[..|calls|] == calls;
  }

  lemma NamesAreStripped()
    ensures forall row :: row in {ANN, BEN, CID} ==> Strip(row.sub) == row.sub && Strip(row.displayName) == row.displayName
  {
    hide Strip, TypesIn;
    forall row | row in {ANN, BEN, CID}
      ensures Strip(row.sub) == row.sub && Strip(row.displayName) == row.displayName
    {
      NoOuterSpace(row.sub);
      NoOuterSpace(row.displayName);
    }
  }

  lemma EveryoneEnrolled()
    ensures Is(Run(ENROLMENTS), PEOPLE, map[])
  {
    hide Next, Strip, RunFrom;
    var e1, e2, e3 := ENROLMENTS[0], ENROLMENTS[1], ENROLMENTS[2];
    RunOneMore(EMPTY_BOARD, [], e1);
    RunOneMore(EMPTY_BOARD, [e1], e2);
    RunOneMore(EMPTY_BOARD, [e1, e2], e3);
    assert [] + [e1] == [e1] && [e1] + [e2] == [e1, e2] && [e1, e2] + [e3] == ENROLMENTS;
    assert RunFrom(EMPTY_BOARD, []) == EMPTY_BOARD by { NoCalls(EMPTY_BOARD); }
    NamesAreStripped();
    hide TypesIn;
    Enrolled(EMPTY_BOARD, 1, ANN);
    Enrolled(RunFrom(EMPTY_BOARD, [e1]), 2, BEN);
    Enrolled(RunFrom(EMPTY_BOARD, [e1, e2]), 3, CID);
  }

  lemma NoCalls(b: Board)
    ensures RunFrom(b, []) == b
  {
  }

  lemma TargetsSorted()
    ensures SortedTargets(1, [2, 3]) == [2, 3]
  {
    assert [2, 3][..1] == [2] && [2][..0] == [];
    assert SortedTargets(1, [2]) == [2];
    assert Insert(3, [2]) == [2, 3];
  }

  lemma FirstMessagePasses()
    ensures FirstMessageRefusal(PEOPLE, QUESTION, [2, 3]).None?
  {
  }

  lemma TargetsAvailable()
    ensures FirstUnavailable(PEOPLE, [2, 3]).None?
  {
    NoneUnavailable(PEOPLE, [2, 3]);
  }

  lemma FoundersSeated()
    ensures FounderRows(1, [2, 3], 0, 0) == OPENED.parts
  {
  }

  lemma AnyoneMayTalkOpenly()
    ensures Admit(PEOPLE, [1] + [2, 3], Open, AgentTable) == Admitted(None)
  {
  }

  lemma RoomOpens(b: Board)
    requires Is(b, PEOPLE, map[])
    ensures Is(Next(b, REPLIES[0]), PEOPLE, map[7 := OPENED])
  {
    hide SortedTargets, FirstUnavailable, FirstMessageRefusal, OpeningRows, Admit, FounderRows, Settle;
    TargetsSorted();
    TargetsAvailable();
    FirstMessagePasses();
    AnyoneMayTalkOpenly();
    FoundersSeated();
    assert StartedSince(b.rooms, 1, QUESTION.now - HOUR) == {};
  }

  lemma InviteAccepted(b: Board)
    requires Is(b, PEOPLE, map[7 := OPENED])
    ensures Is(Next(b, REPLIES[1]), PEOPLE, map[7 := JOINED])
  {
    hide PostVerdict, InviteVerdict;
  }

  lemma DeclineGranted()
    ensures PostVerdict(PEOPLE, JOINED, 2, 2, Decline, 1, FIELDS, 2, AgentTable) == Grant(Posted(REFUSED, None))
  {
    assert CountSince([ASKED], 2, 2 - HOUR) == 0;
    assert MaxSeq([ASKED]) == 1;
    assert Others(PEOPLE, JOINED.parts, 2, Active) == {1};
    assert ContentRefusal(PEOPLE, JOINED, 2, Decline, true, AgentTable).None?;
    assert !AllMembersDeclined(ANSWERED.parts) by { assert ANSWERED.parts[3].status.Invited?; }
    assert CloseOnPost(JOINED, 2, Decline).None?;
    hide ContentRefusal, CloseOnPost, CountSince, MaxSeq;
  }

  lemma DeclinePosted(b: Board)
    requires Is(b, PEOPLE, map[7 := JOINED])
    ensures Is(Next(b, REPLIES[2]), PEOPLE, map[7 := ANSWERED])
  {
    DeclineGranted();
    hide PostVerdict, InviteVerdict;
    assert Settle(JOINED, 2) == JOINED;
    assert Evolve(JOINED, Posted(REFUSED, None)) == ANSWERED;
  }

  lemma InviteRefused(b: Board)
    requires Is(b, PEOPLE, map[7 := ANSWERED])
    ensures Is(Next(b, REPLIES[3]), PEOPLE, map[7 := ENDED])
  {
    hide PostVerdict, InviteVerdict;
  }

  /** The reachable state: all declined, the last message a decline, the conversation active. */
  lemma DecliningAnInvitationDoesNotCancel()
    ensures var b := RunFrom(Run(ENROLMENTS), REPLIES);
      7 in b.rooms && DeclinedByAll(b.rooms[7]) && b.rooms[7].conv.state.ActiveState?
  {
    hide Next, RunFrom;
    var b := Run(ENROLMENTS);
    var e1, e2, e3, e4 := REPLIES[0], REPLIES[1], REPLIES[2], REPLIES[3];
    RunOneMore(b, [], e1);
    RunOneMore(b, [e1], e2);
    RunOneMore(b, [e1, e2], e3);
    RunOneMore(b, [e1, e2, e3], e4);
    assert [] + [e1] == [e1] && [e1] + [e2] == [e1, e2] && [e1, e2] + [e3] == [e1, e2, e3] && [e1, e2, e3] + [e4] == REPLIES;
    NoCalls(b);
    EveryoneEnrolled();
    RoomOpens(b);
    InviteAccepted(RunFrom(b, [e1]));
    DeclinePosted(RunFrom(b, [e1, e2]));
    InviteRefused(RunFrom(b, [e1, e2, e3]));
    assert ENDED.parts[2].role.Member?;
  }
}
