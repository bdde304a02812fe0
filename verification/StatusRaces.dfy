/** Membership statuses in the interleaved schedules: when a status moves back, and who moves it. */
module StatusRaces {
  import opened Vocabulary
  import opened Tables
  import opened Policy
  import opened Operations
  import opened Runs
  import opened Lifecycle
  import opened Interleaving

  /** The status a step writes, into whose row, and the status that row had when it was read. */
  datatype StatusWrite = StatusWrite(agent: AgentId, status: MemberStatus, read: MemberStatus)

  function WriteOf(s: System, step: Step): Option<StatusWrite> {
    match step
    case WriteUnlocked(tx) =>
      if tx in s.late && WritesStatus(s.late[tx]) && s.late[tx].event.value.agent in s.late[tx].seen
         && !(s.late[tx].expire && s.lock.Some?)
      then
        var ev := s.late[tx].event.value;
        Some(StatusWrite(ev.agent, if ev.Accepted? then Active else if ev.HasLeft? then Left else Declined,
                         s.late[tx].seen[ev.agent].status))
      else None
    case Publish(tx) =>
      if tx in s.posts && s.posts[tx].phase.Closed? && s.posts[tx].phase.message.mtype.Decline?
      then Some(StatusWrite(s.posts[tx].phase.message.sender, Declined, s.posts[tx].phase.row.status))
      else None
    case _ => None
  }

  // --- whoever has joined is never invited again ---

  /** A leave, or a post past its first read, works on a row that was active and is not invited now. */
  ghost predicate JoinedStay(s: System) {
    && (forall tx :: tx in s.late && s.late[tx].event.Some? && s.late[tx].event.value.HasLeft? ==>
          var a := s.late[tx].event.value.agent; a in s.room.parts && !s.room.parts[a].status.Invited?)
    && (forall tx :: tx in s.posts && !s.posts[tx].phase.Waiting? && !s.posts[tx].phase.Locked? ==>
          var a := s.posts[tx].sub.sender;
          s.posts[tx].phase.row.status.Active? ==> a in s.room.parts && !s.room.parts[a].status.Invited?)
  }

  ghost predicate NoneInvitedAgain(parts: map<AgentId, Participant>, parts': map<AgentId, Participant>) {
    forall a :: a in parts && !parts[a].status.Invited? ==> a in parts' && !parts'[a].status.Invited?
  }

  lemma LandingInvitesNobodyAgain(r: Room, w: LateWrite)
    requires Lands(r, w) && (w.event.Some? ==> !w.event.value.Posted?)
    ensures NoneInvitedAgain(r.parts, Landed(r, w).parts)
  {
  }

  lemma StepInvitesNobodyAgain(s: System, step: Step)
    requires LateFits(s)
    ensures NoneInvitedAgain(s.room.parts, After(s, step).room.parts)
  {
    hide Plan, CheckRefusal, Taken, MaxSeq, CloseBy, ValidatePayload, Landed, Lands;
    if step.WriteUnlocked? && step.tx in s.late && Lands(s.room, s.late[step.tx]) {
      LandingInvitesNobodyAgain(s.room, s.late[step.tx]);
    }
  }

  lemma ReadingKeepsJoined(s: System, tx: TxId, agents: map<AgentId, Agent>, call: Call)
    requires JoinedStay(s) && Unlocked(call) && tx !in s.late
    ensures JoinedStay(s.(late := s.late[tx := Plan(agents, s.room, call)]))
  {
    PlansFit(agents, s.room, call);
    PlansSee(agents, s.room, call);
    hide Plan;
  }

  lemma LandingKeepsJoined(s: System, tx: TxId)
    requires JoinedStay(s) && LateFits(s) && tx in s.late
    ensures JoinedStay(Land(s, tx))
  {
    hide Landed, Lands, Undone;
    if Lands(s.room, s.late[tx]) { LandingInvitesNobodyAgain(s.room, s.late[tx]); }
  }

  lemma PostStepKeepsJoined(s: System, tx: TxId, step: Step)
    requires JoinedStay(s) && LateFits(s) && tx in s.posts
    ensures JoinedStay(AdvancePost(s, tx, step))
  {
    hide CheckRefusal, Taken, MaxSeq, CloseBy, ValidatePayload, Settle;
  }

  lemma StepKeepsJoined(s: System, step: Step)
    requires Inv(s) && JoinedStay(s)
    ensures JoinedStay(After(s, step))
  {
    hide Plan, AdvancePost, Land, RoomSound, OneHolder, LateFits;
    match step
    case ReadUnlocked(tx, agents, call) =>
      if Unlocked(call) && tx !in s.late { ReadingKeepsJoined(s, tx, agents, call); }
    case WriteUnlocked(tx) => if tx in s.late { LandingKeepsJoined(s, tx); }
    case Submit(_, _) =>
    case Crash(_) =>
    case _ => if step.tx in s.posts { PostStepKeepsJoined(s, step.tx, step); }
  }

  lemma PlansSee(agents: map<AgentId, Agent>, r: Room, call: Call)
    requires Unlocked(call)
    ensures Plan(agents, r, call).seen == r.parts
  {
    hide OutcomeOf;
  }

  lemma {:induction false} EveryScheduleKeepsJoined(room: Room, steps: seq<Step>)
    requires Fresh(room)
    ensures JoinedStay(Exec(Idle(room), steps))
  {
    hide After, Inv;
    if steps != [] {
      var front := steps[..|steps| - 1];
      EveryScheduleKeepsJoined(room, front);
      EveryScheduleKeepsInv(room, front);
      StepKeepsJoined(Exec(Idle(room), front), steps[|steps| - 1]);
    }
  }

  // --- when a status moves back ---

  /** A write lands on a row that has left or declined since, and writes something else. */
  predicate Reverts(s: System, step: Step, a: AgentId) {
    var w := WriteOf(s, step);
    && w.Some? && w.value.agent == a && a in s.room.parts
    && (s.room.parts[a].status.Left? || s.room.parts[a].status.Declined?) && s.room.parts[a].status != w.value.status
  }

  lemma LandingMovesStatuses(r: Room, w: LateWrite, a: AgentId)
    requires Lands(r, w) && (w.event.Some? ==> !w.event.value.Posted?) && a in r.parts
    ensures var r' := Landed(r, w);
      && a in r'.parts
      && r'.parts[a].status ==
           (if WritesStatus(w) && w.event.value.agent == a
            then if w.event.value.Accepted? then Active else if w.event.value.HasLeft? then Left else Declined
            else r.parts[a].status)
  {
  }

  /** A status is what the step wrote into its row, or what it was. */
  lemma StepWritesStatus(s: System, step: Step, a: AgentId)
    requires Inv(s) && a in s.room.parts
    ensures var s', w := After(s, step), WriteOf(s, step);
      && a in s'.room.parts
      && s'.room.parts[a].status == if w.Some? && w.value.agent == a then w.value.status else s.room.parts[a].status
  {
    hide Plan, CheckRefusal, Taken, MaxSeq, CloseBy, ValidatePayload, RoomSound, Landed, Undone, Settle;
    if step.WriteUnlocked? && step.tx in s.late {
      if Lands(s.room, s.late[step.tx]) { LandingMovesStatuses(s.room, s.late[step.tx], a); }
    }
  }

  /** What a write read: accepting and declining an invitation an invited row, leaving and
      declining by message an active one, which is not invited now either. */
  lemma WritesReadJoinable(s: System, step: Step)
    requires Inv(s) && JoinedStay(s) && WriteOf(s, step).Some?
    ensures var w := WriteOf(s, step).value;
      && w.agent in s.room.parts && !w.status.Invited? && (w.read.Invited? || w.read.Active?)
      && (w.status.Active? ==> w.read.Invited?) && (w.status.Left? ==> w.read.Active?)
      && (w.read.Active? ==> !s.room.parts[w.agent].status.Invited?)
  {
    hide Plan, CheckRefusal, Taken, MaxSeq, CloseBy, ValidatePayload, RoomSound, Landed, Undone, Settle, Passed;
    if step.Publish? {
      ClosedRowsAreActive(s, step.tx);
    }
  }

  lemma ClosedRowsAreActive(s: System, tx: TxId)
    requires Inv(s) && tx in s.posts && s.posts[tx].phase.Closed?
    ensures var p := s.posts[tx]; p.phase.row.status.Active? && p.phase.message.sender == p.sub.sender && p.sub.sender in s.room.parts
  {
    hide RoomSound, LateFits, CountSince, ContentRefusal, ValidatePayload, Settle, AllDeclined;
    assert Knows(s.room, s.overwritten, s.posts[tx]);
  }

  /** In any schedule a status moves back in a step if and only if that step writes another
      status into a row that has left or declined since the writer read it; every other step
      moves it at most one step forward. */
  lemma StatusMovesBackExactly(room: Room, steps: seq<Step>, step: Step, a: AgentId)
    requires Fresh(room) && a in Exec(Idle(room), steps).room.parts
    ensures var s := Exec(Idle(room), steps);
      var s' := After(s, step);
      && a in s'.room.parts
      && (!OneStep(s.room.parts[a].status, s'.room.parts[a].status) <==> Reverts(s, step, a))
      && (Reverts(s, step, a) ==> WriteOf(s, step).value.read != s.room.parts[a].status)
  {
    hide Exec, After, Inv, JoinedStay, WriteOf;
    EveryScheduleKeepsInv(room, steps);
    EveryScheduleKeepsJoined(room, steps);
    var s := Exec(Idle(room), steps);
    StepWritesStatus(s, step, a);
    if WriteOf(s, step).Some? { WritesReadJoinable(s, step); }
  }

  /** The condition over a whole schedule: every status write finds the status it read. */
  ghost predicate StatusWritesFindWhatTheyRead(room: Room, steps: seq<Step>) {
    forall i :: 0 <= i < |steps| ==> FindsItsRow(Exec(Idle(room), steps[..i]), steps[i])
  }

  predicate FindsItsRow(s: System, step: Step) {
    var w := WriteOf(s, step);
    w.Some? && w.value.agent in s.room.parts ==> s.room.parts[w.value.agent].status == w.value.read
  }

  /** Then statuses only move forward, and left and declined are final, in every schedule too. */
  lemma {:induction false} StatusesMoveForward(room: Room, steps: seq<Step>, more: seq<Step>, a: AgentId)
    requires Fresh(room) && a in Exec(Idle(room), steps).room.parts && StatusWritesFindWhatTheyRead(room, steps + more)
    ensures var s, s' := Exec(Idle(room), steps), Exec(Idle(room), steps + more);
      a in s'.room.parts && Forward(s.room.parts[a].status, s'.room.parts[a].status)
  {
    hide After, WriteOf, Reverts;
    if more == [] {
      assert steps + more == steps;
    } else {
      var n := |more| - 1;
      var front, all := more[..n], steps + more;
      assert all[..|all| - 1] == steps + front && all[|all| - 1] == more[n];
      assert StatusWritesFindWhatTheyRead(room, steps + front) by {
        hide Exec, FindsItsRow;
        assert forall i :: 0 <= i < |steps + front| ==> (steps + front)[..i] == all[..i] && (steps + front)[i] == all[i];
      }
      StatusesMoveForward(room, steps, front, a);
      StatusMovesBackExactly(room, steps + front, more[n], a);
      var s := Exec(Idle(room), steps + front);
      assert FindsItsRow(Exec(Idle(room), all[..|all| - 1]), all[|all| - 1]);
      FoundRowsDoNotRevert(s, more[n], a);
    }
  }

  lemma FoundRowsDoNotRevert(s: System, step: Step, a: AgentId)
    requires FindsItsRow(s, step) && (Reverts(s, step, a) ==> WriteOf(s, step).value.read != s.room.parts[a].status)
    ensures !Reverts(s, step, a)
  {
    hide WriteOf;
  }

  // --- who writes ---

  lemma PlansWriteOwnStatus(agents: map<AgentId, Agent>, r: Room, call: Call)
    requires Unlocked(call) && WritesStatus(Plan(agents, r, call))
    ensures Plan(agents, r, call).event.value.agent == call.agent
  {
    hide InviteVerdict, Above, MaxSeq, Views, RowsFor, ReplyTo;
    if call.Ask? && call.request.Invite? { InvitesAreInvites(agents, Settle(r, call.at), call); }
  }

  predicate Reads(step: Step, tx: TxId, a: AgentId) {
    step.ReadUnlocked? && step.tx == tx && Unlocked(step.call) && step.call.agent == a
  }

  lemma StepPlansOwnStatus(s: System, step: Step, tx: TxId)
    requires tx in After(s, step).late && WritesStatus(After(s, step).late[tx])
    ensures (tx in s.late && s.late[tx] == After(s, step).late[tx]) || Reads(step, tx, After(s, step).late[tx].event.value.agent)
  {
    hide Plan, CheckRefusal, Taken, MaxSeq, CloseBy, ValidatePayload, Landed, Lands, Settle, Undone;
    if step.ReadUnlocked? && step.tx == tx && Unlocked(step.call) && tx !in s.late && tx !in s.posts {
      PlansWriteOwnStatus(step.agents, s.room, step.call);
    }
  }

  /** A late status write was decided by a call of the row's own agent: nobody else moves a
      status, forward or back. */
  lemma {:induction false} OnlyTheAgentItselfWrites(room: Room, steps: seq<Step>, tx: TxId)
    requires tx in Exec(Idle(room), steps).late && WritesStatus(Exec(Idle(room), steps).late[tx])
    ensures exists i :: 0 <= i < |steps| && Reads(steps[i], tx, Exec(Idle(room), steps).late[tx].event.value.agent)
  {
    hide After, Reads;
    var n := |steps| - 1;
    var front := steps[..n];
    StepPlansOwnStatus(Exec(Idle(room), front), steps[n], tx);
    if !Reads(steps[n], tx, Exec(Idle(room), steps).late[tx].event.value.agent) {
      OnlyTheAgentItselfWrites(room, front, tx);
      var i :| 0 <= i < n && Reads(front[i], tx, Exec(Idle(room), steps).late[tx].event.value.agent);
      assert steps[i] == front[i];
    }
  }
}
