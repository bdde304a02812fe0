/** The audit trail is a complete event source: folding its rows rebuilds the tables. */
module AuditTrail {
  import opened Vocabulary
  import opened StateMachine
  import opened Tables
  import opened Policy
  import opened Operations
  import opened Runs
  import opened Integrity

  datatype MessageView = MessageView(seqNo: nat, mtype: MessageType, sender: AgentId)

  /** What the trail tells of a room: everything but payloads, timestamps and read cursors. */
  datatype RoomView = RoomView(
    ctype: ConversationType, state: ConversationState, createdBy: AgentId, snapshot: Option<set<string>>,
    members: map<AgentId, MemberView>, messages: seq<MessageView>)

  function MessageViews(log: seq<Message>): seq<MessageView> {
    seq(|log|, i requires 0 <= i < |log| => MessageView(log[i].seqNo, log[i].mtype, log[i].sender))
  }

  function ViewOf(r: Room): RoomView {
    RoomView(r.conv.ctype, r.conv.state, r.conv.createdBy, r.conv.snapshot, Views(r.parts), MessageViews(r.log))
  }

  function ViewsOf(rooms: map<ConversationId, Room>): map<ConversationId, RoomView> {
    map c | c in rooms :: ViewOf(rooms[c])
  }

  // --- the fold, which sees audit rows only ---

  function Founded(row: AuditRow): RoomView
    requires row.action.ConversationStart? && row.agent.Some?
  {
    var a := row.agent.value;
    RoomView(row.action.ctype, ActiveState, a, row.action.snapshot,
             (map t | t in row.action.targets :: MemberView(Member, Invited, Some(a)))[a := MemberView(Owner, Active, None)],
             [])
  }

  function SetStatus(v: RoomView, a: AgentId, status: MemberStatus): RoomView {
    if a in v.members then v.(members := v.members[a := v.members[a].(status := status)]) else v
  }

  function Reread(v: RoomView, row: AuditRow): RoomView {
    if row.action.ConversationExpire? then v.(state := ExpiredState)
    else if row.agent.None? then v
    else
      var a := row.agent.value;
      match row.action
      case ConversationClose(state, _) => v.(state := state)
      case MessagePost(n, t) => v.(messages := v.messages + [MessageView(n, t, a)])
      case ParticipantInvite(inviter) => v.(members := v.members[a := MemberView(Member, Invited, Some(inviter))])
      case ParticipantAccept => SetStatus(v, a, Active)
      case ParticipantDeclineInvite => SetStatus(v, a, Declined)
      case ParticipantDecline => SetStatus(v, a, Declined)
      case ParticipantLeave => SetStatus(v, a, Left)
      case _ => v
  }

  function RereadAll(v: RoomView, rows: seq<AuditRow>): RoomView
    decreases |rows|
  {
    if rows == [] then v else RereadAll(Reread(v, rows[0]), rows[1..])
  }

  function ReplayRow(m: map<ConversationId, RoomView>, row: AuditRow): map<ConversationId, RoomView> {
    if row.conversation.None? then m
    else
      var c := row.conversation.value;
      if row.action.ConversationStart? && row.agent.Some? then m[c := Founded(row)]
      else if c in m then m[c := Reread(m[c], row)]
      else m
  }

  function ReplayOnto(m: map<ConversationId, RoomView>, rows: seq<AuditRow>): map<ConversationId, RoomView>
    decreases |rows|
  {
    if rows == [] then m else ReplayOnto(ReplayRow(m, rows[0]), rows[1..])
  }

  function Replay(rows: seq<AuditRow>): map<ConversationId, RoomView> {
    ReplayOnto(map[], rows)
  }

  lemma {:induction false} ReplayConcat(m: map<ConversationId, RoomView>, xs: seq<AuditRow>, ys: seq<AuditRow>)
    ensures ReplayOnto(m, xs + ys) == ReplayOnto(ReplayOnto(m, xs), ys)
    decreases |xs|
  {
    if xs == [] {
      assert xs + ys == ys;
    } else {
      assert (xs + ys)[1..] == xs[1..] + ys;
      ReplayConcat(ReplayRow(m, xs[0]), xs[1..], ys);
    }
  }

  /** Rows about one known conversation change that conversation only. */
  lemma {:induction false} ReplayOneRoom(m: map<ConversationId, RoomView>, c: ConversationId, rows: seq<AuditRow>)
    requires c in m
    requires forall i :: 0 <= i < |rows| ==> rows[i].conversation == Some(c) && !rows[i].action.ConversationStart?
    ensures ReplayOnto(m, rows) == m[c := RereadAll(m[c], rows)]
    decreases |rows|
  {
    if rows != [] {
      var m' := ReplayRow(m, rows[0]);
      ReplayOneRoom(m', c, rows[1..]);
    }
  }

  lemma {:induction false} QuietRowsChangeNothing(m: map<ConversationId, RoomView>, rows: seq<AuditRow>)
    requires Quiet(rows)
    ensures ReplayOnto(m, rows) == m
    decreases |rows|
  {
    if rows != [] {
      assert ReplayRow(m, rows[0]) == m;
      QuietRowsChangeNothing(m, rows[1..]);
    }
  }

  // --- each event against its rows ---

  lemma RereadOne(v: RoomView, row: AuditRow)
    ensures RereadAll(v, [row]) == Reread(v, row)
  {
    assert RereadAll(Reread(v, row), [row][1..]) == Reread(v, row);
  }

  lemma ExpiryTold(actor: string, c: ConversationId, r: Room, now: Instant)
    ensures RereadAll(ViewOf(r), ExpiryRows(actor, c, r, now)) == ViewOf(Settle(r, now))
  {
  }

  lemma PostingTold(actor: string, c: ConversationId, r: Room, m: Message, close: Option<ConversationState>)
    requires m.sender in r.parts
    ensures RereadAll(ViewOf(r), RowsFor(actor, c, Posted(m, close))) == ViewOf(Evolve(r, Posted(m, close)))
  {
    var ev := Posted(m, close);
    var rows, r' := RowsFor(actor, c, ev), Evolve(r, ev);
    var v1 := Reread(ViewOf(r), rows[0]);
    assert v1.messages == MessageViews(r'.log);
    var v2 := if m.mtype.Decline? then SetStatus(v1, m.sender, Declined) else v1;
    assert v2.members == Views(r'.parts);
    var tail := ClosingRows(actor, c, m.sender, m.mtype, close);
    assert RereadAll(v2, tail) == ViewOf(r');
    if m.mtype.Decline? {
      assert rows[1..][0].action.ParticipantDecline? && rows[1..][1..] == tail;
    } else {
      assert rows[1..] == tail;
    }
  }

  lemma EventTold(actor: string, c: ConversationId, r: Room, ev: Event)
    requires Fits(r, ev)
    ensures RereadAll(ViewOf(r), RowsFor(actor, c, ev)) == ViewOf(Evolve(r, ev))
  {
    var r' := Evolve(r, ev);
    if ev.Posted? {
      PostingTold(actor, c, r, ev.message, ev.close);
    } else {
      var v, rows := ViewOf(r), RowsFor(actor, c, ev);
      assert MessageViews(r'.log) == v.messages;
      if ev.CursorMoved? {
        assert Views(r'.parts) == v.members;
      } else {
        RereadOne(v, rows[0]);
        assert Reread(v, rows[0]).members == Views(r'.parts);
      }
    }
  }

  lemma {:induction false} RereadConcat(v: RoomView, xs: seq<AuditRow>, ys: seq<AuditRow>)
    ensures RereadAll(v, xs + ys) == RereadAll(RereadAll(v, xs), ys)
    decreases |xs|
  {
    if xs == [] {
      assert xs + ys == ys;
    } else {
      assert (xs + ys)[1..] == xs[1..] + ys;
      RereadConcat(Reread(v, xs[0]), xs[1..], ys);
    }
  }

  lemma ClosingTold(actor: string, c: ConversationId, room: Room, v: RoomView)
    requires |room.log| == 1 && v.state.ActiveState?
    requires var m := room.log[0];
      var close := ResultingState(m.mtype, false);
      room.conv.state == (if close.Some? then close.value else ActiveState) && v.(state := room.conv.state) == ViewOf(room)
    ensures var m := room.log[0];
      RereadAll(v, ClosingRows(actor, c, m.sender, m.mtype, ResultingState(m.mtype, false))) == ViewOf(room)
  {
    hide ViewOf;
  }

  lemma FoundersTold(ids: seq<AgentId>, q: Opening, b: Board, actor: string, c: ConversationId, room: Room)
    requires MayOpen(b, q, room) && ids == SortedTargets(q.initiator, q.named)
    ensures Founded(OpeningRows(actor, c, ids, room)[0]).members == Views(room.parts)
  {
    hide Admit, BoundaryRefusal, FirstUnavailable, StartedSince, SortedTargets, Increasing, BoundaryFlag, RoleMaySend, TimeToLive;
    SortedTargetsExact(q.initiator, q.named);
  }

  lemma OpeningReread(ids: seq<AgentId>, q: Opening, b: Board, actor: string, c: ConversationId, room: Room)
    requires MayOpen(b, q, room) && ids == SortedTargets(q.initiator, q.named)
    ensures var rows := OpeningRows(actor, c, ids, room);
      RereadAll(Founded(rows[0]), rows[1..]) == ViewOf(room)
  {
    hide Admit, BoundaryRefusal, FirstUnavailable, StartedSince, SortedTargets, FounderRows, BoundaryFlag, RoleMaySend, TimeToLive;
    var rows := OpeningRows(actor, c, ids, room);
    var first := Founded(rows[0]);
    FoundersTold(ids, q, b, actor, c, room);
    var second := Reread(first, rows[1]);
    assert second.messages == MessageViews(room.log);
    ClosingTold(actor, c, room, second);
    var tail := ClosingRows(actor, c, q.initiator, room.log[0].mtype, ResultingState(room.log[0].mtype, false));
    assert rows[1..] == [rows[1]] + tail;
    RereadConcat(first, [rows[1]], tail);
    RereadOne(first, rows[1]);
  }

  lemma OpeningTold(m: map<ConversationId, RoomView>, actor: string, c: ConversationId, b: Board, q: Opening, room: Room)
    requires MayOpen(b, q, room)
    ensures ReplayOnto(m, OpeningRows(actor, c, SortedTargets(q.initiator, q.named), room)) == m[c := ViewOf(room)]
  {
    hide MayOpen, Founded, SortedTargets, ViewOf, RereadAll;
    var ids := SortedTargets(q.initiator, q.named);
    assert |room.log| == 1 by { OpeningHasOneMessage(b, q, room); }
    var rows := OpeningRows(actor, c, ids, room);
    OpeningReread(ids, q, b, actor, c, room);
    ReplayOneRoom(m[c := Founded(rows[0])], c, rows[1..]);
  }

  lemma OpeningHasOneMessage(b: Board, q: Opening, room: Room)
    requires MayOpen(b, q, room)
    ensures |room.log| == 1
  {
  }

  // --- every run ---

  /** The expiry flip, told by its row, and then whatever `tail` tells. */
  lemma FlipTold(rooms: map<ConversationId, Room>, actor: string, c: ConversationId, now: Instant, tail: seq<AuditRow>)
    requires c in rooms
    ensures ReplayOnto(ViewsOf(rooms), ExpiryRows(actor, c, rooms[c], now) + tail)
         == ReplayOnto(ViewsOf(rooms[c := Settle(rooms[c], now)]), tail)
  {
    hide ViewOf, Settle;
    var r, m := rooms[c], ViewsOf(rooms);
    var expiry := ExpiryRows(actor, c, r, now);
    ExpiryTold(actor, c, r, now);
    ReplayOneRoom(m, c, expiry);
    ReplayConcat(m, expiry, tail);
    assert m[c := ViewOf(Settle(r, now))] == ViewsOf(rooms[c := Settle(r, now)]);
  }

  lemma TouchTold(b: Board, call: Call, c: ConversationId, now: Instant, event: Option<Event>, rows: seq<AuditRow>)
    requires Writable(b, Touch(c, now, event)) && c in b.rooms
    requires RowsTell(b, call, Outcome(Touch(c, now, event), rows, Done))
    ensures ReplayOnto(ViewsOf(b.rooms), rows) == ViewsOf(b.rooms[c := Touched(b.rooms[c], now, event)])
  {
    hide Evolve, ViewOf, RowsFor, Settle, ExpiryRows, ReplayOnto, RereadAll, Fits;
    var r, actor := Settle(b.rooms[c], now), ActorOf(call);
    var expiry := ExpiryRows(actor, c, b.rooms[c], now);
    var rooms, tail := b.rooms[c := r], rows[|expiry|..];
    assert rows == expiry + tail;
    FlipTold(b.rooms, actor, c, now, tail);
    if event.Some? {
      assert tail == RowsFor(actor, c, event.value);
      EventTold(actor, c, r, event.value);
      EventRowsAreAboutTheRoom(actor, c, event.value);
      ReplayOneRoom(ViewsOf(rooms), c, tail);
      assert ViewsOf(rooms)[c := ViewOf(Evolve(r, event.value))] == ViewsOf(b.rooms[c := Evolve(r, event.value)]);
    } else {
      QuietRowsChangeNothing(ViewsOf(rooms), tail);
    }
  }

  lemma EventRowsAreAboutTheRoom(actor: string, c: ConversationId, ev: Event)
    ensures forall i :: 0 <= i < |RowsFor(actor, c, ev)| ==>
      var row := RowsFor(actor, c, ev)[i]; row.conversation == Some(c) && !row.action.ConversationStart?
  {
  }

  lemma CallTold(b: Board, call: Call)
    requires SubsGiven(b)
    ensures ReplayOnto(ViewsOf(b.rooms), OutcomeOf(b, call).rows) == ViewsOf(Next(b, call).rooms)
  {
    hide OutcomeOf, MayOpen, Allowed, OpeningRows, RowsFor, ViewOf;
    var o := OutcomeOf(b, call);
    RowsTellWrites(b, call);
    CallsWriteWhatTheyMay(b, call);
    match o.writes
    case Create(c, room) => OpeningTold(ViewsOf(b.rooms), ActorOf(call), c, b, call.opening, room);
    case Touch(c, now, event) => TouchTold(b, call, c, now, event, o.rows);
    case _ => QuietRowsChangeNothing(ViewsOf(b.rooms), o.rows);
  }

  /** In every reachable state the audit trail alone rebuilds every conversation's type, state,
      creator and snapshot, every participant's role, status and inviter, and every message's
      number, type and sender. */
  lemma {:induction false} AuditTrailIsComplete(calls: seq<Call>)
    ensures Replay(Run(calls).audit) == ViewsOf(Run(calls).rooms)
  {
    hide OutcomeOf, RoomOk, ViewOf, ReplayRow;
    if calls != [] {
      var front, last := calls[..|calls| - 1], calls[|calls| - 1];
      AuditTrailIsComplete(front);
      ReachableBoardsAreIntegral(front);
      var b := Run(front);
      CallTold(b, last);
      ReplayConcat(map[], b.audit, OutcomeOf(b, last).rows);
    }
  }
}
