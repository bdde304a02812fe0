/** Flipping overdue conversations only when they are touched is as good as flipping every one
    of them the moment its deadline passes. */
module LazyExpiry {
  import opened Vocabulary
  import opened Text
  import opened Tables
  import opened Policy
  import opened Operations
  import opened Runs
  import opened Integrity
  import opened Queries

  /** The eager clock tick: every overdue conversation flips at once; nothing is audited. */
  function Tick(b: Board, now: Instant): Board {
    b.(rooms := map c | c in b.rooms :: Settle(b.rooms[c], now))
  }

  ghost function EagerNext(b: Board, call: Call): Board {
    Next(Tick(b, Time(call)), call)
  }

  ghost function EagerRun(calls: seq<Call>): Board {
    if calls == [] then EMPTY_BOARD else EagerNext(EagerRun(calls[..|calls| - 1]), calls[|calls| - 1])
  }

  /** The tables agree once both clocks have ticked; the audit trails need not. */
  ghost predicate AgreeAt(b: Board, e: Board, now: Instant) {
    b.agents == e.agents && Tick(b, now).rooms == Tick(e, now).rooms
  }

  // --- a tick first makes no difference to a call ---

  lemma SettleTwice(r: Room, now: Instant, later: Instant)
    requires now <= later
    ensures Settle(Settle(r, now), later) == Settle(r, later)
  {
  }

  lemma HandleAfterTick(b: Board, now: Instant, actor: string, a: AgentId, c: ConversationId, q: Request, client: OwnershipClient)
    ensures var o, o' := Handle(b, now, actor, a, c, q, client), Handle(Tick(b, now), now, actor, a, c, q, client);
      o'.reply == o.reply && o'.writes == o.writes
  {
    if HasRow(b, c, a) { SettleTwice(b.rooms[c], now, now); }
    hide Decide, Settle, ReplyTo;
  }

  lemma ReadAfterTick(b: Board, now: Instant, actor: string, a: AgentId, c: ConversationId, since: int)
    ensures var o, o' := Get(b, now, actor, a, c, since), Get(Tick(b, now), now, actor, a, c, since);
      o'.reply == o.reply && o'.writes == o.writes
  {
    if HasRow(b, c, a) {
      SettleTwice(b.rooms[c], now, now);
      assert Tick(b, now).rooms[c].parts == b.rooms[c].parts;
    }
    hide Settle, Above, MaxSeq, Views;
  }

  lemma StartAfterTick(b: Board, now: Instant, q: Opening)
    ensures var o, o' := Start(b, q), Start(Tick(b, now), q); o'.reply == o.reply && o'.writes == o.writes
  {
    assert StartedSince(Tick(b, now).rooms, q.initiator, q.now - HOUR) == StartedSince(b.rooms, q.initiator, q.now - HOUR);
    hide StartedSince, Admit, FirstMessageRefusal, SortedTargets, FirstUnavailable, NewRoom, OpeningRows, Settle;
  }

  lemma EnrolAfterTick(b: Board, now: Instant, q: Enrolment)
    ensures Register(Tick(b, now), q) == Register(b, q)
  {
    hide Strip, BySub;
  }

  /** A call replies and writes the same whether or not the clock ticked just before it. */
  lemma CallAfterTick(b: Board, call: Call)
    ensures var o, o' := OutcomeOf(b, call), OutcomeOf(Tick(b, Time(call)), call);
      o'.reply == o.reply && o'.writes == o.writes
  {
    hide Handle, Get, Start, Register;
    match call
    case Ask(now, actor, a, c, q, client) => HandleAfterTick(b, now, actor, a, c, q, client);
    case Read(now, actor, a, c, since) => ReadAfterTick(b, now, actor, a, c, since);
    case OpenRoom(q) => StartAfterTick(b, q.now, q);
    case Enrol(q) => EnrolAfterTick(b, q.now, q);
    case Suspend(_, _) =>
  }

  /** No reply and no write depends on the audit trail. */
  lemma CallIgnoresAudit(b: Board, e: Board, call: Call)
    requires b.agents == e.agents && b.rooms == e.rooms
    ensures var o, o' := OutcomeOf(b, call), OutcomeOf(e, call); o'.reply == o.reply && o'.writes == o.writes
  {
    hide Decide, Admit, FirstMessageRefusal, StartedSince, Above, MaxSeq, Strip, BySub, Settle;
    match call
    case Ask(_, _, _, _, _, _) =>
    case Read(_, _, _, _, _) =>
    case _ =>
  }

  // --- the tables after it ---

  lemma TouchAfterTick(r: Room, now: Instant, event: Option<Event>)
    requires event.Some? ==> Fits(Settle(r, now), event.value)
    ensures Settle(Settle(r, now), now) == Settle(r, now)
    ensures Touched(Settle(r, now), now, event) == Touched(r, now, event)
  {
  }

  lemma RoomAfterTick(b: Board, call: Call, later: Instant, c: ConversationId)
    requires SubsGiven(b) && Time(call) <= later
    ensures var b', e' := Next(b, call), EagerNext(b, call);
      && (c in b'.rooms <==> c in e'.rooms)
      && (c in b'.rooms ==> Settle(b'.rooms[c], later) == Settle(e'.rooms[c], later))
  {
    hide OutcomeOf, MayOpen, MayEnrol, Allowed, Evolve, Settle;
    CallAfterTick(b, call);
    CallsWriteWhatTheyMay(b, call);
    var now, w := Time(call), OutcomeOf(b, call).writes;
    if c in b.rooms {
      SettleTwice(b.rooms[c], now, later);
      if w.Touch? && w.c == c { TouchAfterTick(b.rooms[c], now, w.event); }
    }
  }

  lemma BoardAfterTick(b: Board, call: Call, later: Instant)
    requires SubsGiven(b) && Time(call) <= later
    ensures AgreeAt(Next(b, call), EagerNext(b, call), later)
  {
    hide OutcomeOf, Settle;
    CallAfterTick(b, call);
    var b', e' := Next(b, call), EagerNext(b, call);
    assert b'.agents == e'.agents;
    hide Next, EagerNext;
    forall c ensures c in b'.rooms <==> c in e'.rooms { RoomAfterTick(b, call, later, c); }
    forall c | c in b'.rooms ensures Settle(b'.rooms[c], later) == Settle(e'.rooms[c], later) { RoomAfterTick(b, call, later, c); }
  }

  /** Boards that agree at the time of a call reply to it alike and agree ever after. */
  lemma AgreeingBoards(b: Board, e: Board, call: Call, later: Instant)
    requires SubsGiven(b) && AgreeAt(b, e, Time(call)) && Time(call) <= later
    ensures OutcomeOf(Tick(e, Time(call)), call).reply == OutcomeOf(b, call).reply
    ensures AgreeAt(Next(b, call), EagerNext(e, call), later)
  {
    hide OutcomeOf, Settle;
    var tb, te := Tick(b, Time(call)), Tick(e, Time(call));
    CallAfterTick(b, call);
    CallIgnoresAudit(tb, te, call);
    BoardAfterTick(b, call, later);
    assert Next(tb, call).rooms == Next(te, call).rooms && Next(tb, call).agents == Next(te, call).agents;
  }

  // --- whole runs ---

  lemma {:induction false} RunsAgree(calls: seq<Call>, later: Instant)
    requires Clocked(calls) && (calls != [] ==> Time(calls[|calls| - 1]) <= later)
    ensures AgreeAt(Run(calls), EagerRun(calls), later)
  {
    hide Next, EagerNext, Tick, Integral;
    if calls != [] {
      var front, last := calls[..|calls| - 1], calls[|calls| - 1];
      RunsAgree(front, Time(last));
      ReachableBoardsAreIntegral(front);
      assert SubsGiven(Run(front)) by { SubsAreGiven(Run(front)); }
      AgreeingBoards(Run(front), EagerRun(front), last, later);
    }
  }

  /** Under a clock that never runs backwards, the lazy board answers every call of every run
      exactly as the eager one. */
  lemma LazyExpiryIsEagerExpiry(calls: seq<Call>, call: Call)
    requires Clocked(calls + [call])
    ensures OutcomeOf(Run(calls), call).reply == OutcomeOf(Tick(EagerRun(calls), Time(call)), call).reply
  {
    hide Run, EagerRun, OutcomeOf, Tick, Integral;
    assert calls == (calls + [call])[..|calls|];
    assert forall i :: 0 <= i < |calls| ==> calls[i] == (calls + [call])[i];
    assert (calls + [call])[|calls|] == call;
    RunsAgree(calls, Time(call));
    ReachableBoardsAreIntegral(calls);
    SubsAreGiven(Run(calls));
    AgreeingBoards(Run(calls), EagerRun(calls), call, Time(call));
  }

  /** So do the read-only listings, at any later time: the inbox, and every filtered listing
      with what it shows of each conversation. */
  lemma ListingsAreTheSame(calls: seq<Call>, now: Instant, a: AgentId, f: Filter)
    requires Clocked(calls) && (calls != [] ==> Time(calls[|calls| - 1]) <= now)
    ensures var rooms, eager := Run(calls).rooms, Tick(EagerRun(calls), now).rooms;
      && NaiveInbox(rooms, now, a) == NaiveInbox(eager, now, a)
      && ListedStamps(rooms, now, a, f) == ListedStamps(eager, now, a, f)
      && (forall stamp :: stamp in ListedStamps(rooms, now, a, f) ==>
           stamp.1 in rooms && stamp.1 in eager && Shown(rooms[stamp.1], now) == Shown(eager[stamp.1], now))
  {
    hide Run, EagerRun, NaiveInbox, Listed, Shown;
    RunsAgree(calls, now);
    var b := Run(calls);
    assert Tick(EagerRun(calls), now).rooms == Tick(b, now).rooms;
    InboxAfterTick(b, now, a);
    ListingAfterTick(b, now, a, f);
    forall c | c in b.rooms ensures Shown(Tick(b, now).rooms[c], now) == Shown(b.rooms[c], now) { RoomReadsTheSame(b, now, c); }
  }

  lemma RoomReadsTheSame(b: Board, now: Instant, c: ConversationId)
    requires c in b.rooms
    ensures var r, t := b.rooms[c], Tick(b, now).rooms[c];
      Shown(t, now) == Shown(r, now) && t.parts == r.parts && t.log == r.log
      && t.conv.ctype == r.conv.ctype && t.conv.createdAt == r.conv.createdAt
  {
    SettleTwice(b.rooms[c], now, now);
  }

  /** Two rooms an inbox cannot tell apart. */
  ghost predicate SameEntry(r: Room, t: Room, now: Instant, a: AgentId) {
    && (HasUnread(t, a) <==> HasUnread(r, a))
    && (HasUnread(r, a) ==> UnreadOf(t, now, a) == UnreadOf(r, now, a))
    && (IsPending(t, a) <==> IsPending(r, a))
    && (IsPending(r, a) ==> PendingOf(t, now, a) == PendingOf(r, now, a))
  }

  lemma EntriesAreTheSame(b: Board, now: Instant, c: ConversationId, a: AgentId)
    requires c in b.rooms
    ensures SameEntry(b.rooms[c], Tick(b, now).rooms[c], now, a)
  {
    RoomReadsTheSame(b, now, c);
    hide Shown, Tick;
  }

  lemma SameEntriesSameInbox(rooms: map<ConversationId, Room>, ticked: map<ConversationId, Room>, now: Instant, a: AgentId)
    requires rooms.Keys == ticked.Keys && forall c :: c in rooms ==> SameEntry(rooms[c], ticked[c], now, a)
    ensures NaiveInbox(ticked, now, a).unread == NaiveInbox(rooms, now, a).unread
    ensures NaiveInbox(ticked, now, a).pending == NaiveInbox(rooms, now, a).pending
  {
    hide HasUnread, UnreadOf, IsPending, PendingOf;
  }

  lemma InboxAfterTick(b: Board, now: Instant, a: AgentId)
    ensures NaiveInbox(Tick(b, now).rooms, now, a) == NaiveInbox(b.rooms, now, a)
  {
    hide SameEntry;
    forall c | c in b.rooms ensures SameEntry(b.rooms[c], Tick(b, now).rooms[c], now, a) { EntriesAreTheSame(b, now, c, a); }
    SameEntriesSameInbox(b.rooms, Tick(b, now).rooms, now, a);
    hide HasUnread, UnreadOf, IsPending, PendingOf, Settle, Tick;
  }

  lemma ListingAfterTick(b: Board, now: Instant, a: AgentId, f: Filter)
    ensures ListedStamps(Tick(b, now).rooms, now, a, f) == ListedStamps(b.rooms, now, a, f)
  {
    var rooms, ticked := b.rooms, Tick(b, now).rooms;
    forall c | c in rooms
      ensures Listed(ticked[c], now, a, f) <==> Listed(rooms[c], now, a, f)
      ensures ticked[c].conv.createdAt == rooms[c].conv.createdAt
    {
      RoomReadsTheSame(b, now, c);
      hide Shown, Tick;
    }
    hide Listed, Settle;
  }

  // --- expiry is recorded once ---

  predicate IsExpiry(row: AuditRow, c: ConversationId) {
    row.action.ConversationExpire? && row.conversation == Some(c)
  }

  function ExpiryCount(audit: seq<AuditRow>, c: ConversationId): nat {
    if audit == [] then 0
    else ExpiryCount(audit[..|audit| - 1], c) + if IsExpiry(audit[|audit| - 1], c) then 1 else 0
  }

  lemma {:induction false} CountConcat(xs: seq<AuditRow>, ys: seq<AuditRow>, c: ConversationId)
    ensures ExpiryCount(xs + ys, c) == ExpiryCount(xs, c) + ExpiryCount(ys, c)
  {
    if ys == [] {
      assert xs + ys == xs;
    } else {
      CountConcat(xs, ys[..|ys| - 1], c);
      assert (xs + ys)[..|xs + ys| - 1] == xs + ys[..|ys| - 1];
    }
  }

  lemma {:induction false} NoExpiryRows(rows: seq<AuditRow>, c: ConversationId)
    requires forall i :: 0 <= i < |rows| ==> !IsExpiry(rows[i], c)
    ensures ExpiryCount(rows, c) == 0
  {
    if rows != [] { NoExpiryRows(rows[..|rows| - 1], c); }
  }

  /** Per conversation, one expiry row if it is stored as expired and none otherwise. */
  ghost predicate ExpiryRecorded(b: Board, c: ConversationId) {
    ExpiryCount(b.audit, c) == if c in b.rooms && b.rooms[c].conv.state.ExpiredState? then 1 else 0
  }

  lemma EventRowsRecordNoExpiry(actor: string, c: ConversationId, ev: Event, c': ConversationId)
    ensures ExpiryCount(RowsFor(actor, c, ev), c') == 0
  {
    NoExpiryRows(RowsFor(actor, c, ev), c');
  }

  lemma TouchRecordsExpiry(
    b: Board, call: Call, c: ConversationId, now: Instant, event: Option<Event>, rows: seq<AuditRow>, c': ConversationId)
    requires Writable(b, Touch(c, now, event)) && RowsTell(b, call, Outcome(Touch(c, now, event), rows, Done))
    ensures ExpiryCount(rows, c') == if c' == c && Overdue(b.rooms[c], now) then 1 else 0
  {
    hide RowsFor, Evolve;
    var expiry := ExpiryRows(ActorOf(call), c, b.rooms[c], now);
    var tail := rows[|expiry|..];
    assert rows == expiry + tail;
    CountConcat(expiry, tail, c');
    if event.Some? { EventRowsRecordNoExpiry(ActorOf(call), c, event.value, c'); } else { NoExpiryRows(tail, c'); }
    if expiry == [] { assert ExpiryCount(expiry, c') == 0; } else { assert expiry[..0] == []; }
  }

  /** An event needs an active room to set a state, and never sets the expired one. */
  lemma EventExpiresNothing(r: Room, now: Instant, ev: Event)
    requires Admissible(r, now, ev) && ClosesRightly(r, ev)
    ensures Evolve(r, ev).conv.state.ExpiredState? <==> r.conv.state.ExpiredState?
  {
    hide MaxSeq, BoundaryFlag, RoleMaySend, AllMembersDeclined, PartsAfter;
  }

  lemma CallRecordsExpiry(b: Board, call: Call, c: ConversationId)
    requires SubsGiven(b) && ExpiryRecorded(b, c)
    ensures ExpiryRecorded(Next(b, call), c)
  {
    hide OutcomeOf, MayEnrol, MayOpen, Admissible, ClosesRightly, WithinRate, Cleared, Evolve, ExpiryCount, OpeningRows;
    CallsWriteWhatTheyMay(b, call);
    RowsTellWrites(b, call);
    var o := OutcomeOf(b, call);
    CountConcat(b.audit, o.rows, c);
    match o.writes
    case Touch(c', now, event) =>
      TouchRecordsExpiry(b, call, c', now, event, o.rows, c);
      if event.Some? { EventExpiresNothing(Settle(b.rooms[c'], now), now, event.value); }
    case Create(c', room) =>
      OpeningRecordsNoExpiry(b, call, room, c);
    case _ => NoExpiryRows(o.rows, c);
  }

  lemma OpeningRecordsNoExpiry(b: Board, call: Call, room: Room, c: ConversationId)
    requires call.OpenRoom? && MayOpen(b, call.opening, room)
    ensures !room.conv.state.ExpiredState?
    ensures ExpiryCount(OpeningRows(ActorOf(call), call.opening.id, SortedTargets(call.opening.initiator, call.opening.named), room), c) == 0
  {
    hide Admit, BoundaryRefusal, FirstUnavailable, StartedSince, SortedTargets, BoundaryFlag, RoleMaySend;
    NoExpiryRows(OpeningRows(ActorOf(call), call.opening.id, SortedTargets(call.opening.initiator, call.opening.named), room), c);
  }

  /** In every reachable state a conversation has exactly one expiry row if it is stored as
      expired, and none otherwise; so it is never recorded twice. */
  lemma {:induction false} ExpiryIsRecordedOnce(calls: seq<Call>, c: ConversationId)
    ensures ExpiryRecorded(Run(calls), c)
  {
    hide Next, Integral;
    if calls != [] {
      var front := calls[..|calls| - 1];
      ExpiryIsRecordedOnce(front, c);
      ReachableBoardsAreIntegral(front);
      SubsAreGiven(Run(front));
      CallRecordsExpiry(Run(front), calls[|calls| - 1], c);
    }
  }
}
