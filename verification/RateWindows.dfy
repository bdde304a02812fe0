/** The hourly limits over sliding windows of the stored stamps. A row is stamped when its
    transaction begins, the check reads the clock later: a lag of `w` takes `w` off the window. */
module RateWindows {
  import opened Vocabulary
  import opened StateMachine
  import opened Tables
  import opened Policy
  import opened Operations
  import opened Runs
  import opened Integrity
  import opened OwnerFreeze
  import I = Interleaving

  /** Messages of `a` stamped in the `width` up to `t`. */
  function SentInWindow(log: seq<Message>, a: AgentId, width: int, t: Instant): nat {
    if log == [] then 0
    else
      var m := log[|log| - 1];
      SentInWindow(log[..|log| - 1], a, width, t) + if m.sender == a && t - width < m.createdAt <= t then 1 else 0
  }

  /** Conversations of `a` stamped in the `width` up to `t`. */
  function StartedInWindow(rooms: map<ConversationId, Room>, a: AgentId, width: int, t: Instant): set<ConversationId> {
    set c | c in rooms && rooms[c].conv.createdBy == a && t - width < rooms[c].conv.createdAt <= t
  }

  ghost predicate LogWithinRate(log: seq<Message>, width: int) {
    forall a, t :: SentInWindow(log, a, width, t) <= MAX_MESSAGES_PER_HOUR
  }

  ghost predicate StartsWithinRate(rooms: map<ConversationId, Room>, width: int) {
    forall a, t :: |StartedInWindow(rooms, a, width, t)| <= MAX_STARTS_PER_HOUR
  }

  ghost predicate AllWithinRate(b: Board, width: int) {
    StartsWithinRate(b.rooms, width) && forall c :: c in b.rooms ==> LogWithinRate(b.rooms[c].log, width)
  }

  /** A call whose check reads the clock at most `w` after its transaction began, if it adds a
      stamped message or conversation. */
  predicate LagWithin(call: Call, w: int) {
    call.OpenRoom? || (call.Ask? && call.request.Post?) ==> Time(call) - Stamp(call) <= w
  }

  /** Whatever a window of a new message holds was in sight of its check. */
  lemma {:induction false} WindowInSight(log: seq<Message>, a: AgentId, now: Instant, width: int, t: Instant)
    requires now - HOUR <= t - width
    ensures SentInWindow(log, a, width, t) <= CountSince(log, a, now - HOUR)
  {
    if log != [] { WindowInSight(log[..|log| - 1], a, now, width, t); }
  }

  lemma PostKeepsRate(r: Room, now: Instant, m: Message, w: int)
    requires LogWithinRate(r.log, HOUR - w) && now - m.createdAt <= w
    requires CountSince(r.log, m.sender, now - HOUR) < MAX_MESSAGES_PER_HOUR
    ensures LogWithinRate(r.log + [m], HOUR - w)
  {
    hide CountSince;
    var width := HOUR - w;
    forall a, t ensures SentInWindow(r.log + [m], a, width, t) <= MAX_MESSAGES_PER_HOUR {
      assert (r.log + [m])[..|r.log|] == r.log;
      assert SentInWindow(r.log, a, width, t) <= MAX_MESSAGES_PER_HOUR;
      if m.sender == a && m.createdAt <= t { WindowInSight(r.log, a, now, width, t); }
    }
  }

  lemma OneMessageIsWithinRate(m: Message, width: int)
    ensures LogWithinRate([m], width)
  {
    forall a, t ensures SentInWindow([m], a, width, t) <= MAX_MESSAGES_PER_HOUR {
      assert [m][..0] == [];
    }
  }

  lemma StartKeepsRate(rooms: map<ConversationId, Room>, c: ConversationId, room: Room, now: Instant, w: int)
    requires StartsWithinRate(rooms, HOUR - w) && c !in rooms && now - room.conv.createdAt <= w
    requires |StartedSince(rooms, room.conv.createdBy, now - HOUR)| < MAX_STARTS_PER_HOUR
    ensures StartsWithinRate(rooms[c := room], HOUR - w)
  {
    var rooms', width := rooms[c := room], HOUR - w;
    forall a, t ensures |StartedInWindow(rooms', a, width, t)| <= MAX_STARTS_PER_HOUR {
      var before, after := StartedInWindow(rooms, a, width, t), StartedInWindow(rooms', a, width, t);
      assert |before| <= MAX_STARTS_PER_HOUR;
      if c in after {
        var seen := StartedSince(rooms, a, now - HOUR);
        assert after <= seen + {c};
        SmallerSet(after, seen + {c});
      } else {
        assert after == before;
      }
    }
  }

  lemma SmallerSet<T>(xs: set<T>, ys: set<T>)
    requires xs <= ys
    ensures |xs| <= |ys|
  {
    assert ys == xs + (ys - xs);
  }

  lemma SameStarts(rooms: map<ConversationId, Room>, rooms': map<ConversationId, Room>, width: int)
    requires StartsWithinRate(rooms, width) && rooms'.Keys == rooms.Keys
    requires forall c :: c in rooms ==> SameTerms(rooms[c].conv, rooms'[c].conv)
    ensures StartsWithinRate(rooms', width)
  {
    forall a, t ensures |StartedInWindow(rooms', a, width, t)| <= MAX_STARTS_PER_HOUR {
      assert StartedInWindow(rooms', a, width, t) == StartedInWindow(rooms, a, width, t);
    }
  }

  lemma CallKeepsStarts(b: Board, call: Call, w: int)
    requires SubsGiven(b) && StartsWithinRate(b.rooms, HOUR - w) && LagWithin(call, w)
    ensures StartsWithinRate(Next(b, call).rooms, HOUR - w)
  {
    hide OutcomeOf, Allowed, MayEnrol, StartsWithinRate, Admit, BoundaryRefusal, FirstUnavailable, SortedTargets, StartedSince,
      FounderRows, ResultingState, Touched;
    CallsWriteWhatTheyMay(b, call);
    var o := OutcomeOf(b, call).writes;
    if o.Create? {
      StartKeepsRate(b.rooms, o.c, o.room, Time(call), w);
    } else {
      forall c | c in b.rooms ensures c in Next(b, call).rooms && SameTerms(b.rooms[c].conv, Next(b, call).rooms[c].conv) {
        CallKeepsTerms(b, call, c);
      }
      SameStarts(b.rooms, Next(b, call).rooms, HOUR - w);
    }
  }

  lemma CallKeepsLogs(b: Board, call: Call, c: ConversationId, w: int)
    requires SubsGiven(b) && c in Next(b, call).rooms && (c in b.rooms ==> LogWithinRate(b.rooms[c].log, HOUR - w))
    requires LagWithin(call, w)
    ensures LogWithinRate(Next(b, call).rooms[c].log, HOUR - w)
  {
    hide OutcomeOf, MayEnrol, ClosesRightly, Cleared, LogWithinRate, Admit, BoundaryRefusal, FirstUnavailable,
      SortedTargets, StartedSince, FounderRows, ResultingState, CountSince, MaxSeq, BoundaryFlag, RoleMaySend;
    CallsWriteWhatTheyMay(b, call);
    var o := OutcomeOf(b, call).writes;
    if o.Create? && o.c == c {
      assert o.room.log == [o.room.log[0]];
      OneMessageIsWithinRate(o.room.log[0], HOUR - w);
    } else if o.Touch? && o.c == c && o.event.Some? && o.event.value.Posted? {
      assert call.Ask? && call.request.Post? by { PostsComeFromPosts(b, call); }
      PostKeepsRate(Settle(b.rooms[c], o.at), o.at, o.event.value.message, w);
    }
  }

  lemma PostsComeFromPosts(b: Board, call: Call)
    requires var w := OutcomeOf(b, call).writes; w.Touch? && w.event.Some? && w.event.value.Posted?
    ensures call.Ask? && call.request.Post?
  {
    hide PostVerdict, Above, MaxSeq, Settle, RowsFor, ExpiryRows, ReplyTo;
  }

  /** At most 30 messages per sender and conversation and at most 10 openings per creator are
      stamped in any window of an hour less `w`, in any reachable state, if every check reads the
      clock at most `w` after its transaction began; whichever way the clocks run. */
  lemma {:induction false} EveryWindowIsWithinRate(calls: seq<Call>, w: int)
    requires forall i :: 0 <= i < |calls| ==> LagWithin(calls[i], w)
    ensures AllWithinRate(Run(calls), HOUR - w)
  {
    hide Integral, Next, StartsWithinRate, LogWithinRate, LagWithin;
    if calls == [] {
      assert StartsWithinRate(map[], HOUR - w) by { NothingStarted(HOUR - w); }
    } else {
      var front, last := calls[..|calls| - 1], calls[|calls| - 1];
      var b := Run(front);
      EveryWindowIsWithinRate(front, w);
      ReachableBoardsAreIntegral(front);
      assert SubsGiven(b) by { SubsAreGiven(b); }
      CallKeepsStarts(b, last, w);
      forall c | c in Next(b, last).rooms ensures LogWithinRate(Next(b, last).rooms[c].log, HOUR - w) {
        CallKeepsLogs(b, last, c, w);
      }
    }
  }

  lemma NothingStarted(width: int)
    ensures StartsWithinRate(map[], width)
  {
    forall a, t ensures |StartedInWindow(map[], a, width, t)| <= MAX_STARTS_PER_HOUR {
      assert StartedInWindow(map[], a, width, t) == {};
    }
  }

  // --- concurrent posts ---

  lemma PassedIsWithinRate(r: Room, q: I.Submission, row: Participant, crowd: I.Crowd, payload: Payload)
    requires I.Passed(r, q, r.conv, row, crowd, payload)
    ensures CountSince(r.log, q.sender, q.now - HOUR) < MAX_MESSAGES_PER_HOUR
  {
    hide CountSince, ContentRefusal, ValidatePayload, RoleMaySend, Settle;
  }

  /** Every submitted post will check at most `w` after its transaction began. */
  ghost predicate PostsLagWithin(s: I.System, w: int) {
    forall tx :: tx in s.posts ==> s.posts[tx].sub.now - s.posts[tx].sub.stamp <= w
  }

  lemma StepKeepsLogRate(s: I.System, step: I.Step, w: int)
    requires I.Inv(s) && PostsLagWithin(s, w) && LogWithinRate(s.room.log, HOUR - w)
    ensures LogWithinRate(I.After(s, step).room.log, HOUR - w)
  {
    hide LogWithinRate, I.RoomSound, I.Passed, I.Plan, I.CheckRefusal, I.Taken, MaxSeq, I.CloseBy, ValidatePayload, PartsAfter, Settle;
    if step.Publish? && step.tx in s.posts && s.posts[step.tx].phase.Closed? {
      var p := s.posts[step.tx];
      assert I.Knows(s.room, s.overwritten, p);
      PassedIsWithinRate(s.room, p.sub, p.phase.row, p.phase.crowd, p.phase.message.payload);
      PostKeepsRate(s.room, p.sub.now, p.phase.message, w);
    }
  }

  lemma StepKeepsLag(s: I.System, step: I.Step, w: int)
    requires PostsLagWithin(s, w) && (step.Submit? ==> step.sub.now - step.sub.stamp <= w)
    ensures PostsLagWithin(I.After(s, step), w)
  {
    hide I.Plan, I.CheckRefusal, I.Taken, MaxSeq, I.CloseBy, ValidatePayload, PartsAfter, Settle;
  }

  /** The row lock keeps the message limit for concurrent posts too: in every schedule whose
      posts check at most `w` after their transactions began, at most 30 committed messages per
      sender are stamped in any window of an hour less `w`. */
  lemma {:induction false} EveryScheduleIsWithinRate(room: Room, steps: seq<I.Step>, w: int)
    requires I.Fresh(room)
    requires forall i :: 0 <= i < |steps| && steps[i].Submit? ==> steps[i].sub.now - steps[i].sub.stamp <= w
    ensures var s := I.Exec(I.Idle(room), steps); LogWithinRate(s.room.log, HOUR - w) && PostsLagWithin(s, w)
  {
    hide LogWithinRate, PostsLagWithin, I.After, I.Inv;
    if steps == [] {
      assert room.log == [room.log[0]];
      OneMessageIsWithinRate(room.log[0], HOUR - w);
      assert PostsLagWithin(I.Idle(room), w) by { NothingLags(room, w); }
    } else {
      var front, last := steps[..|steps| - 1], steps[|steps| - 1];
      EveryScheduleIsWithinRate(room, front, w);
      I.EveryScheduleKeepsInv(room, front);
      StepKeepsLogRate(I.Exec(I.Idle(room), front), last, w);
      StepKeepsLag(I.Exec(I.Idle(room), front), last, w);
    }
  }

  lemma NothingLags(room: Room, w: int)
    ensures PostsLagWithin(I.Idle(room), w)
  {
  }
}
