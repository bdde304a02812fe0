/** The rate bounds are the best possible: with checks lagging `w` behind the stamps, any window
    longer than an hour less `w` can hold one row more than the limit. */
module RateExamples {
  import opened Vocabulary
  import opened Tables
  import opened Policy
  import opened Operations
  import opened Runs
  import opened RateWindows
  import L = LateWrites
  import I = Interleaving
  import D = DeclineExample

  // --- messages ---

  /** A conversation of three that stays open for two hours. */
  function Talk(): Room {
    L.Talk().(conv := L.Talk().conv.(expiresAt := 2 * HOUR))
  }

  function Asks(stamp: Instant, now: Instant): I.Submission {
    I.Submission(stamp, now, 1, AvailabilityRequest, 1, RawPayload(Some(Payload(0, ""))), AgentTable)
  }

  function Post(tx: I.TxId, q: I.Submission): seq<I.Step> {
    L.Staging(tx, q, L.People()) + [I.Publish(tx)]
  }

  /** `k` posts of agent 1, all begun and checked at 0. */
  function Posts(k: nat): seq<I.Step> {
    if k == 0 then [] else Posts(k - 1) + Post(k, Asks(0, 0))
  }

  /** Nothing in flight, everything stamped 0, and all but the opening message by agent 1. */
  ghost predicate Holds(s: I.System, k: nat) {
    && s == I.Idle(s.room) && s.room.conv == Talk().conv && s.room.parts == Talk().parts && |s.room.log| == k + 1
    && s.room.log[0].sender == 0
    && (forall i :: 0 <= i <= k ==> s.room.log[i].createdAt == 0)
    && (forall i :: 1 <= i <= k ==> s.room.log[i].sender == 1)
  }

  lemma {:induction false} CountsAtZero(log: seq<Message>, width: int, t: Instant)
    requires |log| >= 1 && log[0].sender == 0
    requires forall i :: 0 <= i < |log| ==> log[i].createdAt == 0
    requires forall i :: 1 <= i < |log| ==> log[i].sender == 1
    requires t - width < 0 <= t
    ensures SentInWindow(log, 1, width, t) == |log| - 1 && CountSince(log, 1, 0) == 0 && CountSince(log, 1, -HOUR) == |log| - 1
  {
    if |log| > 1 {
      CountsAtZero(log[..|log| - 1], width, t);
    } else {
      assert log[..0] == [];
    }
  }

  lemma PostLands(s: I.System, tx: I.TxId, q: I.Submission)
    requires I.Inv(s) && s == I.Idle(s.room) && s.room.conv == Talk().conv && s.room.parts == Talk().parts
    requires q == Asks(q.stamp, q.now) && 0 <= q.now <= HOUR
    requires CountSince(s.room.log, 1, q.now - HOUR) < MAX_MESSAGES_PER_HOUR
    ensures var s' := I.Exec(s, Post(tx, q));
      s' == I.Idle(s'.room) && s'.room.conv == Talk().conv && s'.room.parts == Talk().parts
      && |s'.room.log| == |s.room.log| + 1 && s'.room.log[..|s.room.log|] == s.room.log
      && s'.room.log[|s.room.log|].sender == 1 && s'.room.log[|s.room.log|].createdAt == q.stamp
  {
    hide I.Exec, I.Inv, I.AtomicPost, CountSince, MaxSeq;
    L.PlainPostIsGranted(s.room, q, L.People());
    L.UninterruptedPostCommits(s, tx, q, L.People());
    assert CloseOnPost(s.room, 1, AvailabilityRequest) == None;
  }

  lemma TalkIsFresh()
    ensures I.Fresh(Talk())
  {
    assert 1 in Talk().parts && Talk().parts[1].role.Member?;
  }

  lemma {:induction false} PostsHold(k: nat)
    requires k <= MAX_MESSAGES_PER_HOUR
    ensures Holds(I.Exec(I.Idle(Talk()), Posts(k)), k)
  {
    hide I.After, I.Inv, Post, CountSince;
    if k > 0 {
      PostsHold(k - 1);
      var s := I.Exec(I.Idle(Talk()), Posts(k - 1));
      TalkIsFresh();
      I.EveryScheduleKeepsInv(Talk(), Posts(k - 1));
      CountsAtZero(s.room.log, 1, 0);
      PostLands(s, k, Asks(0, 0));
      L.ExecAppend(I.Idle(Talk()), Posts(k - 1), Post(k, Asks(0, 0)));
    }
  }

  /** Thirty posts, and one whose transaction began `w` short of the hour and that is checked,
      after the wait for the lock, on the hour. */
  function OneTooMany(w: int): seq<I.Step> {
    Posts(MAX_MESSAGES_PER_HOUR) + Post(31, Asks(HOUR - w, HOUR))
  }

  predicate Lags(steps: seq<I.Step>, w: int) {
    forall i :: 0 <= i < |steps| && steps[i].Submit? ==> steps[i].sub.now - steps[i].sub.stamp <= w
  }

  lemma {:induction false} PostsLag(k: nat, w: int)
    requires w >= 0
    ensures Lags(Posts(k), w)
  {
    if k > 0 {
      PostsLag(k - 1, w);
      LagsConcat(Posts(k - 1), Post(k, Asks(0, 0)), w);
    }
  }

  lemma LagsConcat(xs: seq<I.Step>, ys: seq<I.Step>, w: int)
    requires Lags(xs, w) && Lags(ys, w)
    ensures Lags(xs + ys, w)
  {
  }

  lemma PostLags(tx: I.TxId, q: I.Submission, w: int)
    requires q.now - q.stamp <= w
    ensures Lags(Post(tx, q), w)
  {
  }

  lemma LastLands(s: I.System, w: int, width: int)
    requires I.Inv(s) && Holds(s, MAX_MESSAGES_PER_HOUR) && 0 <= w <= HOUR && width > HOUR - w
    ensures SentInWindow(I.Exec(s, Post(31, Asks(HOUR - w, HOUR))).room.log, 1, width, HOUR - w) == MAX_MESSAGES_PER_HOUR + 1
  {
    hide I.After, I.Inv, Post, CountSince;
    var q := Asks(HOUR - w, HOUR);
    CountsAtZero(s.room.log, width, HOUR - w);
    PostLands(s, 31, q);
    var log, log' := s.room.log, I.Exec(s, Post(31, q)).room.log;
    assert log'[..|log'| - 1] == log;
  }

  /** For every lag `w` within the hour, a schedule whose posts check at most `w` after their
      transactions began puts 31 messages of one sender into every longer window than an hour
      less `w`; so with any lag at all 31 can fall into one hour. */
  lemma MessageBoundIsTight(w: int, width: int)
    requires 0 <= w <= HOUR && width > HOUR - w
    ensures I.Fresh(Talk()) && Lags(OneTooMany(w), w)
    ensures SentInWindow(I.Exec(I.Idle(Talk()), OneTooMany(w)).room.log, 1, width, HOUR - w) == MAX_MESSAGES_PER_HOUR + 1
  {
    hide I.Exec, I.Inv, I.After, Holds, Posts, Post, Lags, SentInWindow;
    TalkIsFresh();
    assert Lags(Post(31, Asks(HOUR - w, HOUR)), w) by { PostLags(31, Asks(HOUR - w, HOUR), w); }
    PostsLag(30, w);
    LagsConcat(Posts(30), Post(31, Asks(HOUR - w, HOUR)), w);
    PostsHold(30);
    I.EveryScheduleKeepsInv(Talk(), Posts(30));
    LastLands(I.Exec(I.Idle(Talk()), Posts(30)), w, width);
    L.ExecAppend(I.Idle(Talk()), Posts(30), Post(31, Asks(HOUR - w, HOUR)));
  }

  // --- openings ---

  function Open(c: ConversationId, stamp: Instant, now: Instant): Call {
    OpenRoom(D.QUESTION.(id := c, stamp := stamp, now := now))
  }

  /** `k` openings by agent 1, all begun and checked at 0. */
  function Openings(k: nat): seq<Call> {
    if k == 0 then [] else Openings(k - 1) + [Open(k, 0, 0)]
  }

  /** Agent 1 has opened the conversations 1..k, all stamped 0. */
  ghost predicate HasOpened(b: Board, k: nat) {
    && b.agents == D.PEOPLE && (forall c :: c in b.rooms <==> 1 <= c <= k)
    && (forall c :: c in b.rooms ==> b.rooms[c].conv.createdBy == 1 && b.rooms[c].conv.createdAt == 0)
  }

  function UpTo(k: nat): (ids: set<ConversationId>)
    ensures |ids| == k && forall c :: c in ids <==> 1 <= c <= k
  {
    if k == 0 then {} else UpTo(k - 1) + {k}
  }

  lemma FirstMessagePasses(q: Opening)
    requires q == D.QUESTION.(id := q.id, stamp := q.stamp, now := q.now)
    ensures FirstMessageRefusal(D.PEOPLE, q, [2, 3]).None?
  {
  }

  lemma OpeningSucceeds(b: Board, c: ConversationId, stamp: Instant, now: Instant)
    requires b.agents == D.PEOPLE && c !in b.rooms && |StartedSince(b.rooms, 1, now - HOUR)| < MAX_STARTS_PER_HOUR
    ensures var b' := Next(b, Open(c, stamp, now));
      && b'.agents == b.agents && b'.rooms.Keys == b.rooms.Keys + {c}
      && (forall c' :: c' in b.rooms ==> b'.rooms[c'] == b.rooms[c'])
      && b'.rooms[c].conv.createdBy == 1 && b'.rooms[c].conv.createdAt == stamp
  {
    hide SortedTargets, FirstUnavailable, FirstMessageRefusal, OpeningRows, Admit, FounderRows, Settle, StartedSince;
    D.TargetsSorted();
    D.TargetsAvailable();
    FirstMessagePasses(Open(c, stamp, now).opening);
    D.AnyoneMayTalkOpenly();
  }

  lemma OneMoreOpened(b: Board, k: nat)
    requires k < MAX_STARTS_PER_HOUR && HasOpened(b, k)
    ensures HasOpened(Next(b, Open(k + 1, 0, 0)), k + 1)
  {
    hide Next, UpTo, Open;
    assert StartedSince(b.rooms, 1, -HOUR) == UpTo(k);
    OpeningSucceeds(b, k + 1, 0, 0);
  }

  lemma {:induction false} OpeningsSucceed(k: nat)
    requires k <= MAX_STARTS_PER_HOUR
    ensures HasOpened(RunFrom(Run(D.ENROLMENTS), Openings(k)), k)
  {
    hide Next, Run, HasOpened;
    if k > 0 {
      OpeningsSucceed(k - 1);
      OneMoreOpened(RunFrom(Run(D.ENROLMENTS), Openings(k - 1)), k - 1);
      D.RunOneMore(Run(D.ENROLMENTS), Openings(k - 1), Open(k, 0, 0));
    } else {
      NothingOpened();
    }
  }

  lemma NothingOpened()
    ensures HasOpened(RunFrom(Run(D.ENROLMENTS), []), 0)
  {
    hide Next, Run;
    D.EveryoneEnrolled();
    D.NoCalls(Run(D.ENROLMENTS));
  }

  function OneOpeningTooMany(w: int): seq<Call> {
    Openings(MAX_STARTS_PER_HOUR) + [Open(11, HOUR - w, HOUR)]
  }

  lemma {:induction false} OpeningsLag(k: nat, w: int)
    requires w >= 0
    ensures forall i :: 0 <= i < |Openings(k)| ==> LagWithin(Openings(k)[i], w)
  {
    if k > 0 { OpeningsLag(k - 1, w); }
  }

  lemma LastOpeningCounts(b: Board, w: int, width: int)
    requires HasOpened(b, MAX_STARTS_PER_HOUR) && 0 <= w <= HOUR && width > HOUR - w
    ensures |StartedInWindow(Next(b, Open(11, HOUR - w, HOUR)).rooms, 1, width, HOUR - w)| == MAX_STARTS_PER_HOUR + 1
  {
    hide Next, UpTo, Open;
    assert StartedSince(b.rooms, 1, 0) == {};
    OpeningSucceeds(b, 11, HOUR - w, HOUR);
    assert StartedInWindow(Next(b, Open(11, HOUR - w, HOUR)).rooms, 1, width, HOUR - w) == UpTo(11);
  }

  /** The same for openings: for every lag `w` within the hour, a run whose calls check at most
      `w` after their transactions began puts 11 openings into every longer window. */
  lemma StartBoundIsTight(w: int, width: int)
    requires 0 <= w <= HOUR && width > HOUR - w
    ensures forall i :: 0 <= i < |OneOpeningTooMany(w)| ==> LagWithin(OneOpeningTooMany(w)[i], w)
    ensures var b := RunFrom(Run(D.ENROLMENTS), OneOpeningTooMany(w));
      |StartedInWindow(b.rooms, 1, width, HOUR - w)| == MAX_STARTS_PER_HOUR + 1
  {
    hide Next, Run, RunFrom, HasOpened, StartedInWindow;
    OpeningsSucceed(10);
    OpeningsLag(10, w);
    LastOpeningCounts(RunFrom(Run(D.ENROLMENTS), Openings(10)), w, width);
    D.RunOneMore(Run(D.ENROLMENTS), Openings(10), Open(11, HOUR - w, HOUR));
  }
}
