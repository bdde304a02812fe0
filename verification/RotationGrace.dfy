/** Refresh-token rotation with a grace window (auth.py). The parent proxy is the set of live
    tokens; the rotation store keeps each consumed token's successor for a limited time. Keys
    are the tokens themselves: their hashes are taken to be distinct. */
module RotationGrace {
  import opened Vocabulary

  type Token = string
  // Seconds.
  type Instant = int

  const ROTATION_GRACE_SECONDS := 5 * 60
  const ROTATION_MAX_HOPS: nat := 3

  datatype Entry = Entry(successor: Token, expiresAt: Instant)
  datatype AuthEvent = NewAuth | GraceRedirect | HopCapExceeded | Miss | TokenRefresh

  datatype Tokens = Tokens(live: set<Token>, rotations: map<Token, Entry>)

  /** The store's read: an entry is gone from the instant it expires, and an empty successor
      reads as no successor. */
  function Successor(rotations: map<Token, Entry>, now: Instant, t: Token): Option<Token> {
    if t in rotations && now < rotations[t].expiresAt && rotations[t].successor != ""
    then Some(rotations[t].successor) else None
  }

  datatype Lookup = Lookup(token: Option<Token>, events: seq<AuthEvent>)

  function Follow(s: Tokens, now: Instant, t: Token, hops: nat): Lookup
    decreases ROTATION_MAX_HOPS - hops
  {
    var next := Successor(s.rotations, now, t);
    if next.None? then Lookup(None, [Miss])
    else if hops >= ROTATION_MAX_HOPS then Lookup(None, [HopCapExceeded])
    else if next.value in s.live then Lookup(next, [GraceRedirect])
    else
      var rest := Follow(s, now, next.value, hops + 1);
      Lookup(rest.token, [GraceRedirect] + rest.events)
  }

  function Load(s: Tokens, now: Instant, t: Token): Lookup {
    if t in s.live then Lookup(Some(t), []) else Follow(s, now, t, 0)
  }

  /** What changes the tokens: a first grant, an exchange, and the parent dropping a token. */
  datatype Step =
    | Grant(token: Token)
    | Exchange(at: Instant, presented: Token, issued: Option<Token>)
    | Revoke(token: Token)

  /** An empty refresh token in the answer counts as none. */
  function Given(issued: Option<Token>): set<Token> {
    if issued.Some? && issued.value != "" then {issued.value} else {}
  }

  /** An exchange of a token that is no longer live fails in the parent and changes nothing. */
  function Next(s: Tokens, step: Step): Tokens {
    match step
    case Grant(t) => s.(live := s.live + {t})
    case Revoke(t) => s.(live := s.live - {t})
    case Exchange(at, presented, issued) =>
      if presented !in s.live then s
      else
        Tokens(s.live - {presented} + Given(issued),
               if Given(issued) == {} then s.rotations
               else s.rotations[presented := Entry(issued.value, at + ROTATION_GRACE_SECONDS)])
  }

  class OktaProxy {
    var live: set<Token>
    var rotations: map<Token, Entry>
    var events: seq<AuthEvent>

    constructor ()
      ensures State() == Tokens({}, map[]) && events == []
    {
      live, rotations, events := {}, map[], [];
    }

    ghost function State(): Tokens
      reads this
    {
      Tokens(live, rotations)
    }

    method ExchangeAuthorizationCode(issued: Token)
      modifies `live, `events
      ensures State() == Next(old(State()), Grant(issued)) && events == old(events) + [NewAuth]
    {
      live := live + {issued};
      events := events + [NewAuth];
    }

    method LoadRefreshToken(now: Instant, t: Token) returns (r: Option<Token>)
      modifies `events
      ensures var l := Load(State(), now, t); r == l.token && events == old(events) + l.events
    {
      if t in live { return Some(t); }
      r := FollowRotationGrace(now, t, 0);
    }

    method FollowRotationGrace(now: Instant, t: Token, hops: nat) returns (r: Option<Token>)
      modifies `events
      ensures var l := Follow(State(), now, t, hops); r == l.token && events == old(events) + l.events
      decreases ROTATION_MAX_HOPS - hops
    {
      var next := Successor(rotations, now, t);
      if next.Some? && hops < ROTATION_MAX_HOPS {
        events := events + [GraceRedirect];
        if next.value in live { return next; }
        r := FollowRotationGrace(now, next.value, hops + 1);
        return;
      }
      events := events + [if next.Some? then HopCapExceeded else Miss];
      r := None;
    }

    method ExchangeRefreshToken(now: Instant, presented: Token, issued: Option<Token>) returns (ok: bool)
      modifies this
      ensures State() == Next(old(State()), Exchange(now, presented, issued))
      ensures ok == (presented in old(live))
      ensures events == old(events) + if ok then [TokenRefresh] else []
    {
      if presented !in live { return false; }
      live := live - {presented} + Given(issued);
      events := events + [TokenRefresh];
      if issued.Some? && issued.value != "" {
        rotations := rotations[presented := Entry(issued.value, now + ROTATION_GRACE_SECONDS)];
      }
      ok := true;
    }

    method Perform(step: Step)
      modifies this
      ensures State() == Next(old(State()), step)
    {
      match step
      case Grant(t) => ExchangeAuthorizationCode(t);
      case Revoke(t) => live := live - {t};
      case Exchange(at, presented, issued) => var _ := ExchangeRefreshToken(at, presented, issued);
    }

    /** A fresh proxy driven through any list of steps holds the tokens of that run. */
    method PerformAll(steps: seq<Step>)
      requires State() == Tokens({}, map[])
      modifies this
      ensures State() == Run(steps)
    {
      hide Next;
      for i := 0 to |steps|
        invariant State() == Run(steps[..i])
      {
        assert steps[..i + 1][..i] == steps[..i];
        Perform(steps[i]);
      }
      assert steps[..|steps|] == steps;
    }
  }

  // --- runs ---

  function Run(steps: seq<Step>): Tokens {
    if steps == [] then Tokens({}, map[]) else Next(Run(steps[..|steps| - 1]), steps[|steps| - 1])
  }

  function Issues(step: Step): set<Token> {
    match step
    case Grant(t) => {t}
    case Exchange(_, _, issued) => Given(issued)
    case Revoke(_) => {}
  }

  function Issued(steps: seq<Step>): set<Token> {
    if steps == [] then {} else Issued(steps[..|steps| - 1]) + Issues(steps[|steps| - 1])
  }

  /** Every token handed out is new. */
  predicate IssuesFresh(steps: seq<Step>) {
    steps != [] ==>
      && IssuesFresh(steps[..|steps| - 1])
      && Issues(steps[|steps| - 1]) !! Issued(steps[..|steps| - 1])
  }

  predicate Clocked(steps: seq<Step>) {
    forall i, j :: 0 <= i < j < |steps| && steps[i].Exchange? && steps[j].Exchange? ==> steps[i].at <= steps[j].at
  }

  /** Consumed tokens are dead, and a successor's own entry never expires before its predecessor's. */
  ghost predicate Ordered(s: Tokens, known: set<Token>) {
    && s.live <= known
    && (forall t :: t in s.rotations ==> t in known && t !in s.live)
    && (forall t :: t in s.rotations ==> s.rotations[t].successor in known && s.rotations[t].successor != "")
    && (forall t :: t in s.rotations && s.rotations[t].successor in s.rotations ==>
          s.rotations[t].expiresAt <= s.rotations[s.rotations[t].successor].expiresAt)
  }

  predicate ExpiresAfter(e: Entry, step: Step) {
    step.Exchange? && e.expiresAt == step.at + ROTATION_GRACE_SECONDS
  }

  ghost predicate WrittenBy(s: Tokens, steps: seq<Step>) {
    forall t :: t in s.rotations ==> exists i :: 0 <= i < |steps| && ExpiresAfter(s.rotations[t], steps[i])
  }

  lemma StepKeepsOrder(s: Tokens, known: set<Token>, step: Step)
    requires Ordered(s, known) && Issues(step) !! known
    requires step.Exchange? ==> forall t :: t in s.rotations ==> s.rotations[t].expiresAt <= step.at + ROTATION_GRACE_SECONDS
    ensures Ordered(Next(s, step), known + Issues(step))
  {
  }

  lemma StepKeepsWrites(s: Tokens, front: seq<Step>, step: Step)
    requires WrittenBy(s, front)
    ensures WrittenBy(Next(s, step), front + [step])
  {
    hide Given;
    var s', steps := Next(s, step), front + [step];
    forall t | t in s'.rotations ensures exists i :: 0 <= i < |steps| && ExpiresAfter(s'.rotations[t], steps[i]) {
      if t in s.rotations && s'.rotations[t] == s.rotations[t] {
        var i :| 0 <= i < |front| && ExpiresAfter(s.rotations[t], front[i]);
        assert steps[i] == front[i];
      } else {
        assert steps[|front|] == step;
      }
    }
  }

  lemma WrittenEarlier(s: Tokens, front: seq<Step>, step: Step, t: Token)
    requires WrittenBy(s, front) && Clocked(front + [step]) && step.Exchange? && t in s.rotations
    ensures s.rotations[t].expiresAt <= step.at + ROTATION_GRACE_SECONDS
  {
    var i :| 0 <= i < |front| && ExpiresAfter(s.rotations[t], front[i]);
    assert (front + [step])[i] == front[i] && (front + [step])[|front|] == step;
  }

  lemma {:induction false} ReachableTokensAreOrdered(steps: seq<Step>)
    requires IssuesFresh(steps) && Clocked(steps)
    ensures Ordered(Run(steps), Issued(steps)) && WrittenBy(Run(steps), steps)
  {
    hide Ordered, WrittenBy, Next, Issues;
    if steps == [] {
      NothingIsOrdered();
    } else {
      var front, step := steps[..|steps| - 1], steps[|steps| - 1];
      assert steps == front + [step];
      ReachableTokensAreOrdered(front);
      if step.Exchange? {
        forall t | t in Run(front).rotations
          ensures Run(front).rotations[t].expiresAt <= step.at + ROTATION_GRACE_SECONDS
        {
          WrittenEarlier(Run(front), front, step, t);
        }
      }
      StepKeepsOrder(Run(front), Issued(front), step);
      StepKeepsWrites(Run(front), front, step);
    }
  }

  lemma NothingIsOrdered()
    ensures Ordered(Tokens({}, map[]), {}) && WrittenBy(Tokens({}, map[]), [])
  {
  }

  // --- the tokens, told by the steps alone ---

  predicate Takes(step: Step, t: Token) {
    step == Revoke(t) || (step.Exchange? && step.presented == t)
  }

  /** The step grants `t`, or exchanges a token live before it for `t`. */
  ghost predicate Hands(steps: seq<Step>, i: nat, t: Token)
    decreases |steps|, 0
  {
    && i < |steps|
    && (steps[i] == Grant(t)
        || (steps[i].Exchange? && steps[i].issued == Some(t) && t != "" && LiveBy(steps[..i], steps[i].presented)))
  }

  predicate UntakenSince(steps: seq<Step>, i: nat, t: Token) {
    forall j :: i < j < |steps| ==> !Takes(steps[j], t)
  }

  /** Granted or issued, and neither exchanged nor revoked since. */
  ghost predicate LiveBy(steps: seq<Step>, t: Token)
    decreases |steps|, 1
  {
    exists i: nat :: Hands(steps, i, t) && UntakenSince(steps, i, t)
  }

  lemma HandsStay(front: seq<Step>, last: Step, i: nat, t: Token)
    requires i < |front|
    ensures Hands(front + [last], i, t) <==> Hands(front, i, t)
  {
    var steps := front + [last];
    assert steps[i] == front[i] && steps[..i] == front[..i];
  }

  lemma LiveBySnoc(front: seq<Step>, last: Step, t: Token)
    ensures LiveBy(front + [last], t) <==> Hands(front + [last], |front|, t) || (LiveBy(front, t) && !Takes(last, t))
  {
    hide Takes;
    var steps := front + [last];
    assert forall i :: 0 <= i < |front| ==> steps[i] == front[i];
    assert steps[|front|] == last;
    if LiveBy(steps, t) {
      var i: nat :| Hands(steps, i, t) && UntakenSince(steps, i, t);
      if i < |front| {
        HandsStay(front, last, i, t);
      } else {
        HandsInRange(steps, i, t);
      }
    }
    if LiveBy(front, t) && !Takes(last, t) {
      var i: nat :| Hands(front, i, t) && UntakenSince(front, i, t);
      HandsInRange(front, i, t);
      HandsStay(front, last, i, t);
      assert Hands(steps, i, t);
    }
  }

  lemma HandsInRange(steps: seq<Step>, i: nat, t: Token)
    requires Hands(steps, i, t)
    ensures i < |steps|
  {
  }

  /** Over any run a token is live if and only if it was granted, or issued for a live token, and
      has been neither exchanged nor revoked since. */
  lemma {:induction false} LiveExactly(steps: seq<Step>, t: Token)
    ensures t in Run(steps).live <==> LiveBy(steps, t)
    decreases |steps|
  {
    if steps == [] {
      if i: nat :| Hands(steps, i, t) { HandsInRange(steps, i, t); }
    } else {
      var front, last := steps[..|steps| - 1], steps[|steps| - 1];
      assert steps == front + [last] && steps[..|front|] == front;
      LiveExactly(front, t);
      LiveBySnoc(front, last, t);
      if last.Exchange? { LiveExactly(front, last.presented); }
    }
  }

  /** The step exchanges the live token `t` and issues a successor. */
  ghost predicate Rotates(steps: seq<Step>, i: nat, t: Token) {
    && i < |steps| && steps[i].Exchange? && steps[i].presented == t && LiveBy(steps[..i], t)
    && steps[i].issued.Some? && steps[i].issued.value != ""
  }

  lemma RotatesStay(front: seq<Step>, last: Step, i: nat, t: Token)
    requires i < |front|
    ensures Rotates(front + [last], i, t) <==> Rotates(front, i, t)
  {
    var steps := front + [last];
    assert steps[i] == front[i] && steps[..i] == front[..i];
  }

  /** The store holds an entry exactly for each token that was rotated: its successor, for 300
      seconds from the exchange. */
  lemma {:induction false} RotationsExactly(steps: seq<Step>, t: Token)
    requires IssuesFresh(steps) && Clocked(steps)
    ensures t in Run(steps).rotations <==> exists i: nat :: Rotates(steps, i, t)
    ensures forall i: nat :: Rotates(steps, i, t) ==>
      t in Run(steps).rotations && Run(steps).rotations[t] == Entry(steps[i].issued.value, steps[i].at + 300)
    decreases |steps|
  {
    if steps != [] {
      var front, last := steps[..|steps| - 1], steps[|steps| - 1];
      assert steps == front + [last] && steps[..|front|] == front;
      RotationsExactly(front, t);
      LiveExactly(front, t);
      ReachableTokensAreOrdered(front);
      forall i: nat | Rotates(steps, i, t)
        ensures t in Run(steps).rotations && Run(steps).rotations[t] == Entry(steps[i].issued.value, steps[i].at + 300)
      {
        if i < |front| { RotatesStay(front, last, i, t); }
      }
      if t in Run(steps).rotations {
        if t in Run(front).rotations {
          var i: nat :| Rotates(front, i, t);
          RotatesStay(front, last, i, t);
        } else {
          assert Rotates(steps, |front|, t);
        }
      }
    }
  }

  // --- chains of successors ---

  /** `u` is what `t` has become after `k` rotations. */
  predicate Rotated(rotations: map<Token, Entry>, t: Token, k: nat, u: Token)
    decreases k
  {
    if k == 0 then t == u else t in rotations && Rotated(rotations, rotations[t].successor, k - 1, u)
  }

  lemma {:induction false} ChainsStay(rotations: map<Token, Entry>, t: Token, k: nat, u: Token, v: Token, e: Entry)
    requires Rotated(rotations, t, k, u) && v !in rotations
    ensures Rotated(rotations[v := e], t, k, u)
    decreases k
  {
    if k > 0 { ChainsStay(rotations, rotations[t].successor, k - 1, u, v, e); }
  }

  lemma {:induction false} ChainsExtend(rotations: map<Token, Entry>, t: Token, k: nat, u: Token)
    requires Rotated(rotations, t, k, u) && u in rotations
    ensures Rotated(rotations, t, k + 1, rotations[u].successor)
    decreases k
  {
    if k > 0 { ChainsExtend(rotations, rotations[t].successor, k - 1, u); }
  }

  /** Every token handed out has a last successor: the chains never loop. */
  lemma {:induction false} FamilyHasATip(steps: seq<Step>, t: Token) returns (k: nat, u: Token)
    requires IssuesFresh(steps) && Clocked(steps) && t in Issued(steps)
    ensures Rotated(Run(steps).rotations, t, k, u) && u !in Run(steps).rotations
  {
    var front, step := steps[..|steps| - 1], steps[|steps| - 1];
    var s, s' := Run(front), Run(steps);
    ReachableTokensAreOrdered(front);
    if t in Issues(step) {
      return 0, t;
    }
    k, u := FamilyHasATip(front, t);
    if s'.rotations != s.rotations {
      var v := step.presented;
      ChainsStay(s.rotations, t, k, u, v, s'.rotations[v]);
      if u == v {
        ChainsExtend(s'.rotations, t, k, u);
        k, u := k + 1, s'.rotations[v].successor;
      }
    }
  }

  function Redirects(n: nat): seq<AuthEvent> {
    seq(n, i => GraceRedirect)
  }

  /** The answer for a token whose family ends `k >= 1` rotations on at `tip`, first entry still fresh. */
  function GraceAnswer(s: Tokens, hops: nat, k: nat, tip: Token): Lookup
    requires hops <= ROTATION_MAX_HOPS
  {
    if hops + k > ROTATION_MAX_HOPS then Lookup(None, Redirects(ROTATION_MAX_HOPS - hops) + [HopCapExceeded])
    else if tip in s.live then Lookup(Some(tip), Redirects(k))
    else Lookup(None, Redirects(k) + [Miss])
  }

  lemma {:induction false} FollowExact(s: Tokens, known: set<Token>, now: Instant, t: Token, hops: nat, k: nat, tip: Token)
    requires Ordered(s, known) && k >= 1 && hops <= ROTATION_MAX_HOPS
    requires Rotated(s.rotations, t, k, tip) && tip !in s.rotations && now < s.rotations[t].expiresAt
    ensures Follow(s, now, t, hops) == GraceAnswer(s, hops, k, tip)
    decreases k
  {
    var next := s.rotations[t].successor;
    if hops < ROTATION_MAX_HOPS {
      if k == 1 {
        assert Redirects(1) == [GraceRedirect];
        assert Rotated(s.rotations, next, 0, tip);
      } else {
        assert next in s.rotations;
        FollowExact(s, known, now, next, hops + 1, k - 1, tip);
        assert Redirects(k) == [GraceRedirect] + Redirects(k - 1);
        assert Redirects(ROTATION_MAX_HOPS - hops) == [GraceRedirect] + Redirects(ROTATION_MAX_HOPS - hops - 1);
      }
    }
  }

  /** Over any run handing out new tokens on a clock that never runs backwards, a token rotated
      `k >= 1` times resolves to its family's live last successor if and only if `k <= 3` and its
      own entry, the oldest of the chain, is unexpired; each other case ends as stated. */
  lemma GraceResolvesRecentPast(steps: seq<Step>, now: Instant, t: Token, k: nat, tip: Token)
    requires IssuesFresh(steps) && Clocked(steps)
    requires k >= 1 && Rotated(Run(steps).rotations, t, k, tip) && tip !in Run(steps).rotations
    ensures var s := Run(steps);
      Load(s, now, t) ==
        if now < s.rotations[t].expiresAt then GraceAnswer(s, 0, k, tip) else Lookup(None, [Miss])
    ensures var s := Run(steps);
      tip in s.live ==>
        (Load(s, now, t).token == Some(tip) <==> k <= ROTATION_MAX_HOPS && now < s.rotations[t].expiresAt)
  {
    ReachableTokensAreOrdered(steps);
    var s := Run(steps);
    if now < s.rotations[t].expiresAt { FollowExact(s, Issued(steps), now, t, 0, k, tip); }
  }

  /** Every answer is a live token, and every other token ever presented is a miss. */
  lemma OnlyFamilyMembersResolve(steps: seq<Step>, now: Instant, t: Token)
    requires IssuesFresh(steps) && Clocked(steps)
    ensures var answer := Load(Run(steps), now, t).token;
      answer.Some? ==>
        && answer.value in Run(steps).live && t in Issued(steps)
        && exists k: nat :: k <= ROTATION_MAX_HOPS && Rotated(Run(steps).rotations, t, k, answer.value)
  {
    ReachableTokensAreOrdered(steps);
    var s := Run(steps);
    if t in s.live {
      assert Rotated(s.rotations, t, 0, t);
    } else if t in Issued(steps) {
      var k, tip := FamilyHasATip(steps, t);
      if k >= 1 { GraceResolvesRecentPast(steps, now, t, k, tip); }
    }
  }

  predicate Logs(l: Lookup, redirects: nat) {
    && (l.events == Redirects(redirects) <==> l.token.Some?)
    && (l.token.None? ==> l.events == Redirects(redirects) + [Miss] || l.events == Redirects(redirects) + [HopCapExceeded])
  }

  lemma OneMoreRedirect(n: nat, rest: seq<AuthEvent>)
    ensures [GraceRedirect] + (Redirects(n) + rest) == Redirects(n + 1) + rest
    ensures [GraceRedirect] + Redirects(n) == Redirects(n + 1)
  {
  }

  lemma {:induction false} CountRedirects(s: Tokens, now: Instant, t: Token, hops: nat) returns (n: nat)
    requires hops <= ROTATION_MAX_HOPS
    ensures n <= ROTATION_MAX_HOPS - hops && Logs(Follow(s, now, t, hops), n)
    decreases ROTATION_MAX_HOPS - hops
  {
    hide Redirects;
    var next := Successor(s.rotations, now, t);
    assert Redirects(0) == [] && Redirects(1) == [GraceRedirect] by { OneMoreRedirect(0, []); NoRedirect(); }
    if next.Some? && hops < ROTATION_MAX_HOPS && next.value !in s.live {
      n := CountRedirects(s, now, next.value, hops + 1);
      OneMoreRedirect(n, [Miss]);
      OneMoreRedirect(n, [HopCapExceeded]);
      n := n + 1;
    } else {
      n := if Follow(s, now, t, hops).token.Some? then 1 else 0;
    }
  }

  lemma NoRedirect()
    ensures Redirects(0) == []
  {
  }

  /** Whatever the store holds, a lookup logs at most three redirects, and then one terminal
      event exactly when it finds no token. */
  lemma EventsAreBounded(s: Tokens, now: Instant, t: Token, hops: nat)
    requires hops <= ROTATION_MAX_HOPS
    ensures exists n: nat :: n <= ROTATION_MAX_HOPS - hops && Logs(Follow(s, now, t, hops), n)
  {
    hide Follow, Logs;
    var n := CountRedirects(s, now, t, hops);
  }

  // --- the grace window, told by the steps alone ---

  /** Over any run handing out new tokens on a clock that never runs backwards: the token that
      step `i` rotated, and whose family's last successor is live by the steps, resolves to that
      successor if and only if it is at most three rotations on and less than 300 seconds have
      passed since step `i`. */
  lemma GraceIsRecentHistory(steps: seq<Step>, now: Instant, t: Token, i: nat, k: nat, tip: Token)
    requires IssuesFresh(steps) && Clocked(steps) && Rotates(steps, i, t) && LiveBy(steps, tip)
    requires Rotated(Run(steps).rotations, t, k, tip)
    ensures Load(Run(steps), now, t).token == Some(tip) <==> k <= 3 && now < steps[i].at + 300
    ensures Load(Run(steps), now, tip) == Lookup(Some(tip), [])
  {
    RotationsExactly(steps, t);
    LiveExactly(steps, tip);
    ReachableTokensAreOrdered(steps);
    assert k >= 1 && tip !in Run(steps).rotations;
    hide LiveBy, Rotates, Follow;
    GraceResolvesRecentPast(steps, now, t, k, tip);
  }

  /** In particular, right after an exchange of a live token the issued one is live, and the one
      presented leads to it for 300 seconds. */
  lemma ExchangesHandOn(steps: seq<Step>, at: Instant, presented: Token, issued: Token, now: Instant)
    requires issued != "" && LiveBy(steps, presented)
    requires var all := steps + [Exchange(at, presented, Some(issued))]; IssuesFresh(all) && Clocked(all)
    ensures var s := Run(steps + [Exchange(at, presented, Some(issued))]);
      && Load(s, now, issued) == Lookup(Some(issued), [])
      && (Load(s, now, presented).token == Some(issued) <==> now < at + 300)
  {
    var step := Exchange(at, presented, Some(issued));
    var all := steps + [step];
    assert all[..|steps|] == steps;
    assert Rotates(all, |steps|, presented);
    LiveBySnoc(steps, step, issued);
    assert Hands(all, |steps|, issued);
    RotationsExactly(all, presented);
    assert Rotated(Run(all).rotations, issued, 0, issued);
    assert Rotated(Run(all).rotations, presented, 1, issued);
    hide LiveBy, Hands, Rotates, Rotated, Load;
    GraceIsRecentHistory(all, now, presented, |steps|, 1, issued);
  }
}
