/** When a call succeeds, and why it fails: exactly as the rules on the stored columns say. */
module Grants {
  import opened Vocabulary
  import opened Text
  import opened Tables
  import opened Policy
  import opened Operations
  import opened Runs
  import opened Integrity
  import opened Rules

  // --- owners ---

  lemma OwnersExactly(client: OwnershipClient, agents: map<AgentId, Agent>, a: AgentId)
    ensures forall o :: o in VerifiedOwners(client, agents, a) <==> Owns(client, agents, a, o)
    ensures VerifiedOwners(client, agents, a) == {} <==> !Verified(client, agents, a)
  {
    if VerifiedOwners(client, agents, a) != {} {
      var o :| o in VerifiedOwners(client, agents, a);
      assert Owns(client, agents, a, o);
    }
  }

  lemma PairsExactly(client: OwnershipClient, agents: map<AgentId, Agent>, a: AgentId, b: AgentId)
    ensures VerifiedOwners(client, agents, a) <= VerifiedOwners(client, agents, b) <==> Inside(client, agents, a, b)
    ensures MayAssign(VerifiedOwners(client, agents, a), VerifiedOwners(client, agents, b)) <==> Share(client, agents, a, b)
  {
    hide VerifiedOwners, Owns;
    OwnersExactly(client, agents, a);
    OwnersExactly(client, agents, b);
    var mine, theirs := VerifiedOwners(client, agents, a), VerifiedOwners(client, agents, b);
    if MayAssign(mine, theirs) {
      var o :| o in mine * theirs;
      assert Owns(client, agents, a, o) && Owns(client, agents, b, o);
    }
    if Share(client, agents, a, b) {
      var o :| Owns(client, agents, a, o) && Owns(client, agents, b, o);
      assert o in mine * theirs;
    }
  }

  // --- the boundary rule ---

  ghost function Among(ids: set<AgentId>): iset<AgentId> {
    iset x | x in ids
  }

  /** The boundary check refuses exactly unverified and crossing free text, and unknown types. */
  lemma BoundaryRefusesExactly(
    agents: map<AgentId, Agent>, ctype: ConversationType, a: AgentId, others: set<AgentId>, t: MessageType, client: OwnershipClient)
    requires BoundaryFlag(t, 1).Some?
    ensures var hearers := Among(others);
      BoundaryRefusal(agents, ctype, a, others, BoundaryFlag(t, 1).value, client) ==
        if UnverifiedText(client, agents, ctype, t, a, hearers) then Some(OwnershipUnverified)
        else if ctype.OtherConversation? then Some(UnknownConversationType)
        else if CrossingText(client, agents, ctype, t, a, hearers) then Some(BoundaryCrossing)
        else None
  {
    hide VerifiedOwners, Owns, Verified, Inside;
    var mine, theirs := VerifiedOwners(client, agents, a), OthersOwners(client, agents, others);
    OwnersExactly(client, agents, a);
    forall x | x in others
      ensures VerifiedOwners(client, agents, x) == {} <==> !Verified(client, agents, x)
      ensures VerifiedOwners(client, agents, x) <= mine <==> Inside(client, agents, x, a)
    {
      OwnersExactly(client, agents, x);
      PairsExactly(client, agents, x, a);
    }
    assert theirs <= mine <==> forall x :: x in others ==> VerifiedOwners(client, agents, x) <= mine by {
      if theirs <= mine {
        forall x, o | x in others && o in VerifiedOwners(client, agents, x) ensures o in mine { assert o in theirs; }
      }
    }
  }

  // --- admission ---

  /** Admission over ordered pairs is the rule over all pairs of founders, refused with the reason
      that fails first, and its snapshot holds exactly the founders' owners. */
  lemma AdmitExactly(agents: map<AgentId, Agent>, founders: seq<AgentId>, ctype: ConversationType, client: OwnershipClient)
    ensures var admission := Admit(agents, founders, ctype, client);
      && admission == (
           if ctype.Open? then Admitted(None)
           else if exists x :: x in founders && !Verified(client, agents, x) then NotAdmitted(OwnershipUnverified)
           else if ctype.Internal? && exists x, y :: x in founders && y in founders && !Inside(client, agents, x, y) then
             NotAdmitted(NotSameOwner)
           else if !ctype.Internal? && exists x, y :: x in founders && y in founders && !Share(client, agents, x, y) then
             NotAdmitted(NoOwnerOverlap)
           else Admitted(Some(UnionOf(OwnersOf(client, agents, founders)))))
      && (admission.Admitted? ==>
           && (admission.snapshot.None? <==> ctype.Open?)
           && (admission.snapshot.Some? ==> forall o ::
                o in admission.snapshot.value <==> exists x :: x in founders && Owns(client, agents, x, o)))
  {
    hide VerifiedOwners, Owns, Verified, Inside, Share, MayAssign;
    if !ctype.Open? {
      EveryoneVerified(agents, founders, client);
      if {} !in OwnersOf(client, agents, founders) { PairsAdmitted(agents, founders, ctype, client); }
      SnapshotHolds(agents, founders, client);
    }
  }

  lemma EveryoneVerified(agents: map<AgentId, Agent>, founders: seq<AgentId>, client: OwnershipClient)
    ensures {} in OwnersOf(client, agents, founders) <==> exists x :: x in founders && !Verified(client, agents, x)
  {
    hide VerifiedOwners, Verified;
    var owners := OwnersOf(client, agents, founders);
    forall i | 0 <= i < |founders|
      ensures owners[i] == VerifiedOwners(client, agents, founders[i])
      ensures owners[i] == {} <==> !Verified(client, agents, founders[i])
    {
      OwnersExactly(client, agents, founders[i]);
    }
    if {} in owners {
      var i :| 0 <= i < |owners| && owners[i] == {};
      assert founders[i] in founders && !Verified(client, agents, founders[i]);
    }
    if x :| x in founders && !Verified(client, agents, x) {
      var i :| 0 <= i < |founders| && founders[i] == x;
      assert owners[i] == {};
    }
  }

  /** What two founders must be to each other. */
  ghost predicate Match(client: OwnershipClient, agents: map<AgentId, Agent>, ctype: ConversationType, x: AgentId, y: AgentId) {
    if ctype.Internal? then Inside(client, agents, x, y) && Inside(client, agents, y, x) else Share(client, agents, x, y)
  }

  lemma PairMatches(agents: map<AgentId, Agent>, ctype: ConversationType, client: OwnershipClient, x: AgentId, y: AgentId)
    ensures Match(client, agents, ctype, x, y) <==>
      var mine, theirs := VerifiedOwners(client, agents, x), VerifiedOwners(client, agents, y);
      if ctype.Internal? then mine == theirs else MayAssign(mine, theirs)
    ensures Match(client, agents, ctype, x, y) <==> Match(client, agents, ctype, y, x)
    ensures Verified(client, agents, x) ==> Match(client, agents, ctype, x, x)
  {
    hide VerifiedOwners, Owns, MayAssign;
    PairsExactly(client, agents, x, y);
    PairsExactly(client, agents, y, x);
  }

  lemma PairsAdmitted(agents: map<AgentId, Agent>, founders: seq<AgentId>, ctype: ConversationType, client: OwnershipClient)
    requires forall x :: x in founders ==> Verified(client, agents, x)
    ensures PairwiseAdmitted(ctype, OwnersOf(client, agents, founders)) <==>
      forall x, y :: x in founders && y in founders ==> Match(client, agents, ctype, x, y)
  {
    hide VerifiedOwners, Verified, Match, MayAssign;
    var owners := OwnersOf(client, agents, founders);
    assert forall i :: 0 <= i < |founders| ==> owners[i] == VerifiedOwners(client, agents, founders[i]);
    forall i, j | 0 <= i < |founders| && 0 <= j < |founders|
      ensures Match(client, agents, ctype, founders[i], founders[j]) <==>
        if ctype.Internal? then owners[i] == owners[j] else MayAssign(owners[i], owners[j])
    {
      PairMatches(agents, ctype, client, founders[i], founders[j]);
    }
    if PairwiseAdmitted(ctype, owners) {
      forall x, y | x in founders && y in founders ensures Match(client, agents, ctype, x, y) {
        var i :| 0 <= i < |founders| && founders[i] == x;
        var j :| 0 <= j < |founders| && founders[j] == y;
        PairMatches(agents, ctype, client, x, y);
        if i > j { assert Match(client, agents, ctype, founders[j], founders[i]); }
      }
    }
  }

  lemma SnapshotHolds(agents: map<AgentId, Agent>, founders: seq<AgentId>, client: OwnershipClient)
    ensures var union := UnionOf(OwnersOf(client, agents, founders));
      forall o :: o in union <==> exists x :: x in founders && Owns(client, agents, x, o)
  {
    hide VerifiedOwners, Owns;
    var owners := OwnersOf(client, agents, founders);
    forall o | o in UnionOf(owners) ensures exists x :: x in founders && Owns(client, agents, x, o) {
      var i :| 0 <= i < |owners| && o in owners[i];
      OwnersExactly(client, agents, founders[i]);
      assert founders[i] in founders && Owns(client, agents, founders[i], o);
    }
    forall o, x | x in founders && Owns(client, agents, x, o) ensures o in UnionOf(owners) {
      var i :| 0 <= i < |founders| && founders[i] == x;
      OwnersExactly(client, agents, x);
      assert o in owners[i];
    }
  }

  // --- posts ---

  lemma {:induction false} CountIsCardinality(log: seq<Message>, a: AgentId, after: Instant)
    ensures CountSince(log, a, after) == |SentSince(log, a, after)|
  {
    if log != [] {
      var front, n := log[..|log| - 1], |log| - 1;
      CountIsCardinality(front, a, after);
      var counts := log[n].sender == a && log[n].createdAt > after;
      assert SentSince(log, a, after) == SentSince(front, a, after) + if counts then {n} else {};
    }
  }

  lemma {:induction false} ReferredExactly(log: seq<Message>, about: int)
    requires about >= 1
    ensures about <= MaxSeq(log) <==> exists i :: 0 <= i < |log| && log[i].seqNo >= about
  {
    if log != [] {
      var front, n := log[..|log| - 1], |log| - 1;
      ReferredExactly(front, about);
      if i :| 0 <= i < |log| && log[i].seqNo >= about {
        if i < n { assert front[i].seqNo >= about; }
      }
      if i :| 0 <= i < |front| && front[i].seqNo >= about { assert log[i].seqNo >= about; }
    }
  }

  lemma PayloadsExactly(t: MessageType, version: int, raw: RawPayload)
    ensures ValidatePayload(t, version, raw) == if PayloadFits(t, version, raw) then raw.fields else None
    ensures PayloadFits(t, version, raw) ==> BoundaryFlag(t, version) == BoundaryFlag(t, 1) && BoundaryFlag(t, 1).Some?
  {
  }

  lemma HearersExactly(agents: map<AgentId, Agent>, parts: map<AgentId, Participant>, a: AgentId)
    ensures forall x :: x in Others(agents, parts, a, Active) <==> Rules.Other(agents, parts, a, x, Active)
    ensures Among(Others(agents, parts, a, Active) + Others(agents, parts, a, Invited)) == Hearers(agents, parts, a)
  {
  }

  lemma ContentExactly(agents: map<AgentId, Agent>, r: Room, a: AgentId, t: MessageType, client: OwnershipClient)
    requires BoundaryFlag(t, 1).Some?
    ensures var hearers := Hearers(agents, r.parts, a);
      ContentRefusal(agents, r, a, t, BoundaryFlag(t, 1).value, client) ==
        if exists x :: Rules.Other(agents, r.parts, a, x, Active) && t !in agents[x].accepted then Some(TypeNotAccepted)
        else if UnverifiedText(client, agents, r.conv.ctype, t, a, hearers) then Some(OwnershipUnverified)
        else if r.conv.ctype.OtherConversation? then Some(UnknownConversationType)
        else if CrossingText(client, agents, r.conv.ctype, t, a, hearers) then Some(BoundaryCrossing)
        else None
  {
    hide BoundaryFlag, BoundaryRefusal, UnverifiedText, CrossingText, Others, Rules.Other, Hearers, Among, AllAccept;
    var active, invited := Others(agents, r.parts, a, Active), Others(agents, r.parts, a, Invited);
    HearersExactly(agents, r.parts, a);
    BoundaryRefusesExactly(agents, r.conv.ctype, a, active + invited, t, client);
    AcceptingExactly(agents, r.parts, a, t);
  }

  lemma AcceptingExactly(agents: map<AgentId, Agent>, parts: map<AgentId, Participant>, a: AgentId, t: MessageType)
    ensures AllAccept(agents, Others(agents, parts, a, Active), t) <==>
      !exists x :: Rules.Other(agents, parts, a, x, Active) && t !in agents[x].accepted
  {
    HearersExactly(agents, parts, a);
  }

  /** A verdict that refuses with the reference's reason, or grants if it has none. */
  predicate Agrees(v: Verdict, refusal: Option<Refused>) {
    if refusal.Some? then v == Refuse(refusal.value.error, refusal.value.about) else v.Grant?
  }

  lemma SettledExactly(r: Room, now: Instant)
    ensures var s := Settle(r, now); s.parts == r.parts && s.log == r.log && s.conv == r.conv.(state := StateAt(r.conv, now))
  {
  }

  lemma PostsExactly(
    agents: map<AgentId, Agent>, r: Room, now: Instant, a: AgentId, t: MessageType, version: int, raw: RawPayload,
    stamp: Instant, client: OwnershipClient)
    requires a in r.parts
    ensures Agrees(PostVerdict(agents, Settle(r, now), now, a, t, version, raw, stamp, client),
                   PostRefusal(agents, r, now, a, t, version, raw, client))
  {
    hide ContentRefusal, CountSince, SentSince, MaxSeq, Settle, StateAt, ValidatePayload, PayloadFits, BoundaryFlag, Hearers,
      UnverifiedText, CrossingText, Rules.Other, CloseOnPost;
    var s := Settle(r, now);
    SettledExactly(r, now);
    CountIsCardinality(r.log, a, now - HOUR);
    PayloadsExactly(t, version, raw);
    if PayloadFits(t, version, raw) {
      ContentExactly(agents, s, a, t, client);
      assert BoundaryFlag(t, version) == BoundaryFlag(t, 1);
      assert s.conv.ctype == r.conv.ctype && s.parts == r.parts && s.log == r.log;
      assert raw.fields.Some? by { FitsPoint(t, version, raw); }
      if t.NeedsClarification? {
        assert raw.fields.value.aboutSeq >= 1 by { FitsPoint(t, version, raw); }
        ReferredExactly(r.log, raw.fields.value.aboutSeq);
      }
    }
  }

  lemma FitsPoint(t: MessageType, version: int, raw: RawPayload)
    requires PayloadFits(t, version, raw)
    ensures raw.fields.Some? && (t.NeedsClarification? ==> raw.fields.value.aboutSeq >= 1)
  {
  }

  lemma InvitesExactly(
    agents: map<AgentId, Agent>, r: Room, now: Instant, stamp: Instant, a: AgentId, target: AgentId, client: OwnershipClient)
    ensures Agrees(InviteVerdict(agents, Settle(r, now), stamp, a, target, client), InviteRefusal(agents, r, now, target, client))
  {
    hide VerifiedOwners, Owns, Verified, Settle, StateAt;
    SettledExactly(r, now);
    OwnersExactly(client, agents, target);
  }

  lemma DecidesExactly(agents: map<AgentId, Agent>, r: Room, now: Instant, a: AgentId, q: Request, client: OwnershipClient)
    requires a in r.parts
    ensures Agrees(Decide(agents, Settle(r, now), now, a, q, client), RequestRefusal(agents, r, now, a, q, client))
  {
    hide PostVerdict, InviteVerdict, PostRefusal, InviteRefusal;
    match q
    case Post(t, version, raw, stamp) => PostsExactly(agents, r, now, a, t, version, raw, stamp, client);
    case Invite(target, stamp) => InvitesExactly(agents, r, now, stamp, a, target, client);
    case _ =>
  }

  /** A reply that fails with the reference's error, or succeeds if it has none. */
  predicate FailsAs(reply: Reply, error: Option<Error>) {
    if error.Some? then reply == Failure(error.value) else !reply.Failure?
  }

  lemma AsksSucceedExactly(b: Board, call: Call)
    requires call.Ask?
    ensures FailsAs(OutcomeOf(b, call).reply, WhyNot(b, call))
  {
    hide Decide, RequestRefusal, Settle, ExpiryRows, RowsFor;
    if HasRow(b, call.c, call.agent) {
      DecidesExactly(b.agents, b.rooms[call.c], call.at, call.agent, call.request, call.client);
    }
  }

  lemma TargetsExactly(q: Opening)
    ensures forall x :: x in SortedTargets(q.initiator, q.named) <==> Targets(q, x)
    ensures forall x :: x in [q.initiator] + SortedTargets(q.initiator, q.named) <==> Founds(q, x)
    ensures SortedTargets(q.initiator, q.named) == [] <==> !exists x :: x in Named(q)
    ensures Among(SetOf(SortedTargets(q.initiator, q.named))) == Named(q)
  {
    hide SortedTargets;
    var ids := SortedTargets(q.initiator, q.named);
    SortedTargetsExact(q.initiator, q.named);
    if ids != [] { assert ids[0] in ids && ids[0] in Named(q); }
  }

  lemma FirstMessagesExactly(b: Board, q: Opening, ids: seq<AgentId>)
    requires forall a :: a in ids ==> a in b.agents
    ensures var targets := Among(SetOf(ids));
      FirstMessageRefusal(b.agents, q, ids) ==
        if !PayloadFits(q.mtype, q.version, q.raw) then Some(BadSchema(q.mtype))
        else if q.mtype.TaskDecline? then Some(AccessDenied(WrongSenderRole))
        else if exists x :: x in targets && q.mtype !in b.agents[x].accepted then Some(AccessDenied(TypeNotAccepted))
        else if UnverifiedText(q.client, b.agents, q.ctype, q.mtype, q.initiator, targets) then Some(AccessDenied(OwnershipUnverified))
        else if q.ctype.OtherConversation? then Some(AccessDenied(UnknownConversationType))
        else if CrossingText(q.client, b.agents, q.ctype, q.mtype, q.initiator, targets) then Some(AccessDenied(BoundaryCrossing))
        else None
  {
    hide BoundaryRefusal, UnverifiedText, CrossingText, ValidatePayload, PayloadFits, BoundaryFlag;
    PayloadsExactly(q.mtype, q.version, q.raw);
    var receivers, targets := SetOf(ids), Among(SetOf(ids));
    assert AllAccept(b.agents, receivers, q.mtype) <==> !exists x :: x in targets && q.mtype !in b.agents[x].accepted;
    if PayloadFits(q.mtype, q.version, q.raw) {
      FitsPoint(q.mtype, q.version, q.raw);
      BoundaryRefusesExactly(b.agents, q.ctype, q.initiator, SetOf(ids), q.mtype, q.client);
    }
  }

  lemma AdmittedAreVerified(b: Board, q: Opening, ids: seq<AgentId>)
    requires q.ctype.Open? || forall x :: x in [q.initiator] + ids ==> Verified(q.client, b.agents, x)
    ensures !UnverifiedText(q.client, b.agents, q.ctype, q.mtype, q.initiator, Among(SetOf(ids)))
  {
    hide Verified;
    assert q.initiator in [q.initiator] + ids;
  }

  /** The admission of an opening, founder by founder. */
  lemma OpeningsAdmittedExactly(b: Board, q: Opening, ids: seq<AgentId>)
    requires !q.ctype.OtherConversation? && forall x :: x in [q.initiator] + ids <==> Founds(q, x)
    ensures var admission := Admit(b.agents, [q.initiator] + ids, q.ctype, q.client);
      if !q.ctype.Open? && exists x :: Founds(q, x) && !Verified(q.client, b.agents, x) then
        admission == NotAdmitted(OwnershipUnverified)
      else if q.ctype.Internal? && exists x, y :: Founds(q, x) && Founds(q, y) && !Inside(q.client, b.agents, x, y) then
        admission == NotAdmitted(NotSameOwner)
      else if q.ctype.Asymmetric? && exists x, y :: Founds(q, x) && Founds(q, y) && !Share(q.client, b.agents, x, y) then
        admission == NotAdmitted(NoOwnerOverlap)
      else admission.Admitted?
  {
    hide Admit, Verified, Inside, Share, Founds, UnionOf, OwnersOf;
    AdmitExactly(b.agents, [q.initiator] + ids, q.ctype, q.client);
  }

  lemma StartsSucceedExactly(b: Board, call: Call)
    requires call.OpenRoom?
    ensures FailsAs(OutcomeOf(b, call).reply, WhyNot(b, call))
  {
    hide Admit, FirstMessageRefusal, SortedTargets, FirstUnavailable, OpeningRows, NewRoom, Verified, Inside, Share,
      UnverifiedText, CrossingText, PayloadFits, Founds, Named, Among;
    var q := call.opening;
    var ids := SortedTargets(q.initiator, q.named);
    TargetsExactly(q);
    NoneUnavailable(b.agents, ids);
    assert StartedSince(b.rooms, q.initiator, q.now - HOUR) == OpenedSince(b.rooms, q.initiator, q.now - AN_HOUR);
    hide StartedSince, OpenedSince;
    assert forall x :: x in ids <==> x in Named(q) by { NamedExactly(q, ids); }
    if !q.ctype.OtherConversation? { OpeningsAdmittedExactly(b, q, ids); }
    if FirstUnavailable(b.agents, ids).None? {
      FirstMessagesExactly(b, q, ids);
      if q.ctype.Open? || !exists x :: Founds(q, x) && !Verified(q.client, b.agents, x) { AdmittedAreVerified(b, q, ids); }
    }
  }

  lemma NamedExactly(q: Opening, ids: seq<AgentId>)
    requires Among(SetOf(ids)) == Named(q)
    ensures forall x :: x in ids <==> x in Named(q)
  {
    forall x ensures x in ids <==> x in Named(q) {
      assert x in Among(SetOf(ids)) <==> x in ids;
    }
  }

  lemma RegistrationsSucceedExactly(b: Board, q: Enrolment)
    ensures FailsAs(Register(b, q).reply, RegistrationRefusal(b, q))
  {
    hide Strip;
  }

  /** Every call, on every board, fails exactly for the reason the rules give, and succeeds if
      they give none: nothing more is refused and nothing less, and each refusal is the first
      that applies. */
  lemma CallsSucceedExactly(b: Board, call: Call)
    ensures FailsAs(OutcomeOf(b, call).reply, WhyNot(b, call))
  {
    match call
    case Ask(_, _, _, _, _, _) => hide OutcomeOf, WhyNot; AsksSucceedExactly(b, call);
    case OpenRoom(_) => hide OutcomeOf, WhyNot; StartsSucceedExactly(b, call);
    case Enrol(q) => hide Register, RegistrationRefusal; RegistrationsSucceedExactly(b, q);
    case Read(_, _, _, _, _) => hide Above, MaxSeq, Views;
    case Suspend(_, _) =>
  }
}
