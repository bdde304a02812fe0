/** The service itself (service.py): one object holding the tables, one method per call.
    Each method carries out its call statement by statement and is proved to leave the tables
    and reply as the specification in `Operations` says. */
module Service {
  import opened Vocabulary
  import opened StateMachine
  import opened Text
  import opened Tables
  import opened Policy
  import opened Operations
  import opened Integrity
  import opened Queries
  import opened Runs
  import Keyset

  function Denials(
    actor: string, e: Option<Error>, agent: AgentId, c: Option<ConversationId>, about: Option<AgentId>): seq<AuditRow>
  {
    if e.Some? then [Refusal(actor, e.value, Some(agent), c, about)] else []
  }

  class BoardService {
    var agents: map<AgentId, Agent>
    var rooms: map<ConversationId, Room>
    var audit: seq<AuditRow>

    ghost function State(): Board
      reads this
    {
      Board(agents, rooms, audit)
    }

    constructor ()
      ensures State() == EMPTY_BOARD
    {
      agents, rooms, audit := map[], map[], [];
    }

    // --- denial, expiry, loading ---

    method Deny(
      actor: string, error: Error, agent: Option<AgentId>, c: Option<ConversationId>, about: Option<AgentId>)
      returns (e: Option<Error>)
      modifies `audit
      ensures e == Some(error)
      ensures audit == old(audit) + [Refusal(actor, error, agent, c, about)]
    {
      audit := audit + [Refusal(actor, error, agent, c, about)];
      e := Some(error);
    }

    method MaybeExpire(actor: string, c: ConversationId, now: Instant)
      requires c in rooms
      modifies `rooms, `audit
      ensures rooms == old(rooms)[c := Settle(old(rooms)[c], now)]
      ensures audit == old(audit) + ExpiryRows(actor, c, old(rooms)[c], now)
    {
      var conv := rooms[c].conv;
      if conv.state.ActiveState? && conv.expiresAt <= now {
        rooms := rooms[c := rooms[c].(conv := conv.(state := ExpiredState))];
        audit := audit + [AuditRow(actor, ConversationExpire, None, Some(c))];
      }
    }

    method RequireActiveAgent(actor: string, a: AgentId) returns (e: Option<Error>)
      modifies `audit
      ensures e == if BoardActive(agents, a) then None else Some(AccessDenied(UnknownAgent))
      ensures audit == old(audit) +
        if BoardActive(agents, a) then [] else UnknownAgentOutcome(old(State()), actor, a).rows
    {
      if a !in agents {
        e := Deny(actor, AccessDenied(UnknownAgent), None, None, None);
      } else if agents[a].status != Enabled {
        e := Deny(actor, AccessDenied(UnknownAgent), Some(a), None, None);
      } else {
        e := None;
      }
    }

    method DenyNotMember(actor: string, a: AgentId, c: ConversationId) returns (e: Option<Error>)
      modifies `audit
      ensures e == Some(AccessDenied(NotMember))
      ensures audit == old(audit) + NotMemberOutcome(old(State()), actor, a, c).rows
    {
      var known := if a in agents then Some(a) else None;
      var conversation := if c in rooms then Some(c) else None;
      e := Deny(actor, AccessDenied(NotMember), known, conversation, Some(a));
    }

    method LoadForTransition(now: Instant, actor: string, a: AgentId, c: ConversationId, required: MemberStatus)
      returns (e: Option<Error>)
      modifies `rooms, `audit
      ensures !HasRow(old(State()), c, a) ==>
        && e == Some(AccessDenied(NotMember)) && rooms == old(rooms)
        && audit == old(audit) + NotMemberOutcome(old(State()), actor, a, c).rows
      ensures HasRow(old(State()), c, a) ==>
        var status := old(rooms)[c].parts[a].status;
        && e == (if status != required then Some(AccessDenied(WrongStatus(status))) else None)
        && rooms == old(rooms)[c := Settle(old(rooms)[c], now)]
        && audit == old(audit) + ExpiryRows(actor, c, old(rooms)[c], now) + Denials(actor, e, a, Some(c), None)
    {
      if c !in rooms || a !in rooms[c].parts {
        e := DenyNotMember(actor, a, c);
        return;
      }
      MaybeExpire(actor, c, now);
      var status := rooms[c].parts[a].status;
      if status != required {
        e := Deny(actor, AccessDenied(WrongStatus(status)), Some(a), Some(c), None);
        return;
      }
      e := None;
    }

    /** The state after a successful or refused request, once the room has been settled. */
    lemma Refused(
      before: Board, now: Instant, actor: string, a: AgentId, c: ConversationId, q: Request,
      client: OwnershipClient, e: Error, about: Option<AgentId>)
      requires HasRow(before, c, a) && (q.Post? ==> BoardActive(before.agents, a))
      requires Decide(before.agents, Settle(before.rooms[c], now), now, a, q, client) == Refuse(e, about)
      requires agents == before.agents && rooms == before.rooms[c := Settle(before.rooms[c], now)]
      requires audit == before.audit + ExpiryRows(actor, c, before.rooms[c], now) + [Refusal(actor, e, Some(a), Some(c), about)]
      ensures var o := Handle(before, now, actor, a, c, q, client); State() == Commit(before, o) && o.reply == Failure(e)
    {
      hide Decide, Settle;
    }

    lemma Granted(
      before: Board, now: Instant, actor: string, a: AgentId, c: ConversationId, q: Request,
      client: OwnershipClient, ev: Event)
      requires HasRow(before, c, a) && (q.Post? ==> BoardActive(before.agents, a))
      requires Decide(before.agents, Settle(before.rooms[c], now), now, a, q, client) == Grant(ev)
      requires Fits(Settle(before.rooms[c], now), ev)
      requires agents == before.agents && rooms == before.rooms[c := Evolve(Settle(before.rooms[c], now), ev)]
      requires audit == before.audit + ExpiryRows(actor, c, before.rooms[c], now) + RowsFor(actor, c, ev)
      ensures var o := Handle(before, now, actor, a, c, q, client);
        State() == Commit(before, o) && o.reply == ReplyTo(Settle(before.rooms[c], now), ev)
    {
      hide Decide, Settle, Evolve, RowsFor, ReplyTo;
    }

    // --- membership ---

    method AcceptInvite(now: Instant, actor: string, a: AgentId, c: ConversationId, ghost client: OwnershipClient)
      returns (r: Reply)
      modifies `rooms, `audit
      ensures var o := Handle(old(State()), now, actor, a, c, Request.AcceptInvite, client);
        State() == Commit(old(State()), o) && r == o.reply
    {
      ghost var before := State();
      var e := LoadForTransition(now, actor, a, c, Invited);
      if e.Some? {
        if HasRow(before, c, a) { Refused(before, now, actor, a, c, Request.AcceptInvite, client, e.value, None); }
        return Failure(e.value);
      }
      var room := rooms[c];
      if room.conv.state.CompletedState? || room.conv.state.CanceledState? {
        e := Deny(actor, AccessDenied(WrongConversationState(room.conv.state)), Some(a), Some(c), None);
        Refused(before, now, actor, a, c, Request.AcceptInvite, client, e.value, None);
        return Failure(e.value);
      }
      var participant := room.parts[a].(status := Active, joinedAt := Some(now));
      rooms := rooms[c := room.(parts := room.parts[a := participant])];
      audit := audit + [AuditRow(actor, ParticipantAccept, Some(a), Some(c))];
      Granted(before, now, actor, a, c, Request.AcceptInvite, client, Accepted(a, now));
      r := Membership(participant);
    }

    method DeclineInvite(now: Instant, actor: string, a: AgentId, c: ConversationId, ghost client: OwnershipClient)
      returns (r: Reply)
      modifies `rooms, `audit
      ensures var o := Handle(old(State()), now, actor, a, c, Request.DeclineInvite, client);
        State() == Commit(old(State()), o) && r == o.reply
    {
      ghost var before := State();
      var e := LoadForTransition(now, actor, a, c, Invited);
      if e.Some? {
        if HasRow(before, c, a) { Refused(before, now, actor, a, c, Request.DeclineInvite, client, e.value, None); }
        return Failure(e.value);
      }
      var room := rooms[c];
      rooms := rooms[c := room.(parts := room.parts[a := room.parts[a].(status := Declined)])];
      audit := audit + [AuditRow(actor, ParticipantDeclineInvite, Some(a), Some(c))];
      Granted(before, now, actor, a, c, Request.DeclineInvite, client, InviteDeclined(a));
      r := Done;
    }

    method Leave(now: Instant, actor: string, a: AgentId, c: ConversationId, ghost client: OwnershipClient)
      returns (r: Reply)
      modifies `rooms, `audit
      ensures var o := Handle(old(State()), now, actor, a, c, Request.Leave, client);
        State() == Commit(old(State()), o) && r == o.reply
    {
      ghost var before := State();
      var e := LoadForTransition(now, actor, a, c, Active);
      if e.Some? {
        if HasRow(before, c, a) { Refused(before, now, actor, a, c, Request.Leave, client, e.value, None); }
        return Failure(e.value);
      }
      var room := rooms[c];
      rooms := rooms[c := room.(parts := room.parts[a := room.parts[a].(status := Left)])];
      audit := audit + [AuditRow(actor, ParticipantLeave, Some(a), Some(c))];
      Granted(before, now, actor, a, c, Request.Leave, client, HasLeft(a));
      r := Done;
    }

    // --- ownership and content checks ---

    method AuthorizeInviteOwnerFreeze(
      actor: string, inviter: AgentId, c: ConversationId, conv: Conversation, target: AgentId, client: OwnershipClient)
      returns (e: Option<Error>)
      modifies `audit
      ensures var frozen := FreezeRefusal(conv, VerifiedOwners(client, agents, target));
        e == if frozen.Some? then Some(AccessDenied(frozen.value)) else None
      ensures audit == old(audit) + Denials(actor, e, inviter, Some(c), Some(target))
    {
      if conv.ctype.Open? { return None; }
      var answer := Owners(client, agents, target);
      if answer.None? || answer.value == {} {
        e := Deny(actor, AccessDenied(OwnershipUnverified), Some(inviter), Some(c), Some(target));
        return;
      }
      var frozen := if conv.snapshot.Some? then conv.snapshot.value else {};
      if !(answer.value <= frozen) {
        e := Deny(actor, AccessDenied(OwnerSetFrozen), Some(inviter), Some(c), Some(target));
        return;
      }
      e := None;
    }

    method EnforceTypeAccepted(
      actor: string, sender: AgentId, c: Option<ConversationId>, receivers: set<AgentId>, t: MessageType)
      returns (e: Option<Error>)
      requires receivers <= agents.Keys
      modifies `audit
      ensures e == if AllAccept(agents, receivers, t) then None else Some(AccessDenied(TypeNotAccepted))
      ensures audit == old(audit) + Denials(actor, e, sender, c, None)
    {
      var rest := receivers;
      while rest != {}
        invariant rest <= receivers && audit == old(audit)
        invariant AllAccept(agents, receivers - rest, t)
        decreases |rest|
      {
        var a :| a in rest;
        if t !in agents[a].accepted {
          e := Deny(actor, AccessDenied(TypeNotAccepted), Some(sender), c, None);
          return;
        }
        rest := rest - {a};
      }
      assert receivers - rest == receivers;
      e := None;
    }

    /** Looks the owners of everyone up, one at a time; fails on any failed lookup. */
    method LookUpOwners(ids: set<AgentId>, client: OwnershipClient) returns (failed: bool, someEmpty: bool, owners: set<string>)
      ensures failed || someEmpty <==> exists a :: a in ids && VerifiedOwners(client, agents, a) == {}
      ensures !failed ==> owners == OthersOwners(client, agents, ids)
    {
      var rest := ids;
      failed, someEmpty, owners := false, false, {};
      while rest != {}
        invariant rest <= ids
        invariant !failed && !someEmpty <==> forall a :: a in ids - rest ==> VerifiedOwners(client, agents, a) != {}
        invariant !failed ==> owners == OthersOwners(client, agents, ids - rest)
        decreases |rest|
      {
        var a :| a in rest;
        var answer := Owners(client, agents, a);
        if answer.None? {
          failed := true;
          assert VerifiedOwners(client, agents, a) == {};
          return;
        }
        OneMoreOwnerSet(client, ids - rest, a);
        assert ids - (rest - {a}) == (ids - rest) + {a};
        rest, someEmpty, owners := rest - {a}, someEmpty || answer.value == {}, owners + answer.value;
      }
      assert ids - rest == ids;
    }

    lemma OneMoreOwnerSet(client: OwnershipClient, ids: set<AgentId>, a: AgentId)
      ensures OthersOwners(client, agents, ids + {a}) == OthersOwners(client, agents, ids) + VerifiedOwners(client, agents, a)
    {
      hide VerifiedOwners;
    }

    method EnforceBoundaryCrossing(
      actor: string, sender: AgentId, ctype: ConversationType, c: Option<ConversationId>, others: set<AgentId>,
      t: MessageType, version: int, client: OwnershipClient)
      returns (e: Option<Error>)
      requires BoundaryFlag(t, version).Some?
      modifies `audit
      ensures var refusal := BoundaryRefusal(agents, ctype, sender, others, BoundaryFlag(t, version).value, client);
        e == if refusal.Some? then Some(AccessDenied(refusal.value)) else None
      ensures audit == old(audit) + Denials(actor, e, sender, c, None)
    {
      var boundarySafe := BoundaryFlag(t, version).value;
      var senderOwners: set<string>, otherOwners: set<string> := {}, {};
      if ctype.Asymmetric? && !boundarySafe {
        var answer := Owners(client, agents, sender);
        var failed, someEmpty;
        failed, someEmpty, otherOwners := LookUpOwners(others, client);
        if answer.None? || failed || answer.value == {} || someEmpty {
          e := Deny(actor, AccessDenied(OwnershipUnverified), Some(sender), c, None);
          return;
        }
        senderOwners := answer.value;
      }
      if !IsBoundaryCrossingSafe(ctype, boundarySafe, senderOwners, otherOwners) {
        var reason := if ctype.OtherConversation? then UnknownConversationType else BoundaryCrossing;
        e := Deny(actor, AccessDenied(reason), Some(sender), c, None);
        return;
      }
      e := None;
    }

    /** The other participants, then the capability gate, then the boundary rule. */
    method CheckBoundaryCrossing(
      actor: string, sender: AgentId, c: ConversationId, t: MessageType, version: int, client: OwnershipClient)
      returns (e: Option<Error>)
      requires c in rooms && BoundaryFlag(t, version).Some?
      modifies `audit
      ensures var refusal := ContentRefusal(agents, rooms[c], sender, t, BoundaryFlag(t, version).value, client);
        e == if refusal.Some? then Some(AccessDenied(refusal.value)) else None
      ensures audit == old(audit) + Denials(actor, e, sender, Some(c), None)
    {
      hide BoundaryRefusal, AllAccept, BoundaryFlag;
      var capable := Others(agents, rooms[c].parts, sender, Active);
      var others := capable + Others(agents, rooms[c].parts, sender, Invited);
      e := EnforceTypeAccepted(actor, sender, Some(c), capable, t);
      if e.None? {
        e := EnforceBoundaryCrossing(actor, sender, rooms[c].conv.ctype, Some(c), others, t, version, client);
      }
    }

    // --- inviting and posting ---

    method Invite(now: Instant, actor: string, a: AgentId, c: ConversationId, target: AgentId, stamp: Instant,
      client: OwnershipClient)
      returns (r: Reply)
      modifies `rooms, `audit
      ensures var o := Handle(old(State()), now, actor, a, c, Request.Invite(target, stamp), client);
        State() == Commit(old(State()), o) && r == o.reply
    {
      ghost var before, q := State(), Request.Invite(target, stamp);
      var e := LoadForTransition(now, actor, a, c, Active);
      if e.Some? {
        if HasRow(before, c, a) { Refused(before, now, actor, a, c, q, client, e.value, None); }
        return Failure(e.value);
      }
      var room := rooms[c];
      assert MayInvite(room.parts[a].status);  // so the refusal of the invite policy is never reached
      if room.conv.state != ActiveState {
        e := Deny(actor, BadState(Inviting, room.conv.state), Some(a), Some(c), None);
        Refused(before, now, actor, a, c, q, client, e.value, None);
        return Failure(e.value);
      }
      if target !in agents || agents[target].status != Enabled {
        e := Deny(actor, AccessDenied(UnknownAgent), Some(a), Some(c), Some(target));
        Refused(before, now, actor, a, c, q, client, e.value, Some(target));
        return Failure(e.value);
      }
      e := AuthorizeInviteOwnerFreeze(actor, a, c, room.conv, target, client);
      if e.Some? {
        Refused(before, now, actor, a, c, q, client, e.value, Some(target));
        return Failure(e.value);
      }
      if target in room.parts {
        e := Deny(actor, AccessDenied(AlreadyParticipant), Some(a), Some(c), Some(target));
        Refused(before, now, actor, a, c, q, client, e.value, Some(target));
        return Failure(e.value);
      }
      var participant := Participant(Member, Invited, Some(a), stamp, None, 0);
      rooms := rooms[c := room.(parts := room.parts[target := participant])];
      audit := audit + [AuditRow(actor, ParticipantInvite(a), Some(target), Some(c))];
      Granted(before, now, actor, a, c, q, client, InviteSent(a, target, stamp));
      r := Membership(participant);
    }

    method AllNonOwnersDeclined(parts: map<AgentId, Participant>) returns (all: bool)
      ensures all <==> AllMembersDeclined(parts)
    {
      var members := set a | a in parts && parts[a].role.Member?;
      var rest := members;
      all := members != {};
      while rest != {} && all
        invariant rest <= members
        invariant all <==> members != {} && forall a :: a in members - rest ==> parts[a].status.Declined?
        decreases |rest|
      {
        var a :| a in rest;
        all := parts[a].status.Declined?;
        rest := rest - {a};
      }
      assert forall a :: a in members <==> a in parts && parts[a].role.Member?;
      if all {
        assert members - rest == members;
        var member :| member in members;
      } else if members != {} {
        var blocker :| blocker in members - rest && !parts[blocker].status.Declined?;
        assert blocker in members;
      }
    }

    /** What a stored message changes besides the log: the sender's status and the state. */
    method ApplySideEffects(actor: string, c: ConversationId, a: AgentId, t: MessageType)
      returns (close: Option<ConversationState>)
      requires c in rooms && a in rooms[c].parts
      modifies `rooms, `audit
      ensures close == CloseOnPost(old(rooms)[c], a, t)
      ensures var r := old(rooms)[c];
        var parts := if t.Decline? then r.parts[a := r.parts[a].(status := Declined)] else r.parts;
        var state := if close.Some? then close.value else r.conv.state;
        rooms == old(rooms)[c := Room(r.conv.(state := state), parts, r.log)]
      ensures audit == old(audit)
        + (if t.Decline? then [AuditRow(actor, ParticipantDecline, Some(a), Some(c))] else [])
        + ClosingRows(actor, c, a, t, close)
    {
      close := None;
      if t.Decline? {
        var room := rooms[c];
        rooms := rooms[c := room.(parts := room.parts[a := room.parts[a].(status := Declined)])];
        audit := audit + [AuditRow(actor, ParticipantDecline, Some(a), Some(c))];
        var all := AllNonOwnersDeclined(rooms[c].parts);
        close := ResultingState(Decline, all);
      } else if t.Confirm? || t.TaskComplete? || t.TaskDecline? || t.TaskCancel? {
        close := ResultingState(t, false);
      }
      if close.Some? {
        var room := rooms[c];
        rooms := rooms[c := room.(conv := room.conv.(state := close.value))];
        audit := audit + [AuditRow(actor, ConversationClose(close.value, t), Some(a), Some(c))];
      }
    }

    method Store(actor: string, c: ConversationId, m: Message) returns (close: Option<ConversationState>)
      requires c in rooms && m.sender in rooms[c].parts
      modifies `rooms, `audit
      ensures close == CloseOnPost(old(rooms)[c], m.sender, m.mtype)
      ensures rooms == old(rooms)[c := Evolve(old(rooms)[c], Posted(m, close))]
      ensures audit == old(audit) + RowsFor(actor, c, Posted(m, close))
    {
      hide AllMembersDeclined, ResultingState;
      var room := rooms[c];
      rooms := rooms[c := room.(log := room.log + [m])];
      audit := audit + [AuditRow(actor, MessagePost(m.seqNo, m.mtype), Some(m.sender), Some(c))];
      close := ApplySideEffects(actor, c, m.sender, m.mtype);
    }

    /** The checks of a post after loading, in the service's order; `p` is the validated payload. */
    method CheckPost(
      now: Instant, actor: string, a: AgentId, c: ConversationId, t: MessageType, version: int, raw: RawPayload,
      stamp: Instant, client: OwnershipClient)
      returns (e: Option<Error>, p: Payload, next: nat)
      requires c in rooms && a in rooms[c].parts
      modifies `audit
      ensures var v := PostVerdict(agents, rooms[c], now, a, t, version, raw, stamp, client);
        && (e.Some? <==> v.Refuse?)
        && (e.Some? ==> v == Refuse(e.value, None))
        && (e.None? ==> v == Grant(Posted(Message(next, a, t, version, p, stamp), CloseOnPost(rooms[c], a, t))))
      ensures audit == old(audit) + Denials(actor, e, a, Some(c), None)
    {
      var room := rooms[c];
      p, next := Payload(0, ""), 0;
      if CountSince(room.log, a, now - HOUR) >= MAX_MESSAGES_PER_HOUR {
        e := Deny(actor, RateLimited(MessagesPerHour), Some(a), Some(c), None);
        return;
      }
      if !IsMessageLegal(room.conv.state, t) {
        e := Deny(actor, BadState(Posting(t), room.conv.state), Some(a), Some(c), None);
        return;
      }
      if !RoleMaySend(t, room.parts[a].role) {
        e := Deny(actor, AccessDenied(WrongSenderRole), Some(a), Some(c), None);
        return;
      }
      var validated := ValidatePayload(t, version, raw);
      if validated.None? {
        e := Deny(actor, BadSchema(t), Some(a), Some(c), None);
        return;
      }
      p := validated.value;
      e := CheckBoundaryCrossing(actor, a, c, t, version, client);
      if e.Some? { return; }
      next := MaxSeq(room.log) + 1;
      if t.NeedsClarification? && p.aboutSeq >= next {
        e := Deny(actor, BadSchema(t), Some(a), Some(c), None);
      }
    }

    method PostMessage(
      now: Instant, actor: string, a: AgentId, c: ConversationId, t: MessageType, version: int, raw: RawPayload,
      stamp: Instant, client: OwnershipClient)
      returns (r: Reply)
      modifies `rooms, `audit
      ensures var o := Handle(old(State()), now, actor, a, c, Request.Post(t, version, raw, stamp), client);
        State() == Commit(old(State()), o) && r == o.reply
    {
      hide PostVerdict, CloseOnPost, Evolve, RowsFor, ExpiryRows;
      ghost var before, q := State(), Request.Post(t, version, raw, stamp);
      var e := RequireActiveAgent(actor, a);
      if e.Some? { return Failure(e.value); }
      e := LoadForTransition(now, actor, a, c, Active);
      if e.Some? {
        if HasRow(before, c, a) { Refused(before, now, actor, a, c, q, client, e.value, None); }
        return Failure(e.value);
      }
      var p, next;
      e, p, next := CheckPost(now, actor, a, c, t, version, raw, stamp, client);
      if e.Some? {
        Refused(before, now, actor, a, c, q, client, e.value, None);
        return Failure(e.value);
      }
      var message := Message(next, a, t, version, p, stamp);
      var close := Store(actor, c, message);
      Granted(before, now, actor, a, c, q, client, Posted(message, close));
      r := Receipt(message);
    }

    // --- reading ---

    /** Beside the reply: the participants as listed, and each returned message's sender by subject. */
    method GetConversation(
      collate: (string, string) -> bool, now: Instant, actor: string, a: AgentId, c: ConversationId, since: int)
      returns (r: Reply, roster: seq<ParticipantView>, senders: seq<string>, totalCount: nat)
      requires Keyset.StrictTotalOrder(collate) && Integral(State())
      modifies `rooms, `audit
      ensures var o := Get(old(State()), now, actor, a, c, since); State() == Commit(old(State()), o) && r == o.reply
      ensures r.History? ==> c in rooms && IsRoster(collate, agents, rooms[c].parts, roster)
      ensures r.History? ==> totalCount == |r.messages| && AreSubjects(agents, r.messages, senders)
    {
      hide Keyset.StrictTotalOrder, Integral, IsRoster, Above, MaxSeq, SendersKnown;
      roster, senders, totalCount := [], [], 0;
      if c in rooms { LogsHaveKnownSenders(State(), c, since); }
      if c !in rooms || a !in rooms[c].parts {
        var e := DenyNotMember(actor, a, c);
        return Failure(e.value), roster, senders, totalCount;
      }
      var status := rooms[c].parts[a].status;
      if status == Left || status == Declined {
        var e := Deny(actor, AccessDenied(WrongStatus(status)), Some(a), Some(c), None);
        return Failure(e.value), roster, senders, totalCount;
      }
      MaybeExpire(actor, c, now);
      var room := rooms[c];
      roster := ListParticipants(collate, room.parts);
      var members := Views(room.parts);
      if status == Invited {
        var p := room.parts[a];
        return History(room.conv, members, [], true, p.invitedBy, p.lastReadSeq), roster, senders, totalCount;
      }
      var messages, cursor;
      messages, senders, cursor := DeliverMessages(a, c, since);
      if cursor != room.parts[a].lastReadSeq { CursorsAreNotListed(collate, room.parts, a, cursor, roster); }
      r := History(room.conv, members, messages, false, None, cursor);
      totalCount := |messages|;
    }

    /** The messages above `since` with their senders; the reader's cursor moves up to the last of them. */
    method DeliverMessages(a: AgentId, c: ConversationId, since: int)
      returns (messages: seq<Message>, senders: seq<string>, cursor: nat)
      requires c in rooms && a in rooms[c].parts && SendersKnown(agents, Above(rooms[c].log, since))
      modifies `rooms
      ensures messages == Above(old(rooms)[c].log, since) && AreSubjects(agents, messages, senders)
      ensures cursor == MaxOf(MaxSeq(messages), old(rooms)[c].parts[a].lastReadSeq)
      ensures rooms == if cursor == old(rooms)[c].parts[a].lastReadSeq then old(rooms)
                       else old(rooms)[c := WithCursor(old(rooms)[c], a, cursor)]
    {
      hide Above;
      var room := rooms[c];
      var p := room.parts[a];
      messages, senders := JoinSenders(Above(room.log, since));
      if messages != [] && MaxSeq(messages) > p.lastReadSeq {
        p := p.(lastReadSeq := MaxSeq(messages));
        rooms := rooms[c := room.(parts := room.parts[a := p])];
      }
      cursor := p.lastReadSeq;
    }

    static function MaxOf(x: nat, y: nat): nat {
      if x > y then x else y
    }

    static function WithCursor(r: Room, a: AgentId, cursor: nat): Room
      requires a in r.parts
    {
      r.(parts := r.parts[a := r.parts[a].(lastReadSeq := cursor)])
    }

    /** The inner join of messages with their senders' agent rows, in order. */
    method JoinSenders(messages: seq<Message>) returns (joined: seq<Message>, senders: seq<string>)
      ensures SendersKnown(agents, messages) ==> joined == messages
      ensures AreSubjects(agents, joined, senders)
    {
      joined, senders := [], [];
      for i := 0 to |messages|
        invariant SendersKnown(agents, messages) ==> joined == messages[..i]
        invariant AreSubjects(agents, joined, senders)
      {
        assert messages[..i + 1] == messages[..i] + [messages[i]];
        if messages[i].sender in agents {
          joined, senders := joined + [messages[i]], senders + [agents[messages[i].sender].sub];
        }
      }
      assert messages[..|messages|] == messages;
    }

    lemma CursorsAreNotListed(
      collate: (string, string) -> bool, parts: map<AgentId, Participant>, a: AgentId, cursor: nat, roster: seq<ParticipantView>)
      requires a in parts && IsRoster(collate, agents, parts, roster)
      ensures IsRoster(collate, agents, parts[a := parts[a].(lastReadSeq := cursor)], roster)
    {
    }

    static predicate SubThenId(collate: (string, string) -> bool, x: (string, AgentId), y: (string, AgentId)) {
      collate(x.0, y.0) || (x.0 == y.0 && x.1 < y.1)
    }

    method ListParticipants(collate: (string, string) -> bool, parts: map<AgentId, Participant>)
      returns (roster: seq<ParticipantView>)
      requires Keyset.StrictTotalOrder(collate)
      ensures IsRoster(collate, agents, parts, roster)
    {
      var less := (x, y) => SubThenId(collate, x, y);
      var rows := set a | a in parts && a in agents :: (agents[a].sub, a);
      assert Keyset.StrictTotalOrder(less);
      var keys := Keyset.Arrange(less, rows);
      forall i | 0 <= i < |keys| ensures keys[i].1 in parts && keys[i].1 in agents && agents[keys[i].1].sub == keys[i].0 {
        assert keys[i] in keys && keys[i] in rows;
      }
      var rowsById := agents;
      roster := seq(|keys|, i requires 0 <= i < |keys| => ParticipantOf(rowsById, parts, keys[i].1));
      forall a | a in parts && a in agents ensures exists i :: 0 <= i < |roster| && roster[i].id == a {
        assert (agents[a].sub, a) in rows && (agents[a].sub, a) in keys;
        var i :| 0 <= i < |keys| && keys[i] == (agents[a].sub, a);
        assert roster[i].id == a;
      }
    }

    /** The composite-key fetch of the latest messages, gathered into a dictionary by
        conversation: a pair that names a stored message finds exactly that message. */
    method FetchLatest(groups: map<ConversationId, Group>)
      returns (latest: map<ConversationId, Message>, senders: map<ConversationId, string>)
      requires forall c :: c in rooms ==> Gapless(rooms[c].log) && SendersKnown(agents, rooms[c].log)
      requires forall c :: c in groups ==> c in rooms && 1 <= groups[c].top <= |rooms[c].log|
      ensures forall c :: c in groups ==> c in latest && latest[c] == rooms[c].log[groups[c].top - 1]
      ensures forall c :: c in groups ==> c in senders && latest[c].sender in agents && senders[c] == agents[latest[c].sender].sub
    {
      var rows := set c, m | c in rooms && m in rooms[c].log && m.sender in agents && c in groups && groups[c].top == m.seqNo
                      :: (c, m);
      latest, senders := map[], map[];
      var rest := rows;
      while rest != {}
        invariant rest <= rows
        invariant forall c :: c in latest ==> (c, latest[c]) in rows
        invariant forall c :: c in latest ==> c in senders && senders[c] == agents[latest[c].sender].sub
        invariant forall row :: row in rows - rest ==> row.0 in latest
        decreases |rest|
      {
        var row :| row in rest;
        latest, senders := latest[row.0 := row.1], senders[row.0 := agents[row.1.sender].sub];
        rest := rest - {row};
      }
      forall c | c in groups ensures c in latest && latest[c] == rooms[c].log[groups[c].top - 1] {
        var m := rooms[c].log[groups[c].top - 1];
        assert (c, m) in rows - rest;
        assert (c, latest[c]) in rows;
      }
    }

    /** Aggregates per conversation, then one batch fetch of the latest messages, then a lookup
        per listed conversation: the result is the inbox recomputed naively. */
    method Inbox(now: Instant, a: AgentId)
      returns (
        r: InboxView, senders: map<ConversationId, string>, unreadOrder: seq<ConversationId>, pendingOrder: seq<ConversationId>)
      requires Integral(State())
      ensures r == NaiveInbox(rooms, now, a)
      ensures forall c :: c in r.unread ==>
        c in senders && r.unread[c].latest.sender in agents && senders[c] == agents[r.unread[c].latest.sender].sub
      ensures NewestFirst(unreadOrder, UnreadStamps(rooms, a)) && NewestFirst(pendingOrder, PendingStamps(rooms, a))
    {
      hide Integral, Gapless, Groups, HasUnread, UnreadOf, PendingOf, Shown, IsUnreadEntry;
      GroupsAreUnread(now, a);
      var groups := Groups(rooms, a);
      forall c | c in rooms ensures SendersKnown(agents, rooms[c].log) { LogsHaveKnownSenders(State(), c, 0); }
      var latest;
      latest, senders := FetchLatest(groups);
      var unread := ListUnread(now, a, groups, latest);
      assert unread == NaiveInbox(rooms, now, a).unread by { UnreadEntriesAgree(now, a, unread); }
      assert forall c :: c in unread ==> unread[c].latest == latest[c];
      var pending := map c | c in rooms && IsPending(rooms[c], a) :: PendingOf(rooms[c], now, a);
      r := InboxView(unread, pending, |unread| + |pending|);
      unreadOrder := OrderNewestFirst(UnreadStamps(rooms, a));
      pendingOrder := OrderNewestFirst(PendingStamps(rooms, a));
    }

    static method OrderNewestFirst(stamps: map<ConversationId, Instant>) returns (order: seq<ConversationId>)
      ensures NewestFirst(order, stamps)
    {
      var keys := Keyset.Arrange(Newer, set c | c in stamps :: (stamps[c], c));
      order := seq(|keys|, i requires 0 <= i < |keys| => keys[i].1);
      assert forall i :: 0 <= i < |keys| ==> keys[i] in keys;
      forall c ensures c in order <==> c in stamps {
        if c in stamps {
          assert (stamps[c], c) in keys;
          var i :| 0 <= i < |keys| && keys[i] == (stamps[c], c);
          assert order[i] == c;
        }
      }
    }

    method ListUnread(now: Instant, a: AgentId, groups: map<ConversationId, Group>, latest: map<ConversationId, Message>)
      returns (unread: map<ConversationId, UnreadEntry>)
      requires forall c :: c in groups ==> c in rooms && c in latest
      requires forall c :: c in groups ==>
        IsUnreadEntry(UnreadEntry(Shown(rooms[c], now), groups[c].unread, groups[c].cursor, latest[c]), rooms[c], now, a)
      ensures unread.Keys == groups.Keys
      ensures forall c :: c in unread ==> unread[c].latest == latest[c]
      ensures forall c :: c in unread ==> IsUnreadEntry(unread[c], rooms[c], now, a)
    {
      hide IsUnreadEntry, Shown;
      unread := map[];
      var rest := groups.Keys;
      while rest != {}
        invariant rest <= groups.Keys
        invariant forall c :: c in groups <==> c in rest || c in unread
        invariant forall c :: c in unread ==> IsUnreadEntry(unread[c], rooms[c], now, a) && unread[c].latest == latest[c]
        decreases |rest|
      {
        var c :| c in rest;
        unread := unread[c := UnreadEntry(Shown(rooms[c], now), groups[c].unread, groups[c].cursor, latest[c])];
        rest := rest - {c};
      }
    }

    static ghost predicate IsUnreadEntry(e: UnreadEntry, r: Room, now: Instant, a: AgentId) {
      HasUnread(r, a) && e == UnreadOf(r, now, a)
    }

    lemma UnreadEntriesAgree(now: Instant, a: AgentId, unread: map<ConversationId, UnreadEntry>)
      requires forall c :: c in unread <==> c in rooms && HasUnread(rooms[c], a)
      requires forall c :: c in unread ==> IsUnreadEntry(unread[c], rooms[c], now, a)
      ensures unread == NaiveInbox(rooms, now, a).unread
    {
      hide HasUnread, UnreadOf;
    }

    lemma GroupsAreUnread(now: Instant, a: AgentId)
      requires Integral(State())
      ensures var groups := Groups(rooms, a);
        && (forall c :: c in rooms ==> Gapless(rooms[c].log))
        && (forall c :: c in groups <==> c in rooms && HasUnread(rooms[c], a))
        && (forall c :: c in groups ==>
             var r, g := rooms[c], groups[c];
             && 1 <= g.top <= |r.log|
             && IsUnreadEntry(UnreadEntry(Shown(r, now), g.unread, g.cursor, r.log[g.top - 1]), r, now, a))
    {
      hide Integral, Gapless, Grouped, GroupOf, HasUnread, UnreadOf, Shown, IsUnreadEntry;
      LogsAreGapless(State());
      forall c | c in rooms ensures Grouped(rooms[c], a) <==> HasUnread(rooms[c], a) { GroupIsExact(rooms[c], a); }
      forall c | c in rooms && Grouped(rooms[c], a)
        ensures var r, g := rooms[c], GroupOf(rooms[c], a);
          && 1 <= g.top <= |r.log|
          && IsUnreadEntry(UnreadEntry(Shown(r, now), g.unread, g.cursor, r.log[g.top - 1]), r, now, a)
      {
        UnreadGroup(rooms[c], now, a);
      }
    }

    static lemma UnreadGroup(r: Room, now: Instant, a: AgentId)
      requires Grouped(r, a) && Gapless(r.log)
      ensures HasUnread(r, a)
      ensures var g := GroupOf(r, a);
        && 1 <= g.top <= |r.log|
        && IsUnreadEntry(UnreadEntry(Shown(r, now), g.unread, g.cursor, r.log[g.top - 1]), r, now, a)
    {
      GroupIsExact(r, a);
      hide Grouped, GroupOf;
    }

    method ListAgents(collate: (string, string) -> bool, limit: int, cursor: Option<string>)
      returns (rows: seq<AgentView>, totalCount: nat, hasMore: bool, nextCursor: Option<string>)
      requires Keyset.StrictTotalOrder(collate)
      ensures Keyset.IsPage(collate, Subs(State()), Keyset.Clamp(limit), if cursor == Some("") then None else cursor, SubsOf(rows), hasMore)
      ensures forall i :: 0 <= i < |rows| ==> rows[i].id in agents && rows[i] == PublicOf(rows[i].id, agents[rows[i].id])
      ensures totalCount == |agents|
      ensures nextCursor == if hasMore then Some(rows[|rows| - 1].sub) else None
    {
      hide Keyset.StrictTotalOrder;
      var subs := set a | a in agents :: agents[a].sub;
      var page;
      page, hasMore := Keyset.Fetch(collate, subs, Keyset.Clamp(limit), if cursor == Some("") then None else cursor);
      rows := [];
      for i := 0 to |page|
        invariant |rows| == i && SubsOf(rows) == page[..i]
        invariant forall j :: 0 <= j < i ==> rows[j].id in agents && rows[j] == PublicOf(rows[j].id, agents[rows[j].id])
      {
        assert page[i] in page && page[i] in subs;
        var id :| id in agents && agents[id].sub == page[i];
        rows := rows + [PublicOf(id, agents[id])];
      }
      assert page[..|page|] == page;
      totalCount := |agents|;
      nextCursor := if hasMore && rows != [] then Some(rows[|rows| - 1].sub) else None;
    }

    method ListConversations(text: StampText, now: Instant, a: AgentId, f: Filter, limit: int, cursor: Option<string>)
      returns (r: Listing)
      ensures r.MalformedCursor? <==> ReadCursor(text, cursor).Malformed?
      ensures r.Page? ==>
        && Keyset.IsPage(Newer, ListedStamps(rooms, now, a, f), Keyset.Clamp(limit), StampBehind(ReadCursor(text, cursor)), r.rows, r.hasMore)
        && |r.shown| == |r.rows|
        && (forall i :: 0 <= i < |r.rows| ==> r.rows[i].1 in rooms && r.shown[i] == Shown(rooms[r.rows[i].1], now))
        && r.nextCursor == if r.hasMore then Some(PrintStamp(text, r.rows[|r.rows| - 1])) else None
    {
      hide ReadCursor, PrintStamp, Keyset.IsPage;
      var stamps := set c | c in rooms && a in rooms[c].parts
                            && rooms[c].parts[a].status in {Invited, Active}
                            && (f.role.Some? ==> rooms[c].parts[a].role == f.role.value)
                            && (f.ctype.Some? ==> rooms[c].conv.ctype == f.ctype.value)
                            && (f.state.Some? ==> StateMatches(rooms[c].conv, now, f.state.value))
                    :: (rooms[c].conv.createdAt, c);
      assert stamps == ListedStamps(rooms, now, a, f);
      var position := ReadCursor(text, cursor);
      if position.Malformed? { return MalformedCursor; }
      var rows, hasMore := Keyset.Fetch(Newer, stamps, Keyset.Clamp(limit), StampBehind(position));
      var shown := ShowRows(rows, now, a, f, StampBehind(position), Keyset.Clamp(limit), hasMore);
      r := Page(rows, shown, hasMore, if hasMore && rows != [] then Some(PrintStamp(text, rows[|rows| - 1])) else None);
    }

    method ShowRows(
      rows: seq<Stamp>, now: Instant, a: AgentId, f: Filter, ghost behind: Option<Stamp>, ghost limit: nat, ghost more: bool)
      returns (shown: seq<Conversation>)
      requires limit >= 1 && Keyset.IsPage(Newer, ListedStamps(rooms, now, a, f), limit, behind, rows, more)
      ensures |shown| == |rows| && (more ==> rows != [])
      ensures forall i :: 0 <= i < |rows| ==> rows[i].1 in rooms && shown[i] == Shown(rooms[rows[i].1], now)
    {
      shown := [];
      for i := 0 to |rows|
        invariant |shown| == i
        invariant forall j :: 0 <= j < i ==> rows[j].1 in rooms && shown[j] == Shown(rooms[rows[j].1], now)
      {
        assert rows[i] in rows;
        shown := shown + [Shown(rooms[rows[i].1], now)];
      }
    }

    /** The state filter as the query writes it, against the stored column and the deadline. */
    static predicate StateMatches(conv: Conversation, now: Instant, wanted: ConversationState) {
      match wanted
      case ActiveState => conv.state == ActiveState && conv.expiresAt > now
      case ExpiredState => conv.state == ExpiredState || (conv.state == ActiveState && conv.expiresAt <= now)
      case _ => conv.state == wanted
    }

    // --- opening ---

    method EnforceStartRateLimit(q: Opening) returns (e: Option<Error>)
      modifies `audit
      ensures e == if |StartedSince(rooms, q.initiator, q.now - HOUR)| >= MAX_STARTS_PER_HOUR
                   then Some(RateLimited(StartsPerHour)) else None
      ensures audit == old(audit) + Denials(q.actor, e, q.initiator, None, None)
    {
      if |StartedSince(rooms, q.initiator, q.now - HOUR)| >= MAX_STARTS_PER_HOUR {
        e := Deny(q.actor, RateLimited(StartsPerHour), Some(q.initiator), None, None);
        return;
      }
      e := None;
    }

    method ResolveTargets(q: Opening, ids: seq<AgentId>) returns (e: Option<Error>)
      modifies `audit
      ensures e == if FirstUnavailable(agents, ids).Some? then Some(AccessDenied(UnknownAgent)) else None
      ensures audit == old(audit) + Denials(q.actor, e, q.initiator, None, FirstUnavailable(agents, ids))
    {
      for i := 0 to |ids|
        invariant audit == old(audit)
        invariant FirstUnavailable(agents, ids) == FirstUnavailable(agents, ids[i..])
      {
        assert ids[i..][0] == ids[i] && ids[i..][1..] == ids[i + 1..];
        if ids[i] !in agents || agents[ids[i]].status != Enabled {
          e := Deny(q.actor, AccessDenied(UnknownAgent), Some(q.initiator), None, Some(ids[i]));
          return;
        }
      }
      e := None;
    }

    method OwnerSetsFor(ids: seq<AgentId>, client: OwnershipClient) returns (failed: bool, sets: seq<set<string>>)
      ensures failed ==> {} in OwnersOf(client, agents, ids)
      ensures !failed ==> sets == OwnersOf(client, agents, ids)
    {
      failed, sets := false, [];
      for i := 0 to |ids|
        invariant sets == OwnersOf(client, agents, ids)[..i]
      {
        var answer := Owners(client, agents, ids[i]);
        if answer.None? {
          assert OwnersOf(client, agents, ids)[i] == {};
          return true, [];
        }
        sets := sets + [answer.value];
      }
    }

    method AuthorizeOpen(q: Opening, ids: seq<AgentId>) returns (e: Option<Error>, snapshot: Option<set<string>>)
      modifies `audit
      ensures var admission := Admit(agents, [q.initiator] + ids, q.ctype, q.client);
        && e == (if admission.NotAdmitted? then Some(AccessDenied(admission.reason)) else None)
        && (e.None? ==> admission == Admitted(snapshot))
      ensures audit == old(audit) + Denials(q.actor, e, q.initiator, None, None)
    {
      e, snapshot := None, None;
      if q.ctype.Open? { return; }
      var failed, sets := OwnerSetsFor([q.initiator] + ids, q.client);
      if failed || {} in sets {
        e := Deny(q.actor, AccessDenied(OwnershipUnverified), Some(q.initiator), None, None);
        return;
      }
      if !PairwiseAdmitted(q.ctype, sets) {
        var reason := if q.ctype.Internal? then NotSameOwner else NoOwnerOverlap;
        e := Deny(q.actor, AccessDenied(reason), Some(q.initiator), None, None);
        return;
      }
      var owners: set<string> := {};
      for i := 0 to |sets|
        invariant owners == UnionOf(sets[..i]) && audit == old(audit)
      {
        UnionGrows(sets, i);
        owners := owners + sets[i];
      }
      assert sets[..|sets|] == sets;
      snapshot := Some(owners);
    }

    static lemma UnionGrows(sets: seq<set<string>>, i: nat)
      requires i < |sets|
      ensures UnionOf(sets[..i + 1]) == UnionOf(sets[..i]) + sets[i]
    {
      assert forall j :: 0 <= j < i ==> sets[..i + 1][j] == sets[..i][j];
      forall o | o in UnionOf(sets[..i]) + sets[i] ensures o in UnionOf(sets[..i + 1]) {
        if o in sets[i] { assert o in sets[..i + 1][i]; }
        else { var j :| 0 <= j < i && o in sets[..i][j]; assert o in sets[..i + 1][j]; }
      }
    }

    /** Validation, role, capability and boundary, all before any row is written. */
    method CheckFirstMessage(q: Opening, ids: seq<AgentId>) returns (e: Option<Error>)
      requires forall a :: a in ids ==> a in agents
      modifies `audit
      ensures e == FirstMessageRefusal(agents, q, ids)
      ensures e.None? ==> ValidatePayload(q.mtype, q.version, q.raw).Some?
      ensures audit == old(audit) + Denials(q.actor, e, q.initiator, None, None)
    {
      if ValidatePayload(q.mtype, q.version, q.raw).None? {
        e := Deny(q.actor, BadSchema(q.mtype), Some(q.initiator), None, None);
        return;
      }
      if !RoleMaySend(q.mtype, Owner) {
        e := Deny(q.actor, AccessDenied(WrongSenderRole), Some(q.initiator), None, None);
        return;
      }
      var targets := SetOf(ids);
      e := EnforceTypeAccepted(q.actor, q.initiator, None, targets, q.mtype);
      if e.None? {
        e := EnforceBoundaryCrossing(q.actor, q.initiator, q.ctype, None, targets, q.mtype, q.version, q.client);
      }
    }

    /** The rows of a new conversation: the conversation, its participants, its first message. */
    method CreateRoom(q: Opening, ids: seq<AgentId>, snapshot: Option<set<string>>, m: Message)
      requires q.id !in rooms && q.initiator !in ids
      requires m.seqNo == 1 && m.sender == q.initiator
      modifies `rooms, `audit
      ensures var room := NewRoom(q.now, q.stamp, q.initiator, q.ctype, ids, snapshot, m, q.expiresAt);
        && rooms == old(rooms)[q.id := room]
        && audit == old(audit) + OpeningRows(q.actor, q.id, ids, room)
    {
      hide TimeToLive, ResultingState;
      var deadline := if q.expiresAt.Some? then q.expiresAt.value else q.now + TimeToLive(q.ctype);
      var conv := Conversation(q.ctype, ActiveState, q.initiator, deadline, q.stamp, snapshot);
      var parts := AddFounders(q, ids);
      rooms := rooms[q.id := Room(conv, parts, [m])];
      audit := audit + [AuditRow(q.actor, ConversationStart(q.ctype, ids, snapshot), Some(q.initiator), Some(q.id)),
                        AuditRow(q.actor, MessagePost(1, m.mtype), Some(q.initiator), Some(q.id))];
      var close := ResultingState(m.mtype, false);
      if close.Some? {
        rooms := rooms[q.id := Room(conv.(state := close.value), parts, [m])];
        audit := audit + [AuditRow(q.actor, ConversationClose(close.value, m.mtype), Some(q.initiator), Some(q.id))];
      }
    }

    method AddFounders(q: Opening, ids: seq<AgentId>) returns (parts: map<AgentId, Participant>)
      requires q.initiator !in ids
      ensures parts == FounderRows(q.initiator, ids, q.now, q.stamp)
    {
      parts := map[q.initiator := Participant(Owner, Active, None, q.stamp, Some(q.now), 0)];
      for i := 0 to |ids|
        invariant parts == FounderRows(q.initiator, ids[..i], q.now, q.stamp)
      {
        assert ids[..i + 1] == ids[..i] + [ids[i]];
        parts := parts[ids[i] := Participant(Member, Invited, Some(q.initiator), q.stamp, None, 0)];
      }
      assert ids[..|ids|] == ids;
    }

    method StartConversation(q: Opening) returns (r: Reply)
      modifies `rooms, `audit
      ensures var o := Start(old(State()), q); State() == Commit(old(State()), o) && r == o.reply
    {
      hide Admit, FirstMessageRefusal, NewRoom, OpeningRows, StartedSince, FirstUnavailable, SortedTargets, Increasing;
      var e := RequireActiveAgent(q.actor, q.initiator);
      if e.Some? { return Failure(e.value); }
      if q.ctype.OtherConversation? {
        return Failure(if |q.ctype.name| > MAX_TYPE_LENGTH then InvalidInput else UnknownType);
      }
      var ids := SortedTargets(q.initiator, q.named);
      if ids == [] { return Failure(InvalidInput); }
      e := EnforceStartRateLimit(q);
      if e.Some? { return Failure(e.value); }
      e := ResolveTargets(q, ids);
      if e.Some? { return Failure(e.value); }
      var snapshot;
      e, snapshot := AuthorizeOpen(q, ids);
      if e.Some? { return Failure(e.value); }
      NoneUnavailable(agents, ids);
      e := CheckFirstMessage(q, ids);
      if e.Some? { return Failure(e.value); }
      if q.id in rooms { return Failure(Conflict); }
      SortedTargetsExact(q.initiator, q.named);
      var payload := ValidatePayload(q.mtype, q.version, q.raw).value;
      CreateRoom(q, ids, snapshot, Message(1, q.initiator, q.mtype, q.version, payload, q.stamp));
      r := Opened(q.id, rooms[q.id].conv);
    }

    // --- board admission ---

    static method CheckEnrolment(q: Enrolment) returns (e: Option<Error>)
      ensures e == EnrolmentFault(q)
    {
      hide Strip;
      if Strip(q.sub) == "" { return Some(InvalidInput); }
      var name := Strip(q.displayName);
      if name == "" || |name| > MAX_DISPLAY_NAME_LENGTH { return Some(InvalidInput); }
      if |q.accepted| > MAX_ACCEPTED_TYPES || q.accepted == [] { return Some(InvalidInput); }
      var unknown := false;
      for i := 0 to |q.accepted|
        invariant forall j :: 0 <= j < i ==> !NameTooLong(q.accepted[j])
        invariant unknown <==> exists j :: 0 <= j < i && !Registered(q.accepted[j])
      {
        if NameTooLong(q.accepted[i]) { return Some(InvalidInput); }
        unknown := unknown || !Registered(q.accepted[i]);
      }
      e := if unknown then Some(UnknownType) else None;
    }

    method RegisterAgent(q: Enrolment) returns (r: Reply)
      requires Integral(State())
      modifies `agents, `audit
      ensures var o := Register(old(State()), q); State() == Commit(old(State()), o) && r == o.reply
    {
      hide EnrolmentFault, Strip, TypesIn;
      var e := CheckEnrolment(q);
      if e.Some? { return Failure(e.value); }
      var sub, name := Strip(q.sub), Strip(q.displayName);
      var types := TypesIn(q.accepted);
      var id, row := q.id, Agent(sub, q.ownerSub, q.ownerEmail, name, types, Enabled, q.now);
      var created := true;
      if existing :| existing in agents && agents[existing].sub == sub {
        id, created := existing, false;
        row := agents[id].(ownerEmail := q.ownerEmail, displayName := name, accepted := types, status := Enabled, boundAt := q.now);
      } else if id in agents {
        return Failure(Conflict);
      }
      agents := agents[id := row];
      audit := audit + [AuditRow(sub, AgentRegister(created), Some(id), None)];
      r := Registration(id, row);
    }

    // --- any call ---

    /** The service keeps the tables integral and follows the specification call by call. */
    method Serve(call: Call) returns (r: Reply)
      requires Integral(State())
      modifies this
      ensures State() == Next(old(State()), call) && r == OutcomeOf(old(State()), call).reply
      ensures Integral(State())
    {
      hide Integral, Handle, Start, Register, Get, Commit;
      CallKeepsIntegrity(State(), call);
      match call {
        case Enrol(q) => r := RegisterAgent(q);
        case Suspend(_, a) => r := SuspendAgent(a);
        case OpenRoom(q) => r := StartConversation(q);
        case Read(now, actor, a, c, since) =>
          BeforeIsAnOrder();
          var roster, senders, totalCount;
          r, roster, senders, totalCount := GetConversation(Before, now, actor, a, c, since);
        case Ask(now, actor, a, c, q, client) =>
          match q {
            case AcceptInvite => r := AcceptInvite(now, actor, a, c, client);
            case DeclineInvite => r := DeclineInvite(now, actor, a, c, client);
            case Leave => r := Leave(now, actor, a, c, client);
            case Invite(target, stamp) => r := Invite(now, actor, a, c, target, stamp, client);
            case Post(t, version, raw, stamp) => r := PostMessage(now, actor, a, c, t, version, raw, stamp, client);
          }
      }
    }

    /** Operators suspend an agent directly in the table. */
    method SuspendAgent(a: AgentId) returns (r: Reply)
      modifies `agents
      ensures State() == Commit(old(State()), OutcomeOf(old(State()), Suspend(0, a))) && r == Done
    {
      if a in agents {
        agents := agents[a := agents[a].(status := Suspended)];
      }
      r := Done;
    }

    /** A fresh service driven through any list of calls reaches the run of that list. */
    method ServeAll(calls: seq<Call>) returns (replies: seq<Reply>)
      requires State() == EMPTY_BOARD
      modifies this
      ensures State() == Run(calls) && |replies| == |calls|
      ensures forall i :: 0 <= i < |calls| ==> replies[i] == OutcomeOf(Run(calls[..i]), calls[i]).reply
    {
      hide OutcomeOf, Next;
      replies := [];
      for i := 0 to |calls|
        invariant Integral(State()) && State() == Run(calls[..i]) && |replies| == i
        invariant forall j :: 0 <= j < i ==> replies[j] == OutcomeOf(Run(calls[..j]), calls[j]).reply
      {
        assert calls[..i + 1][..i] == calls[..i];
        var r := Serve(calls[i]);
        replies := replies + [r];
      }
      assert calls[..|calls|] == calls;
    }
  }
}
