/** Denials: what a refused call leaves behind, and what its caller can learn from it. */
module DenialRules {
  import opened Tables
  import opened Policy
  import opened Operations
  import opened Runs
  import opened Text

  // --- framing ---

  predicate Audited(e: Error) {
    e.AccessDenied? || e.BadState? || e.RateLimited? || e.BadSchema?
  }

  predicate NoDenial(rows: seq<AuditRow>) {
    forall i :: 0 <= i < |rows| ==> !rows[i].action.Denied?
  }

  /** The conversation a call is about, if any, and the only one its denial may flip. */
  predicate Concerns(call: Call, c: ConversationId) {
    call.Ask? && call.c == c
  }

  /** The outcome of a denial: at most the lazy expiry of the conversation it concerns, told
      by its own row, and then exactly one denial row naming the error; a plain input error
      leaves nothing at all. */
  ghost predicate OnlyDenies(b: Board, call: Call, o: Outcome) {
    && o.reply.Failure?
    && var e := o.reply.error;
       if !Audited(e) then o.writes.Nothing? && o.rows == []
       else
         && |o.rows| >= 1
         && var last := o.rows[|o.rows| - 1];
            && last.action.Denied? && last.action.error == e && last.actor == ActorOf(call)
            && (o.writes.Nothing? ==> |o.rows| == 1)
            && (!o.writes.Nothing? ==>
                 && o.writes.Touch? && o.writes.event.None? && o.writes.at == Time(call)
                 && Concerns(call, o.writes.c) && o.writes.c in b.rooms
                 && o.rows[..|o.rows| - 1] == ExpiryRows(ActorOf(call), o.writes.c, b.rooms[o.writes.c], Time(call)))
  }

  lemma EventRowsDenyNothing(actor: string, c: ConversationId, r: Room, now: Instant, ev: Event)
    ensures NoDenial(ExpiryRows(actor, c, r, now)) && NoDenial(ExpiryRows(actor, c, r, now) + RowsFor(actor, c, ev))
  {
  }

  lemma RequestsDenyOrGrant(b: Board, call: Call)
    requires call.Ask?
    ensures var o := OutcomeOf(b, call); if o.reply.Failure? then OnlyDenies(b, call, o) else NoDenial(o.rows)
  {
    hide Decide, RowsFor, ExpiryRows, NoDenial;
    if HasRow(b, call.c, call.agent) {
      var r := Settle(b.rooms[call.c], call.at);
      RefusalsAreAudited(b.agents, r, call.at, call.agent, call.request, call.client);
      var verdict := Decide(b.agents, r, call.at, call.agent, call.request, call.client);
      if verdict.Grant? { EventRowsDenyNothing(call.actor, call.c, b.rooms[call.c], call.at, verdict.event); }
    }
  }

  lemma RefusalsAreAudited(
    agents: map<AgentId, Agent>, r: Room, now: Instant, a: AgentId, q: Request, client: OwnershipClient)
    requires a in r.parts
    ensures var v := Decide(agents, r, now, a, q, client); v.Refuse? ==> Audited(v.error)
  {
  }

  lemma OpeningsDenyOrGrant(b: Board, call: Call)
    requires call.OpenRoom?
    ensures var o := OutcomeOf(b, call); if o.reply.Failure? then OnlyDenies(b, call, o) else NoDenial(o.rows)
  {
    hide Admit, StartedSince, BoundaryRefusal, AllAccept;
  }

  lemma ReadsDenyOrGrant(b: Board, call: Call)
    requires call.Read? || call.Enrol? || call.Suspend?
    ensures var o := OutcomeOf(b, call); if o.reply.Failure? then OnlyDenies(b, call, o) else NoDenial(o.rows)
  {
    hide Above, MaxSeq, Strip, BySub, Views;
  }

  /** Every call either ends in a denial and only denies, or leaves no denial row. */
  lemma CallsDenyOrGrant(b: Board, call: Call)
    ensures var o := OutcomeOf(b, call); if o.reply.Failure? then OnlyDenies(b, call, o) else NoDenial(o.rows)
  {
    hide OutcomeOf, OnlyDenies, NoDenial;
    match call
    case Ask(_, _, _, _, _, _) => RequestsDenyOrGrant(b, call);
    case OpenRoom(_) => OpeningsDenyOrGrant(b, call);
    case _ => ReadsDenyOrGrant(b, call);
  }

  /** A denied call changes no agent, participant or message; it changes no conversation, but
      for the lazy expiry of the one it concerns; in particular a refused opening leaves no
      conversation behind. It adds exactly one denial row if the error is an audited one, and
      nothing at all if it is a plain input error. */
  lemma DenialsAreFramed(b: Board, call: Call)
    requires OutcomeOf(b, call).reply.Failure?
    ensures var b', e := Next(b, call), OutcomeOf(b, call).reply.error;
      && b'.agents == b.agents
      && b'.rooms.Keys == b.rooms.Keys
      && (forall c :: c in b.rooms ==>
           b'.rooms[c] == b.rooms[c] || (Concerns(call, c) && b'.rooms[c] == Settle(b.rooms[c], Time(call))))
      && (forall c :: c in b.rooms ==> b'.rooms[c].parts == b.rooms[c].parts && b'.rooms[c].log == b.rooms[c].log)
      && (!Audited(e) ==> b' == b)
      && (Audited(e) ==>
           && |b.audit| < |b'.audit| <= |b.audit| + 2 && b'.audit[..|b.audit|] == b.audit
           && b'.audit[|b'.audit| - 1].action.Denied? && b'.audit[|b'.audit| - 1].action.error == e
           && (|b'.audit| == |b.audit| + 2 ==> b'.audit[|b.audit|].action.ConversationExpire?))
  {
    CallsDenyOrGrant(b, call);
    hide OutcomeOf;
  }

  // --- what a denied caller sees ---

  /** The client-visible outcome: every access denial is one constant. */
  datatype Seen = AccessDeniedMessage | SpecificError(error: Error) | Answer(reply: Reply)

  function SeenBy(reply: Reply): Seen {
    if !reply.Failure? then Answer(reply)
    else if reply.error.AccessDenied? then AccessDeniedMessage
    else SpecificError(reply.error)
  }

  /** No row, or a row that no longer gives access. */
  predicate Outsider(b: Board, c: ConversationId, a: AgentId) {
    !HasRow(b, c, a) || b.rooms[c].parts[a].status.Left? || b.rooms[c].parts[a].status.Declined?
  }

  predicate AboutConversation(call: Call) {
    call.Ask? || call.Read?
  }

  lemma OutsidersAreDenied(b: Board, call: Call)
    requires AboutConversation(call) && Outsider(b, call.c, call.agent)
    ensures SeenBy(OutcomeOf(b, call).reply) == AccessDeniedMessage
  {
    hide PostVerdict, InviteVerdict;
  }

  /** An outsider learns nothing: whichever conversation is asked about, whether it exists or
      not, whatever it holds, and whatever is asked, the visible outcome is the same. */
  lemma DenialIsUniform(b1: Board, call1: Call, b2: Board, call2: Call)
    requires AboutConversation(call1) && Outsider(b1, call1.c, call1.agent)
    requires AboutConversation(call2) && Outsider(b2, call2.c, call2.agent)
    ensures SeenBy(OutcomeOf(b1, call1).reply) == SeenBy(OutcomeOf(b2, call2).reply)
  {
    OutsidersAreDenied(b1, call1);
    OutsidersAreDenied(b2, call2);
    hide OutcomeOf;
  }

  /** Any other visible outcome reaches participants in the required status only. */
  lemma OnlyMembersSeeMore(b: Board, call: Call)
    requires AboutConversation(call) && SeenBy(OutcomeOf(b, call).reply) != AccessDeniedMessage
    ensures HasRow(b, call.c, call.agent)
    ensures var status := b.rooms[call.c].parts[call.agent].status;
      if call.Ask? then status == RequiredStatus(call.request) else status.Invited? || status.Active?
  {
    hide PostVerdict, InviteVerdict;
  }

  /** Reading is answered exactly when the reader's row is invited or active. */
  lemma ReadingIsMembership(b: Board, call: Call)
    requires call.Read?
    ensures OutcomeOf(b, call).reply.History? <==> !Outsider(b, call.c, call.agent)
  {
  }
}
