/** The read-only listings, stated on the board directly. */
module Queries {
  import opened Vocabulary
  import opened Tables
  import opened Policy
  import opened Operations
  import opened Integrity
  import Keyset

  // --- inbox ---

  datatype UnreadEntry = UnreadEntry(conv: Conversation, unreadCount: nat, lastReadSeq: nat, latest: Message)
  datatype PendingEntry = PendingEntry(conv: Conversation, invitedBy: Option<AgentId>, invitedAt: Instant)
  datatype InboxView = InboxView(
    unread: map<ConversationId, UnreadEntry>, pending: map<ConversationId, PendingEntry>, totalCount: nat)

  predicate HasUnread(r: Room, a: AgentId) {
    a in r.parts && r.parts[a].status.Active? && r.parts[a].lastReadSeq < |r.log|
  }

  predicate IsPending(r: Room, a: AgentId) {
    a in r.parts && r.parts[a].status.Invited?
  }

  /** One conversation's entry, recomputed from its log and the reader's cursor. */
  function UnreadOf(r: Room, now: Instant, a: AgentId): UnreadEntry
    requires HasUnread(r, a)
  {
    var cursor, n := r.parts[a].lastReadSeq, |r.log|;
    UnreadEntry(Shown(r, now), n - cursor, cursor, r.log[n - 1])
  }

  function PendingOf(r: Room, now: Instant, a: AgentId): PendingEntry
    requires IsPending(r, a)
  {
    PendingEntry(Shown(r, now), r.parts[a].invitedBy, r.parts[a].invitedAt)
  }

  /** The inbox recomputed conversation by conversation, without joins, groups or batch fetches. */
  function NaiveInbox(rooms: map<ConversationId, Room>, now: Instant, a: AgentId): InboxView {
    var unread := map c | c in rooms && HasUnread(rooms[c], a) :: UnreadOf(rooms[c], now, a);
    var pending := map c | c in rooms && IsPending(rooms[c], a) :: PendingOf(rooms[c], now, a);
    InboxView(unread, pending, |unread| + |pending|)
  }

  /** Keys arranged by falling stamps; equal stamps may come in any order. */
  ghost predicate NewestFirst(order: seq<ConversationId>, stamps: map<ConversationId, Instant>) {
    && (forall c :: c in order <==> c in stamps)
    && (forall i, j :: 0 <= i < j < |order| ==> order[i] != order[j])
    && (forall i, j :: 0 <= i < j < |order| && order[i] in stamps && order[j] in stamps ==>
          stamps[order[i]] >= stamps[order[j]])
  }

  function LatestStamp(log: seq<Message>): (t: Instant)
    requires log != []
    ensures exists i :: 0 <= i < |log| && log[i].createdAt == t
    ensures forall i :: 0 <= i < |log| ==> log[i].createdAt <= t
  {
    var last := log[|log| - 1].createdAt;
    if |log| == 1 then last
    else
      var rest := LatestStamp(log[..|log| - 1]);
      if rest < last then last else rest
  }

  /** When each unread conversation had its latest message. */
  function UnreadStamps(rooms: map<ConversationId, Room>, a: AgentId): map<ConversationId, Instant> {
    map c | c in rooms && HasUnread(rooms[c], a) :: LatestStamp(rooms[c].log)
  }

  /** When each pending invitation was made. */
  function PendingStamps(rooms: map<ConversationId, Room>, a: AgentId): map<ConversationId, Instant> {
    map c | c in rooms && IsPending(rooms[c], a) :: rooms[c].parts[a].invitedAt
  }

  /** In a gapless log the messages above `since` are a suffix. */
  lemma {:induction false} AboveIsSuffix(log: seq<Message>, since: int)
    requires forall i :: 0 <= i < |log| ==> log[i].seqNo == i + 1
    ensures Above(log, since) == if since >= |log| then [] else if since <= 0 then log else log[since..]
  {
    if log != [] {
      var front, m := log[..|log| - 1], log[|log| - 1];
      AboveIsSuffix(front, since);
      assert log == front + [m];
      if 0 < since < |front| { assert log[since..] == front[since..] + [m]; }
    }
  }

  lemma {:induction false} AboveIsFromLog(log: seq<Message>, since: int, m: Message)
    requires m in Above(log, since)
    ensures m in log
  {
    var front, last := log[..|log| - 1], log[|log| - 1];
    if m != last || m in Above(front, since) {
      if m in Above(front, since) { AboveIsFromLog(front, since, m); }
    }
  }

  /** Every message's sender has an agent row, so that joining the two tables drops nothing. */
  ghost predicate SendersKnown(agents: map<AgentId, Agent>, log: seq<Message>) {
    forall i :: 0 <= i < |log| ==> log[i].sender in agents
  }

  ghost predicate AreSubjects(agents: map<AgentId, Agent>, messages: seq<Message>, senders: seq<string>) {
    |senders| == |messages| && forall i :: 0 <= i < |messages| ==>
      messages[i].sender in agents && senders[i] == agents[messages[i].sender].sub
  }

  lemma LogsHaveKnownSenders(b: Board, c: ConversationId, since: int)
    requires Integral(b) && c in b.rooms
    ensures SendersKnown(b.agents, b.rooms[c].log) && SendersKnown(b.agents, Above(b.rooms[c].log, since))
  {
    hide RowsOk, Above;
    var log := b.rooms[c].log;
    assert RoomOk(b.rooms[c]);
    var above := Above(log, since);
    forall i | 0 <= i < |above| ensures above[i].sender in b.agents {
      AboveIsFromLog(log, since, above[i]);
      var j :| 0 <= j < |log| && log[j] == above[i];
    }
  }

  ghost predicate Gapless(log: seq<Message>) {
    forall i :: 0 <= i < |log| ==> log[i].seqNo == i + 1
  }

  lemma LogsAreGapless(b: Board)
    requires Integral(b)
    ensures forall c :: c in b.rooms ==> Gapless(b.rooms[c].log)
  {
    hide RowsOk;
    forall c | c in b.rooms ensures Gapless(b.rooms[c].log) { assert RoomOk(b.rooms[c]); }
  }

  /** What the grouped query yields for one conversation: the cursor, the highest number, and
      the count above the cursor. */
  datatype Group = Group(cursor: nat, top: nat, unread: nat)

  predicate Grouped(r: Room, a: AgentId) {
    a in r.parts && r.parts[a].status.Active? && MaxSeq(r.log) > r.parts[a].lastReadSeq
  }

  function GroupOf(r: Room, a: AgentId): Group
    requires Grouped(r, a)
  {
    Group(r.parts[a].lastReadSeq, MaxSeq(r.log), |Above(r.log, r.parts[a].lastReadSeq)|)
  }

  function Groups(rooms: map<ConversationId, Room>, a: AgentId): map<ConversationId, Group> {
    map c | c in rooms && Grouped(rooms[c], a) :: GroupOf(rooms[c], a)
  }

  /** On a gapless log the aggregates are the log's length and the rest behind the cursor. */
  lemma GroupIsExact(r: Room, a: AgentId)
    requires Gapless(r.log)
    ensures Grouped(r, a) <==> HasUnread(r, a)
    ensures Grouped(r, a) ==>
      var n, cursor := |r.log|, r.parts[a].lastReadSeq; GroupOf(r, a) == Group(cursor, n, n - cursor) && r.log[n - 1].seqNo == n
  {
    GaplessMax(r.log);
    if Grouped(r, a) { AboveIsSuffix(r.log, r.parts[a].lastReadSeq); }
  }

  // --- participants of one conversation ---

  datatype ParticipantView = ParticipantView(
    id: AgentId, sub: string, displayName: string, role: Role, status: MemberStatus, invitedBy: Option<AgentId>)

  function ParticipantOf(agents: map<AgentId, Agent>, parts: map<AgentId, Participant>, a: AgentId): ParticipantView
    requires a in agents && a in parts
  {
    ParticipantView(a, agents[a].sub, agents[a].displayName, parts[a].role, parts[a].status, parts[a].invitedBy)
  }

  /** Each participant that has an agent row, once, with that row's name, in the collation's order. */
  ghost predicate IsRoster(
    collate: (string, string) -> bool, agents: map<AgentId, Agent>, parts: map<AgentId, Participant>,
    view: seq<ParticipantView>)
  {
    && (forall i :: 0 <= i < |view| ==>
          view[i].id in agents && view[i].id in parts && view[i] == ParticipantOf(agents, parts, view[i].id))
    && (forall a :: a in parts && a in agents ==> exists i :: 0 <= i < |view| && view[i].id == a)
    && (forall i, j :: 0 <= i < j < |view| ==> view[i].id != view[j].id && !collate(view[j].sub, view[i].sub))
  }

  // --- listings ---

  /** The directory's projection of an agent: everything but its owner. */
  datatype AgentView = AgentView(
    id: AgentId, sub: string, displayName: string, ownerEmail: string, accepted: set<MessageType>, status: AgentStatus)

  function PublicOf(id: AgentId, row: Agent): AgentView {
    AgentView(id, row.sub, row.displayName, row.ownerEmail, row.accepted, row.status)
  }

  function SubsOf(views: seq<AgentView>): seq<string> {
    seq(|views|, i requires 0 <= i < |views| => views[i].sub)
  }

  /** Code-point order of texts. */
  predicate Before(s: string, t: string) {
    if t == "" then false
    else if s == "" then true
    else s[0] < t[0] || (s[0] == t[0] && Before(s[1..], t[1..]))
  }

  lemma {:induction false} BeforeIrreflexive(s: string)
    ensures !Before(s, s)
  {
    if s != "" { BeforeIrreflexive(s[1..]); }
  }

  lemma {:induction false} BeforeTransitive(s: string, t: string, u: string)
    requires Before(s, t) && Before(t, u)
    ensures Before(s, u)
  {
    if s != "" && s[0] == t[0] && t[0] == u[0] { BeforeTransitive(s[1..], t[1..], u[1..]); }
  }

  lemma {:induction false} BeforeTotal(s: string, t: string)
    ensures s == t || Before(s, t) || Before(t, s)
  {
    if s != "" && t != "" && s[0] == t[0] {
      BeforeTotal(s[1..], t[1..]);
      assert s == [s[0]] + s[1..] && t == [t[0]] + t[1..];
    }
  }

  /** One collation subjects may be listed in. */
  lemma BeforeIsAnOrder()
    ensures Keyset.StrictTotalOrder(Before)
  {
    forall x ensures !Before(x, x) { BeforeIrreflexive(x); }
    forall x, y, z | Before(x, y) && Before(y, z) ensures Before(x, z) { BeforeTransitive(x, y, z); }
    forall x, y ensures x == y || Before(x, y) || Before(y, x) { BeforeTotal(x, y); }
  }

  function Subs(b: Board): set<string> {
    set a | a in b.agents :: b.agents[a].sub
  }

  /** Newest first; the identifier breaks ties. */
  type Stamp = (Instant, ConversationId)

  predicate Newer(x: Stamp, y: Stamp) {
    x.0 > y.0 || (x.0 == y.0 && x.1 > y.1)
  }

  datatype Filter = Filter(role: Option<Role>, ctype: Option<ConversationType>, state: Option<ConversationState>)

  /** The conversations a listing shows: visible to the caller and passing every filter, the
      state filter being asked of the state the reader is shown. */
  predicate Listed(r: Room, now: Instant, a: AgentId, f: Filter) {
    && a in r.parts
    && (r.parts[a].status.Invited? || r.parts[a].status.Active?)
    && (f.role.Some? ==> r.parts[a].role == f.role.value)
    && (f.ctype.Some? ==> r.conv.ctype == f.ctype.value)
    && (f.state.Some? ==> Shown(r, now).state == f.state.value)
  }

  function ListedStamps(rooms: map<ConversationId, Room>, now: Instant, a: AgentId, f: Filter): set<Stamp> {
    set c | c in rooms && Listed(rooms[c], now, a, f) :: (rooms[c].conv.createdAt, c)
  }

  // --- the text of a listing cursor ---

  /** How instants and identifiers are written and read; both are the platform's. */
  datatype StampText = StampText(
    printInstant: Instant -> string, parseInstant: string -> Option<Instant>,
    printId: ConversationId -> string, parseId: string -> Option<ConversationId>)

  /** Reading undoes writing, and an identifier's text holds no bar. */
  ghost predicate Lawful(text: StampText) {
    && (forall t: Instant :: text.parseInstant(text.printInstant(t)) == Some(t))
    && (forall c: ConversationId :: text.parseId(text.printId(c)) == Some(c) && '|' !in text.printId(c))
  }

  function PrintStamp(text: StampText, stamp: Stamp): string {
    Keyset.PrintCursor(text.printInstant(stamp.0), text.printId(stamp.1))
  }

  datatype Position = Beginning | Behind(stamp: Stamp) | Malformed

  /** A missing or empty cursor starts at the beginning; one that does not split at a bar into
      an instant and an identifier is malformed. */
  function ReadCursor(text: StampText, cursor: Option<string>): Position {
    if cursor.None? || cursor.value == "" then Beginning
    else
      var parts := Keyset.ParseCursor(cursor.value);
      if parts.None? then Malformed
      else
        var t, c := text.parseInstant(parts.value.0), text.parseId(parts.value.1);
        if t.None? || c.None? then Malformed else Behind((t.value, c.value))
  }

  function StampBehind(p: Position): Option<Stamp> {
    if p.Behind? then Some(p.stamp) else None
  }

  /** A cursor handed out reads back as the position behind its row. */
  lemma PrintedCursorReadsBack(text: StampText, stamp: Stamp)
    requires Lawful(text)
    ensures ReadCursor(text, Some(PrintStamp(text, stamp))) == Behind(stamp)
  {
    hide Keyset.ParseCursor;
    var t: Instant, c: ConversationId := stamp.0, stamp.1;
    assert text.parseInstant(text.printInstant(t)) == Some(t);
    assert text.parseId(text.printId(c)) == Some(c) && '|' !in text.printId(c);
    Keyset.CursorRoundTrip(text.printInstant(t), text.printId(c));
  }

  datatype Listing =
    | MalformedCursor
    | Page(rows: seq<Stamp>, shown: seq<Conversation>, hasMore: bool, nextCursor: Option<string>)
}
