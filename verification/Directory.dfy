/** The paginated listings, followed page by page while the board changes in between. */
module Directory {
  import opened Vocabulary
  import opened Tables
  import opened Policy
  import opened Runs
  import opened Integrity
  import opened Operations
  import opened OwnerFreeze
  import opened Queries
  import opened Lifecycle
  import opened Keyset

  /** No call takes a subject out of the directory. */
  lemma SubsStay(b: Board, call: Call)
    requires SubsGiven(b)
    ensures Subs(b) <= Subs(Next(b, call))
  {
    hide OutcomeOf, MayOpen, Allowed;
    CallsWriteWhatTheyMay(b, call);
    var b' := Next(b, call);
    forall s | s in Subs(b) ensures s in Subs(b') {
      var a :| a in b.agents && b.agents[a].sub == s;
      assert a in b'.agents && b'.agents[a].sub == s;
    }
  }

  lemma {:induction false} SubsStayOverRuns(b: Board, calls: seq<Call>)
    requires Integral(b)
    ensures Subs(b) <= Subs(RunFrom(b, calls))
  {
    hide Integral, Next;
    if calls != [] {
      var front := calls[..|calls| - 1];
      SubsStayOverRuns(b, front);
      RunKeepsIntegrity(b, front);
      assert SubsGiven(RunFrom(b, front)) by { SubsAreGiven(RunFrom(b, front)); }
      SubsStay(RunFrom(b, front), calls[|calls| - 1]);
    }
  }

  /** The boards found at the successive fetches: any calls may happen in between. */
  ghost predicate Unfolds(boards: seq<Board>, gaps: seq<seq<Call>>) {
    && |boards| >= 1 && |gaps| == |boards| - 1
    && forall i :: 0 <= i < |gaps| ==> boards[i + 1] == RunFrom(boards[i], gaps[i])
  }

  ghost function Snapshots(boards: seq<Board>): seq<set<string>> {
    seq(|boards|, i requires 0 <= i < |boards| => Subs(boards[i]))
  }

  lemma {:induction false} SnapshotsGrow(boards: seq<Board>, gaps: seq<seq<Call>>, i: nat, j: nat)
    requires Unfolds(boards, gaps) && Integral(boards[0]) && i <= j < |boards|
    ensures Subs(boards[i]) <= Subs(boards[j]) && Integral(boards[j])
    decreases j
  {
    hide Integral, RunFrom, Subs;
    if i < j {
      SnapshotsGrow(boards, gaps, i, j - 1);
      SubsStayOverRuns(boards[j - 1], gaps[j - 1]);
      RunKeepsIntegrity(boards[j - 1], gaps[j - 1]);
      assert boards[j - 1 + 1] == RunFrom(boards[j - 1], gaps[j - 1]);
    } else if j > 0 {
      SnapshotsGrow(boards, gaps, j - 1, j - 1);
      RunKeepsIntegrity(boards[j - 1], gaps[j - 1]);
      assert boards[j - 1 + 1] == RunFrom(boards[j - 1], gaps[j - 1]);
    }
  }

  /** Following the directory's cursor under any collation, with any calls between the pages:
      the subjects come in order, none twice, each present by now; the following ends within as
      many pages as the table can fill; once it has ended everyone present at the start has been
      listed, and until then somebody in the table has not. */
  lemma DirectoryIsExact(
    collate: (string, string) -> bool, boards: seq<Board>, gaps: seq<seq<Call>>, limit: int, pages: seq<seq<string>>, more: bool)
    requires StrictTotalOrder(collate) && Unfolds(boards, gaps) && Integral(boards[0])
    requires IsWalk(collate, Clamp(limit), None, Snapshots(boards), pages, more)
    ensures Ascending(collate, Flatten(pages))
    ensures forall s :: s in Flatten(pages) ==> s in Subs(boards[|boards| - 1])
    ensures !more ==> forall s :: s in Subs(boards[0]) ==> s in Flatten(pages)
    ensures more ==> exists s :: s in Subs(boards[|boards| - 1]) && s !in Flatten(pages)
    ensures var n := |Subs(boards[|boards| - 1])|;
      (|pages| * Clamp(limit) > n ==> !more) && (|pages| - 1) * Clamp(limit) <= n
  {
    hide Subs, IsWalk, Integral, StrictTotalOrder;
    var snapshots, last := Snapshots(boards), |boards| - 1;
    WalkIsExact(collate, Clamp(limit), None, snapshots, pages, more);
    forall i | 0 <= i < |snapshots| ensures Subs(boards[0]) <= snapshots[i] <= Subs(boards[last]) {
      SnapshotsGrow(boards, gaps, 0, i);
      SnapshotsGrow(boards, gaps, i, last);
    }
    WalkLengths(collate, Clamp(limit), None, snapshots, pages, more);
    assert snapshots[last] == Subs(boards[last]);
    WalkEnds(collate, Clamp(limit), snapshots, pages, more, Subs(boards[last]));
  }

  lemma WalkLengths<K>(
    less: (K, K) -> bool, limit: nat, cursor: Option<K>, snapshots: seq<set<K>>, pages: seq<seq<K>>, more: bool)
    requires limit >= 1 && IsWalk(less, limit, cursor, snapshots, pages, more)
    ensures |snapshots| == |pages| >= 1
  {
  }

  /** A returned cursor is never the empty text, which would start over. */
  lemma CursorsNeverRestart(
    collate: (string, string) -> bool, b: Board, limit: nat, cursor: Option<string>, rows: seq<string>, more: bool)
    requires Integral(b) && IsPage(collate, Subs(b), limit, cursor, rows, more) && rows != []
    ensures rows[|rows| - 1] != ""
  {
    hide RoomOk;
    assert rows[|rows| - 1] in rows;
  }

  lemma NewerIsAnOrder()
    ensures StrictTotalOrder(Newer)
  {
  }

  ghost function ListedOver(
    boards: seq<map<ConversationId, Room>>, times: seq<Instant>, a: AgentId, f: Filter): seq<set<Stamp>>
    requires |times| == |boards|
  {
    seq(|boards|, i requires 0 <= i < |boards| => ListedStamps(boards[i], times[i], a, f))
  }

  /** Every stamp the listing could show at one of its fetches. */
  ghost function EverListed(
    boards: seq<map<ConversationId, Room>>, times: seq<Instant>, a: AgentId, f: Filter): set<Stamp>
    requires |times| == |boards|
  {
    set i, stamp | 0 <= i < |boards| && stamp in ListedStamps(boards[i], times[i], a, f) :: stamp
  }

  /** A client that hands each page's cursor text back: `snapshots`, `pages` and `more` as in a walk. */
  ghost predicate IsTextWalk(
    text: StampText, limit: nat, cursor: Option<string>, snapshots: seq<set<Stamp>>, pages: seq<seq<Stamp>>, more: bool)
    requires limit >= 1
    decreases |pages|
  {
    && |snapshots| == |pages| && |pages| >= 1 && !ReadCursor(text, cursor).Malformed?
    && IsPage(Newer, snapshots[0], limit, StampBehind(ReadCursor(text, cursor)), pages[0], |pages| > 1 || more)
    && (|pages| > 1 ==>
          IsTextWalk(text, limit, Some(PrintStamp(text, pages[0][|pages[0]| - 1])), snapshots[1..], pages[1..], more))
  }

  /** Through its text the cursor arrives unchanged. */
  lemma {:induction false} TextWalkIsWalk(
    text: StampText, limit: nat, cursor: Option<string>, snapshots: seq<set<Stamp>>, pages: seq<seq<Stamp>>, more: bool)
    requires Lawful(text) && limit >= 1 && IsTextWalk(text, limit, cursor, snapshots, pages, more)
    ensures IsWalk(Newer, limit, StampBehind(ReadCursor(text, cursor)), snapshots, pages, more)
    decreases |pages|
  {
    hide Lawful, ReadCursor, PrintStamp, IsPage;
    if |pages| > 1 {
      var last := FullPageHasLast(limit, StampBehind(ReadCursor(text, cursor)), snapshots[0], pages[0]);
      TextWalkIsWalk(text, limit, Some(PrintStamp(text, last)), snapshots[1..], pages[1..], more);
      PrintedCursorReadsBack(text, last);
    }
  }

  lemma FullPageHasLast(limit: nat, cursor: Option<Stamp>, items: set<Stamp>, page: seq<Stamp>) returns (last: Stamp)
    requires limit >= 1 && IsPage(Newer, items, limit, cursor, page, true)
    ensures page != [] && last == page[|page| - 1]
  {
    last := page[|page| - 1];
  }

  /** The conversation listing, newest first: whatever happens between the pages, no
      conversation is listed twice and every one listed passed the filter at some fetch; the
      following ends within as many pages as those that ever passed can fill; once it has ended,
      one that passed at every fetch has been listed, and until then one that passes has not. */
  lemma ConversationListingIsExact(
    text: StampText, boards: seq<map<ConversationId, Room>>, times: seq<Instant>, a: AgentId, f: Filter, limit: int,
    pages: seq<seq<Stamp>>, more: bool)
    requires Lawful(text) && |boards| == |times|
    requires IsTextWalk(text, Clamp(limit), None, ListedOver(boards, times, a, f), pages, more)
    ensures var all := Flatten(pages);
      forall i, j :: 0 <= i < j < |all| ==> all[i].0 > all[j].0 || (all[i].0 == all[j].0 && all[i].1 > all[j].1)
    ensures forall stamp :: stamp in Flatten(pages) ==>
      exists i :: 0 <= i < |boards| && stamp in ListedStamps(boards[i], times[i], a, f)
    ensures !more ==> forall stamp ::
      (forall i :: 0 <= i < |boards| ==> stamp in ListedStamps(boards[i], times[i], a, f)) ==> stamp in Flatten(pages)
    ensures |boards| >= 1
    ensures var last := |boards| - 1;
      more ==> exists stamp :: stamp in ListedStamps(boards[last], times[last], a, f) && stamp !in Flatten(pages)
    ensures var n := |EverListed(boards, times, a, f)|;
      (|pages| * Clamp(limit) > n ==> !more) && (|pages| - 1) * Clamp(limit) <= n
  {
    hide ListedStamps, IsWalk, IsTextWalk, Flatten, StrictTotalOrder, Lawful, PrintStamp;
    NewerIsAnOrder();
    var snapshots := ListedOver(boards, times, a, f);
    assert |snapshots| == |boards|;
    assert StampBehind(ReadCursor(text, None)) == None;
    TextWalkIsWalk(text, Clamp(limit), None, snapshots, pages, more);
    WalkIsExact(Newer, Clamp(limit), None, snapshots, pages, more);
    WalkLengths(Newer, Clamp(limit), None, snapshots, pages, more);
    assert forall i :: 0 <= i < |boards| ==> snapshots[i] == ListedStamps(boards[i], times[i], a, f);
    WalkEnds(Newer, Clamp(limit), snapshots, pages, more, EverListed(boards, times, a, f));
  }

  // --- openings between the pages leave the listing's length alone ---

  ghost predicate StampedUpTo(b: Board, t: Instant) {
    forall c :: c in b.rooms ==> b.rooms[c].conv.createdAt <= t
  }

  predicate OpensAfter(calls: seq<Call>, t: Instant) {
    forall i :: 0 <= i < |calls| && calls[i].OpenRoom? ==> calls[i].opening.stamp > t
  }

  /** What is stamped up to `t` was there before, with the same stamp. */
  ghost predicate OldOnesWereThere(b: Board, b': Board, t: Instant) {
    forall c :: c in b'.rooms && b'.rooms[c].conv.createdAt <= t ==>
      c in b.rooms && b.rooms[c].conv.createdAt == b'.rooms[c].conv.createdAt
  }

  lemma CallOpensLater(b: Board, call: Call, t: Instant)
    requires SubsGiven(b) && (call.OpenRoom? ==> call.opening.stamp > t)
    ensures OldOnesWereThere(b, Next(b, call), t)
  {
    hide OutcomeOf, MayEnrol, Allowed, Admit, FirstUnavailable, StartedSince, SortedTargets, FounderRows, Touched;
    CallsWriteWhatTheyMay(b, call);
    forall c | c in Next(b, call).rooms && c in b.rooms
      ensures Next(b, call).rooms[c].conv.createdAt == b.rooms[c].conv.createdAt
    {
      CallKeepsTerms(b, call, c);
    }
  }

  lemma {:induction false} RunOpensLater(b: Board, calls: seq<Call>, t: Instant)
    requires Integral(b) && OpensAfter(calls, t)
    ensures OldOnesWereThere(b, RunFrom(b, calls), t)
  {
    hide Integral, Next;
    if calls != [] {
      var front := calls[..|calls| - 1];
      RunOpensLater(b, front, t);
      RunKeepsIntegrity(b, front);
      SubsAreGiven(RunFrom(b, front));
      CallOpensLater(RunFrom(b, front), calls[|calls| - 1], t);
    }
  }

  lemma {:induction false} OldOnesWereThereAtFirst(boards: seq<Board>, gaps: seq<seq<Call>>, t: Instant, j: nat)
    requires Unfolds(boards, gaps) && Integral(boards[0]) && j < |boards|
    requires forall i :: 0 <= i < |gaps| ==> OpensAfter(gaps[i], t)
    ensures OldOnesWereThere(boards[0], boards[j], t)
  {
    hide Integral, RunFrom, OpensAfter;
    if j > 0 {
      OldOnesWereThereAtFirst(boards, gaps, t, j - 1);
      SnapshotsGrow(boards, gaps, 0, j - 1);
      RunOpensLater(boards[j - 1], gaps[j - 1], t);
      assert boards[j - 1 + 1] == RunFrom(boards[j - 1], gaps[j - 1]);
    }
  }

  ghost function RoomsAt(boards: seq<Board>): seq<map<ConversationId, Room>> {
    seq(|boards|, i requires 0 <= i < |boards| => boards[i].rooms)
  }

  function StampsOf(rooms: map<ConversationId, Room>, ids: set<ConversationId>): set<Stamp> {
    set c | c in ids && c in rooms :: (rooms[c].conv.createdAt, c)
  }

  function AllStamps(rooms: map<ConversationId, Room>): set<Stamp> {
    StampsOf(rooms, rooms.Keys)
  }

  lemma {:induction false} OneStampEach(rooms: map<ConversationId, Room>, ids: set<ConversationId>)
    requires ids <= rooms.Keys
    ensures |StampsOf(rooms, ids)| == |ids|
  {
    if ids == {} {
      assert StampsOf(rooms, ids) == {};
    } else {
      var c :| c in ids;
      var rest := ids - {c};
      OneStampEach(rooms, rest);
      assert StampsOf(rooms, ids) == StampsOf(rooms, rest) + {(rooms[c].conv.createdAt, c)};
    }
  }

  /** Every row of a walk is stamped no later than the first row of its first page. */
  lemma WalkGoesBack(limit: nat, snapshots: seq<set<Stamp>>, pages: seq<seq<Stamp>>, more: bool, t: Instant)
    requires limit >= 1 && IsWalk(Newer, limit, None, snapshots, pages, more)
    requires forall stamp :: stamp in snapshots[0] ==> stamp.0 <= t
    ensures forall stamp :: stamp in Flatten(pages) ==> stamp.0 <= t
  {
    NewerIsAnOrder();
    WalkIsExact(Newer, limit, None, snapshots, pages, more);
    var first, all := pages[0], Flatten(pages);
    if first != [] {
      assert first[0] in first && all[0] == first[0];
    } else {
      assert |pages| == 1 && pages[1..] == [];
      assert all == first + Flatten(pages[1..]);
    }
  }

  /** Over any calls between the pages, if whatever is opened meanwhile is stamped later than all
      that was there at the first fetch: only conversations of the first fetch are ever listed,
      and the following ends within as many pages as those can fill, however many are opened. */
  lemma OpeningsDoNotLengthenTheListing(
    text: StampText, boards: seq<Board>, gaps: seq<seq<Call>>, times: seq<Instant>, a: AgentId, f: Filter, limit: int,
    pages: seq<seq<Stamp>>, more: bool, t: Instant)
    requires Lawful(text) && Unfolds(boards, gaps) && Integral(boards[0]) && |boards| == |times|
    requires StampedUpTo(boards[0], t) && forall i :: 0 <= i < |gaps| ==> OpensAfter(gaps[i], t)
    requires IsTextWalk(text, Clamp(limit), None, ListedOver(RoomsAt(boards), times, a, f), pages, more)
    ensures forall stamp :: stamp in Flatten(pages) ==> stamp in AllStamps(boards[0].rooms)
    ensures var n := |boards[0].rooms|;
      (|pages| * Clamp(limit) > n ==> !more) && (|pages| - 1) * Clamp(limit) <= n
  {
    hide IsWalk, IsTextWalk, Newer, Flatten, StrictTotalOrder, Lawful, PrintStamp, Unfolds, OpensAfter, Integral, Listed;
    var snapshots := ListedOver(RoomsAt(boards), times, a, f);
    NewerIsAnOrder();
    assert |boards| >= 1 by { UnfoldingStarts(boards, gaps); }
    assert StampBehind(ReadCursor(text, None)) == None;
    TextWalkIsWalk(text, Clamp(limit), None, snapshots, pages, more);
    WalkGoesBack(Clamp(limit), snapshots, pages, more, t);
    WalkIsExact(Newer, Clamp(limit), None, snapshots, pages, more);
    forall stamp | stamp in Flatten(pages) ensures stamp in AllStamps(boards[0].rooms) {
      var i :| 0 <= i < |snapshots| && stamp in snapshots[i];
      OldOnesWereThereAtFirst(boards, gaps, t, i);
    }
    AscendingFits(Newer, Flatten(pages), AllStamps(boards[0].rooms));
    OneStampEach(boards[0].rooms, boards[0].rooms.Keys);
    FullPages(Newer, Clamp(limit), None, snapshots, pages, more);
  }

  lemma UnfoldingStarts(boards: seq<Board>, gaps: seq<seq<Call>>)
    requires Unfolds(boards, gaps)
    ensures |boards| >= 1
  {
  }
}
