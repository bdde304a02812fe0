/** A reader that keeps polling from the last number it received gets the log, exactly once. */
module Polling {
  import opened Vocabulary
  import opened Tables
  import opened Policy
  import opened Operations
  import opened Runs
  import opened Integrity
  import opened Queries

  datatype Turn = Others(call: Call) | Poll(now: Instant, actor: string)

  datatype Session = Session(board: Board, since: nat, received: seq<Message>)

  /** One turn: any call by anyone, or the reader's poll, which moves its mark to the last
      number received. */
  ghost function Advance(s: Session, reader: AgentId, c: ConversationId, turn: Turn): Session {
    match turn
    case Others(call) => s.(board := Next(s.board, call))
    case Poll(now, actor) =>
      var call := Read(now, actor, reader, c, s.since);
      var reply := OutcomeOf(s.board, call).reply;
      var got := if reply.History? then reply.messages else [];
      Session(Next(s.board, call), if got == [] then s.since else got[|got| - 1].seqNo, s.received + got)
  }

  ghost function Play(s: Session, reader: AgentId, c: ConversationId, turns: seq<Turn>): Session {
    if turns == [] then s
    else Advance(Play(s, reader, c, turns[..|turns| - 1]), reader, c, turns[|turns| - 1])
  }

  /** The mark is inside the log and everything up to it has been received, in order, once. */
  ghost predicate UpToDate(s: Session, c: ConversationId) {
    && Integral(s.board)
    && if c in s.board.rooms
       then s.since <= |s.board.rooms[c].log| && s.received == s.board.rooms[c].log[..s.since]
       else s.since == 0 && s.received == []
  }

  /** No call changes or removes a stored message. */
  lemma LogsOnlyGrow(b: Board, call: Call, c: ConversationId)
    requires SubsGiven(b) && c in b.rooms
    ensures c in Next(b, call).rooms && b.rooms[c].log <= Next(b, call).rooms[c].log
  {
    hide OutcomeOf, MayOpen, MayEnrol, Allowed, PartsAfter;
    CallsWriteWhatTheyMay(b, call);
  }

  /** What a poll of an active reader does: it returns exactly what lies behind its mark, and
      leaves the stored cursor at the end of the log whenever it returns anything. */
  ghost predicate CaughtUp(b: Board, b': Board, reply: Reply, reader: AgentId, c: ConversationId, since: nat) {
    && HasRow(b, c, reader) && HasRow(b', c, reader) && reply.History?
    && var log, cursor, cursor' := b.rooms[c].log, b.rooms[c].parts[reader].lastReadSeq, b'.rooms[c].parts[reader].lastReadSeq;
       && b'.rooms[c].log == log
       && reply.messages == (if since <= |log| then log[since..] else [])
       && cursor <= cursor' <= |log|
       && (reply.messages != [] ==> cursor' == |log|)
       && reply.lastReadSeq == cursor'
  }

  /** The messages of a read and their highest number, on a gapless log. */
  lemma SuffixRead(log: seq<Message>, since: nat)
    requires Gapless(log)
    ensures Above(log, since) == if since <= |log| then log[since..] else []
    ensures MaxSeq(Above(log, since)) == if since < |log| then |log| else 0
  {
    AboveIsSuffix(log, since);
    if since <= |log| { SuffixMax(log, since); }
  }

  lemma CursorWritten(r: Room, now: Instant, reader: AgentId, cursor: nat)
    requires reader in r.parts
    ensures var p := r.parts[reader];
      var r' := Touched(r, now, if cursor != p.lastReadSeq then Some(CursorMoved(reader, cursor)) else None);
      r'.log == r.log && reader in r'.parts && r'.parts[reader].lastReadSeq == cursor
  {
  }

  lemma PollCatchesUp(b: Board, now: Instant, actor: string, reader: AgentId, c: ConversationId, since: nat)
    requires Integral(b) && HasRow(b, c, reader) && b.rooms[c].parts[reader].status.Active?
    ensures var o := Get(b, now, actor, reader, c, since); CaughtUp(b, Commit(b, o), o.reply, reader, c, since)
  {
    hide Integral, Above, MaxSeq, Gapless, Views, Touched, ExpiryRows;
    var r := b.rooms[c];
    assert r.parts[reader].lastReadSeq <= |r.log| by { ReaderIsInside(b, c, reader); }
    assert Gapless(r.log) by { LogsAreGapless(b); }
    SuffixRead(r.log, since);
    var messages := Above(r.log, since);
    var cursor := if MaxSeq(messages) > r.parts[reader].lastReadSeq then MaxSeq(messages) else r.parts[reader].lastReadSeq;
    CursorWritten(r, now, reader, cursor);
  }

  lemma ReaderIsInside(b: Board, c: ConversationId, reader: AgentId)
    requires Integral(b) && HasRow(b, c, reader)
    ensures b.rooms[c].parts[reader].lastReadSeq <= |b.rooms[c].log|
  {
    hide LogOk;
    assert RoomOk(b.rooms[c]);
  }

  lemma SuffixMax(log: seq<Message>, since: nat)
    requires Gapless(log) && since <= |log|
    ensures MaxSeq(log[since..]) == if since == |log| then 0 else |log|
  {
    if since < |log| {
      if since + 1 < |log| { SuffixMax(log[..|log| - 1], since); }
      assert log[since..][..|log| - since - 1] == log[..|log| - 1][since..];
    }
  }

  lemma OtherReadersGetNothing(b: Board, now: Instant, actor: string, reader: AgentId, c: ConversationId, since: int)
    requires HasRow(b, c, reader) ==> !b.rooms[c].parts[reader].status.Active?
    ensures var reply := Get(b, now, actor, reader, c, since).reply; reply.History? ==> reply.messages == []
  {
  }

  lemma AdvanceKeepsUp(s: Session, reader: AgentId, c: ConversationId, turn: Turn)
    requires UpToDate(s, c)
    ensures UpToDate(Advance(s, reader, c, turn), c)
  {
    hide Next, Integral, OutcomeOf;
    var b := s.board;
    var call := if turn.Others? then turn.call else Read(turn.now, turn.actor, reader, c, s.since);
    CallKeepsIntegrity(b, call);
    if turn.Poll? {
      PollKeepsUp(s, reader, c, turn);
    } else if c in b.rooms {
      assert SubsGiven(b) by { SubsAreGiven(b); }
      LogsOnlyGrow(b, call, c);
      var log, log' := b.rooms[c].log, Next(b, call).rooms[c].log;
      assert log'[..s.since] == log[..s.since];
    }
  }

  lemma PollKeepsUp(s: Session, reader: AgentId, c: ConversationId, turn: Turn)
    requires UpToDate(s, c) && turn.Poll? && Integral(Advance(s, reader, c, turn).board)
    ensures UpToDate(Advance(s, reader, c, turn), c)
  {
    hide Get, Integral, Settle;
    var b := s.board;
    if HasRow(b, c, reader) && b.rooms[c].parts[reader].status.Active? {
      PollCatchesUp(b, turn.now, turn.actor, reader, c, s.since);
      LogsAreGapless(b);
      var log := b.rooms[c].log;
      assert log[..s.since] + log[s.since..] == log;
    } else {
      OtherReadersGetNothing(b, turn.now, turn.actor, reader, c, s.since);
      assert s.received + [] == s.received;
      if c in b.rooms { LogsUntouched(b, turn.now, turn.actor, reader, c, s.since); }
      else { NothingRead(b, turn.now, turn.actor, reader, c, s.since); }
    }
  }

  lemma LogsUntouched(b: Board, now: Instant, actor: string, reader: AgentId, c: ConversationId, since: int)
    requires c in b.rooms
    ensures var b' := Commit(b, Get(b, now, actor, reader, c, since)); c in b'.rooms && b'.rooms[c].log == b.rooms[c].log
  {
    hide Above, MaxSeq;
  }

  lemma NothingRead(b: Board, now: Instant, actor: string, reader: AgentId, c: ConversationId, since: int)
    requires c !in b.rooms
    ensures c !in Commit(b, Get(b, now, actor, reader, c, since)).rooms
  {
  }

  /** Whatever others do in between, the concatenation of what the polls return is the log up
      to the reader's mark: no gap, no repetition, no reordering. */
  lemma {:induction false} PollingDeliversExactlyOnce(b: Board, reader: AgentId, c: ConversationId, turns: seq<Turn>)
    requires Integral(b)
    ensures UpToDate(Play(Session(b, 0, []), reader, c, turns), c)
  {
    hide Integral, Advance;
    if turns != [] {
      var front := turns[..|turns| - 1];
      PollingDeliversExactlyOnce(b, reader, c, front);
      AdvanceKeepsUp(Play(Session(b, 0, []), reader, c, front), reader, c, turns[|turns| - 1]);
    }
  }
}
