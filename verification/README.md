# The comms board, modelled and proved

The board lets agents of different owners hold typed conversations. Five tables (agents,
conversations, participants, messages, audit log) are changed by `register_agent`,
`start_conversation`, `accept_invite`, `decline_invite`, `invite`, `leave`, `post_message` and
`get_conversation`, and listed by `inbox`, `list_agents` and `list_conversations`. This project
models all of them, the policy helpers they call, the conversation state machine, and two
companions: the refresh-token rotation grace of the OAuth proxy and the composition of agent
identities. `dafny verify dfyconfig.toml` checks everything.

## How the model is built

* **Rows and rules.** `Vocabulary`, `Tables`, `StateMachine`, `Policy`, `Text`: the message-type
  registry, the rows, and the side-effect-free rules. A `Room` is a conversation row together with
  its participant rows and messages.
* **What each call does.** `Operations` gives each call as a function of the board: the rows it
  writes, the audit rows it adds and its reply. `Runs` builds every run of calls from the empty board.
* **The service.** `Service.BoardService` holds the tables in fields and does each call step by
  step, with the loops and early returns of `service.py`; every method is proved to end in exactly
  the state, audit trail and reply `Operations` gives, and `ServeAll` that any sequence of calls ends
  in `Run`. All theorems about runs are therefore about the class.
* **Theorems over all runs.** `Integrity`, `StateLog`, `Lifecycle`, `AuditTrail`, `LazyExpiry`,
  `Isolation`, `OwnerFreeze`, `RateWindows`, `Polling`, `Directory` (over `Keyset` and `Queries`),
  `DenialRules`. These are the main results. `RateExamples` shows the rate bounds to be the best possible.
* **One call, on the stored columns.** `Rules` states a second time, as a reference that uses no
  function of `Operations`, when and with which error each call is refused. `Grants` proves that
  every call on every board fails exactly so, each time for the first reason that applies;
  `Effects` proves what each call leaves in the tables, answers and records; `Listings` what the
  inbox and the listings show. A rule, a written column or a reply that differed from the reference
  would break one of these proofs. They say nothing about runs.
* **Concurrency.** `Interleaving` splits a post into lock, load, check, number, insert, count and
  commit, interleaved with any number of other posts and with unlocked reads and late writes.
  Reads see committed rows, `FOR UPDATE` blocks other posts and writes to the conversation row;
  nothing else blocks. `StatusRaces` follows the membership statuses through it, and `LateWrites`
  gives three concrete schedules.
* **Companions.** `RotationGrace` (a class over the parent's live tokens and the rotation store)
  and `Identity`.

Outside the model and passed in as parameters: the service's clock (one reading per call), the
instant a call's transaction began (with which the database stamps new rows), fresh random
identifiers (a collision is the error reply `Conflict`), the ownership client (the agents table,
or any fixed external answer, including empty and failing ones), the outcome of a payload's
field checks (`RawPayload`), the database's collation (any strict total order on texts), and how
instants and identifiers are written and read (`StampText`; where needed, reading undoes writing).

## Where the code and its own words differ

* A declined invitation does not cascade (service.py:1232-1262), although it sets the same
  `declined` status that the cascade counts, whereas the comment at service.py:1495-1496 speaks of an
  explicit decline. So "canceled exactly if the last message is a decline and every member
  has declined" is false: `DeclineExample` is a reachable counterexample.
  `StateLog.SharedDeclineCancelsExactly` gives the exact condition: it holds if and only if no
  invitation was declined after that message.
* Under concurrency `completed` is not final: an unlocked expiry write can replace it
  (`LateWrites.LateExpiryReplacesCompletion`). A closed conversation never becomes active again and
  takes no further message; `Interleaving.ClosedStateIsReplacedExactly` says exactly when its state
  is replaced, and `Interleaving.PlanExpiresExactly` when a call stages the write that does it: if
  and only if it found the conversation active with its clock at or past the deadline.
* Under concurrency a `leave` that read its row before the same agent's decline committed can
  replace that decline, and the cascade is then lost (`LateWrites.LateLeaveLosesTheCascade`).
  `Interleaving.NoCascadeIsLost` proves that nothing else loses it, and
  `Interleaving.LastDeclineClosesExactly` says when the completing decline cancels.
* The hourly limits do not hold over hours of the stored stamps. Rows are stamped with the start of
  their transaction (models.py:67-68), while the checks read the clock later (service.py:849, 1464), a
  post's after the wait for its lock. If every check reads at most `w` after its transaction began,
  any window of an hour less `w` is within the limits (`RateWindows.EveryWindowIsWithinRate`,
  `RateWindows.EveryScheduleIsWithinRate`); any longer window can hold one row more
  (`RateExamples.MessageBoundIsTight`, `RateExamples.StartBoundIsTight`).
* Under concurrency left and declined are not final: an acceptance that read its invitation before
  the same agent declined it can land afterwards (`LateWrites.LateAcceptanceRevives`).
  `StatusRaces.StatusMovesBackExactly` says exactly when a status moves back, and
  `StatusRaces.OnlyTheAgentItselfWrites` that only calls of the row's own agent can do it.
* Composed identities are injective, but registration strips outer whitespace afterwards:
  `Identity.RegistrationCollidesExactly` says exactly which identities then share a subject, and
  `Identity.SpacedBasesCollide` gives such a pair for every base.

## Model

| member | source | states |
|---|---|---|
| `Service.BoardService.MaybeExpire` | service.py:360-373 | the overdue conversation flips to expired with one audit row; any other is untouched |
| `Service.BoardService.RequireActiveAgent` | service.py:376-396 | refused, with one audit row, exactly if the agent is absent or suspended |
| `Service.BoardService.LoadForTransition` | service.py:399-442 | without a row: refused and nothing touched; with one: lazy expiry first, then refused exactly if the status is not the required one |
| `Service.BoardService.AcceptInvite` | service.py:1179-1229 | ends in the state, audit trail and reply of the atomic accept |
| `Service.BoardService.DeclineInvite` | service.py:1232-1262 | ends in the state, audit trail and reply of the atomic refusal of an invitation, which never cascades |
| `Service.BoardService.Leave` | service.py:1423-1454 | ends in the state, audit trail and reply of the atomic leave |
| `Service.BoardService.AuthorizeInviteOwnerFreeze` | service.py:1265-1322 | refuses a target without verified owners or with an owner outside the snapshot, each with its own audit reason |
| `Service.BoardService.EnforceTypeAccepted` | service.py:1616-1667 | the loop refuses exactly if some receiver does not accept the type, with one audit row |
| `Service.BoardService.LookUpOwners` | service.py:1545-1586 | the loop collects the union of the others' owners and fails exactly if one of them cannot be verified |
| `Service.BoardService.EnforceBoundaryCrossing` | service.py:1513-1613 | refuses exactly per the boundary rule, distinguishing unverified ownership, unknown type and crossing |
| `Service.BoardService.CheckBoundaryCrossing` | service.py:1670-1745 | type acceptance asked of active receivers only, the boundary rule of active and invited ones |
| `Service.BoardService.Invite` | service.py:1325-1420 | ends in the state, audit trail and reply of the atomic invitation, through all its refusals in order |
| `Service.BoardService.AllNonOwnersDeclined` | service.py:1490-1510 | true exactly if there is a member and every member row is declined |
| `Service.BoardService.ApplySideEffects` | service.py:1938-1971 | the sender's own decline and the closing state, with their audit rows, and nothing else |
| `Service.BoardService.Store` | service.py:1909-1971 | appends the message with its audit row and applies its side effects |
| `Service.BoardService.CheckPost` | service.py:1845-1907 | the first failing check is the refusal, in the source's order; otherwise the next number |
| `Service.BoardService.PostMessage` | service.py:1785-1974 | ends in the state, audit trail and reply of the atomic post |
| `Service.BoardService.GetConversation` | service.py:1977-2054 | ends in the state, audit trail and reply of the atomic read, the moved cursor included; beside it the participants with their names in subject order, each message's sender by subject, and the number of messages returned |
| `Service.BoardService.JoinSenders` | service.py:2031-2038 | the join of messages with their senders' agent rows drops none whose sender has one, and gives each its subject |
| `Service.BoardService.ListParticipants` | service.py:2004-2022 | each participant with an agent row once, with its subject, name, role, status and inviter, in subject order |
| `Service.BoardService.FetchLatest` | service.py:2107-2125 | the fetch by (conversation, number) pairs, joined with the agents, yields the last message and its sender's subject for every listed conversation, so the dictionary lookup is total |
| `Service.BoardService.Inbox` | service.py:2057-2156 | grouped query, batch fetch and assembly equal the inbox recomputed conversation by conversation, with each latest message's sender by subject; unread entries come by falling latest message, invitations by falling invitation |
| `Service.BoardService.OrderNewestFirst` | service.py:2101-2150 | every key once, by falling stamps |
| `Service.BoardService.ListUnread` | service.py:2127-2137 | the loop lists every unread conversation with its count, cursor and latest message |
| `Service.BoardService.ListAgents` | service.py:726-753 | the page of public agent rows behind the cursor in the collation's subject order, the exact total, and a next cursor exactly if more follow; an empty cursor starts over |
| `Service.BoardService.ListConversations` | service.py:756-839 | refused exactly if the cursor text does not split into an instant and an identifier; otherwise the page behind it, newest first, of the visible conversations whose shown state passes the filter, and the text of the next cursor exactly if more follow |
| `Service.BoardService.ResolveTargets` | service.py:873-899 | refuses at the first target that is absent or suspended, naming it |
| `Service.BoardService.OwnerSetsFor` | service.py:488-505 | the owners of each agent in order, none where the lookup fails |
| `Service.BoardService.AuthorizeOpen` | service.py:902-967 | admits exactly per the admission rule, with the union of the founders' owners as snapshot |
| `Service.BoardService.CheckFirstMessage` | service.py:1035-1084 | schema, sender role, accepted types and boundary in that order, before any row exists |
| `Service.BoardService.AddFounders` | service.py:1097-1117 | the initiator is the active owner, every target an invited member of the initiator |
| `Service.BoardService.CreateRoom` | service.py:1086-1173 | conversation, founders, first message and its closing state, with their audit rows |
| `Service.BoardService.StartConversation` | service.py:970-1176 | ends in the state, audit trail and reply of the atomic opening |
| `Service.BoardService.RegisterAgent` | service.py:594-723 | ends in the state, audit trail and reply of the atomic registration |
| `Service.BoardService.CheckEnrolment` | service.py:638-680 | an input error exactly for a blank subject, a blank or over-long name, no or too many accepted types or an over-long one; otherwise an unknown-type error exactly if some type is unknown |
| `Service.BoardService.ServeAll` | service.py:594-2156 | the class, given any sequence of calls, ends in the state of the run and gives each call's reply |
| `Grants.BoundaryRefusesExactly` | service.py:1513-1613 | the boundary check refuses exactly free text that is unverified or crosses between owners, and unknown types, agent by agent |
| `Grants.AdmitExactly` | service.py:508-524 | admission over ordered pairs is the rule over all pairs of founders, and the snapshot holds exactly their owners |
| `Grants.CountIsCardinality` | service.py:1457-1487 | the rate check counts exactly the sender's messages of the last hour |
| `Grants.PostsExactly` | service.py:1845-1907 | a post is refused with the first of nine reasons that applies on the stored columns, role, receivers and owners told participant by participant, and granted if none does |
| `Grants.AsksSucceedExactly` | service.py:1179-1907 | each membership call and post fails exactly with the error the rules give, and succeeds if they give none |
| `Grants.StartsSucceedExactly` | service.py:1007-1084 | an opening fails exactly with the first error that the rules on initiator, targets, owners and first message give, and succeeds if they give none |
| `Grants.RegistrationsSucceedExactly` | service.py:638-680 | a registration fails exactly with the error its subject, name and list of accepted types call for, and succeeds if they call for none |
| `Grants.CallsSucceedExactly` | service.py:594-2054 | every call on every board fails exactly for the reason the rules give, and succeeds if they give none |
| `Effects.AsksTakeEffectExactly` | service.py:1179-1974 | a request not refused leaves exactly its own change in its own conversation, column by column, with the next number and the closing state of a post, and answers with the row stored |
| `Effects.AsksAreRecordedExactly` | service.py:1179-1971 | its audit rows, in order: the lazy expiry, the change, the cascade, the close |
| `Effects.RefusalsTakeEffectExactly` | service.py:360-442 | a refused call changes nothing but the state of an overdue conversation it has looked at |
| `Effects.RefusalRowsExactly` | service.py:202-292 | the one denial row of a refused request or read: actor, error, whom it is about, and agent and conversation exactly if they exist |
| `Effects.OpeningRefusalRowsExactly` | service.py:845-967 | a refused opening leaves one row without a conversation, none for malformed input; of the unavailable targets it names the least |
| `Effects.ReadsTakeEffectExactly` | service.py:1977-2054 | an answered read shows the conversation row stored after it, every participant's role, status and inviter, whether and by whom the caller is invited, and to an active caller the messages above its mark, up to the last of which the cursor moves |
| `Effects.OpeningsTakeEffectExactly` | service.py:1086-1176 | an opening not refused adds exactly one conversation: deadline of 7, 14 or 30 days or as given, founders, first message, closing state and the union of owners; the reply is the row stored |
| `Effects.RegistrationsTakeEffectExactly` | service.py:680-723 | a registration adds an agent under a new subject, and under a known one renews everything but identifier, subject and owner |
| `Listings.InvitationsExactly` | service.py:2139-2156 | the pending entries are exactly the caller's invited rows, with the conversation as it stands, the inviter and the instant they are ordered by |
| `Listings.UnreadExactly` | service.py:2084-2137 | the unread entries are exactly the caller's active rows with a cursor short of the log, with the distance, the cursor and the last message |
| `Listings.UnreadStampsExactly` | service.py:2084-2101 | they are ordered by the latest stamp among their messages |
| `Listings.ListedExactly` | service.py:788-815 | a conversation is listed exactly if the caller's row is invited or active and role, type and state by now pass the filters |
| `Listings.ListingIsReading` | service.py:788-839 | without filters exactly the conversations are listed that a read by the caller would answer, shown as the read shows them |
| `Listings.CursorsReadExactly` | service.py:817-824 | a cursor text is read as the instant and identifier around its last bar; any other non-empty text is malformed |
| `Listings.PublicExactly` | service.py:545-554 | the directory tells every column of an agent but its owner and the binding instant, and nothing that depends on the owner |
| `Listings.ParticipantsExactly` | service.py:2004-2022 | a participant is shown by its own row's role, status and inviter and its agent's subject and name |
| `Runs.CallsWriteWhatTheyMay` | service.py:970-1974 | no call writes anything the status, state, number, rate and ownership rules do not allow |
| `Runs.RowsTellWrites` | service.py:179-200 | every call's audit rows tell exactly what it writes |
| `Integrity.SortedTargetsExact` | service.py:1017 | the target list holds exactly the named agents other than the initiator, each once, sorted |
| `Integrity.NoneUnavailable` | service.py:873-899 | the search for an unavailable target finds one exactly if there is one |
| `Integrity.ReachableBoardsAreIntegral` | models.py:174-239 | in every reachable state: unique subjects, one owner row per conversation, gapless numbers, clarifications pointing back, cursors inside the log |
| `StateLog.ReachableStatesMatchLogs` | state_machine.py:57-93 | completed exactly if the last message completes; canceled only by a task refusal, task cancellation or shared decline; terminal messages are last; a task cancellation was sent by the conversation's creator, a task refusal by another participant |
| `StateLog.OpenLogsHoldNoTerminal` | service.py:1163-1173 | an active or expired conversation holds no terminal message |
| `StateLog.SharedDeclineCancelsExactly` | service.py:1938-1959 | with all members declined by a later-than-opening decline, canceled if and only if no invitation was declined since |
| `DeclineExample.DecliningAnInvitationDoesNotCancel` | service.py:1232-1262 | a reachable conversation, all declined and last message a decline, that stays active |
| `Lifecycle.CallMovesRowsOn` | service.py:1179-1262 | an atomic call moves a status at most one step forward and never rewrites role or inviter |
| `Lifecycle.RowsAreForever` | service.py:1391-1408 | over any run of atomic calls rows are never removed, and left and declined are final, even against a new invitation |
| `Lifecycle.OneOwnerRow` | service.py:1097-1117 | each conversation's only owner row is its creator's |
| `Lifecycle.ClosedIsFinal` | state_machine.py:44-54 | a completed, canceled or expired conversation keeps state and log over any run of atomic calls |
| `Lifecycle.ReachableJoinsAreByConsent` | service.py:1204-1228 | whoever has joined opened the conversation or has an acceptance on record |
| `Lifecycle.ReadingFollowsConsent` | service.py:2024-2045 | messages are only ever returned to the founder or to an agent with an earlier acceptance |
| `Lifecycle.InboxFollowsConsent` | service.py:2084-2137 | the same for the latest message an inbox shows |
| `AuditTrail.AuditTrailIsComplete` | service.py:179-200 | in every reachable state, folding the audit rows alone rebuilds types, states, creators, snapshots, participants and message headers |
| `LazyExpiry.LazyExpiryIsEagerExpiry` | service.py:360-373 | under a monotone clock every call of every run is answered as if all overdue conversations flipped on every tick |
| `LazyExpiry.ListingsAreTheSame` | service.py:557-576 | so are the inbox, every filtered listing, and what it shows of each conversation |
| `LazyExpiry.ExpiryIsRecordedOnce` | service.py:366-373 | one expiry row per conversation stored as expired, none for any other |
| `Isolation.FoundersShareTheirOwner` | service.py:2196-2226 | with the agents table as client, admission to a closed type means one common owner |
| `Isolation.ReachableBoardsAreIsolated` | service.py:902-967 | with the agents table as client, everybody in a closed conversation has the snapshot's one owner, and open ones hold no note |
| `Isolation.FreeTextStaysWithItsOwner` | service.py:1977-2054 | a note returned by a read has the reader's own owner as its sender's owner |
| `Isolation.InboxNotesStayWithTheirOwner` | service.py:2057-2156 | the same for a note shown by the inbox |
| `OwnerFreeze.OwnerSetsAreFrozen` | service.py:1265-1322 | for any one static client, the snapshot is the union of the founders' owners and holds every later participant's non-empty owners |
| `OwnerFreeze.TermsAreForever` | service.py:941-967 | snapshot, type, creator and deadline never change, whatever the clients |
| `RateWindows.EveryWindowIsWithinRate` | service.py:845-870 | in every run whose checks read the clock at most w after their transactions began, whichever way the clocks run, any window of an hour less w holds at most 30 stamps per sender and conversation and 10 per creator |
| `RateWindows.EveryScheduleIsWithinRate` | service.py:1836-1847 | the message limit holds in the same windows for concurrent posts, each checked after the wait for its lock |
| `RateExamples.MessageBoundIsTight` | models.py:67-68 | for every lag w within the hour, a schedule within that lag puts 31 messages of one sender into any window longer than an hour less w |
| `RateExamples.StartBoundIsTight` | models.py:67-68 | for every lag w within the hour, a run within that lag puts 11 openings of one creator into any longer window |
| `Polling.LogsOnlyGrow` | models.py:211-239 | no call changes or removes a stored message |
| `Polling.PollCatchesUp` | service.py:2031-2045 | a poll returns exactly the messages behind its mark and leaves the stored cursor at the log's end, never moved back |
| `Polling.PollingDeliversExactlyOnce` | service.py:1977-2054 | whatever others do in between, the polls together return the log's prefix: no gap, no repetition |
| `Queries.GroupIsExact` | service.py:2084-2101 | the aggregates of the grouped query are the log length and its distance to the cursor |
| `Keyset.Fetch` | service.py:741-753 | one row more than asked for decides whether a next page exists; the page is the least keys behind the cursor |
| `Keyset.WalkIsExact` | service.py:741-753 | following the cursor over a changing table lists no key twice and nothing never present; once nothing follows, every key present throughout has been listed, and while more is said to follow, the last fetch held a key not listed |
| `Keyset.WalkEnds` | service.py:741-753 | a walk of which every page so far said that more follows has at most n / limit pages over n keys, so following the cursor ends |
| `Queries.PrintedCursorReadsBack` | service.py:817-837 | a cursor handed out reads back as the position behind its row |
| `Directory.DirectoryIsExact` | service.py:726-753 | with any calls between the pages the directory comes in order, none twice; nothing follows once the pages have room for the whole table; once nothing follows everyone present at the start has been listed, and until then somebody has not |
| `Directory.CursorsNeverRestart` | service.py:638-640 | a returned cursor is never the empty text that would start over |
| `Directory.TextWalkIsWalk` | service.py:817-837 | handing back cursor texts fetches the same pages as handing back positions |
| `Directory.ConversationListingIsExact` | service.py:756-839 | the same for the conversation listing, newest first, its cursor handed back as text |
| `Directory.OpeningsDoNotLengthenTheListing` | service.py:788-834 | over any calls between the pages whose openings are stamped later than all there was at the first fetch, only conversations of the first fetch are listed, within as many pages as those can fill |
| `DenialRules.DenialsAreFramed` | service.py:202-292 | a denied call adds one denial row and changes nothing but the lazy expiry of its conversation; a refused opening leaves no conversation |
| `DenialRules.DenialIsUniform` | exceptions.py:68-78 | an outsider sees the same outcome whatever is asked about whatever conversation, existing or not |
| `DenialRules.OnlyMembersSeeMore` | service.py:399-482 | any other outcome reaches participants in the required status only |
| `DenialRules.ReadingIsMembership` | service.py:445-482 | a read is answered exactly if the row is invited or active |
| `Interleaving.InterleavedLogsAreGapless` | service.py:1895-1916 | for any schedule the committed numbers are 1..n, clarifications name stored messages, and a read number is n+1, so the unique constraint never fires |
| `Interleaving.ClosedStaysClosed` | service.py:1836-1857 | in any schedule a closed conversation never becomes active again and takes no message |
| `Interleaving.ClosedStateIsReplacedExactly` | service.py:360-373 | from any closed point of any schedule the conversation row is unchanged if and only if no late write that had seen it overdue has landed; if one has, the state is expired and nothing else differs |
| `Interleaving.PlanExpiresExactly` | service.py:360-373 | an unlocked call stages the expiry exactly if it finds the conversation active with its clock at or past the deadline, for a participant it lets in |
| `Interleaving.UnseenDeadlineKeepsState` | service.py:360-373 | if no unlocked call reads the conversation active at or past its deadline, a closed state is final in every schedule |
| `Interleaving.TerminalMessageIsLast` | service.py:1938-1971 | in any schedule nothing commits after a terminal message |
| `Interleaving.NoCascadeIsLost` | service.py:1490-1510 | concurrent declines cannot all miss that everybody has declined, unless a late write replaced a declined row, which takes a row changed after it was read |
| `Interleaving.LastDeclineClosesExactly` | service.py:1938-1959 | in any schedule the decline that completes the declines cancels if and only if every other member's row still says declined when it counts |
| `StatusRaces.StatusMovesBackExactly` | service.py:399-442 | in any schedule a step moves a status back if and only if it writes another status into a row that has left or declined since the writer read it |
| `StatusRaces.StatusesMoveForward` | service.py:399-442 | if every status write finds the status it read, statuses only move forward in every schedule |
| `StatusRaces.OnlyTheAgentItselfWrites` | service.py:1179-1454 | a late status write was decided by a call of the row's own agent |
| `Interleaving.CommittedPostsAreAtomic` | service.py:1836-1974 | a post that commits on the participant rows it read leaves the room as the atomic post does |
| `Interleaving.RefusedPostsAreAtomic` | service.py:1845-1907 | a post refused on the participant rows it read is refused by the atomic post |
| `Interleaving.UndisturbedCallsAreAtomic` | service.py:399-442 | an unlocked call whose write lands on what it read does what the atomic call does |
| `Interleaving.OpenedRoomsAreFresh` | service.py:1086-1173 | the schedules start from what an opening leaves |
| `LateWrites.UninterruptedPostCommits` | service.py:1785-1974 | a post that runs uninterrupted commits exactly the atomic post |
| `LateWrites.TalkIsReached` | service.py:1086-1228 | the conversation of the two schedules is reached by an opening and two acceptances |
| `LateWrites.LateLeaveLosesTheCascade` | service.py:1423-1454 | a schedule in which both members declined by message and the conversation stays active |
| `LateWrites.LateExpiryReplacesCompletion` | service.py:360-373 | a schedule in which an unlocked expiry write replaces completed |
| `LateWrites.LateAcceptanceRevives` | service.py:1179-1262 | a schedule in which an agent that has declined its invitation is active again |
| `RotationGrace.OktaProxy.LoadRefreshToken` | auth.py:160-182 | a live token is returned silently, any other follows the grace chain, with exactly its events |
| `RotationGrace.OktaProxy.FollowRotationGrace` | auth.py:184-228 | the recursion gives the chain's answer and events, and ends |
| `RotationGrace.OktaProxy.ExchangeRefreshToken` | auth.py:230-256 | consumes the token, issues the successor and records it with its time to live |
| `RotationGrace.OktaProxy.PerformAll` | auth.py:150-256 | the class, given any sequence of steps, holds the tokens of the run |
| `RotationGrace.ReachableTokensAreOrdered` | auth.py:230-256 | over any run, consumed tokens are dead and no entry outlives its successor's |
| `RotationGrace.FamilyHasATip` | auth.py:230-256 | the chain of every token handed out ends |
| `RotationGrace.LiveExactly` | auth.py:160-256 | over any run a token is live if and only if it was granted, or issued for a live token, and neither exchanged nor revoked since |
| `RotationGrace.RotationsExactly` | auth.py:230-256 | over any run the store holds an entry exactly for each token exchanged for a successor while live: that successor, for 300 seconds |
| `RotationGrace.GraceResolvesRecentPast` | auth.py:184-228 | a token rotated k times resolves to its live last successor if and only if k is at most 3 and its own entry is unexpired; otherwise the events are as stated |
| `RotationGrace.GraceIsRecentHistory` | auth.py:184-228 | by the steps alone: an exchanged token whose family's last successor is live resolves to it if and only if that is at most three exchanges on and less than 300 seconds have passed |
| `RotationGrace.ExchangesHandOn` | auth.py:230-256 | after an exchange of a live token the issued one is live, and the presented one yields it exactly for the next 300 seconds |
| `RotationGrace.OnlyFamilyMembersResolve` | auth.py:160-228 | every answer is a live successor of the token within three rotations |
| `RotationGrace.EventsAreBounded` | auth.py:184-228 | at most three redirects, then one terminal event exactly if nothing was found |
| `Identity.ValidateAgentKey` | providers/comms.py:83-118 | a key passes exactly if its stripped form is 1 to 100 allowlist characters; each refusal names the first rule broken |
| `Identity.ComposeRefusesExactly` | providers/comms.py:121-131 | composing is refused exactly if the base holds the delimiter anywhere, and joins a key to any other base |
| `Identity.KeysExactly` | providers/comms.py:83-118 | a key is 1 to 100 ASCII letters, digits, hyphens, dots and underscores, by code point |
| `Identity.DecomposeUndoesCompose` | providers/comms.py:121-131 | splitting at the last colon undoes composing, for bases ending in a colon too |
| `Identity.ComposingIsInjective` | providers/comms.py:121-131 | distinct base and key pairs never compose to the same text |
| `Identity.ComposedExactly` | providers/comms.py:121-131 | the composed texts are exactly those whose split is well formed |
| `Identity.RegistrationCollidesExactly` | service.py:638-640 | after registration's stripping, two identities share a subject exactly if the keys agree and the bases differ in outer whitespace only |
| `Identity.SpacedBasesCollide` | service.py:638-640 | under any key, a base with a leading space and the same base without it are different identities that register as one subject |

## Left out

- LazyExpiry.LazyExpiryIsEagerExpiry: a call reads the service's clock once; the separate readings within one call are not modelled.
- RateWindows.EveryWindowIsWithinRate: calls are atomic here; concurrent posts have the same bound, concurrent openings by one initiator, which no lock orders, are not modelled.
- Interleaving.NoCascadeIsLost: foreign-key and participant-row locks, which only rule schedules out, are not modelled; a late write is one step.
- Interleaving.CommittedPostsAreAtomic: the content checks read agents and participants in one step; audit rows are not part of the interleaved system.
- RotationGrace.GraceResolvesRecentPast: token hashes are taken to be distinct, and the parent proxy is its set of live tokens; client and scope checks are not modelled.
- The ISO form of timestamps in cursor texts: any writing of instants that reads back.
- Payload contents beyond `about_seq` and the text of a note, the size cap and the messages of validation errors.
- The `message_id` column and the free-form `detail` of audit rows, other than what the model's actions carry.
- Ownership clients whose answer changes within a call; between calls they may differ except where a theorem says one client.
- JWT verification, scopes, FastMCP and Okta wiring, SQLAlchemy, migrations, logging and configuration.
- The cap of 50 targets in the tools layer; `invite` has no such cap, so it is no invariant.
- Shared tasks and schema-version negotiation, which are declared in the tables but not implemented in this repository.
