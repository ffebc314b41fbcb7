# Verification model of the FootGrid match ledger

FootGrid scores football matches as an event ledger. A match is set up (DRAFT, READY, LIVE), events are appended under
an expected sequence number, and mistakes are undone by appending a reversal. The live score is kept incrementally, a
read model is fed by at-least-once messages, and every write carries an idempotency key. This project models the
PostgreSQL repository, the domain rules and the projector in Dafny 4.11 and proves what they guarantee together.

Check it with `dafny verify dfyconfig.toml`.

## How the model is built

* `Prelude`, `Text`: results, the meaning of `ORDER BY`, and the Go string and number functions that decide acceptance.
* `Domain`: the values and rules of `internal/match/domain.go`; the two validators are loops proved against predicates.
* `Ledger`: events, reversal links, and the score as a sum over events that nothing reverses.
* `Store`: the tables and each command as a decision on locked rows followed by a list of SQL statements. `Execute` is
  one whole transaction run alone, with the two clock readings it makes and the id the database generates as parameters.
* `Effects`, `Invariants`, `Setup`, `Commands`, `Tables`: what each command leaves behind, and the invariants it keeps.
* `Repository`, `Postgres`: the repository as classes whose methods update their fields statement by statement, with the
  loops of the Go code. Each command is proved to leave the tables and return the answer of `Execute`.
* `Projection`, `Projector`, `Convergence`: the read model, the projector as a class, whole runs of the system with
  messages in any order and number and rebuilds as a read and a later write, and exactly when a row is right.
* `Anomalies`, `Witness`: what the read model gets wrong and for how long, and concrete runs that show it.
* `History`, `Undoing`, `Acceptance`, `Answers`: whole-run laws of idempotency, races, reversals and rosters, exact
  conditions for accepting an append or a reversal, and every answer the two can give.
* `Protocol`, `Interleaving`: many transactions interleaved statement by statement with row locks, clock ticks and
  aborts anywhere, under READ COMMITTED, proved to be explained by atomic commands in commit order.
* `Listing`: the event list, its join and its row-grouping loop.

## What the code does that its documentation or names do not suggest

* `StartLiveSession` stores LIVE but returns, saves and publishes the snapshot it read, which still says READY
  (`StartLiveOutcome`). The published payload is not in the shape the projector expects, so that message always fails
  and the read model stays DRAFT until an event is projected or the match is rebuilt (`StatusWaitsForEvent`).
* `match.created.v1` overwrites status and sequence of an existing row but not its scores (`CreationExactIff`), and an
  event delivered before its match has a row is claimed and lost (`EarlyEventIsLost`). Convergence therefore has an
  exact condition (`ConvergesExactly`).
* `RebuildMatch` reads the ledger and overwrites the row in two statements without a lock. An event committed and
  projected between them is lost from the row: it goes back to what the rebuild read, and the inbox already holds the
  event, so no redelivery brings it back (`StaleRebuildSticks`, `LostUpdateRun`). With the creation processed first,
  delivery of the newest event is enough only while no older rebuild is still to write (`Converges`), for example when
  a match is rebuilt only while nothing is appended to it (`ConvergesWhenRebuildsAreSerial`).
* A reversal reason is measured in bytes by the command and in characters by the table, so a reason of two accented
  letters passes the first and fails the second (`ShortReasonNeverCommits`).
* `Roster.Validate` has no limit on a name or position and the qualifier checks none on text or numbers, so a name over
  100 characters, a NUL character or a number beyond `numeric` passes them and fails at the column (`RosterOutcome`,
  `AppendAcceptedExactly`).
* `Append` locks the match before it looks at a stored answer; every other command answers a retry first.
* A repeated `client_event_id` is reported as such by `Append` only; in `Reverse` it is an unclassified failure.
* A record that expires between the DELETE and the INSERT of one transaction is still replayed.
* A prefix of the ledger filtered by later reversals can be negative, so non-negativity is claimed for the live score
  and for the full sum, and a prefix counts only the reversals inside it (`ScoreAt`).

## Model

| member | source | states |
|---|---|---|
| Domain.DeltaAgreement | internal/match/domain.go:119-153 | For every accepted command the rebuild query's cast of the stored text succeeds, and it, the submitted delta and the delta decoded from the stored row are the same number. |
| Text.NumberReadersAgree | internal/match/domain.go:134-145 | A literal that the 64-bit integer parser accepts, and that is a JSON number, is stored as exactly that integer, without digits after the point. |
| Text.CastReadsIntegers | internal/projection/projector.go:93 | The text of a stored number casts to an integer exactly when it is stored without digits after the point and fits 32 bits; the cast then gives that number. |
| Text.LiteralKeepsWorth | internal/match/postgres_repository.go:735 | The stored numeric of a literal is worth its digits, times ten to the exponent, over ten to the length of its fraction. |
| Text.LiteralParts | internal/match/postgres_repository.go:735 | An accepted literal is its sign, its digits without a leading zero, its fraction after a point, and its exponent, with nothing left over. |
| Domain.AcceptedDeltaText | internal/match/postgres_repository.go:735-739 | An accepted delta, submitted as an int, a float64 or a json.Number, is stored as the number whose text is "1" or "-1". |
| Domain.EncodingKeeps | internal/match/postgres_repository.go:735-739 | Every submitted qualifier is stored under its own key as the same text, id or opaque value, or as a number worth the same, and nothing else is stored. |
| Domain.DecodingKeeps | internal/match/postgres_repository.go:845-848 | Decoding a stored row loses no key and no value. |
| Text.TrimSpaceIdempotent | internal/match/postgres_repository.go:864 | Trimming a reason that is already trimmed changes nothing, so the second emptiness check agrees with the first. |
| Text.TrimSpaceExactly | internal/match/postgres_repository.go:363 | Trimming removes white space from both ends, all of it and nothing else. |
| Domain.ScoreDelta | internal/match/domain.go:119-153 | A delta is -1, 0 or 1, and never 0 for a score adjustment. |
| Domain.ValidateCommand | internal/match/domain.go:155-210 | The role-collecting loop accepts exactly the commands with known roles, all required roles and valid qualifiers. |
| Domain.ValidCommandExactly | internal/match/domain.go:155-253 | Action by action, what a valid command must carry: the roles, one of five finish types if any, and for an adjustment a reason and a delta of one point; no reversal and no unknown action is ever valid. |
| Domain.ValidateSide | internal/match/domain.go:57-82 | One side's loop, with the id map carried over from the other side, accepts exactly unique shirts, valid participants and ids new to both sides. |
| Domain.ValidateRoster | internal/match/domain.go:45-84 | Accepts exactly complete rosters with unique shirts per side and no id used twice anywhere. |
| Ledger.ExtendPlain | internal/match/postgres_repository.go:739-745 | A new event row keeps ids, client ids and sequence unique and contiguous and every reversal link sound. |
| Ledger.ExtendReversal | internal/match/postgres_repository.go:877-887 | A reversal row with its link keeps the same ledger invariant. |
| Ledger.ReversedAreScoring | internal/match/domain.go:354-357 | Whatever is reversed is a scoring row of the ledger and is not itself a reversal. |
| Ledger.ScoreAtEnd | internal/projection/projector.go:93 | The point score of the whole ledger is the sum the rebuild query computes. |
| Ledger.ScoreAtStable | internal/projection/projector.go:68 | Growing the ledger never changes a past point score, even when the new row reverses an old event. |
| Ledger.Conservation | internal/match/domain.go:320-376 | Points + 2 reversals + 2 unreversed deductions + neutral rows = number of rows; so points + 2 reversals never exceed it. |
| Effects.AppendEffect | internal/match/postgres_repository.go:703-770 | A committed append was on a live match at the expected sequence, used new ids, and leaves exactly one row that keeps every submitted qualifier, its subjects, the moved score, one message and the stored answer. |
| Effects.ReverseEffect | internal/match/postgres_repository.go:826-907 | A committed reversal found an unreversed scoring event and leaves one row on its side whose qualifiers are exactly the trimmed reason and the reversed event's id, its subjects, the link, the inverse score, one message and the stored answer. |
| Effects.SubjectRowsOf | internal/match/postgres_repository.go:746-750 | The subject rows of a committed event are its subjects in order, numbered from one, behind all older rows. |
| Effects.ExecSubjects | internal/match/postgres_repository.go:746-750 | Subject rows that satisfy the table's keys and checks are all inserted, in any number, with no failure on the way. |
| Effects.DecidedListable | internal/match/postgres_repository.go:703-716 | Once the count check has passed, every subject satisfies the participant foreign key and the role check. |
| Effects.StoredListable | internal/match/postgres_repository.go:849-884 | What Reverse reads back as subjects can be inserted again without breaking a constraint. |
| Invariants.NumberingSortedIsIdentity | internal/match/postgres_repository.go:849-884 | Renumbering subjects that are sorted by role and sorting again is the identity. |
| Invariants.RolesInTextOrder | internal/match/postgres_repository.go:168 | The ranks that stand for ORDER BY role follow the order of the stored role names. |
| Invariants.SubjectsAfterInsert | internal/match/postgres_repository.go:746-750 | Inserting subjects of a new event leaves every other event's list alone. |
| Invariants.AppendKeeps | internal/match/postgres_repository.go:731-753 | Append keeps the match invariant: live row = sum over unreversed events, no negative score, sound reversals, frozen setup. |
| Invariants.ReverseKeeps | internal/match/postgres_repository.go:864-890 | Reverse keeps the match invariant although it removes a delta retroactively from the sum and adds the inverse to the live row. |
| Setup.CountMeansMembership | internal/match/postgres_repository.go:480-487 | For a duplicate-free list the row count equals its length exactly when every id is on that side's roster. |
| Setup.LineupOutcome | internal/match/postgres_repository.go:411-453 | In consistent tables: InvalidInput for malformed lists even before the status is looked at, MatchNotDraft unless a draft, and success exactly when both lists are complete, duplicate-free and within their side; any failure changes nothing. |
| Setup.LineupStored | internal/match/postgres_repository.go:433-453 | Field by field: everyone keeps id, side, shirt, name and position, the listed become STARTER and all others of the side BENCH, the answer loads exactly these rows, and nothing else changes. |
| Setup.FieldedComplete | internal/match/postgres_repository.go:538-543 | Accepted lineups give exactly players_per_side starters on each side. |
| Setup.RosterOutcome | internal/match/postgres_repository.go:353-385 | In consistent tables: MatchNotDraft unless a draft, InvalidInput unless the roster is valid, a constraint failure exactly if a text does not fit its column, and otherwise success; no insert clashes. |
| Setup.RosterAcceptedExactly | internal/match/domain.go:45-84 | Exactly the drafts are given a roster that have enough participants a side, each on its side with a shirt from 1 to 99 and texts that fit their columns, no shirt twice on a side and no id twice at all. |
| Setup.RosterStored | internal/match/postgres_repository.go:359-385 | Field by field: the answer lists each side's submitted participants and nobody else in strictly ascending shirt order, each under its own id, side and shirt with its own name and position trimmed and NOT_SELECTED; the table holds the same, and nothing else of the match changes. |
| Setup.RosterRoundTrip | internal/match/postgres_repository.go:456-478 | Loading a stored valid roster gives each side its own stored rows, each once, in strictly ascending shirt order. |
| Setup.LoadsExactly | internal/match/postgres_repository.go:456-478 | loadRoster returns on each side exactly the rows of that side, each once, in ascending shirt order. |
| Commands.StartLiveOutcome | internal/match/postgres_repository.go:611-644 | Going live fails only when the match is not READY; it stores LIVE but answers and publishes the READY snapshot. |
| Commands.ReadyExactly | internal/match/postgres_repository.go:534-543 | Exactly the drafts with players_per_side different starters on each side become READY. |
| Answers.CreateAnswers | internal/match/postgres_repository.go:30-90 | The whole command, tables included: InvalidInput for a size outside 2 to 11, a failure for a repeated id, else an empty draft of exactly that size, a record good for a day, and its message behind all others. |
| Commands.SetupOutcome | internal/match/postgres_repository.go:322-645 | From a draft of consistent tables, roster, lineups, ready, live in a row reach LIVE exactly for a valid roster that fits its columns and lineups accepted on the rows it stored. |
| Witness.LiveRun | internal/match/postgres_repository.go:30-645 | Five commands take the empty database to a live match, with exactly its creation and its status change published. |
| Tables.InstallKeeps | internal/match/postgres_repository.go:762-769 | Committing a successful command keeps every invariant of all tables together. |
| Tables.ExecuteKeeps | internal/match/postgres_repository.go:207-259 | Every command, with any answer, keeps the table invariants: stored responses are real, every event has its message, one creation message per match; and the tables only grow. |
| Repository.Transaction.Run | migrations/000001_core.up.sql:193-234 | A statement changes the transaction's own rows as specified or fails on the matching key, catalog entry, foreign key within the match, column limit or check. |
| Repository.Transaction.LoadRosterRows | internal/match/postgres_repository.go:456-478 | The splitting loop returns each side's rows of the ordered result. |
| Repository.Transaction.LoadSubjects | internal/match/postgres_repository.go:849-862 | The reading loop returns the subjects of the event ordered by role and ordinal. |
| Repository.Transaction.InsertAllSubjects | internal/match/postgres_repository.go:746-750 | The insert loop writes every subject with ordinals from one, or stops at the failure the statement list would have. |
| Repository.HasDuplicates | internal/match/postgres_repository.go:492-501 | The loop answers true exactly when two positions hold the same id. |
| Repository.UniqueParticipantIds | internal/match/postgres_repository.go:704-714 | The two loops compute the set of participants of the subjects. |
| Repository.SubjectsMisplaced | internal/match/postgres_repository.go:717-726 | The loop finds a misplaced subject exactly when one exists. |
| Postgres.PostgresRepository.Begin | internal/match/postgres_repository.go:219-234 | The key is reserved exactly when no unexpired record exists, and the transaction then sees the placeholder record. |
| Postgres.PostgresRepository.Create | internal/match/postgres_repository.go:30-90 | Tables and answer equal those of the atomic command. |
| Postgres.PostgresRepository.ReplaceRoster | internal/match/postgres_repository.go:322-386 | Tables and answer equal those of the atomic command, through the participant loop; an early return changes nothing. |
| Postgres.PostgresRepository.SetInitialLineups | internal/match/postgres_repository.go:388-454 | Tables and answer equal those of the atomic command, including the away side's failure after the home update. |
| Postgres.PostgresRepository.MarkReady | internal/match/postgres_repository.go:503-559 | Tables and answer equal those of the atomic command. |
| Postgres.PostgresRepository.StartLiveSession | internal/match/postgres_repository.go:561-645 | Tables and answer equal those of the atomic command. |
| Postgres.PostgresRepository.Append | internal/match/postgres_repository.go:647-771 | Tables and answer equal those of the atomic command, with the lock before the replay. |
| Postgres.PostgresRepository.Reverse | internal/match/postgres_repository.go:773-908 | Tables and answer equal those of the atomic command. |
| Postgres.PostgresRepository.GetSnapshot | internal/match/postgres_repository.go:92-107 | MatchNotFound exactly for unknown matches; in consistent tables the sequence is the number of events and each score the sum over that side's unreversed events. |
| Postgres.PostgresRepository.ListEvents | internal/match/postgres_repository.go:149-205 | InvalidInput exactly for a negative start, MatchNotFound exactly for unknown matches; in consistent tables one item for each later event with its id, sequence, action, side, qualifiers and all its subjects, and the newest sequence. |
| Listing.GroupRows | internal/match/postgres_repository.go:172-197 | The in-place loop computes the grouping of its rows and the last sequence. |
| Listing.GroupInvertsJoin | internal/match/postgres_repository.go:168-197 | Grouping appends, for joined events with unique ids, one item for each event in order with its id, sequence, action, side, qualifiers and all its subjects, also when it has none. |
| Listing.ListRoundTrip | internal/match/postgres_repository.go:168-197 | Listing after a sequence gives exactly the later events, each once, in order, with everything its row says and all its subjects. |
| Listing.ListPages | internal/match/postgres_repository.go:168 | The whole list is its first k items followed by the list after k, with sequences 1, 2, 3 and so on. |
| Projection.RebuildAgrees | internal/projection/projector.go:93-99 | The read of a rebuild in consistent tables never fails and gives exactly the live row's status, sequence and scores at that moment. |
| Projection.StepKeeps | internal/projection/projector.go:44-77 | Commands, deliveries, and the read and the write of a rebuild as separate steps, keep the invariant of tables, inbox, rows and pending rebuilds together. |
| Projection.PointInTime | internal/projection/projector.go:60-100 | In every run, with rebuilds that write any time after they read, a row is never ahead of its ledger and, once it has seen an event, shows the score of exactly its first last_event_sequence events. |
| Projector.SnapshotProjector.Process | internal/projection/projector.go:34-83 | A delivery fails exactly if it is a status change not yet claimed, and then changes nothing; a duplicate is acknowledged and changes nothing; any other claims its source and touches at most its own match's row; the new state is that of the specification. |
| Projector.SnapshotProjector.UpdateSnapshot | internal/projection/projector.go:68 | A row is replaced by a snapshot of a later sequence, or of the same one and a later status, and is otherwise left alone; no row appears or disappears. |
| Projection.RankIsLifecycle | internal/projection/projector.go:68 | The ranks of the guard are the positions of the statuses in the life of a match. |
| Projector.SnapshotProjector.RebuildSelect | internal/projection/projector.go:93-99 | An unknown match is MatchNotFound; in consistent tables the row read is the live row of the match. |
| Projector.SnapshotProjector.RebuildMatch | internal/projection/projector.go:85-107 | With the tables as read and as they have become by the write: every row stays good and no other row or the inbox changes, and the rebuilt row is up to date exactly when its match has meanwhile gained no event and kept its status. |
| Projector.ReadThenWrite | internal/projection/projector.go:93-106 | A row read from an earlier state of the tables is a good row in any later one, and right there exactly when its match kept its sequence and status. |
| Convergence.ShowsExactly | internal/projection/projector.go:44-106 | At every point of every run a row shows a sequence and status that the ledger has not passed exactly when some step wrote them and no later rebuild write or creation replaced them. |
| Convergence.ConvergesExactly | internal/projection/projector.go:44-106 | For every run and match, with or without events: the row equals the live snapshot if and only if a rebuild that read the live sequence and status, the first delivery of the newest event to an existing row, or the creation of a match still in DRAFT, is not followed by a rebuild write that read anything else or by a creation that is no longer current. |
| Convergence.Converges | internal/projection/projector.go:44-106 | With the creation processed first, the newest event delivered at least once, and no rebuild that read before that event writing after it was claimed, any order, duplication and other rebuilds leave the row equal to the live snapshot. |
| Convergence.ConvergesWhenRebuildsAreSerial | internal/projection/projector.go:85-106 | The same when every rebuild of the match writes before its next event commits, which an operator can arrange. |
| Convergence.AlwaysExactWhenCreatedFirst | internal/projection/projector.go:60-68 | With the creation first, every row shows the ledger's score at its own sequence, zero included. |
| Convergence.CreationExactIff | internal/projection/projector.go:60 | The first delivery of a creation leaves an exact row if and only if there was no row or it showed 0-0. |
| Anomalies.StaleRebuildSticks | internal/projection/projector.go:93-100 | A rebuild write whose read is older than the ledger leaves the row behind, for as long as the match is not rebuilt and no message about it is delivered for the first time: redelivery never repairs it. |
| Witness.LostUpdateRun | internal/projection/projector.go:93-100 | A concrete run from the empty database in which the creation is processed first, the only event is delivered and the row is right, until a pending rebuild writes and the row is wrong. |
| Anomalies.EarlyEventIsLost | internal/projection/projector.go:44-68 | An event first delivered before its match has a row stays claimed, and over every continuation the row stays below it until a rebuild that read it or the first delivery of it or a later event by another message. |
| Witness.EarlyRun | internal/projection/projector.go:44-68 | A concrete run from the empty database that ends with such an early delivery. |
| Anomalies.StatusWaitsForEvent | internal/projection/projector.go:63-70 | In every run in which no rebuild of the match writes, its row is DRAFT exactly while its sequence is zero. |
| History.LedgerCommandAddsOne | internal/match/postgres_repository.go:731-753 | A performed append or reversal found the sequence it expected and adds one row under a new client id. |
| History.OneWinner | docs/implementation-plan.md:32-33 | In any run no two appends or reversals of a match commit for the same expected sequence or the same client_event_id, whatever expired in between. |
| History.KeysSeparate | internal/match/postgres_repository.go:660 | Two requests share an idempotency key only if they carry the same text and are the same kind of command on the same match (or organization) with the same client id. |
| History.RetryReturnsFirst | internal/match/postgres_repository.go:236-252 | After a commit, any request under the same scope and key within the 86,400 seconds of its record gets the first answer or, with another hash, a conflict, and changes nothing, whatever ran in between. |
| History.RecordProvenance | internal/match/postgres_repository.go:207-259 | Every stored record is the real answer of a command that committed under that key and hash, never the placeholder, and expires a day after its reservation. |
| History.StoredResponsesDecode | internal/match/postgres_repository.go:236-282 | In every run, a stored response has the type and the match that the method replaying it decodes, for each of the seven scopes. |
| History.RosterFrozen | internal/match/postgres_repository.go:353-355 | Once a match leaves DRAFT its roster never changes again and both lineups stay complete. |
| History.StartLiveAlwaysSucceeds | internal/match/postgres_repository.go:612-621 | From READY, the lineup re-check never fails and going live succeeds. |
| History.BooksBalance | docs/implementation-plan.md:24 | In every reachable match the live row is the sum over unreversed events, no score is negative, and every sequence number is accounted for. |
| History.ReversalsAreSound | internal/match/postgres_repository.go:826-887 | Every reversal undoes an earlier scoring event of the same side, lists its subjects and stores its id beside a reason; nothing is reversed twice and no reversal is reversed. |
| Undoing.ReverseAcceptedExactly | internal/match/postgres_repository.go:773-908 | The whole command: in consistent tables and with no stored answer under its key, a reversal succeeds if and only if it is well formed (byte limits of the reason included), expects the current sequence, and its event is there, scoring, unreversed and leaves no negative score, its trimmed reason has three storable characters, and its ids are new. |
| Undoing.UndoCommitsExactly | internal/match/postgres_repository.go:826-890 | Under the lock, a reversal of the current sequence goes through if and only if its event can be taken back, whatever record it saves its answer in. |
| Undoing.ShortReasonNeverCommits | migrations/000001_core.up.sql:232 | A reason of fewer than three characters never commits, although two accented letters pass the byte check of the command. |
| Undoing.AppendThenUndo | internal/match/postgres_repository.go:864-890 | A committed scoring event can always be reversed at once, which restores both scores and leaves the sequence two higher. |
| Undoing.UndoTargetsDistinct | internal/match/postgres_repository.go:838-844 | A list of reversals that all succeed never names an event twice. |
| Undoing.UndoAllScores | internal/match/domain.go:347-376 | Any list of reversals that all succeed leaves the ledger sum with exactly the targeted deltas removed. |
| Undoing.UndoOrderIrrelevant | internal/match/domain.go:347-376 | Reversing the same events in any two orders that succeed gives the same scores and sequence. |
| Acceptance.SubjectChecks | internal/match/postgres_repository.go:703-726 | The count check and the side loop together accept exactly the subjects that are on the roster and on the right side. |
| Acceptance.AppendAcceptedExactly | internal/match/postgres_repository.go:647-771 | The whole command: in consistent tables and with no stored answer under its key, an append succeeds if and only if its match exists and is live at the expected sequence, the command is valid with qualifiers that encode and that jsonb can hold, its subjects are well placed, no score becomes negative and its ids are new. |
| Acceptance.AppendCommitsExactly | internal/match/postgres_repository.go:703-753 | The same condition decides, under the lock, whether the checks and every statement go through. |
| Answers.AppendAnswers | internal/match/postgres_repository.go:647-771 | Every answer of the whole command, in the order of the checks: the nine ways it fails with their errors, and on success the event as submitted (qualifiers and subjects included) under its new number with the score after it. |
| Answers.ReverseAnswers | internal/match/postgres_repository.go:773-908 | Every answer of the whole command, in the order of the checks: the eight ways it fails with their errors, and on success a reversal on the original's side with its subjects, the reason, the reversed id, and the score after it. |
| Acceptance.LoserConflicts | docs/implementation-plan.md:32-33 | In any run, after an append or reversal committed, a later one expecting the same or a lower sequence, with no unexpired record under its own key, fails and changes nothing; if its subjects are well placed the answer is a sequence conflict. |
| Protocol.AdvanceKeeps | internal/match/postgres_repository.go:661-770 | Every statement of every transaction keeps locks exclusive and each transaction's view equal to what the atomic command would compute. |
| Protocol.ReachedInv | internal/match/postgres_repository.go:661-770 | The invariant holds after any interleaving of statements, aborts, clock ticks, deliveries and rebuilds. |
| Interleaving.Serializable | internal/match/postgres_repository.go:661-770 | Committed tables and read model always equal running the logged commands alone in commit order; the logged commands are exactly the finished transactions, one for one, and each transaction's answer is that of its solitary run, so no commit is lost and none is invented. |
| Interleaving.RealTimeOrder | internal/match/postgres_repository.go:661-770 | The order respects real time: a transaction that had its answer before another finished or began comes before it in the log. |
| Interleaving.AbortLeavesNoTrace | internal/match/postgres_repository.go:665 | An abort at any step changes no table, log or other transaction and frees exactly its own locks. |
| Interleaving.InterleavedExactlyOnce | internal/match/postgres_repository.go:666-702 | However transactions race, one that read its clock before expiry gets the first answer under the key or a conflict and commits nothing. |
| Interleaving.InterleavedBooks | docs/implementation-plan.md:24 | The books balance in every interleaving. |
| Interleaving.MatchHolderRuns | internal/match/postgres_repository.go:675 | Whoever holds a match row is never blocked. |
| Interleaving.NoDeadlock | internal/match/postgres_repository.go:666-681 | Whenever a transaction is in flight, some transaction can take its next step. |
| Interleaving.EveryStepShortens | internal/match/postgres_repository.go:661-770 | Every statement and every abort decreases one lexicographic measure of remaining work. |
| Interleaving.AllFinish | internal/match/postgres_repository.go:661-770 | From any state satisfying the invariant some schedule finishes every transaction without aborting any. |

## Left out

- HTTP handlers, authentication, Lambda and queue adapters, identity service, configuration and infrastructure: no ledger state of their own.
- Identifiers, request hashes and keys are opaque comparable values; UUID syntax, hash computation and `Idempotency.Validate` are not modelled, and generated ids are parameters.
- Sides are a two-valued type, so the rejections of an unknown side are not representable.
- `CreateInput.Validate` keeps only the bounds on players per side; names, venue, format, teams and periods add no depth.
- JSON syntax is reduced to number literals; qualifiers hold numbers, text, ids or an opaque value, which is taken to be storable. A float64 is the decimal it prints as; rounding of longer literals is not modelled.
- Integer widths and `smallint` ranges of the columns are ignored; text limits and NUL characters are checked where a command stores free text.
- The live clock, periods, `live_sessions`, `status_version`, pitch slots and timestamps are omitted, and so are response status codes: every method saves the constant 200 or 201 that its own replay accepts.
- The action catalog is the set of actions the Go role table knows, all of which both migrations insert.
- Participant and event ids that collide across different matches: primary keys are checked within one match.
- The reason column of `event_reversals` is checked and not kept a second time; the same text is in the reversal's qualifiers.
- Outbox publication is arbitrary delivery of committed outbox rows; a row's position stands for its id.
- PAUSED, COMPLETED, FINALIZED and ABANDONED exist only in the projector's rank order, as no command reaches them.
- `GetMatch` and byte-level `DecodeEvent` are not part of this model.
- The row lock of one `FOR UPDATE OF m, l` statement is taken as two steps, first the match row, then the live row; PostgreSQL's choice of order inside one statement is not modelled.
- Domain.SqlDelta: of the texts PostgreSQL casts to an integer it reads plain decimal ones; surrounding spaces, other bases, digit separators and a JSON null are errors here, and no accepted command stores one.
- Projector.SnapshotProjector.Process: is one atomic step in the interleaved runs; its claim and its update lock the inbox row and the snapshot row until commit.
- Postgres.PostgresRepository.Append: and the other repository methods run one transaction alone; interleaving is the subject of the Protocol module, whose steps are the same statements on values.
- Undoing.UndoAllScores: chains the decision and statements of reversals without their idempotency records, which the whole-run results cover.
- Protocol.Advanced: reads the clock when a DELETE or INSERT completes, where a statement that had to wait for the key has read `clock_timestamp()` before it waited.
- Interleaving.AllFinish: gives a schedule; fairness of the database's own scheduler is not modelled.
