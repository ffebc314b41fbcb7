/** Every answer of an append and of a reversal, in terms a caller can check, and what success answers. */
module Answers {
  import opened Prelude
  import opened Text
  import opened Domain
  import opened Ledger
  import opened Store
  import opened Effects
  import opened Invariants
  import opened Commands
  import opened Tables
  import opened Undoing
  import opened Acceptance

  // ---------------------------------------------------------------- every answer

  /** No stored answer stands under the key: none is there, or it has expired by the time of the first statement. */
  predicate Fresh(db: Db, r: Request, clock: Time) {
    KeyOf(r) !in db.records || db.records[KeyOf(r)].expires <= clock
  }

  ghost predicate AllPlaced(m: Match, c: AppendCommand) {
    forall i :: 0 <= i < |c.subjects| ==> OnRightSide(m.participants, c.side, c.subjects[i])
  }

  lemma DecisionAnswer(id: Id, m: Match, c: AppendCommand, newId: Id)
    requires UniqueParticipants(m.participants) && m.home >= 0 && m.away >= 0 && ValidCommand(c)
    ensures var decided := DecideAppend(id, m, c, newId);
            if !AllPlaced(m, c) then decided == Err(InvalidInput)
            else if m.status != Live then decided == Err(MatchNotLive)
            else if m.sequence != c.expected then decided == Err(SequenceConflict)
            else if ScoreOf(m, c.side) + DeltaOrZero(c.action, c.qualifiers) < 0 then decided == Err(ScoreUnderflow)
            else if EncodeQualifiers(c.qualifiers).None? then decided == Err(EncodingFailed)
            else decided.Ok?
  {
    hide AppendPlan, WrongSide, UniqueParticipants, ValidCommand, EncodeQualifiers, OnRightSide;
    SubjectChecks(m, c);
  }

  lemma StoringAnswer(id: Id, m: Match, c: AppendCommand, newId: Id, rec: Record)
    requires LedgerInv(m.events, m.reversals) && m.sequence == |m.events| && m.home >= 0 && m.away >= 0 && SubjectRows(m)
    requires DecideAppend(id, m, c, newId).Ok?
    ensures var run := ExecAll(View(m, rec, []), DecideAppend(id, m, c, newId).value);
            if !StorableQualifiers(EncodeQualifiers(c.qualifiers).value) || HasId(m.events, newId)
            then run == Err(ConstraintViolation)
            else if HasClient(m.events, c.clientId) then run == Err(EventAlreadyExists)
            else run.Ok?
  {
    hide Exec, ExecAll, AppendPlan, WrongSide, ValidCommand, EncodeQualifiers, SubjectRows, AllListable, StorableQualifiers;
    DecidedListable(id, m, c, newId);
    if c.action.UnsupportedAction? || c.action.EventReversal? { NeverValid(c); }
    var applied := ApplyEvent(SnapshotOf(id, m), c, newId).value;
    AppendRuns(View(m, rec, []), id, c, applied.0, applied.1, EncodeQualifiers(c.qualifiers).value);
  }

  /** What an accepted append answers: the event as submitted under its new number, and the score it makes. */
  ghost predicate Recorded(m: Match, id: Id, c: AppendCommand, newId: Id, response: Response) {
    && response.EventResponse?
    && response.event.id == newId && response.event.sequence == c.expected + 1
    && response.event.action == c.action && response.event.side == c.side && response.event.subjects == c.subjects
    && KeepsQualifiers(c.qualifiers, response.event.qualifiers)
    && (var d := DeltaOrZero(c.action, c.qualifiers);
        response.snapshot == Snapshot(id, Live, c.expected + 1, m.home + (if c.side == Home then d else 0),
                                      m.away + (if c.side == Away then d else 0)))
  }

  /** The answer a transaction gives when it ends: the response it saved, or its error. */
  function AnswerOf(run: Result<View, Error>): Result<Response, Error> {
    match run case Err(e) => Err(e) case Ok(v) => Ok(v.record.response)
  }

  /** A valid append to match m: each way it can fail, in the order the checks are made, and what success answers. */
  ghost predicate AppendVerdict(m: Match, id: Id, c: AppendCommand, newId: Id, answer: Result<Response, Error>) {
    if !AllPlaced(m, c) then answer == Err(InvalidInput)
    else if m.status != Live then answer == Err(MatchNotLive)
    else if m.sequence != c.expected then answer == Err(SequenceConflict)
    else if ScoreOf(m, c.side) + DeltaOrZero(c.action, c.qualifiers) < 0 then answer == Err(ScoreUnderflow)
    else if EncodeQualifiers(c.qualifiers).None? then answer == Err(EncodingFailed)
    else if !StorableQualifiers(EncodeQualifiers(c.qualifiers).value) || HasId(m.events, newId)
    then answer == Err(ConstraintViolation)
    else if HasClient(m.events, c.clientId) then answer == Err(EventAlreadyExists)
    else answer.Ok? && Recorded(m, id, c, newId, answer.value)
  }

  lemma {:induction false} LockedAppendAnswer(m: Match, r: Request, stamp: Time, newId: Id)
    requires MatchInv(m) && r.command.Append? && ValidCommand(r.command.event)
    ensures AppendVerdict(m, r.command.matchId, r.command.event, newId, AnswerOf(Attempt(Some(m), r, stamp, newId)))
  {
    var id, c, rec := r.command.matchId, r.command.event, Reservation(r, stamp);
    DecisionAnswer(id, m, c, newId) by { assert UniqueParticipants(m.participants); }
    hide DecideAppend, ExecAll, MatchInv, StorableQualifiers, ValidCommand, EncodeQualifiers, AllPlaced, HasId, HasClient,
         Recorded, DeltaOrZero, ScoreOf;
    if DecideAppend(id, m, c, newId).Ok? {
      StoringAnswer(id, m, c, newId, rec) by { LedgerSide(m); }
      if ExecAll(View(m, rec, []), DecideAppend(id, m, c, newId).value).Ok? { RecordedAnswer(m, r, stamp, newId); }
    }
  }

  lemma LedgerSide(m: Match)
    requires MatchInv(m)
    ensures LedgerInv(m.events, m.reversals) && m.sequence == |m.events| && m.home >= 0 && m.away >= 0 && SubjectRows(m)
  {
  }

  lemma RecordedAnswer(m: Match, r: Request, stamp: Time, newId: Id)
    requires MatchInv(m) && r.command.Append? && DecideAppend(r.command.matchId, m, r.command.event, newId).Ok?
    requires ExecAll(View(m, Reservation(r, stamp), []), DecideAppend(r.command.matchId, m, r.command.event, newId).value).Ok?
    ensures var run := ExecAll(View(m, Reservation(r, stamp), []), DecideAppend(r.command.matchId, m, r.command.event, newId).value);
            Recorded(m, r.command.matchId, r.command.event, newId, run.value.record.response)
  {
    LedgerSide(m);
    hide DecideAppend, ExecAll, Exec, MatchInv, LedgerInv, SubjectRows, KeepsQualifiers, Faithful, NewRow, AllListable,
         ValidCommand, Numbered, Delta, DeltaOrZero, Recorded;
    var row, next, v := AppendEffect(r.command.matchId, m, r.command.event, newId, Reservation(r, stamp));
    RecordedBy(m, r.command.matchId, r.command.event, row, next);
  }

  lemma RecordedBy(m: Match, id: Id, c: AppendCommand, row: EventRow, next: Snapshot)
    requires m.status == Live && m.sequence == c.expected && row.sequence == m.sequence + 1 && row.side == c.side
    requires KeepsQualifiers(c.qualifiers, row.qualifiers) && Delta(row) == DeltaOrZero(c.action, c.qualifiers)
    requires next == SnapshotOf(id, m).(sequence := m.sequence + 1).Add(row.side, Delta(row))
    ensures var view := EventView(row.id, row.sequence, c.action, c.side, c.subjects, row.qualifiers);
            Recorded(m, id, c, row.id, EventResponse(view, next))
  {
    hide KeepsQualifiers, Delta, DeltaOrZero;
  }

  /**
   * Every answer of Append: in consistent tables, and with no stored answer under the key, the whole command fails
   * in exactly these ways, and otherwise answers the recorded event with the score after it.
   */
  lemma AppendAnswers(db: Db, r: Request, clock: Time, stamp: Time, newId: Id)
    requires DbInv(db) && r.command.Append? && Fresh(db, r, clock)
    ensures var id, c := r.command.matchId, r.command.event;
            var answer := Execute(db, r, clock, stamp, newId).1;
            if !ValidCommand(c) then answer == Err(InvalidInput)
            else if id !in db.matches then answer == Err(MatchNotFound)
            else AppendVerdict(db.matches[id], id, c, newId, answer)
  {
    hide Attempt, ValidCommand, AppendVerdict, DbInv, MatchInv, Execute;
    FreshAnswer(db, r, clock, stamp, newId);
    NoMatchAnswer(r, stamp, newId);
    if ValidCommand(r.command.event) && r.command.matchId in db.matches {
      InvOfMatch(db, r.command.matchId);
      LockedAppendAnswer(db.matches[r.command.matchId], r, stamp, newId);
    }
  }

  lemma FreshAnswer(db: Db, r: Request, clock: Time, stamp: Time, newId: Id)
    requires Fresh(db, r, clock)
    ensures Execute(db, r, clock, stamp, newId).1 ==
              if !WellFormed(r.command) then Err(InvalidInput)
              else AnswerOf(Attempt(Lookup(db, TargetOf(r.command, newId)), r, stamp, newId))
  {
    hide Attempt, WellFormed;
  }

  lemma NoMatchAnswer(r: Request, stamp: Time, newId: Id)
    requires !r.command.Create? && !r.command.SetLineups?
    ensures Attempt(None, r, stamp, newId) == Err(MatchNotFound)
  {
  }

  /**
   * Every outcome of Create, tables included: a wrong size, a repeated id, or an empty draft of exactly the size
   * asked for, its record good for a day, and its message behind all others.
   */
  lemma CreateAnswers(db: Db, r: Request, clock: Time, stamp: Time, newId: Id)
    requires r.command.Create? && Fresh(db, r, clock)
    ensures var o, n := r.command.organization, r.command.playersPerSide;
            var response := MatchResponse(newId, Some(o), Draft, 0);
            Execute(db, r, clock, stamp, newId) ==
              if n < 2 || n > 11 then (db, Err(InvalidInput))
              else if newId in db.matches then (db, Err(ConstraintViolation))
              else (Db(db.matches[newId := Match(o, n, Draft, [], 0, 0, 0, [], [], map[])],
                       db.records[KeyOf(r) := Record(r.hash, response, stamp + 86_400)],
                       db.outbox + [Created(newId, o, Draft, 0)]),
                    Ok(response))
  {
    if newId in db.matches { RepeatedMatch(db.matches[newId], r, stamp, newId); }
    hide Attempt;
    CreateOutcome(r, stamp, newId);
  }

  lemma RepeatedMatch(m: Match, r: Request, stamp: Time, newId: Id)
    requires r.command.Create?
    ensures Attempt(Some(m), r, stamp, newId) == Err(ConstraintViolation)
  {
  }

  /** What an accepted reversal answers: the original's side and subjects, why and what it takes back, and the score. */
  ghost predicate TakenBack(m: Match, c: Command, e: EventRow, newId: Id, response: Response)
    requires c.Reverse?
  {
    && response.EventResponse?
    && response.event.id == newId && response.event.sequence == c.expected + 1
    && response.event.action == EventReversal && response.event.side == e.side
    && response.event.subjects == SubjectsOf(m.subjects, e.id)
    && NotesOf(response.event.qualifiers, e.id, TrimSpace(c.reason))
    && response.snapshot == Snapshot(c.matchId, Live, c.expected + 1, m.home - (if e.side == Home then Delta(e) else 0),
                                     m.away - (if e.side == Away then Delta(e) else 0))
  }

  /** A reversal of the found event e under the lock, in the order the checks are made. */
  ghost predicate ReversalVerdict(m: Match, c: Command, e: EventRow, newId: Id, answer: Result<Response, Error>)
    requires c.Reverse?
  {
    if e.id in m.reversals.Values then answer == Err(EventAlreadyReversed)
    else if Delta(e) == 0 then answer == Err(EventNotReversible)
    else if Delta(e) > ScoreOf(m, e.side) then answer == Err(ReversalUnderflow)
    else if |TrimSpace(c.reason)| < 3 || !StorableText(TrimSpace(c.reason), 500)
            || HasId(m.events, newId) || HasClient(m.events, c.clientId)
    then answer == Err(ConstraintViolation)
    else answer.Ok? && TakenBack(m, c, e, newId, answer.value)
  }

  lemma {:induction false} LockedReverseAnswer(m: Match, r: Request, stamp: Time, newId: Id, i: nat)
    requires MatchInv(m) && r.command.Reverse? && TrimSpace(r.command.reason) != [] && m.sequence == r.command.expected
    requires i < |m.events| && m.events[i].id == r.command.eventId
    ensures ReversalVerdict(m, r.command, m.events[i], newId, AnswerOf(Attempt(Some(m), r, stamp, newId)))
  {
    var c, e := r.command, m.events[i];
    LiveLedger(m);
    FoundDecision(c.matchId, m, c, newId, i);
    hide MatchInv, DecideReverse, ExecAll, Exec, StorableText, HasId, HasClient, TrimSpace, NotesOf, SubjectsOf, ReversePlan;
    var decided := DecideReverse(c.matchId, m, c.eventId, c.clientId, c.expected, c.reason, newId);
    if decided.Ok? { FoundStored(c.matchId, m, c, newId, i, Reservation(r, stamp)); }
  }

  lemma LiveLedger(m: Match)
    requires MatchInv(m) && m.events != []
    ensures m.status == Live
  {
  }

  lemma FoundDecision(id: Id, m: Match, c: Command, newId: Id, i: nat)
    requires MatchInv(m) && m.status == Live && c.Reverse? && TrimSpace(c.reason) != [] && m.sequence == c.expected
    requires i < |m.events| && m.events[i].id == c.eventId
    ensures var e := m.events[i];
            var decided := DecideReverse(id, m, c.eventId, c.clientId, c.expected, c.reason, newId);
            if e.id in m.reversals.Values then decided == Err(EventAlreadyReversed)
            else if Delta(e) == 0 then decided == Err(EventNotReversible)
            else if Delta(e) > ScoreOf(m, e.side) then decided == Err(ReversalUnderflow)
            else decided.Ok?
  {
    FindEventUnique(m.events, i);
    TrimSpaceIdempotent(c.reason);
    assert Faithful(m.events[i]);
    hide SubjectsOf, ReversePlan, TrimSpace, SubjectRows, SubjectInv, NotesInv, SetupInv, Score;
    var undone := ReverseEvent(SnapshotOf(id, m), OriginalEvent(m, m.events[i]), c.clientId, TrimSpace(c.reason), newId);
    if undone.Ok? { NotesEncode(undone.value.0.command.qualifiers, c.eventId, TrimSpace(c.reason)); }
  }

  lemma FoundStored(id: Id, m: Match, c: Command, newId: Id, i: nat, rec: Record)
    requires MatchInv(m) && c.Reverse? && id == c.matchId && i < |m.events| && m.events[i].id == c.eventId
    requires DecideReverse(id, m, c.eventId, c.clientId, c.expected, c.reason, newId).Ok?
    ensures var run := ExecAll(View(m, rec, []), DecideReverse(id, m, c.eventId, c.clientId, c.expected, c.reason, newId).value);
            if |TrimSpace(c.reason)| < 3 || !StorableText(TrimSpace(c.reason), 500)
               || HasId(m.events, newId) || HasClient(m.events, c.clientId)
            then run == Err(ConstraintViolation)
            else run.Ok? && TakenBack(m, c, m.events[i], newId, run.value.record.response)
  {
    hide DecideReverse, ExecAll, Exec, SubjectsOf, ReversePlan, TrimSpace, SpaceTrim, SubjectRows, AllListable, SubjectInv,
         NotesInv, SetupInv, Numbered, Score, NotesOf, UniqueClients, ReversalStructure;
    var k, event, next, q := ReverseDecided(id, m, c.eventId, c.clientId, c.expected, c.reason, newId);
    assert k == i;
    StoredListable(m, c.eventId);
    SpaceTrimOfTrimmed(c.reason);
    NotesStorable(q, c.eventId, TrimSpace(c.reason));
    if newId in m.reversals {
      RepeatedId(m, newId);
      RepeatedFails(View(m, rec, []), id, c.eventId, c.clientId, TrimSpace(c.reason), event, next, q);
    } else {
      ReverseRuns(View(m, rec, []), id, c.eventId, c.clientId, TrimSpace(c.reason), event, next, q);
    }
  }

  lemma NotesStorable(q: map<string, Json>, eventId: Id, reason: string)
    requires NotesOf(q, eventId, reason)
    ensures StorableQualifiers(q) <==> '\0' !in reason
  {
    assert "reason" in q && "reverses_event_id" in q;
    assert '\0' !in "reason" && '\0' !in "reverses_event_id";
  }

  lemma RepeatedId(m: Match, newId: Id)
    requires LedgerInv(m.events, m.reversals) && newId in m.reversals
    ensures HasId(m.events, newId)
  {
  }

  lemma RepeatedFails(v: View, id: Id, eventId: Id, clientId: Id, reason: string, event: Event, next: Snapshot,
                      q: map<string, Json>)
    requires HasId(v.current.events, event.id)
    ensures ExecAll(v, ReversePlan(id, eventId, clientId, reason, event, next, q)) == Err(ConstraintViolation)
  {
    hide Exec, ExecAll;
    var plan := ReversePlan(id, eventId, clientId, reason, event, next, q);
    assert plan == [plan[0]] + plan[1..];
    ExecConcat(v, [plan[0]], plan[1..]);
    ExecInsertEvent(v, plan[0].row);
  }

  /**
   * Every answer of Reverse: in consistent tables, and with no stored answer under the key, the whole command fails
   * in exactly these ways, and otherwise answers the reversal with the score after it.
   */
  lemma ReverseAnswers(db: Db, r: Request, clock: Time, stamp: Time, newId: Id)
    requires DbInv(db) && r.command.Reverse? && Fresh(db, r, clock)
    ensures var c := r.command;
            var answer := Execute(db, r, clock, stamp, newId).1;
            if c.expected < 0 || ByteLength(TrimSpace(c.reason)) < 3 || ByteLength(c.reason) > 500
            then answer == Err(InvalidInput)
            else if c.matchId !in db.matches then answer == Err(MatchNotFound)
            else
              var m := db.matches[c.matchId];
              if m.sequence != c.expected then answer == Err(SequenceConflict)
              else if !HasId(m.events, c.eventId) then answer == Err(EventNotFound)
              else
                forall i :: 0 <= i < |m.events| && m.events[i].id == c.eventId ==>
                  ReversalVerdict(m, c, m.events[i], newId, answer)
  {
    var c := r.command;
    assert TrimSpace(c.reason) == [] ==> ByteLength(TrimSpace(c.reason)) == 0;
    hide Attempt, ReversalVerdict, HasId, DbInv, MatchInv, TrimSpace, ByteLength, Execute;
    FreshAnswer(db, r, clock, stamp, newId);
    NoMatchAnswer(r, stamp, newId);
    if WellFormed(c) && c.matchId in db.matches {
      var m := db.matches[c.matchId];
      InvOfMatch(db, c.matchId);
      if m.sequence != c.expected {
        StaleAnswer(m, r, stamp, newId);
      } else if !HasId(m.events, c.eventId) {
        MissingAnswer(m, r, stamp, newId);
      } else {
        forall i | 0 <= i < |m.events| && m.events[i].id == c.eventId
          ensures ReversalVerdict(m, c, m.events[i], newId, AnswerOf(Attempt(Some(m), r, stamp, newId)))
        {
          LockedReverseAnswer(m, r, stamp, newId, i);
        }
      }
    }
  }

  lemma StaleAnswer(m: Match, r: Request, stamp: Time, newId: Id)
    requires r.command.Reverse? && m.sequence != r.command.expected
    ensures Attempt(Some(m), r, stamp, newId) == Err(SequenceConflict)
  {
    StaleReverse(m, r.command, newId);
    hide DecideReverse;
  }

  lemma MissingAnswer(m: Match, r: Request, stamp: Time, newId: Id)
    requires r.command.Reverse? && m.sequence == r.command.expected && !HasId(m.events, r.command.eventId)
    ensures Attempt(Some(m), r, stamp, newId) == Err(EventNotFound)
  {
    if FindEvent(m.events, r.command.eventId).Some? { var i := FindEventAt(m.events, r.command.eventId); }
  }
}
