/** Undo: exactly when a reversal is accepted, what it restores, and why the order of reversals does not matter. */
module Undoing {
  import opened Prelude
  import opened Text
  import opened Domain
  import opened Ledger
  import opened Store
  import opened Effects
  import opened Invariants
  import opened Tables

  function ScoreOf(m: Match, side: Side): int { if side.Home? then m.home else m.away }

  datatype Undo = Undo(eventId: Id, clientId: Id, reason: string, newId: Id)

  const UNDO_RECORD: Record := Record(Hash(0), Placeholder, 0)

  /** One reversal of the current match state, as a transaction would commit it. */
  ghost function UndoOne(id: Id, m: Match, u: Undo): Result<Match, Error> {
    match DecideReverse(id, m, u.eventId, u.clientId, m.sequence, u.reason, u.newId)
    case Err(e) => Err(e)
    case Ok(plan) =>
      match ExecAll(View(m, UNDO_RECORD, []), plan)
      case Err(e) => Err(e)
      case Ok(v) => Ok(v.current)
  }

  ghost function UndoAll(id: Id, m: Match, us: seq<Undo>): Result<Match, Error>
    decreases |us|
  {
    if us == [] then Ok(m) else
      match UndoOne(id, m, us[0])
      case Err(e) => Err(e)
      case Ok(m') => UndoAll(id, m', us[1..])
  }

  function Targets(us: seq<Undo>): set<Id> { set u | u in us :: u.eventId }

  lemma UndoOneEffect(id: Id, m: Match, u: Undo, more: set<Id>, side: Side)
    requires MatchInv(m) && UndoOne(id, m, u).Ok?
    ensures var m' := UndoOne(id, m, u).value;
            && MatchInv(m') && m'.sequence == m.sequence + 1
            && Score(m'.events, m'.reversals.Values + more, side) == Score(m.events, m.reversals.Values + {u.eventId} + more, side)
  {
    var rec := UNDO_RECORD;
    hide Exec, ExecAll, DecideReverse, SubjectRows, SubjectInv, SetupInv, Numbered, SubjectsOf;
    ReverseKeeps(id, m, u.eventId, u.clientId, m.sequence, u.reason, u.newId, rec);
    var i, row, next, v := ReverseEffect(id, m, u.eventId, u.clientId, m.sequence, u.reason, u.newId, rec);
    var m' := v.current;
    NewLinkValues(m.reversals, u.newId, u.eventId, m.events);
    assert Delta(row) == 0;
    ScoreAppend(m.events, row, m'.reversals.Values + more, side);
  }

  lemma NewLinkValues(reversals: Reversals, newId: Id, target: Id, events: seq<EventRow>)
    requires ReversalStructure(events, reversals) && !HasId(events, newId)
    ensures reversals[newId := target].Values == reversals.Values + {target}
  {
    var next := reversals[newId := target];
    assert newId !in reversals;
    forall v | v in reversals.Values ensures v in next.Values {
      var k :| k in reversals && reversals[k] == v;
      assert k in next && next[k] == v;
    }
    assert newId in next;
  }

  lemma LiveIsSum(m: Match, side: Side)
    requires MatchInv(m)
    ensures ScoreOf(m, side) == Score(m.events, m.reversals.Values, side)
  {
  }

  /** No event is undone twice along the way. */
  lemma {:induction false} UndoTargetsDistinct(id: Id, m: Match, us: seq<Undo>)
    requires MatchInv(m) && UndoAll(id, m, us).Ok?
    ensures |Targets(us)| == |us| && Targets(us) !! m.reversals.Values
    decreases |us|
  {
    hide MatchInv, UndoOne;
    if us != [] {
      var m1 := UndoOne(id, m, us[0]).value;
      UndoOneLinks(id, m, us[0]);
      UndoTargetsDistinct(id, m1, us[1..]);
      assert us == [us[0]] + us[1..];
      assert Targets(us) == {us[0].eventId} + Targets(us[1..]);
    }
  }

  lemma UndoOneLinks(id: Id, m: Match, u: Undo)
    requires MatchInv(m) && UndoOne(id, m, u).Ok?
    ensures MatchInv(UndoOne(id, m, u).value) && u.eventId !in m.reversals.Values
    ensures UndoOne(id, m, u).value.reversals.Values == m.reversals.Values + {u.eventId}
  {
    var rec := UNDO_RECORD;
    hide Exec, ExecAll, DecideReverse, SubjectRows, SubjectInv, SetupInv, Numbered, SubjectsOf;
    ReverseKeeps(id, m, u.eventId, u.clientId, m.sequence, u.reason, u.newId, rec);
    var i, row, next, v := ReverseEffect(id, m, u.eventId, u.clientId, m.sequence, u.reason, u.newId, rec);
    NewLinkValues(m.reversals, u.newId, u.eventId, m.events);
  }

  /** A list of reversals that all succeed leaves the ledger score with exactly the targeted deltas removed. */
  lemma {:induction false} UndoAllScores(id: Id, m: Match, us: seq<Undo>, side: Side)
    requires MatchInv(m) && UndoAll(id, m, us).Ok?
    ensures var m' := UndoAll(id, m, us).value;
            && MatchInv(m') && m'.sequence == m.sequence + |us|
            && ScoreOf(m', side) == Score(m.events, m.reversals.Values + Targets(us), side)
    decreases |us|
  {
    hide MatchInv, UndoOne, Score;
    if us == [] {
      assert m.reversals.Values + Targets(us) == m.reversals.Values;
      LiveIsSum(m, side);
    } else {
      var m1 := UndoOne(id, m, us[0]).value;
      UndoOneEffect(id, m, us[0], Targets(us[1..]), side);
      UndoAllScores(id, m1, us[1..], side);
      assert m.reversals.Values + {us[0].eventId} + Targets(us[1..]) == m.reversals.Values + Targets(us) by {
        assert us == [us[0]] + us[1..];
      }
    }
  }

  /** Undoing the same events in any two orders that succeed gives the same scores and sequence. */
  lemma {:induction false} UndoOrderIrrelevant(id: Id, m: Match, us: seq<Undo>, ws: seq<Undo>)
    requires MatchInv(m) && UndoAll(id, m, us).Ok? && UndoAll(id, m, ws).Ok?
    requires Targets(us) == Targets(ws)
    ensures UndoAll(id, m, us).value.home == UndoAll(id, m, ws).value.home
    ensures UndoAll(id, m, us).value.away == UndoAll(id, m, ws).value.away
    ensures UndoAll(id, m, us).value.sequence == UndoAll(id, m, ws).value.sequence
  {
    UndoTargetsDistinct(id, m, us);
    UndoTargetsDistinct(id, m, ws);
    UndoAllScores(id, m, us, Home);
    UndoAllScores(id, m, us, Away);
    UndoAllScores(id, m, ws, Home);
    UndoAllScores(id, m, ws, Away);
  }

  // ---------------------------------------------------------------- exactly when a reversal is accepted

  /** The event is there, still counts, and taking it back leaves no negative score; the new row is in order. */
  ghost predicate Undoable(m: Match, u: Undo) {
    && m.status.Live? && |TrimSpace(u.reason)| >= 3 && StorableText(TrimSpace(u.reason), 500)
    && (exists i :: 0 <= i < |m.events| && Retractable(m, m.events[i], u.eventId))
    && !HasId(m.events, u.newId) && !HasClient(m.events, u.clientId)
  }

  predicate Retractable(m: Match, e: EventRow, eventId: Id) {
    e.id == eventId && eventId !in m.reversals.Values && Delta(e) != 0 && Delta(e) <= ScoreOf(m, e.side)
  }

  lemma {:induction false} FindEventUnique(events: seq<EventRow>, i: nat)
    requires UniqueIds(events) && i < |events|
    ensures FindEvent(events, events[i].id) == Some(events[i])
  {
    if i > 0 { FindEventUnique(events[1..], i - 1); }
  }

  /** The reversal is decided and every statement of it runs, under any reserved record. */
  ghost predicate UndoCommits(id: Id, m: Match, u: Undo, rec: Record) {
    var decided := DecideReverse(id, m, u.eventId, u.clientId, m.sequence, u.reason, u.newId);
    decided.Ok? && ExecAll(View(m, rec, []), decided.value).Ok?
  }

  lemma UndoRefused(id: Id, m: Match, u: Undo, rec: Record)
    requires MatchInv(m) && UndoCommits(id, m, u, rec)
    ensures Undoable(m, u)
  {
    hide Exec, ExecAll, DecideReverse, SubjectRows, SubjectInv, SetupInv, Numbered, SubjectsOf, TrimSpace;
    var i, row, next, v := ReverseEffect(id, m, u.eventId, u.clientId, m.sequence, u.reason, u.newId, rec);
    assert Retractable(m, m.events[i], u.eventId);
  }

  lemma UndoneEvent(id: Id, m: Match, row: EventRow, u: Undo) returns (event: Event, next: Snapshot)
    requires m.status.Live? && m.home >= 0 && m.away >= 0 && m.sequence >= 0 && Faithful(row)
    requires Delta(row) != 0 && Delta(row) <= ScoreOf(m, row.side)
    requires |TrimSpace(u.reason)| >= 3 && StorableText(TrimSpace(u.reason), 500)
    ensures ReverseEvent(SnapshotOf(id, m), OriginalEvent(m, row), u.clientId, TrimSpace(u.reason), u.newId)
         == Ok((event, next))
    ensures event.id == u.newId && event.sequence == m.sequence + 1
    ensures event.command.subjects == SubjectsOf(m.subjects, row.id) && EncodeQualifiers(event.command.qualifiers).Some?
    ensures StorableQualifiers(EncodeQualifiers(event.command.qualifiers).value)
    ensures next.sequence >= 0 && next.home >= 0 && next.away >= 0
  {
    TrimSpaceIdempotent(u.reason);
    hide SubjectsOf, TrimSpace, StorableNumber;
    var undone := ReverseEvent(SnapshotOf(id, m), OriginalEvent(m, row), u.clientId, TrimSpace(u.reason), u.newId);
    event := undone.value.0;
    next := undone.value.1;
  }

  /** The decision of an acceptable reversal. */
  lemma UndoDecided(id: Id, m: Match, u: Undo) returns (event: Event, next: Snapshot, q: map<string, Json>)
    requires LedgerInv(m.events, m.reversals) && Undoable(m, u) && m.home >= 0 && m.away >= 0 && m.sequence >= 0
    ensures DecideReverse(id, m, u.eventId, u.clientId, m.sequence, u.reason, u.newId)
         == Ok(ReversePlan(id, u.eventId, u.clientId, TrimSpace(u.reason), event, next, q))
    ensures event.id == u.newId && event.sequence == m.sequence + 1
    ensures event.command.subjects == SubjectsOf(m.subjects, u.eventId) && StorableQualifiers(q)
    ensures next.sequence >= 0 && next.home >= 0 && next.away >= 0
  {
    var i :| 0 <= i < |m.events| && Retractable(m, m.events[i], u.eventId);
    FindEventUnique(m.events, i);
    assert Faithful(m.events[i]);
    hide ReversePlan, SubjectsOf, TrimSpace, ReverseEvent, OriginalEvent, EncodeQualifiers, LedgerInv, Delta, Faithful, Undoable;
    event, next := UndoneEvent(id, m, m.events[i], u);
    q := EncodeQualifiers(event.command.qualifiers).value;
  }

  lemma UndoSucceeds(id: Id, m: Match, u: Undo, rec: Record)
    requires MatchInv(m) && Undoable(m, u)
    ensures UndoCommits(id, m, u, rec)
  {
    hide ReversePlan, SubjectsOf, Exec, ExecAll, TrimSpace, SpaceTrim, SubjectRows, SubjectInv, SetupInv, DecideReverse,
         Retractable, AllListable;
    var event, next, q := UndoDecided(id, m, u);
    StillCounts(m, u);
    StoredListable(m, u.eventId);
    SpaceTrimOfTrimmed(u.reason);
    ReverseRuns(View(m, rec, []), id, u.eventId, u.clientId, TrimSpace(u.reason), event, next, q);
  }

  lemma StillCounts(m: Match, u: Undo)
    requires Undoable(m, u)
    ensures u.eventId !in m.reversals.Values && HasId(m.events, u.eventId)
  {
  }

  /** Under the lock, a reversal that expects the current sequence goes through if and only if it is undoable. */
  lemma UndoCommitsExactly(id: Id, m: Match, u: Undo, rec: Record)
    requires MatchInv(m)
    ensures UndoCommits(id, m, u, rec) <==> Undoable(m, u)
  {
    hide MatchInv, UndoCommits, Undoable;
    if UndoCommits(id, m, u, rec) { UndoRefused(id, m, u, rec); }
    if Undoable(m, u) { UndoSucceeds(id, m, u, rec); }
  }

  /** Exactly the well-formed reversals of the current sequence whose event can be taken back. */
  ghost predicate Reversible(db: Db, c: Command, newId: Id)
    requires c.Reverse?
  {
    && WellFormed(c) && c.matchId in db.matches && db.matches[c.matchId].sequence == c.expected
    && Undoable(db.matches[c.matchId], Undo(c.eventId, c.clientId, c.reason, newId))
  }

  /**
   * The whole command: in consistent tables, and with no stored answer under its key, a reversal succeeds if and
   * only if it is well formed, expects the current sequence and its event can be taken back.
   */
  lemma ReverseAcceptedExactly(db: Db, r: Request, clock: Time, stamp: Time, newId: Id)
    requires DbInv(db) && r.command.Reverse? && !Unexpired(db, KeyOf(r), clock)
    ensures Execute(db, r, clock, stamp, newId).1.Ok? <==> Reversible(db, r.command, newId)
  {
    var c := r.command;
    hide MatchInv, DbInv, Execute, Attempt, Undoable, WellFormed, UndoCommits, DecideReverse, Unexpired;
    FreshSucceeds(db, r, clock, stamp, newId);
    if c.matchId in db.matches {
      var m := db.matches[c.matchId];
      InvOfMatch(db, c.matchId);
      ReverseAttempt(m, r, stamp, newId);
      UndoCommitsExactly(c.matchId, m, Undo(c.eventId, c.clientId, c.reason, newId), Reservation(r, stamp));
    } else {
      NoMatchFails(r, stamp, newId);
    }
  }

  lemma ReverseAttempt(m: Match, r: Request, stamp: Time, newId: Id)
    requires r.command.Reverse?
    ensures var c := r.command;
            Attempt(Some(m), r, stamp, newId).Ok? <==>
              m.sequence == c.expected
              && UndoCommits(c.matchId, m, Undo(c.eventId, c.clientId, c.reason, newId), Reservation(r, stamp))
  {
    var c := r.command;
    if m.sequence != c.expected { StaleReverse(m, c, newId); }
    hide DecideReverse, ExecAll;
  }

  lemma NoMatchFails(r: Request, stamp: Time, newId: Id)
    requires !r.command.Create?
    ensures Attempt(None, r, stamp, newId).Err?
  {
  }

  lemma StaleReverse(m: Match, c: Command, newId: Id)
    requires c.Reverse? && m.sequence != c.expected
    ensures DecideReverse(c.matchId, m, c.eventId, c.clientId, c.expected, c.reason, newId) == Err(SequenceConflict)
  {
  }

  lemma OneCommits(id: Id, m: Match, u: Undo)
    ensures UndoOne(id, m, u).Ok? <==> UndoCommits(id, m, u, UNDO_RECORD)
  {
    hide DecideReverse, ExecAll;
  }

  lemma UndoneScore(id: Id, m: Match, row: EventRow, applied: Match, u: Undo, side: Side)
    requires MatchInv(m) && MatchInv(applied) && !HasId(m.events, row.id)
    requires applied.events == m.events + [row] && applied.reversals == m.reversals
    requires u.eventId == row.id && UndoOne(id, applied, u).Ok?
    ensures var undone := UndoOne(id, applied, u).value;
            MatchInv(undone) && undone.sequence == applied.sequence + 1 && ScoreOf(undone, side) == ScoreOf(m, side)
  {
    hide MatchInv, UndoOne, Score;
    UndoOneEffect(id, applied, u, {}, side);
    var undone := UndoOne(id, applied, u).value;
    LiveIsSum(m, side);
    LiveIsSum(undone, side);
    assert undone.reversals.Values + {} == undone.reversals.Values;
    assert m.reversals.Values + {u.eventId} + {} == m.reversals.Values + {row.id};
    ScoreAppend(m.events, row, m.reversals.Values + {row.id}, side);
    ScoreIgnores(m.events, m.reversals.Values, row.id, side);
  }

  lemma AppendedUndoable(id: Id, m: Match, row: EventRow, subjects: seq<Subject>, next: Snapshot, u: Undo)
    requires MatchInv(m) && m.status.Live? && NewRow(m, row) && Delta(row) != 0 && next.home >= 0 && next.away >= 0
    requires next == SnapshotOf(id, m).(sequence := m.sequence + 1).Add(row.side, Delta(row))
    requires u.eventId == row.id && |TrimSpace(u.reason)| >= 3 && StorableText(TrimSpace(u.reason), 500)
    requires !HasId(m.events, u.newId) && u.newId != row.id
    requires !HasClient(m.events, u.clientId) && u.clientId != row.clientId
    ensures Undoable(EventState(m, row, subjects, m.reversals, next), u)
  {
    hide Numbered, TrimSpace, Delta, SubjectRows, SubjectInv, SetupInv, Score;
    var applied := EventState(m, row, subjects, m.reversals, next);
    assert applied.events[|m.events|] == row;
    if row.id in m.reversals.Values { ReversedAreScoring(m.events, m.reversals, row.id); }
    assert Retractable(applied, row, row.id);
  }

  /**
   * The command counts the bytes of a reason, the table its characters: a reason of two accented letters passes the
   * first check and fails the second, so such a reversal never commits.
   */
  lemma ShortReasonNeverCommits(m: Match, r: Request, stamp: Time, newId: Id)
    requires MatchInv(m) && r.command.Reverse? && |TrimSpace(r.command.reason)| < 3
    ensures Attempt(Some(m), r, stamp, newId).Err?
    ensures ByteLength(TrimSpace("\U{E9}\U{E9}")) >= 3 && |TrimSpace("\U{E9}\U{E9}")| < 3
  {
    hide Exec, ExecAll, DecideReverse, SubjectRows, SubjectInv, SetupInv, Numbered, SubjectsOf, LedgerInv;
    assert "\U{E9}\U{E9}"[..1] == "\U{E9}" && "\U{E9}"[..0] == "";
    assert TrimSpace("\U{E9}\U{E9}") == "\U{E9}\U{E9}";
    assert ByteLength("\U{E9}") == 2;
    if Attempt(Some(m), r, stamp, newId).Ok? {
      var c := r.command;
      var i, row, next, v := ReverseEffect(c.matchId, m, c.eventId, c.clientId, c.expected, c.reason, newId, Reservation(r, stamp));
    }
  }

  /**
   * Append, then reverse at once: a committed scoring event can always be taken back, under any new ids, which
   * restores both scores and leaves the sequence two higher.
   */
  lemma {:induction false} AppendThenUndo(id: Id, m: Match, c: AppendCommand, newId: Id, rec: Record, u: Undo)
    requires MatchInv(m)
    requires DecideAppend(id, m, c, newId).Ok?
    requires ExecAll(View(m, rec, []), DecideAppend(id, m, c, newId).value).Ok?
    requires DeltaOrZero(c.action, c.qualifiers) != 0
    requires u.eventId == newId && |TrimSpace(u.reason)| >= 3 && StorableText(TrimSpace(u.reason), 500)
    requires !HasId(m.events, u.newId) && u.newId != newId
    requires !HasClient(m.events, u.clientId) && u.clientId != c.clientId
    ensures var applied := ExecAll(View(m, rec, []), DecideAppend(id, m, c, newId).value).value.current;
            var undone := UndoOne(id, applied, u);
            && undone.Ok? && MatchInv(undone.value)
            && undone.value.home == m.home && undone.value.away == m.away && undone.value.sequence == m.sequence + 2
  {
    AppendKeeps(id, m, c, newId, rec);
    var row, next, v := AppendEffect(id, m, c, newId, rec);
    hide Exec, ExecAll, MatchInv, Numbered, TrimSpace, UndoOne, DecideAppend, Undoable, Delta;
    var applied := v.current;
    AppendedUndoable(id, m, row, c.subjects, next, u);
    UndoSucceeds(id, applied, u, UNDO_RECORD);
    assert UndoOne(id, applied, u).Ok? by { OneCommits(id, applied, u); }
    UndoneScore(id, m, row, applied, u, Home);
    UndoneScore(id, m, row, applied, u, Away);
  }
}
