/** Exactly when an append commits, in terms a caller can check against the roster and the score. */
module Acceptance {
  import opened Prelude
  import opened Domain
  import opened Ledger
  import opened Store
  import opened Effects
  import opened Invariants
  import opened Tables
  import opened Undoing
  import opened Projection
  import opened Convergence
  import opened History

  /** A subject of the roster, from the event's own side unless it is the opponent. */
  ghost predicate OnRightSide(ps: seq<Participant>, side: Side, s: Subject) {
    exists k :: 0 <= k < |ps| && ps[k].id == s.participant && (ps[k].side == side <==> !s.role.Opponent?)
  }

  /** What the checks under the lock demand of the match and the command. */
  ghost predicate Admissible(m: Match, c: AppendCommand) {
    && m.status.Live? && m.sequence == c.expected && ValidCommand(c) && EncodeQualifiers(c.qualifiers).Some?
    && (forall i :: 0 <= i < |c.subjects| ==> OnRightSide(m.participants, c.side, c.subjects[i]))
    && ScoreOf(m, c.side) + DeltaOrZero(c.action, c.qualifiers) >= 0
  }

  /** ... and what the columns and unique constraints demand of the new row. */
  ghost predicate Recordable(m: Match, c: AppendCommand, newId: Id) {
    && Admissible(m, c) && StorableQualifiers(EncodeQualifiers(c.qualifiers).value)
    && !HasId(m.events, newId) && !HasClient(m.events, c.clientId)
  }

  lemma {:induction false} SideOfUnique(ps: seq<Participant>, id: Id)
    requires UniqueParticipants(ps)
    ensures SideOf(ps, id).None? ==> forall k :: 0 <= k < |ps| ==> ps[k].id != id
    ensures SideOf(ps, id).Some? ==>
              && (exists k :: 0 <= k < |ps| && ps[k].id == id)
              && forall k :: 0 <= k < |ps| && ps[k].id == id ==> ps[k].side == SideOf(ps, id).value
  {
    if ps != [] {
      var rest := ps[1..];
      SideOfUnique(rest, id);
      if ps[0].id != id && SideOf(rest, id).Some? {
        var k :| 0 <= k < |rest| && rest[k].id == id;
        assert ps[k + 1].id == id;
      }
    }
  }

  lemma WrongSideExactly(ps: seq<Participant>, side: Side, s: Subject)
    requires UniqueParticipants(ps)
    ensures WrongSide(ps, side, s) <==> !OnRightSide(ps, side, s)
  {
    hide UniqueParticipants;
    SideOfUnique(ps, s.participant);
  }

  /** Both roster checks of Append together: every subject is of this match and on the right side. */
  lemma SubjectChecks(m: Match, c: AppendCommand)
    requires UniqueParticipants(m.participants)
    ensures var ids := SubjectIds(c.subjects);
            (|RosterIds(m.participants) * ids| == |ids|
             && !exists i :: 0 <= i < |c.subjects| && WrongSide(m.participants, c.side, c.subjects[i]))
            <==> forall i :: 0 <= i < |c.subjects| ==> OnRightSide(m.participants, c.side, c.subjects[i])
  {
    hide UniqueParticipants, WrongSide;
    CountMeansListed(RosterIds(m.participants), SubjectIds(c.subjects));
    forall i | 0 <= i < |c.subjects|
      ensures WrongSide(m.participants, c.side, c.subjects[i]) <==> !OnRightSide(m.participants, c.side, c.subjects[i])
    {
      WrongSideExactly(m.participants, c.side, c.subjects[i]);
    }
    if forall i :: 0 <= i < |c.subjects| ==> OnRightSide(m.participants, c.side, c.subjects[i]) {
      forall id | id in SubjectIds(c.subjects) ensures id in RosterIds(m.participants) {
        var s :| s in c.subjects && s.participant == id;
        var i :| 0 <= i < |c.subjects| && c.subjects[i] == s;
        var k :| 0 <= k < |m.participants| && m.participants[k].id == s.participant;
        assert m.participants[k] in m.participants;
      }
    }
  }

  ghost predicate AppendCommits(id: Id, m: Match, c: AppendCommand, newId: Id, rec: Record) {
    DecideAppend(id, m, c, newId).Ok? && ExecAll(View(m, rec, []), DecideAppend(id, m, c, newId).value).Ok?
  }

  lemma DecidedExactly(id: Id, m: Match, c: AppendCommand, newId: Id)
    requires UniqueParticipants(m.participants) && m.home >= 0 && m.away >= 0
    ensures DecideAppend(id, m, c, newId).Ok? <==> Admissible(m, c)
  {
    hide AppendPlan, WrongSide, UniqueParticipants, ValidCommand, EncodeQualifiers, OnRightSide;
    SubjectChecks(m, c);
  }

  /** Nobody can submit a reversal as an event, or an action the catalog does not hold. */
  lemma NeverValid(c: AppendCommand)
    requires c.action.UnsupportedAction? || c.action.EventReversal?
    ensures !ValidCommand(c)
  {
  }

  lemma StoredExactly(id: Id, m: Match, c: AppendCommand, newId: Id, rec: Record)
    requires LedgerInv(m.events, m.reversals) && m.sequence == |m.events| && m.home >= 0 && m.away >= 0 && SubjectRows(m)
    requires DecideAppend(id, m, c, newId).Ok?
    ensures AppendCommits(id, m, c, newId, rec) <==>
              && StorableQualifiers(EncodeQualifiers(c.qualifiers).value)
              && !HasId(m.events, newId) && !HasClient(m.events, c.clientId)
  {
    hide Exec, ExecAll, AppendPlan, WrongSide, ValidCommand, EncodeQualifiers, SubjectRows, AllListable;
    DecidedListable(id, m, c, newId);
    if c.action.UnsupportedAction? { NeverValid(c); }
    var applied := ApplyEvent(SnapshotOf(id, m), c, newId).value;
    AppendRuns(View(m, rec, []), id, c, applied.0, applied.1, EncodeQualifiers(c.qualifiers).value);
  }

  /** Under the lock, an append goes through if and only if it is recordable. */
  lemma {:induction false} AppendCommitsExactly(id: Id, m: Match, c: AppendCommand, newId: Id, rec: Record)
    requires MatchInv(m)
    ensures AppendCommits(id, m, c, newId, rec) <==> Recordable(m, c, newId)
  {
    hide DecideAppend, ExecAll, UniqueParticipants, SubjectRows, SubjectInv, LedgerInv, Admissible, HasId, HasClient;
    DecidedExactly(id, m, c, newId);
    if DecideAppend(id, m, c, newId).Ok? { StoredExactly(id, m, c, newId, rec); }
  }

  /**
   * The whole command: in consistent tables, and with no stored answer under its key, an append succeeds if and
   * only if its match exists and the event is recordable there.
   */
  lemma AppendAcceptedExactly(db: Db, r: Request, clock: Time, stamp: Time, newId: Id)
    requires DbInv(db) && r.command.Append? && !Unexpired(db, KeyOf(r), clock)
    ensures var c := r.command;
            Execute(db, r, clock, stamp, newId).1.Ok? <==>
              c.matchId in db.matches && Recordable(db.matches[c.matchId], c.event, newId)
  {
    var c := r.command;
    hide MatchInv, DbInv, Execute, Attempt, Admissible, AppendCommits, Unexpired, StorableQualifiers, ValidCommand;
    FreshSucceeds(db, r, clock, stamp, newId);
    if c.matchId in db.matches {
      InvOfMatch(db, c.matchId);
      AppendAttempt(db.matches[c.matchId], r, stamp, newId);
      AppendCommitsExactly(c.matchId, db.matches[c.matchId], c.event, newId, Reservation(r, stamp));
      if Recordable(db.matches[c.matchId], c.event, newId) { RecordableIsValid(db.matches[c.matchId], c.event, newId); }
    } else {
      NoMatchFails(r, stamp, newId);
    }
  }

  lemma AppendAttempt(m: Match, r: Request, stamp: Time, newId: Id)
    requires r.command.Append?
    ensures Attempt(Some(m), r, stamp, newId).Ok? <==>
              AppendCommits(r.command.matchId, m, r.command.event, newId, Reservation(r, stamp))
  {
    hide DecideAppend, ExecAll;
  }

  lemma RecordableIsValid(m: Match, c: AppendCommand, newId: Id)
    requires Recordable(m, c, newId)
    ensures ValidCommand(c)
  {
    hide ValidCommand, EncodeQualifiers, OnRightSide, StorableQualifiers;
  }

  // ---------------------------------------------------------------- losing a race

  /** The roster checks come before the sequence check, so a conflict is only reported for well-placed subjects. */
  ghost predicate WellPlaced(m: Match, c: Command) {
    c.Append? ==> forall i :: 0 <= i < |c.event.subjects| ==> OnRightSide(m.participants, c.event.side, c.event.subjects[i])
  }

  lemma StaleConflicts(m: Match, r: Request, stamp: Time, newId: Id)
    requires MatchInv(m) && m.events != [] && WellFormed(r.command) && IsLedgerCommand(r.command)
    requires ExpectedOf(r.command) < |m.events|
    ensures Attempt(Some(m), r, stamp, newId).Err?
    ensures WellPlaced(m, r.command) ==> Attempt(Some(m), r, stamp, newId) == Err(SequenceConflict)
  {
    hide ExecAll, DecideAppend, DecideReverse, MatchInv, ValidCommand, OnRightSide;
    var c := r.command;
    if c.Append? {
      StaleAppend(m, c.matchId, c.event, newId);
    } else {
      SequenceCountsEvents(m);
      StaleReverse(m, c, newId);
    }
  }

  lemma StaleAppend(m: Match, id: Id, c: AppendCommand, newId: Id)
    requires MatchInv(m) && m.events != [] && c.expected < |m.events|
    ensures DecideAppend(id, m, c, newId).Err?
    ensures ValidCommand(c) && (forall i :: 0 <= i < |c.subjects| ==> OnRightSide(m.participants, c.side, c.subjects[i])) ==>
              DecideAppend(id, m, c, newId) == Err(SequenceConflict)
  {
    hide UniqueParticipants, OnRightSide, WrongSide, ValidCommand, EncodeQualifiers, SubjectRows, SubjectInv, LedgerInv, Score;
    SubjectChecks(m, c);
  }

  /**
   * A lost race: in any run, once an append or reversal has committed at a sequence, every later one of the same
   * match that expects that sequence or less, and finds no stored answer under its key, fails and changes nothing;
   * with well-placed subjects the answer is a sequence conflict.
   */
  lemma LoserConflicts(atoms: seq<Atom>, i: nat, j: nat)
    requires i < j < |atoms| && ValidRun(START, atoms)
    requires Performs(At(atoms, i), atoms[i]) && IsLedgerCommand(atoms[i].request.command)
    requires atoms[j].Run? && WellFormed(atoms[j].request.command) && IsLedgerCommand(atoms[j].request.command)
    requires atoms[j].request.command.matchId == atoms[i].request.command.matchId
    requires ExpectedOf(atoms[j].request.command) <= ExpectedOf(atoms[i].request.command)
    requires !Unexpired(At(atoms, j).db, KeyOf(atoms[j].request), atoms[j].clock)
    ensures var id := atoms[j].request.command.matchId;
            && atoms[j].answer.Err? && At(atoms, j + 1) == At(atoms, j) && id in At(atoms, j).db.matches
            && (WellPlaced(At(atoms, j).db.matches[id], atoms[j].request.command) ==>
                  atoms[j].answer == Err(SequenceConflict))
  {
    assert atoms[i].Run?;
    var id := atoms[i].request.command.matchId;
    hide SystemInv, Performs, At, ValidRun, WellPlaced, WellFormed, MatchInv, Attempt, Next;
    RunKeeps(atoms, i);
    RunKeeps(atoms, j);
    LedgerCommandAddsOne(At(atoms, i), atoms[i]);
    AtStep(atoms, i);
    EventCountGrows(atoms, i + 1, j, id);
    PossibleAt(atoms, j);
    AtStep(atoms, j);
    var s, a := At(atoms, j), atoms[j];
    TablesHold(s);
    InvOfMatch(s.db, id);
    StaleConflicts(s.db.matches[id], a.request, a.stamp, a.newId);
    RefusedStep(s, a);
  }

  lemma RefusedStep(s: System, a: Atom)
    requires a.Run? && WellFormed(a.request.command) && !Unexpired(s.db, KeyOf(a.request), a.clock) && Possible(s, a)
    requires Attempt(Lookup(s.db, TargetOf(a.request.command, a.newId)), a.request, a.stamp, a.newId).Err?
    ensures Next(s, a) == s
    ensures a.answer == Err(Attempt(Lookup(s.db, TargetOf(a.request.command, a.newId)), a.request, a.stamp, a.newId).error)
  {
    hide Attempt;
  }
}
