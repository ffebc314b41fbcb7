/** The read model: an inbox and a guarded row per match, fed by outbox messages and by rebuilds from the ledger. */
module Projection {
  import opened Prelude
  import opened Domain
  import opened Ledger
  import opened Store
  import opened Invariants
  import opened Commands
  import opened Tables

  /** A row of match_snapshots. */
  datatype Row = Row(organization: Id, status: Status, home: int, away: int, sequence: int)

  /** consumer_inbox holds the positions of claimed outbox rows. */
  datatype ReadModel = ReadModel(inbox: set<nat>, rows: map<Id, Row>)

  function Rank(s: Status): int {
    match s
    case Draft => 0 case Ready => 1 case Live => 2 case Paused => 3
    case Completed => 4 case Finalized => 5 case Abandoned => 6 case Scheduled => -1
  }

  /** The statuses a match goes through, in order; ABANDONED outranks them all. */
  const LIFECYCLE: seq<Status> := [Draft, Ready, Live, Paused, Completed, Finalized, Abandoned]

  lemma RankIsLifecycle(i: nat)
    requires i < |LIFECYCLE|
    ensures Rank(LIFECYCLE[i]) == i
  {
  }

  /** The WHERE clause of the snapshot update. */
  predicate Newer(s: Snapshot, row: Row) {
    row.sequence < s.sequence || (row.sequence == s.sequence && Rank(row.status) < Rank(s.status))
  }

  function Overwrite(row: Row, s: Snapshot): Row {
    row.(status := s.status, home := s.home, away := s.away, sequence := s.sequence)
  }

  function ProjectCreated(rows: map<Id, Row>, message: Message): map<Id, Row>
    requires message.Created?
  {
    var id := message.matchId;
    rows[id := if id in rows then rows[id].(status := message.status, sequence := message.sequence)
               else Row(message.organization, message.status, 0, 0, message.sequence)]
  }

  function ProjectSnapshot(rows: map<Id, Row>, id: Id, s: Snapshot): map<Id, Row> {
    if id in rows && Newer(s, rows[id]) then rows[id := Overwrite(rows[id], s)] else rows
  }

  /**
   * Process. A status-changed payload is a bare snapshot: read as an envelope it has no status, which the enum
   * column rejects, so the whole transaction rolls back.
   */
  function Project(rm: ReadModel, source: nat, message: Message): (ReadModel, bool) {
    if source in rm.inbox then (rm, true)
    else
      match message
      case Created(_, _, _, _) => (ReadModel(rm.inbox + {source}, ProjectCreated(rm.rows, message)), true)
      case StatusChanged(_, _) => (rm, false)
      case Recorded(id, _, s) => (ReadModel(rm.inbox + {source}, ProjectSnapshot(rm.rows, id, s)), true)
      case Reversed(id, _, s) => (ReadModel(rm.inbox + {source}, ProjectSnapshot(rm.rows, id, s)), true)
  }

  function MaxSequence(events: seq<EventRow>): int {
    if events == [] then 0
    else
      var rest := MaxSequence(events[..|events| - 1]);
      var last := events[|events| - 1].sequence;
      if |events| == 1 || last > rest then last else rest
  }

  /** Some row the sum has to look at holds a score_delta that is not an integer. */
  predicate CastFails(m: Match) {
    exists i :: 0 <= i < |m.events| && m.events[i].id !in m.reversals.Values
             && SqlDelta(m.events[i].action, m.events[i].qualifiers).None?
  }

  function RebuiltRow(m: Match): Row {
    Row(m.organization, m.status, Score(m.events, m.reversals.Values, Home), Score(m.events, m.reversals.Values, Away),
        MaxSequence(m.events))
  }

  /** The SELECT of RebuildMatch: one consistent look at the ledger, without a lock. */
  function ReadLedger(db: Db, id: Id): Result<Row, Error> {
    if id !in db.matches then Err(MatchNotFound)
    else if CastFails(db.matches[id]) then Err(ConstraintViolation)
    else Ok(RebuiltRow(db.matches[id]))
  }

  /** Its upsert, a statement later: unconditional, whatever was projected in between. */
  function WriteRow(rm: ReadModel, id: Id, row: Row): ReadModel { rm.(rows := rm.rows[id := row]) }

  lemma {:induction false} MaxSequenceIsLength(events: seq<EventRow>)
    requires Contiguous(events)
    ensures MaxSequence(events) == |events|
  {
    if events != [] { MaxSequenceIsLength(events[..|events| - 1]); }
  }

  /** The row a match ought to have right now. */
  function CurrentRow(m: Match): Row { Row(m.organization, m.status, m.home, m.away, m.sequence) }

  /** Scores are derived, never edited: a rebuild's read of a reachable match succeeds and gives the live row's values. */
  lemma RebuildAgrees(db: Db, id: Id)
    requires DbInv(db) && id in db.matches
    ensures ReadLedger(db, id) == Ok(CurrentRow(db.matches[id]))
  {
    var m := db.matches[id];
    assert MatchInv(m);
    MaxSequenceIsLength(m.events);
    forall i | 0 <= i < |m.events| ensures SqlDelta(m.events[i].action, m.events[i].qualifiers).Some? {
      assert Faithful(m.events[i]);
    }
  }

  // ---------------------------------------------------------------- the system and its runs

  /** A rebuild that has read the ledger: the row it computed, and whether its upsert has run yet. */
  datatype Rebuild = Rebuild(id: Id, row: Row, written: bool)

  datatype System = System(db: Db, rm: ReadModel, rebuilds: seq<Rebuild>)

  /** One atomic step: a command with its answer, the delivery of one outbox row, or one statement of a rebuild. */
  datatype Atom =
    | Run(request: Request, clock: Time, stamp: Time, newId: Id, answer: Result<Response, Error>)
    | Deliver(source: nat)
    | RebuildRead(id: Id)
    | RebuildWrite(rebuild: nat)

  predicate PendingWrite(s: System, a: Atom) {
    a.RebuildWrite? && a.rebuild < |s.rebuilds| && !s.rebuilds[a.rebuild].written
  }

  ghost predicate Possible(s: System, a: Atom) {
    match a
    case Run(r, clock, stamp, newId, answer) => Execute(s.db, r, clock, stamp, newId).1 == answer
    case Deliver(source) => source < |s.db.outbox|
    case RebuildRead(_) => true
    case RebuildWrite(_) => PendingWrite(s, a)
  }

  function AfterRead(s: System, id: Id): System {
    match ReadLedger(s.db, id)
    case Err(_) => s
    case Ok(row) => s.(rebuilds := s.rebuilds + [Rebuild(id, row, false)])
  }

  function AfterWrite(s: System, i: nat): System
    requires i < |s.rebuilds|
  {
    var r := s.rebuilds[i];
    s.(rm := WriteRow(s.rm, r.id, r.row), rebuilds := s.rebuilds[i := r.(written := true)])
  }

  ghost function Next(s: System, a: Atom): System {
    match a
    case Run(r, clock, stamp, newId, _) => s.(db := Execute(s.db, r, clock, stamp, newId).0)
    case Deliver(source) =>
      if source < |s.db.outbox| then s.(rm := Project(s.rm, source, s.db.outbox[source]).0) else s
    case RebuildRead(id) => AfterRead(s, id)
    case RebuildWrite(i) => if PendingWrite(s, a) then AfterWrite(s, i) else s
  }

  ghost function After(s: System, atoms: seq<Atom>): System {
    if atoms == [] then s else Next(After(s, atoms[..|atoms| - 1]), atoms[|atoms| - 1])
  }

  ghost predicate ValidRun(s: System, atoms: seq<Atom>) {
    forall k :: 0 <= k < |atoms| ==> Possible(After(s, atoms[..k]), atoms[k])
  }

  /** A run goes on with any step that is possible in the system it has reached. */
  lemma RunExtends(start: System, atoms: seq<Atom>, a: Atom)
    requires ValidRun(start, atoms) && Possible(After(start, atoms), a)
    ensures ValidRun(start, atoms + [a]) && After(start, atoms + [a]) == Next(After(start, atoms), a)
  {
    var all := atoms + [a];
    assert all[..|all| - 1] == atoms;
    hide Possible, Next;
    forall k | 0 <= k < |all| ensures Possible(After(start, all[..k]), all[k]) {
      if k < |atoms| { assert all[..k] == atoms[..k]; } else { assert all[..k] == atoms; }
    }
  }

  const START: System := System(EMPTY, ReadModel({}, map[]), [])

  /** The system right before step k of a run from the empty database. */
  ghost function At(atoms: seq<Atom>, k: nat): System
    requires k <= |atoms|
  {
    After(START, atoms[..k])
  }

  lemma AtStep(atoms: seq<Atom>, k: nat)
    requires k < |atoms|
    ensures At(atoms, k + 1) == Next(At(atoms, k), atoms[k])
  {
    assert atoms[..k + 1][..k] == atoms[..k];
  }

  // ---------------------------------------------------------------- point-in-time consistency

  /** A row that has seen an event shows the ledger's score at exactly that event. */
  ghost predicate RowInv(db: Db, id: Id, row: Row) {
    && id in db.matches
    && 0 <= row.sequence <= |db.matches[id].events|
    && row.organization == db.matches[id].organization
    && (row.sequence >= 1 ==>
          var s := SnapshotAt(id, db.matches[id], row.sequence);
          row.status == Live && row.home == s.home && row.away == s.away)
    && (db.matches[id].events == [] ==> row.home == 0 && row.away == 0)
  }

  /** What a rebuild holds between its statements is a good row, only perhaps an old one. */
  ghost predicate RebuildInv(db: Db, r: Rebuild) {
    RowInv(db, r.id, r.row) && (r.row.sequence == 0 ==> r.row.home == 0 && r.row.away == 0)
  }

  ghost predicate SystemInv(s: System) {
    && DbInv(s.db)
    && (forall id :: id in s.rm.rows ==> RowInv(s.db, id, s.rm.rows[id]))
    && (forall i :: i in s.rm.inbox ==> i < |s.db.outbox|)
    && (forall i :: 0 <= i < |s.rebuilds| ==> RebuildInv(s.db, s.rebuilds[i]))
  }

  lemma TablesHold(s: System)
    requires SystemInv(s)
    ensures DbInv(s.db)
  {
  }

  lemma RowStays(db: Db, db': Db, id: Id, row: Row)
    requires RowInv(db, id, row) && DbGrows(db, db')
    ensures RowInv(db', id, row)
  {
    hide SnapshotAt;
    var m, m' := db.matches[id], db'.matches[id];
    assert Grows(id, m, m');
    assert SnapshotAt(id, m', row.sequence) == SnapshotAt(id, m, row.sequence);
  }

  /** A message applied to good rows leaves good rows, whatever the order. */
  lemma ProjectKeeps(s: System, source: nat)
    requires SystemInv(s) && source < |s.db.outbox|
    ensures SystemInv(s.(rm := Project(s.rm, source, s.db.outbox[source]).0))
  {
    hide MatchesInv, RecordsInv, OutboxComplete, CreatedOnce, ScoreAt;
    var message := s.db.outbox[source];
    assert MessageInv(s.db, message);
    var rows := Project(s.rm, source, message).0.rows;
    forall id | id in rows ensures RowInv(s.db, id, rows[id]) {
      if id in s.rm.rows { assert RowInv(s.db, id, s.rm.rows[id]); }
    }
  }

  lemma RebuildReadKeeps(s: System, id: Id)
    requires SystemInv(s)
    ensures SystemInv(AfterRead(s, id))
  {
    hide DbInv, SnapshotAt;
    if id in s.db.matches {
      RebuildAgrees(s.db, id);
      RebuiltIsExact(s.db, id);
    }
  }

  lemma RebuildWriteKeeps(s: System, i: nat)
    requires SystemInv(s) && i < |s.rebuilds|
    ensures SystemInv(AfterWrite(s, i))
  {
    hide DbInv, RowInv;
    var s' := AfterWrite(s, i);
    assert RebuildInv(s.db, s.rebuilds[i]);
    forall k | 0 <= k < |s'.rebuilds| ensures RebuildInv(s'.db, s'.rebuilds[k]) {
      assert RebuildInv(s.db, s.rebuilds[k]);
    }
  }

  lemma RebuiltIsExact(db: Db, id: Id)
    requires DbInv(db) && id in db.matches
    ensures RebuildInv(db, Rebuild(id, CurrentRow(db.matches[id]), false))
    ensures db.matches[id].sequence == |db.matches[id].events|
  {
    hide LedgerInv, SubjectInv;
    assert MatchInv(db.matches[id]);
    SnapshotIsCurrent(id, db.matches[id]);
  }

  lemma StepKeeps(s: System, a: Atom)
    requires SystemInv(s)
    ensures SystemInv(Next(s, a)) && DbGrows(s.db, Next(s, a).db)
  {
    hide DbInv, RowInv, DbGrows, Execute, ReadLedger, Project;
    DbGrowsSame(s.db);
    match a {
      case Run(r, clock, stamp, newId, _) =>
        ExecuteKeeps(s.db, r, clock, stamp, newId);
        var db' := Next(s, a).db;
        forall id | id in s.rm.rows ensures RowInv(db', id, s.rm.rows[id]) { RowStays(s.db, db', id, s.rm.rows[id]); }
        forall i | 0 <= i < |s.rebuilds| ensures RebuildInv(db', s.rebuilds[i]) {
          assert RebuildInv(s.db, s.rebuilds[i]);
          RowStays(s.db, db', s.rebuilds[i].id, s.rebuilds[i].row);
        }
        OutboxGrows(s.db, db');
      case Deliver(source) => if source < |s.db.outbox| { ProjectKeeps(s, source); }
      case RebuildRead(id) => RebuildReadKeeps(s, id);
      case RebuildWrite(i) => if PendingWrite(s, a) { RebuildWriteKeeps(s, i); }
    }
  }

  lemma OutboxGrows(db: Db, db': Db)
    requires DbGrows(db, db')
    ensures db.outbox <= db'.outbox
  {
  }

  lemma {:induction false} RunKeeps(atoms: seq<Atom>, k: nat)
    requires k <= |atoms|
    ensures SystemInv(At(atoms, k))
  {
    if k == 0 {
      EmptyInv();
    } else {
      RunKeeps(atoms, k - 1);
      AtStep(atoms, k - 1);
      StepKeeps(At(atoms, k - 1), atoms[k - 1]);
    }
  }

  lemma {:induction false} RunGrows(atoms: seq<Atom>, j: nat, k: nat)
    requires j <= k <= |atoms|
    ensures DbGrows(At(atoms, j).db, At(atoms, k).db)
    decreases k
  {
    if j == k {
      DbGrowsSame(At(atoms, j).db);
    } else {
      RunGrows(atoms, j, k - 1);
      RunKeeps(atoms, k - 1);
      AtStep(atoms, k - 1);
      StepKeeps(At(atoms, k - 1), atoms[k - 1]);
      DbGrowsTransitive(At(atoms, j).db, At(atoms, k - 1).db, At(atoms, k).db);
    }
  }

  /**
   * Point-in-time consistency, over every run with any order, duplication and rebuilds: a row is never ahead of
   * its ledger, and once it has seen an event it shows exactly the score of the ledger's first sequence rows.
   */
  lemma PointInTime(atoms: seq<Atom>, id: Id)
    requires id in After(START, atoms).rm.rows
    ensures var s := After(START, atoms);
            var row := s.rm.rows[id];
            && id in s.db.matches && 0 <= row.sequence <= |s.db.matches[id].events|
            && (row.sequence >= 1 ==>
                  && row.status == Live
                  && row.home == ScoreAt(s.db.matches[id].events, s.db.matches[id].reversals, row.sequence, Home)
                  && row.away == ScoreAt(s.db.matches[id].events, s.db.matches[id].reversals, row.sequence, Away))
  {
    RunKeeps(atoms, |atoms|);
    assert atoms[..|atoms|] == atoms;
    assert RowInv(After(START, atoms).db, id, After(START, atoms).rm.rows[id]);
  }
}
