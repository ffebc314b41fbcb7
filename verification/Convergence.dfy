/** When the read model ends up equal to the write model: exactly, and under the delivery the design promises. */
module Convergence {
  import opened Domain
  import opened Ledger
  import opened Store
  import opened Invariants
  import opened Commands
  import opened Tables
  import opened Projection

  function EventCount(db: Db, id: Id): nat {
    if id in db.matches then |db.matches[id].events| else 0
  }

  /** What tells one state of a row from another: the event it stands at, and the status it shows. */
  datatype Mark = Mark(sequence: int, status: Status)

  function MarkOf(row: Row): Mark { Mark(row.sequence, row.status) }

  ghost predicate Shows(s: System, id: Id, mark: Mark) {
    id in s.rm.rows && MarkOf(s.rm.rows[id]) == mark
  }

  /** A mark a row of match id can carry once the ledger holds its sequence: a match with events is LIVE. */
  ghost predicate Newest(db: Db, id: Id, mark: Mark) {
    EventCount(db, id) <= mark.sequence && (mark.sequence >= 1 ==> mark.status == Live)
  }

  ghost predicate FirstDelivery(s: System, a: Atom) {
    a.Deliver? && a.source < |s.db.outbox| && a.source !in s.rm.inbox
  }

  ghost predicate FirstCreation(s: System, a: Atom, id: Id) {
    FirstDelivery(s, a) && s.db.outbox[a.source].Created? && s.db.outbox[a.source].matchId == id
  }

  /** The upsert of a rebuild of match id, whose read may lie any number of steps back. */
  predicate WritesRebuild(s: System, a: Atom, id: Id) {
    PendingWrite(s, a) && s.rebuilds[a.rebuild].id == id
  }

  /** The step puts the row at the mark: a rebuild that read it, the first delivery of its event, or the creation. */
  ghost predicate Establishes(s: System, a: Atom, id: Id, mark: Mark) {
    || (WritesRebuild(s, a, id) && MarkOf(s.rebuilds[a.rebuild].row) == mark)
    || (FirstDelivery(s, a) && Carries(s.db.outbox[a.source], id, mark.sequence) && id in s.rm.rows)
    || (FirstCreation(s, a, id) && mark == Mark(0, Draft))
  }

  /** The step takes the row away from the mark: a rebuild that read something else, or the creation. */
  ghost predicate Resets(s: System, a: Atom, id: Id, mark: Mark) {
    || (WritesRebuild(s, a, id) && MarkOf(s.rebuilds[a.rebuild].row) != mark)
    || (FirstCreation(s, a, id) && mark != Mark(0, Draft))
  }

  lemma DeliveryShows(s: System, source: nat, id: Id, mark: Mark)
    requires SystemInv(s) && Newest(s.db, id, mark) && source < |s.db.outbox|
    ensures var a := Deliver(source);
            Shows(Next(s, a), id, mark) <==> Establishes(s, a, id, mark) || (Shows(s, id, mark) && !Resets(s, a, id, mark))
  {
    hide MatchesInv, RecordsInv, OutboxComplete, CreatedOnce, ScoreAt;
    assert MessageInv(s.db, s.db.outbox[source]);
    if id in s.rm.rows { assert RowInv(s.db, id, s.rm.rows[id]); }
  }

  /** One step, from any reachable state whose ledger has not passed the mark. */
  lemma StepShows(s: System, a: Atom, id: Id, mark: Mark)
    requires SystemInv(s) && Newest(s.db, id, mark)
    ensures Shows(Next(s, a), id, mark) <==> Establishes(s, a, id, mark) || (Shows(s, id, mark) && !Resets(s, a, id, mark))
  {
    hide SystemInv, Execute, ReadLedger;
    match a {
      case Run(_, _, _, _, _) =>
      case Deliver(source) => if source < |s.db.outbox| { DeliveryShows(s, source, id, mark); }
      case RebuildRead(_) =>
      case RebuildWrite(_) =>
    }
  }

  /** Some step before k put the row at the mark, and no later one took it away. */
  ghost predicate LastWrite(atoms: seq<Atom>, k: nat, p: nat, id: Id, mark: Mark)
    requires k <= |atoms|
  {
    p < k && Establishes(At(atoms, p), atoms[p], id, mark)
    && forall q :: p < q < k ==> !Resets(At(atoms, q), atoms[q], id, mark)
  }

  ghost predicate Written(atoms: seq<Atom>, k: nat, id: Id, mark: Mark)
    requires k <= |atoms|
  {
    exists p :: LastWrite(atoms, k, p, id, mark)
  }

  lemma {:induction false} ShowsExactly(atoms: seq<Atom>, k: nat, id: Id, mark: Mark)
    requires k <= |atoms| && Newest(At(atoms, k).db, id, mark)
    ensures Shows(At(atoms, k), id, mark) <==> Written(atoms, k, id, mark)
  {
    if k > 0 {
      var s, a := At(atoms, k - 1), atoms[k - 1];
      RunKeeps(atoms, k - 1);
      EventCountGrows(atoms, k - 1, k, id);
      ShowsExactly(atoms, k - 1, id, mark);
      AtStep(atoms, k - 1);
      hide Establishes, Resets, Shows, SystemInv, At, Next, Written;
      StepShows(s, a, id, mark);
      LastWriteStep(atoms, k, id, mark);
    } else {
      assert forall p :: !LastWrite(atoms, 0, p, id, mark);
    }
  }

  lemma LastWriteStep(atoms: seq<Atom>, k: nat, id: Id, mark: Mark)
    requires 0 < k <= |atoms|
    ensures var s, a := At(atoms, k - 1), atoms[k - 1];
            Written(atoms, k, id, mark) <==>
              Establishes(s, a, id, mark) || (Written(atoms, k - 1, id, mark) && !Resets(s, a, id, mark))
  {
    hide Establishes, Resets, At;
    var s, a := At(atoms, k - 1), atoms[k - 1];
    if Establishes(s, a, id, mark) { assert LastWrite(atoms, k, k - 1, id, mark); }
    if Written(atoms, k - 1, id, mark) && !Resets(s, a, id, mark) {
      var p :| LastWrite(atoms, k - 1, p, id, mark);
      assert LastWrite(atoms, k, p, id, mark);
    }
    if Written(atoms, k, id, mark) && !Establishes(s, a, id, mark) {
      var p :| LastWrite(atoms, k, p, id, mark);
      assert LastWrite(atoms, k - 1, p, id, mark);
    }
  }

  lemma EventCountGrows(atoms: seq<Atom>, j: nat, k: nat, id: Id)
    requires j <= k <= |atoms|
    ensures EventCount(At(atoms, j).db, id) <= EventCount(At(atoms, k).db, id)
  {
    RunGrows(atoms, j, k);
    var db, db' := At(atoms, j).db, At(atoms, k).db;
    if id in db.matches { assert Grows(id, db.matches[id], db'.matches[id]); }
  }

  ghost predicate Converged(s: System, id: Id) {
    id in s.db.matches && id in s.rm.rows && s.rm.rows[id] == CurrentRow(s.db.matches[id])
  }

  function LiveMark(m: Match): Mark { Mark(|m.events|, m.status) }

  /** Being at the live row's mark is the same as being entirely right. */
  lemma CurrentExactly(s: System, id: Id)
    requires SystemInv(s) && id in s.db.matches
    ensures Shows(s, id, LiveMark(s.db.matches[id])) <==> Converged(s, id)
    ensures Newest(s.db, id, LiveMark(s.db.matches[id]))
  {
    hide LedgerInv, SubjectInv, ScoreAt, Score, MessagesInv, OutboxComplete;
    var m := s.db.matches[id];
    assert MatchInv(m);
    SnapshotIsCurrent(id, m);
    RebuiltIsExact(s.db, id);
    if id in s.rm.rows { assert RowInv(s.db, id, s.rm.rows[id]); }
  }

  /**
   * Exact convergence, for every run and every match, with or without events: its row equals the live snapshot if
   * and only if some step put it at the live sequence and status (a rebuild that read them, the first delivery of
   * the newest event to an existing row, or the creation of a match still in DRAFT) and no later step was a rebuild
   * that had read anything else, or the first delivery of created.v1 to a match that has moved on.
   */
  lemma {:induction false} ConvergesExactly(atoms: seq<Atom>, id: Id)
    requires id in After(START, atoms).db.matches
    ensures Converged(After(START, atoms), id)
       <==> Written(atoms, |atoms|, id, LiveMark(After(START, atoms).db.matches[id]))
  {
    assert atoms[..|atoms|] == atoms;
    RunKeeps(atoms, |atoms|);
    CurrentExactly(After(START, atoms), id);
    hide Converged, Shows, SystemInv, Written, Newest;
    ShowsExactly(atoms, |atoms|, id, LiveMark(After(START, atoms).db.matches[id]));
  }

  // ---------------------------------------------------------------- created.v1 first

  ghost predicate CreationClaimed(s: System, id: Id) {
    exists i :: i in s.rm.inbox && i < |s.db.outbox| && s.db.outbox[i].Created? && s.db.outbox[i].matchId == id
  }

  /** Deliveries of the match's events and writes of its rebuilds happen only once its created.v1 is processed. */
  ghost predicate CreatedFirst(atoms: seq<Atom>, id: Id) {
    forall k :: 0 <= k < |atoms| && Touches(At(atoms, k), atoms[k], id) ==> CreationClaimed(At(atoms, k), id)
  }

  ghost predicate Touches(s: System, a: Atom, id: Id) {
    WritesRebuild(s, a, id) ||
    (a.Deliver? && a.source < |s.db.outbox| && IsEvent(s.db.outbox[a.source]) && s.db.outbox[a.source].matchId == id)
  }

  /** A match has a row exactly from the moment its creation is claimed; a row that has seen nothing shows 0-0. */
  ghost predicate FirstInv(s: System, id: Id) {
    && (id in s.rm.rows <==> CreationClaimed(s, id))
    && (id in s.rm.rows && s.rm.rows[id].sequence == 0 ==> s.rm.rows[id].home == 0 && s.rm.rows[id].away == 0)
  }

  lemma ClaimedStays(s: System, s': System, id: Id)
    requires s.rm.inbox <= s'.rm.inbox && s.db.outbox <= s'.db.outbox
    ensures CreationClaimed(s, id) ==> CreationClaimed(s', id)
  {
    if CreationClaimed(s, id) {
      var i :| i in s.rm.inbox && i < |s.db.outbox| && s.db.outbox[i].Created? && s.db.outbox[i].matchId == id;
      assert s'.db.outbox[i] == s.db.outbox[i];
    }
  }

  lemma FirstStep(s: System, a: Atom, id: Id)
    requires SystemInv(s) && FirstInv(s, id)
    requires Touches(s, a, id) ==> CreationClaimed(s, id)
    ensures FirstInv(Next(s, a), id)
  {
    match a {
      case Run(r, clock, stamp, newId, _) => FirstRun(s, a, id);
      case Deliver(source) => if source < |s.db.outbox| { FirstDeliver(s, source, id); }
      case RebuildRead(other) => FirstRead(s, other, id);
      case RebuildWrite(i) => if PendingWrite(s, a) { FirstWrite(s, i, id); }
    }
  }

  lemma FirstRun(s: System, a: Atom, id: Id)
    requires SystemInv(s) && FirstInv(s, id) && a.Run?
    ensures FirstInv(Next(s, a), id)
  {
    hide SystemInv, DbGrows, Execute;
    StepKeeps(s, a);
    OutboxGrows(s.db, Next(s, a).db);
    ClaimedStays(s, Next(s, a), id);
    if CreationClaimed(Next(s, a), id) {
      var s' := Next(s, a);
      var i :| i in s'.rm.inbox && i < |s'.db.outbox| && s'.db.outbox[i].Created? && s'.db.outbox[i].matchId == id;
      InboxBounded(s, i);
      assert s.db.outbox[i] == s'.db.outbox[i];
    }
  }

  lemma InboxBounded(s: System, i: nat)
    requires SystemInv(s) && i in s.rm.inbox
    ensures i < |s.db.outbox|
  {
  }

  lemma FirstDeliver(s: System, source: nat, id: Id)
    requires SystemInv(s) && FirstInv(s, id) && source < |s.db.outbox|
    requires IsEvent(s.db.outbox[source]) && s.db.outbox[source].matchId == id ==> CreationClaimed(s, id)
    ensures FirstInv(Next(s, Deliver(source)), id)
  {
    hide MatchesInv, RecordsInv, OutboxComplete, ScoreAt;
    var s' := Next(s, Deliver(source));
    var message := s.db.outbox[source];
    assert MessageInv(s.db, message);
    ClaimedStays(s, s', id);
    if message.Created? && message.matchId == id {
      if source !in s.rm.inbox {
        assert source in s'.rm.inbox && CreationClaimed(s', id);
        OneCreationOnly(s, source, id);
      }
    } else {
      if CreationClaimed(s', id) {
        var i :| i in s'.rm.inbox && i < |s'.db.outbox| && s'.db.outbox[i].Created? && s'.db.outbox[i].matchId == id;
        assert i != source && i in s.rm.inbox;
      }
    }
  }

  lemma FirstRead(s: System, other: Id, id: Id)
    requires FirstInv(s, id)
    ensures FirstInv(AfterRead(s, other), id)
  {
    hide ReadLedger;
    ClaimedStays(s, AfterRead(s, other), id);
    ClaimedStays(AfterRead(s, other), s, id);
  }

  lemma FirstWrite(s: System, i: nat, id: Id)
    requires SystemInv(s) && FirstInv(s, id) && i < |s.rebuilds|
    requires s.rebuilds[i].id == id ==> CreationClaimed(s, id)
    ensures FirstInv(AfterWrite(s, i), id)
  {
    hide DbInv, RowInv;
    assert RebuildInv(s.db, s.rebuilds[i]);
    ClaimedStays(s, AfterWrite(s, i), id);
    ClaimedStays(AfterWrite(s, i), s, id);
  }

  lemma {:induction false} FirstRunInv(atoms: seq<Atom>, k: nat, id: Id)
    requires k <= |atoms| && CreatedFirst(atoms, id)
    ensures FirstInv(At(atoms, k), id)
  {
    if k > 0 {
      FirstRunInv(atoms, k - 1, id);
      RunKeeps(atoms, k - 1);
      AtStep(atoms, k - 1);
      FirstStep(At(atoms, k - 1), atoms[k - 1], id);
    }
  }

  /** With created.v1 first, every row shows the ledger's score at its own sequence, zero included. */
  lemma {:induction false} AlwaysExactWhenCreatedFirst(atoms: seq<Atom>, id: Id)
    requires CreatedFirst(atoms, id) && id in After(START, atoms).rm.rows
    ensures var s := After(START, atoms);
            var row := s.rm.rows[id];
            && id in s.db.matches && 0 <= row.sequence <= EventCount(s.db, id)
            && row.home == SnapshotAt(id, s.db.matches[id], row.sequence).home
            && row.away == SnapshotAt(id, s.db.matches[id], row.sequence).away
  {
    assert atoms[..|atoms|] == atoms;
    RunKeeps(atoms, |atoms|);
    FirstRunInv(atoms, |atoms|, id);
    var s := After(START, atoms);
    assert RowInv(s.db, id, s.rm.rows[id]);
    assert Score(s.db.matches[id].events[..0], {}, Home) == 0;
  }

  ghost predicate DeliveredIn(atoms: seq<Atom>, source: nat) {
    exists k :: 0 <= k < |atoms| && atoms[k] == Deliver(source) && source < |At(atoms, k).db.outbox|
  }

  lemma {:induction false} FirstClaim(atoms: seq<Atom>, k: nat, source: nat) returns (p: nat)
    requires k <= |atoms| && source in At(atoms, k).rm.inbox
    ensures p < k && atoms[p] == Deliver(source) && FirstDelivery(At(atoms, p), atoms[p])
  {
    AtStep(atoms, k - 1);
    if source in At(atoms, k - 1).rm.inbox {
      p := FirstClaim(atoms, k - 1, source);
    } else {
      p := k - 1;
    }
  }

  lemma {:induction false} ClaimedLater(atoms: seq<Atom>, j: nat, k: nat)
    requires j <= k <= |atoms|
    ensures At(atoms, j).rm.inbox <= At(atoms, k).rm.inbox
    decreases k
  {
    if j < k {
      ClaimedLater(atoms, j, k - 1);
      AtStep(atoms, k - 1);
    }
  }

  /** The upsert of a rebuild whose read is older than event n. */
  predicate StaleWrite(s: System, a: Atom, id: Id, n: int) {
    WritesRebuild(s, a, id) && s.rebuilds[a.rebuild].row.sequence < n
  }

  /** Once the message is claimed, no rebuild that read before event n writes any more. */
  ghost predicate NoStaleWrite(atoms: seq<Atom>, id: Id, n: int, source: nat) {
    forall k :: 0 <= k < |atoms| && StaleWrite(At(atoms, k), atoms[k], id, n) ==> source !in At(atoms, k).rm.inbox
  }

  /**
   * Convergence: once created.v1 is processed first, the newest event's message is delivered at least once, and no
   * rebuild that read before that event writes after it was projected, any order, any duplication and any other
   * rebuilds in between leave the row equal to the live snapshot.
   */
  lemma {:induction false} Converges(atoms: seq<Atom>, id: Id, source: nat)
    requires id in After(START, atoms).db.matches
    requires CreatedFirst(atoms, id)
    requires source < |After(START, atoms).db.outbox|
    requires Carries(After(START, atoms).db.outbox[source], id, EventCount(After(START, atoms).db, id))
    requires DeliveredIn(atoms, source)
    requires NoStaleWrite(atoms, id, EventCount(After(START, atoms).db, id), source)
    ensures Converged(After(START, atoms), id)
  {
    hide Establishes, Resets, Converged, CreatedFirst, After, Project, NoStaleWrite;
    assert atoms[..|atoms|] == atoms;
    var mark := LiveMark(After(START, atoms).db.matches[id]);
    EndMark(atoms, id, source);
    var k :| 0 <= k < |atoms| && atoms[k] == Deliver(source) && source < |At(atoms, k).db.outbox|;
    SameMessage(atoms, k, source);
    DeliveryClaims(atoms, k);
    ClaimedLater(atoms, k + 1, |atoms|);
    var p := FirstClaim(atoms, |atoms|, source);
    SameMessage(atoms, p, source);
    DeliveryClaims(atoms, p);
    NewestWrites(atoms, p, id, mark);
    forall q | p < q < |atoms| ensures !Resets(At(atoms, q), atoms[q], id, mark) {
      NoLateReset(atoms, p, q, id, source, mark);
    }
    assert LastWrite(atoms, |atoms|, p, id, mark);
    ConvergesExactly(atoms, id);
  }

  /** Every rebuild of the match writes before its next event commits. */
  ghost predicate SerialRebuilds(atoms: seq<Atom>, id: Id) {
    forall k :: 0 <= k < |atoms| && WritesRebuild(At(atoms, k), atoms[k], id) ==>
      At(atoms, k).rebuilds[atoms[k].rebuild].row.sequence == EventCount(At(atoms, k).db, id)
  }

  /** What an operator can arrange: rebuild a match only while nothing is appended to it. */
  lemma {:induction false} ConvergesWhenRebuildsAreSerial(atoms: seq<Atom>, id: Id, source: nat)
    requires id in After(START, atoms).db.matches
    requires CreatedFirst(atoms, id) && SerialRebuilds(atoms, id)
    requires source < |After(START, atoms).db.outbox|
    requires Carries(After(START, atoms).db.outbox[source], id, EventCount(After(START, atoms).db, id))
    requires DeliveredIn(atoms, source)
    ensures Converged(After(START, atoms), id)
  {
    hide Converged, CreatedFirst, After, At, DeliveredIn, SystemInv;
    var n := EventCount(After(START, atoms).db, id);
    forall k | 0 <= k < |atoms| && StaleWrite(At(atoms, k), atoms[k], id, n)
      ensures source !in At(atoms, k).rm.inbox
    {
      if source in At(atoms, k).rm.inbox {
        RunKeeps(atoms, k);
        InboxBounded(At(atoms, k), source);
        SameMessage(atoms, k, source);
        LedgerHolds(At(atoms, k), source, id, n);
      }
    }
    Converges(atoms, id, source);
  }

  /** A message that carries event n shows that the ledger has at least n rows. */
  lemma LedgerHolds(s: System, source: nat, id: Id, n: int)
    requires SystemInv(s) && source < |s.db.outbox| && Carries(s.db.outbox[source], id, n)
    ensures EventCount(s.db, id) >= n >= 1 && id in s.db.matches
  {
    hide MatchesInv, OutboxComplete, RecordsInv, CreatedOnce, RowInv, SnapshotAt;
    assert MessageInv(s.db, s.db.outbox[source]);
  }

  lemma DeliveryClaims(atoms: seq<Atom>, k: nat)
    requires k < |atoms| && atoms[k].Deliver? && atoms[k].source < |At(atoms, k).db.outbox|
    requires IsEvent(At(atoms, k).db.outbox[atoms[k].source])
    ensures atoms[k].source in At(atoms, k + 1).rm.inbox
  {
    AtStep(atoms, k);
  }

  lemma SameMessage(atoms: seq<Atom>, k: nat, source: nat)
    requires k <= |atoms| && source < |At(atoms, k).db.outbox|
    ensures source < |After(START, atoms).db.outbox| && At(atoms, k).db.outbox[source] == After(START, atoms).db.outbox[source]
  {
    assert atoms[..|atoms|] == atoms;
    RunGrows(atoms, k, |atoms|);
    OutboxGrows(At(atoms, k).db, After(START, atoms).db);
  }

  lemma NewestWrites(atoms: seq<Atom>, p: nat, id: Id, mark: Mark)
    requires p < |atoms| && CreatedFirst(atoms, id)
    requires FirstDelivery(At(atoms, p), atoms[p]) && Carries(At(atoms, p).db.outbox[atoms[p].source], id, mark.sequence)
    ensures Establishes(At(atoms, p), atoms[p], id, mark) && CreationClaimed(At(atoms, p), id)
  {
    hide FirstInv, CreationClaimed, At;
    FirstRunInv(atoms, p, id);
    assert Touches(At(atoms, p), atoms[p], id);
    RowOfClaimed(At(atoms, p), id);
  }

  lemma RowOfClaimed(s: System, id: Id)
    requires FirstInv(s, id) && CreationClaimed(s, id)
    ensures id in s.rm.rows
  {
  }

  lemma NoLateCreation(atoms: seq<Atom>, p: nat, q: nat, id: Id)
    requires p < q < |atoms| && CreationClaimed(At(atoms, p), id)
    ensures !FirstCreation(At(atoms, q), atoms[q], id)
  {
    RunKeeps(atoms, q);
    RunGrows(atoms, p, q);
    ClaimedLater(atoms, p, q);
    var s := At(atoms, q);
    OutboxGrows(At(atoms, p).db, s.db);
    ClaimedStays(At(atoms, p), s, id);
    OneCreation(s, atoms[q], id);
  }

  lemma NotStaleAt(atoms: seq<Atom>, id: Id, n: int, source: nat, q: nat)
    requires q < |atoms| && NoStaleWrite(atoms, id, n, source) && source in At(atoms, q).rm.inbox
    ensures !StaleWrite(At(atoms, q), atoms[q], id, n)
  {
  }

  lemma NoLateRebuild(atoms: seq<Atom>, p: nat, q: nat, id: Id, source: nat, mark: Mark)
    requires p < q < |atoms| && source in At(atoms, p + 1).rm.inbox
    requires EventCount(After(START, atoms).db, id) == mark.sequence && mark.sequence >= 1 && mark.status == Live
    requires NoStaleWrite(atoms, id, mark.sequence, source)
    ensures WritesRebuild(At(atoms, q), atoms[q], id) ==> MarkOf(At(atoms, q).rebuilds[atoms[q].rebuild].row) == mark
  {
    hide At, After, SystemInv, WritesRebuild, NoStaleWrite;
    RunKeeps(atoms, q);
    ClaimedLater(atoms, p + 1, q);
    NotStaleAt(atoms, id, mark.sequence, source, q);
    EventCountGrows(atoms, q, |atoms|, id);
    assert At(atoms, |atoms|) == After(START, atoms) by { WholeRun(atoms); }
    if WritesRebuild(At(atoms, q), atoms[q], id) { FreshWrite(At(atoms, q), atoms[q], id, mark); }
  }

  lemma WholeRun(atoms: seq<Atom>)
    ensures At(atoms, |atoms|) == After(START, atoms)
  {
    assert atoms[..|atoms|] == atoms;
  }

  lemma NoLateReset(atoms: seq<Atom>, p: nat, q: nat, id: Id, source: nat, mark: Mark)
    requires p < q < |atoms| && CreationClaimed(At(atoms, p), id) && source in At(atoms, p + 1).rm.inbox
    requires EventCount(After(START, atoms).db, id) == mark.sequence && mark.sequence >= 1 && mark.status == Live
    requires NoStaleWrite(atoms, id, mark.sequence, source)
    ensures !Resets(At(atoms, q), atoms[q], id, mark)
  {
    hide At, After, NoStaleWrite, CreationClaimed, FirstCreation;
    NoLateCreation(atoms, p, q, id);
    NoLateRebuild(atoms, p, q, id, source, mark);
  }

  lemma EndMark(atoms: seq<Atom>, id: Id, source: nat)
    requires id in After(START, atoms).db.matches && source < |After(START, atoms).db.outbox|
    requires Carries(After(START, atoms).db.outbox[source], id, EventCount(After(START, atoms).db, id))
    ensures var mark := LiveMark(After(START, atoms).db.matches[id]);
            mark.sequence == EventCount(After(START, atoms).db, id) >= 1 && mark.status == Live
  {
    WholeRun(atoms);
    RunKeeps(atoms, |atoms|);
    hide SystemInv, After;
    CurrentExactly(After(START, atoms), id);
    LedgerHolds(After(START, atoms), source, id, EventCount(After(START, atoms).db, id));
  }

  /** A write that is not stale can only hold the mark itself. */
  lemma FreshWrite(s: System, a: Atom, id: Id, mark: Mark)
    requires SystemInv(s) && WritesRebuild(s, a, id) && !StaleWrite(s, a, id, mark.sequence)
    requires EventCount(s.db, id) <= mark.sequence && mark.sequence >= 1 && mark.status == Live
    ensures MarkOf(s.rebuilds[a.rebuild].row) == mark
  {
    hide DbInv, SnapshotAt;
    assert RebuildInv(s.db, s.rebuilds[a.rebuild]);
  }

  lemma OneCreationOnly(s: System, source: nat, id: Id)
    requires SystemInv(s) && source < |s.db.outbox| && source !in s.rm.inbox
    requires s.db.outbox[source].Created? && s.db.outbox[source].matchId == id
    ensures !CreationClaimed(s, id)
  {
    hide MatchesInv, MessagesInv, OutboxComplete;
    assert CreatedOnce(s.db.outbox);
  }

  lemma OneCreation(s: System, a: Atom, id: Id)
    requires SystemInv(s) && CreationClaimed(s, id)
    ensures !FirstCreation(s, a, id)
  {
    hide MatchesInv, MessagesInv, OutboxComplete;
    hide CreationClaimed;
    if FirstCreation(s, a, id) {
      OneCreationOnly(s, a.source, id);
    }
  }

  // ---------------------------------------------------------------- what goes wrong otherwise

  /**
   * created.v1 rewinds status and sequence but not the scores: its first delivery leaves an exact row if and
   * only if there was no row yet or the row showed 0-0.
   */
  lemma CreationExactIff(s: System, source: nat)
    requires SystemInv(s) && source < |s.db.outbox| && source !in s.rm.inbox && s.db.outbox[source].Created?
    ensures var id := s.db.outbox[source].matchId;
            var row := Next(s, Deliver(source)).rm.rows[id];
            && row.sequence == 0 && row.status == Draft
            && (row.home == SnapshotAt(id, s.db.matches[id], 0).home && row.away == SnapshotAt(id, s.db.matches[id], 0).away
                <==> id !in s.rm.rows || (s.rm.rows[id].home == 0 && s.rm.rows[id].away == 0))
  {
    var message := s.db.outbox[source];
    assert MessageInv(s.db, message);
    var m := s.db.matches[message.matchId];
    assert m.events[..0] == [];
  }
}
