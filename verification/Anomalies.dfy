/** What the read model gets wrong, and for how long: lost updates, early events and the unprojected status. */
module Anomalies {
  import opened Domain
  import opened Ledger
  import opened Store
  import opened Commands
  import opened Tables
  import opened Projection
  import opened Convergence

  // ---------------------------------------------------------------- a rebuild that overtakes nothing and overwrites all

  /** From step j on, match id sees no rebuild written and no message for the first time: redeliveries do not count. */
  ghost predicate OnlyRedelivered(atoms: seq<Atom>, j: nat, k: nat, id: Id) {
    forall q :: j <= q < k && q < |atoms| ==>
      && !WritesRebuild(At(atoms, q), atoms[q], id)
      && (FirstDelivery(At(atoms, q), atoms[q]) ==> At(atoms, q).db.outbox[atoms[q].source].matchId != id)
  }

  lemma UntouchedRow(s: System, a: Atom, id: Id)
    requires id in s.rm.rows && !WritesRebuild(s, a, id)
    requires FirstDelivery(s, a) ==> s.db.outbox[a.source].matchId != id
    ensures id in Next(s, a).rm.rows && Next(s, a).rm.rows[id] == s.rm.rows[id]
  {
    hide Execute, ReadLedger;
  }

  lemma {:induction false} RowKept(atoms: seq<Atom>, j: nat, k: nat, id: Id)
    requires j <= k <= |atoms| && id in At(atoms, j).rm.rows && OnlyRedelivered(atoms, j, k, id)
    ensures id in At(atoms, k).rm.rows && At(atoms, k).rm.rows[id] == At(atoms, j).rm.rows[id]
    decreases k
  {
    hide At, Next, WritesRebuild, FirstDelivery;
    if j < k {
      RowKept(atoms, j, k - 1, id);
      AtStep(atoms, k - 1);
      UntouchedRow(At(atoms, k - 1), atoms[k - 1], id);
    }
  }

  /**
   * The lost update: a rebuild that writes after an event it had not read was committed leaves the row behind the
   * ledger, and no redelivery of what the inbox has claimed ever repairs it.
   */
  lemma {:induction false} StaleRebuildSticks(atoms: seq<Atom>, j: nat, k: nat, id: Id)
    requires j < k <= |atoms| && StaleWrite(At(atoms, j), atoms[j], id, EventCount(At(atoms, j).db, id))
    requires OnlyRedelivered(atoms, j + 1, k, id)
    ensures id in At(atoms, k).rm.rows
         && At(atoms, k).rm.rows[id] == At(atoms, j).rebuilds[atoms[j].rebuild].row
    ensures !Converged(At(atoms, k), id)
  {
    hide SystemInv, OnlyRedelivered, At;
    AtStep(atoms, j);
    RowKept(atoms, j + 1, k, id);
    EventCountGrows(atoms, j, k, id);
    RunKeeps(atoms, k);
    if id in At(atoms, k).db.matches { RebuiltIsExact(At(atoms, k).db, id) by { TablesHold(At(atoms, k)); } }
  }

  // ---------------------------------------------------------------- an event before its match has a row

  /** The step brings match id to event n or later. */
  ghost predicate Brings(s: System, a: Atom, id: Id, n: int) {
    || (WritesRebuild(s, a, id) && s.rebuilds[a.rebuild].row.sequence >= n)
    || (FirstDelivery(s, a) && IsEvent(s.db.outbox[a.source]) && s.db.outbox[a.source].matchId == id
        && s.db.outbox[a.source].snapshot.sequence >= n)
  }

  ghost predicate Before(s: System, id: Id, n: int) {
    id in s.rm.rows ==> s.rm.rows[id].sequence < n
  }

  lemma StaysBefore(s: System, a: Atom, id: Id, n: int)
    requires SystemInv(s) && Before(s, id, n) && n >= 1 && !Brings(s, a, id, n)
    ensures Before(Next(s, a), id, n)
  {
    hide MatchesInv, RecordsInv, OutboxComplete, CreatedOnce, SnapshotAt, Execute, ReadLedger;
    if a.Deliver? && a.source < |s.db.outbox| { assert MessageInv(s.db, s.db.outbox[a.source]); }
  }

  lemma EarlyClaim(s: System, a: Atom, id: Id, n: int)
    requires FirstDelivery(s, a) && Carries(s.db.outbox[a.source], id, n) && id !in s.rm.rows
    ensures a.source in Next(s, a).rm.inbox && Before(Next(s, a), id, n)
  {
  }

  /**
   * An event that arrives before its match has a row is claimed and lost: over every continuation the row stays
   * below it, whatever is redelivered, until a rebuild that read it or a later event brings the match past it.
   */
  lemma {:induction false} EarlyEventIsLost(atoms: seq<Atom>, j: nat, k: nat, id: Id, n: int)
    requires j < k <= |atoms| && FirstDelivery(At(atoms, j), atoms[j])
    requires Carries(At(atoms, j).db.outbox[atoms[j].source], id, n) && id !in At(atoms, j).rm.rows
    requires forall q :: j < q < k ==> !Brings(At(atoms, q), atoms[q], id, n)
    ensures atoms[j].source in At(atoms, k).rm.inbox && Before(At(atoms, k), id, n)
    decreases k
  {
    hide SystemInv, Brings, At, Next, Before, Carries;
    AtStep(atoms, k - 1);
    RunKeeps(atoms, k - 1);
    if k == j + 1 {
      EarlyClaim(At(atoms, j), atoms[j], id, n);
    } else {
      EarlyEventIsLost(atoms, j, k - 1, id, n);
      ClaimedLater(atoms, k - 1, k);
      RunKeeps(atoms, j);
      LedgerHolds(At(atoms, j), atoms[j].source, id, n);
      StaysBefore(At(atoms, k - 1), atoms[k - 1], id, n);
    }
  }

  // ---------------------------------------------------------------- the status that is never projected

  ghost predicate NoRebuild(atoms: seq<Atom>, id: Id) {
    forall k :: 0 <= k < |atoms| ==> !WritesRebuild(At(atoms, k), atoms[k], id)
  }

  ghost predicate DraftUntilEvent(s: System, id: Id) {
    id in s.rm.rows ==> (s.rm.rows[id].status == Draft <==> s.rm.rows[id].sequence == 0)
  }

  lemma DraftStep(s: System, a: Atom, id: Id)
    requires SystemInv(s) && DraftUntilEvent(s, id) && !WritesRebuild(s, a, id)
    ensures DraftUntilEvent(Next(s, a), id)
  {
    hide MatchesInv, RecordsInv, OutboxComplete, CreatedOnce, ScoreAt, Execute, ReadLedger;
    if a.Deliver? && a.source < |s.db.outbox| { assert MessageInv(s.db, s.db.outbox[a.source]); }
  }

  /**
   * The status of a live match lags: over every run in which no rebuild of it writes, its row says DRAFT until one
   * of its events is projected, however often the status change itself is delivered.
   */
  lemma {:induction false} StatusWaitsForEvent(atoms: seq<Atom>, k: nat, id: Id)
    requires k <= |atoms| && NoRebuild(atoms, id)
    ensures DraftUntilEvent(At(atoms, k), id)
  {
    if k > 0 {
      StatusWaitsForEvent(atoms, k - 1, id);
      RunKeeps(atoms, k - 1);
      AtStep(atoms, k - 1);
      DraftStep(At(atoms, k - 1), atoms[k - 1], id);
    }
  }
}
