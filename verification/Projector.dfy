/** The projector as the program runs it, with the two statements of a rebuild kept apart. */
module Projector {
  import opened Prelude
  import opened Domain
  import opened Ledger
  import opened Store
  import opened Tables
  import opened Projection
  import opened Convergence

  class SnapshotProjector {
    var inbox: set<nat>
    var rows: map<Id, Row>

    function Model(): ReadModel
      reads this
    {
      ReadModel(inbox, rows)
    }

    constructor ()
      ensures Model() == ReadModel({}, map[])
    {
      inbox, rows := {}, map[];
    }

    /**
     * One delivery of one outbox row; false is an error, after which the claim is rolled back. A duplicate is
     * acknowledged and changes nothing; the only message that fails is a status change, and it always does.
     */
    method Process(source: nat, message: Message) returns (ok: bool)
      modifies this
      ensures ok <==> source in old(inbox) || !message.StatusChanged?
      ensures if ok then inbox == old(inbox) + {source} else Model() == old(Model())
      ensures source in old(inbox) ==> ok && Model() == old(Model())
      ensures forall id :: id != message.matchId ==>
                (id in rows <==> id in old(rows)) && (id in rows ==> rows[id] == old(rows)[id])
      ensures (Model(), ok) == Project(old(Model()), source, message)
    {
      if source in inbox { return true; }
      inbox := inbox + {source};
      match message {
        case Created(id, organization, status, sequence) =>
          if id in rows {
            rows := rows[id := rows[id].(status := status, sequence := sequence)];
          } else {
            rows := rows[id := Row(organization, status, 0, 0, sequence)];
          }
        case StatusChanged(_, _) =>
          inbox := inbox - {source};
          return false;
        case Recorded(id, _, snapshot) => UpdateSnapshot(id, snapshot);
        case Reversed(id, _, snapshot) => UpdateSnapshot(id, snapshot);
      }
      ok := true;
    }

    /** UPDATE ... WHERE: a row that is missing or not older is left alone, without an error. */
    method UpdateSnapshot(id: Id, snapshot: Snapshot)
      modifies this
      ensures rows.Keys == old(rows).Keys
      ensures id in rows ==>
                var row := old(rows)[id];
                if row.sequence < snapshot.sequence
                   || (row.sequence == snapshot.sequence && Rank(row.status) < Rank(snapshot.status))
                then rows[id] == Row(row.organization, snapshot.status, snapshot.home, snapshot.away, snapshot.sequence)
                else rows[id] == row
      ensures inbox == old(inbox) && rows == ProjectSnapshot(old(rows), id, snapshot)
    {
      if id in rows && Newer(snapshot, rows[id]) {
        rows := rows[id := Overwrite(rows[id], snapshot)];
      }
    }

    /** The first statement of RebuildMatch. It sees the ledger as committed now and locks nothing. */
    method RebuildSelect(db: Db, id: Id) returns (read: Result<Row, Error>)
      ensures read == ReadLedger(db, id)
      ensures id !in db.matches ==> read == Err(MatchNotFound)
      ensures DbInv(db) && id in db.matches ==> read == Ok(CurrentRow(db.matches[id]))
    {
      if DbInv(db) && id in db.matches { RebuildAgrees(db, id); }
      if id !in db.matches { return Err(MatchNotFound); }
      var m := db.matches[id];
      if CastFails(m) { return Err(ConstraintViolation); }
      var sequence := MaxSequence(m.events);
      var reversed := m.reversals.Values;
      var home, away := Score(m.events, reversed, Home), Score(m.events, reversed, Away);
      read := Ok(Row(m.organization, m.status, home, away, sequence));
    }

    /**
     * Both statements of a rebuild, with the tables as they are at the read and as they have become by the write.
     * All rows stay good, but the rebuilt one is up to date only if its match has meanwhile gained no event and
     * kept its status.
     */
    method RebuildMatch(db: Db, ghost later: Db, id: Id) returns (error: Option<Error>)
      modifies this
      ensures inbox == old(inbox) && (error.Some? ==> rows == old(rows))
      ensures forall other :: other != id ==>
                (other in rows <==> other in old(rows)) && (other in rows ==> rows[other] == old(rows)[other])
      ensures DbInv(db) ==> (error == None <==> id in db.matches)
      ensures Passed(db, later) && RowsInv(later, old(rows)) ==> RowsInv(later, rows)
      ensures Passed(db, later) && id in db.matches ==>
                && id in rows && id in later.matches
                && (rows[id] == CurrentRow(later.matches[id]) <==> LiveMark(later.matches[id]) == LiveMark(db.matches[id]))
    {
      hide DbInv, DbGrows, RowInv, CurrentRow, LiveMark, ReadLedger;
      var read := RebuildSelect(db, id);
      if read.Err? { return Some(read.error); }
      rows := rows[id := read.value];
      error := None;
      if Passed(db, later) { ReadThenWrite(db, later, id); }
    }
  }

  ghost predicate RowsInv(db: Db, rows: map<Id, Row>) {
    forall id :: id in rows ==> RowInv(db, id, rows[id])
  }

  /** The tables as a rebuild finds them twice: consistent, and only grown in between. */
  ghost predicate Passed(db: Db, later: Db) { DbInv(db) && DbInv(later) && DbGrows(db, later) }

  lemma ReadStays(db: Db, later: Db, id: Id)
    requires Passed(db, later) && id in db.matches
    ensures id in later.matches && RowInv(later, id, CurrentRow(db.matches[id]))
    ensures MarkOf(CurrentRow(db.matches[id])) == LiveMark(db.matches[id])
  {
    hide DbInv, RowInv;
    RebuiltIsExact(db, id);
    assert RowInv(db, id, CurrentRow(db.matches[id])) by { assert RebuildInv(db, Rebuild(id, CurrentRow(db.matches[id]), false)); }
    RowStays(db, later, id, CurrentRow(db.matches[id]));
  }

  lemma RightByMark(db: Db, id: Id, row: Row)
    requires DbInv(db) && id in db.matches && RowInv(db, id, row)
    ensures row == CurrentRow(db.matches[id]) <==> MarkOf(row) == LiveMark(db.matches[id])
  {
    hide DbInv, RowInv, CurrentRow, MarkOf, LiveMark;
    CurrentExactly(System(db, ReadModel({}, map[id := row]), []), id);
  }

  /** A row read earlier is still a good row when it is written, and right if its match kept its mark. */
  lemma ReadThenWrite(db: Db, later: Db, id: Id)
    requires Passed(db, later) && id in db.matches
    ensures var row := CurrentRow(db.matches[id]);
            && id in later.matches && RowInv(later, id, row)
            && (row == CurrentRow(later.matches[id]) <==> LiveMark(later.matches[id]) == LiveMark(db.matches[id]))
  {
    hide DbInv, DbGrows, RowInv, CurrentRow, MarkOf, LiveMark;
    ReadStays(db, later, id);
    RightByMark(later, id, CurrentRow(db.matches[id]));
  }
}
