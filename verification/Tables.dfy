/** The database as a whole: what every command, run alone, keeps about all tables together. */
module Tables {
  import opened Domain
  import opened Store
  import opened Invariants
  import opened Commands

  ghost predicate MatchesInv(db: Db) {
    forall id :: id in db.matches ==> MatchInv(db.matches[id])
  }

  /** Every stored record holds a real answer, never the empty object it was reserved with. */
  ghost predicate RecordsInv(db: Db) {
    forall k :: k in db.records ==> db.records[k].response != Placeholder
  }

  /** A published event carries the ledger's point score at its own sequence number. */
  ghost predicate MessageInv(db: Db, message: Message) {
    && message.matchId in db.matches
    && (message.Created? ==> message.status == Draft && message.sequence == 0
                             && message.organization == db.matches[message.matchId].organization)
    && (IsEvent(message) ==>
          var m := db.matches[message.matchId];
          && 1 <= message.snapshot.sequence <= |m.events|
          && message.snapshot == SnapshotAt(message.matchId, m, message.snapshot.sequence))
  }

  ghost predicate MessagesInv(db: Db) {
    forall i :: 0 <= i < |db.outbox| ==> MessageInv(db, db.outbox[i])
  }

  ghost predicate Carries(message: Message, id: Id, k: int) {
    IsEvent(message) && message.matchId == id && message.snapshot.sequence == k
  }

  ghost predicate HasMessage(outbox: seq<Message>, id: Id, k: int) {
    exists i :: 0 <= i < |outbox| && Carries(outbox[i], id, k)
  }

  ghost predicate HasCreation(outbox: seq<Message>, id: Id) {
    exists i :: 0 <= i < |outbox| && outbox[i].Created? && outbox[i].matchId == id
  }

  /** Each match has announced its creation and every one of its events. */
  ghost predicate OutboxComplete(db: Db) {
    forall id :: id in db.matches ==>
      HasCreation(db.outbox, id) && forall k :: 1 <= k <= |db.matches[id].events| ==> HasMessage(db.outbox, id, k)
  }

  ghost predicate CreatedOnce(outbox: seq<Message>) {
    forall i, j :: 0 <= i < j < |outbox| && outbox[i].Created? && outbox[j].Created? ==> outbox[i].matchId != outbox[j].matchId
  }

  ghost predicate DbInv(db: Db) {
    MatchesInv(db) && RecordsInv(db) && MessagesInv(db) && OutboxComplete(db) && CreatedOnce(db.outbox)
  }

  lemma InvOfMatch(db: Db, id: Id)
    requires DbInv(db) && id in db.matches
    ensures MatchInv(db.matches[id])
  {
  }

  const EMPTY: Db := Db(map[], map[], [])

  lemma EmptyInv() ensures DbInv(EMPTY) {
  }

  ghost predicate DbGrows(db: Db, db': Db) {
    && db.outbox <= db'.outbox
    && (forall id :: id in db.matches ==> id in db'.matches && Grows(id, db.matches[id], db'.matches[id]))
  }

  // ---------------------------------------------------------------- one commit

  /** What Install adds: a match state that grew or is new, a finished record, and the matching messages. */
  ghost predicate GoodCommit(db: Db, r: Request, newId: Id, v: View) {
    var id := TargetOf(r.command, newId);
    && MatchInv(v.current) && v.record.response != Placeholder
    && (if id in db.matches then
          Grows(id, db.matches[id], v.current) && Published(id, db.matches[id], v.current, v.outbox)
        else
          v.current.events == [] && v.outbox == [Created(id, v.current.organization, Draft, 0)])
  }

  lemma HasMessageMore(outbox: seq<Message>, more: seq<Message>, id: Id, k: int)
    ensures HasMessage(outbox, id, k) ==> HasMessage(outbox + more, id, k)
    ensures HasMessage(more, id, k) ==> HasMessage(outbox + more, id, k)
  {
    if HasMessage(outbox, id, k) {
      var i :| 0 <= i < |outbox| && Carries(outbox[i], id, k);
      assert (outbox + more)[i] == outbox[i];
    }
    if HasMessage(more, id, k) {
      var i :| 0 <= i < |more| && Carries(more[i], id, k);
      assert (outbox + more)[|outbox| + i] == more[i];
    }
  }

  lemma HasCreationMore(outbox: seq<Message>, more: seq<Message>, id: Id)
    ensures HasCreation(outbox, id) || HasCreation(more, id) ==> HasCreation(outbox + more, id)
  {
    if HasCreation(outbox, id) {
      var i :| 0 <= i < |outbox| && outbox[i].Created? && outbox[i].matchId == id;
      assert (outbox + more)[i] == outbox[i];
    } else if HasCreation(more, id) {
      var i :| 0 <= i < |more| && more[i].Created? && more[i].matchId == id;
      assert (outbox + more)[|outbox| + i] == more[i];
    }
  }

  lemma InstallGrows(db: Db, r: Request, newId: Id, v: View)
    requires GoodCommit(db, r, newId, v)
    ensures DbGrows(db, Install(db, r, newId, v))
  {
    hide MatchInv, Published;
    forall id | id in db.matches ensures Grows(id, db.matches[id], Install(db, r, newId, v).matches[id]) {
      if id != TargetOf(r.command, newId) { GrowsSame(id, db.matches[id], db.matches[id]); }
    }
  }

  lemma MessageStays(db: Db, db': Db, message: Message)
    requires MessageInv(db, message) && DbGrows(db, db')
    ensures MessageInv(db', message)
  {
    hide SnapshotAt;
    var id := message.matchId;
    assert Grows(id, db.matches[id], db'.matches[id]);
    if IsEvent(message) {
      assert SnapshotAt(id, db'.matches[id], message.snapshot.sequence)
          == SnapshotAt(id, db.matches[id], message.snapshot.sequence);
    }
  }

  lemma InstallMessages(db: Db, r: Request, newId: Id, v: View)
    requires MessagesInv(db) && GoodCommit(db, r, newId, v)
    ensures MessagesInv(Install(db, r, newId, v))
  {
    hide MatchInv;
    var db' := Install(db, r, newId, v);
    var id := TargetOf(r.command, newId);
    InstallGrows(db, r, newId, v);
    forall i | 0 <= i < |db'.outbox| ensures MessageInv(db', db'.outbox[i]) {
      if i < |db.outbox| {
        MessageStays(db, db', db.outbox[i]);
      } else {
        assert db'.outbox[i] == v.outbox[i - |db.outbox|];
        SnapshotIsCurrent(id, v.current) by { SequenceCountsEvents(v.current); }
        assert v.current.sequence == |v.current.events| by { SequenceCountsEvents(v.current); }
      }
    }
  }

  lemma SequenceCountsEvents(m: Match)
    requires MatchInv(m)
    ensures m.sequence == |m.events|
  {
  }

  lemma InstallComplete(db: Db, r: Request, newId: Id, v: View)
    requires OutboxComplete(db) && GoodCommit(db, r, newId, v)
    ensures OutboxComplete(Install(db, r, newId, v))
  {
    var db' := Install(db, r, newId, v);
    var target := TargetOf(r.command, newId);
    SequenceCountsEvents(v.current);
    hide MatchInv, Grows;
    forall id | id in db'.matches
      ensures HasCreation(db'.outbox, id) && forall k :: 1 <= k <= |db'.matches[id].events| ==> HasMessage(db'.outbox, id, k)
    {
      HasCreationMore(db.outbox, v.outbox, id);
      if id !in db.matches {
        assert v.outbox[0].Created?;
      } else {
        forall k | 1 <= k <= |db'.matches[id].events| ensures HasMessage(db'.outbox, id, k) {
          HasMessageMore(db.outbox, v.outbox, id, k);
          if k > |db.matches[id].events| {
            assert id == target && Carries(v.outbox[0], id, k);
          }
        }
      }
    }
  }

  lemma InstallCreatedOnce(db: Db, r: Request, newId: Id, v: View)
    requires MessagesInv(db) && CreatedOnce(db.outbox) && GoodCommit(db, r, newId, v)
    ensures CreatedOnce(Install(db, r, newId, v).outbox)
  {
    hide MatchInv, Grows, SnapshotAt;
    var all := db.outbox + v.outbox;
    forall i, j | 0 <= i < j < |all| && all[i].Created? && all[j].Created? ensures all[i].matchId != all[j].matchId {
      if j < |db.outbox| {
        assert all[i] == db.outbox[i] && all[j] == db.outbox[j];
      } else {
        assert all[j] == v.outbox[j - |db.outbox|];
        assert i < |db.outbox| && MessageInv(db, db.outbox[i]);
      }
    }
  }

  lemma {:induction false} InstallKeeps(db: Db, r: Request, newId: Id, v: View)
    requires DbInv(db) && GoodCommit(db, r, newId, v)
    ensures DbInv(Install(db, r, newId, v)) && DbGrows(db, Install(db, r, newId, v))
  {
    hide MatchInv, MessagesInv, OutboxComplete, CreatedOnce, DbGrows, Grows, Published;
    InstallGrows(db, r, newId, v);
    InstallMessages(db, r, newId, v);
    InstallComplete(db, r, newId, v);
    InstallCreatedOnce(db, r, newId, v);
  }

  // ---------------------------------------------------------------- one command

  lemma AttemptGood(db: Db, r: Request, stamp: Time, newId: Id)
    requires MatchesInv(db) && WellFormed(r.command)
    requires Attempt(Lookup(db, TargetOf(r.command, newId)), r, stamp, newId).Ok?
    ensures var v := Attempt(Lookup(db, TargetOf(r.command, newId)), r, stamp, newId).value;
            GoodCommit(db, r, newId, v) && GoodRecord(r, stamp, v.record)
  {
    var target := TargetOf(r.command, newId);
    if r.command.Create? {
      assert target !in db.matches;
      hide Attempt, MatchInv;
      CreateOutcome(r, stamp, newId);
      DraftInv(r.command.organization, r.command.playersPerSide);
    } else {
      assert target in db.matches;
      hide Attempt, MatchInv, Grows, Published;
      AttemptSucceeds(db.matches[target], r, stamp, newId);
    }
  }

  /** Every command, whatever its answer, keeps all table invariants and only ever extends what is there. */
  lemma ExecuteKeeps(db: Db, r: Request, clock: Time, stamp: Time, newId: Id)
    requires DbInv(db)
    ensures DbInv(Execute(db, r, clock, stamp, newId).0) && DbGrows(db, Execute(db, r, clock, stamp, newId).0)
  {
    hide Attempt, MessagesInv, OutboxComplete, CreatedOnce, MatchInv, Grows, GoodCommit;
    DbGrowsSame(db);
    if WellFormed(r.command) && !Unexpired(db, KeyOf(r), clock)
       && Attempt(Lookup(db, TargetOf(r.command, newId)), r, stamp, newId).Ok? {
      AttemptGood(db, r, stamp, newId);
      InstallKeeps(db, r, newId, Attempt(Lookup(db, TargetOf(r.command, newId)), r, stamp, newId).value);
    }
  }

  /** With no stored answer under its key, a command succeeds exactly when it is well formed and its attempt does. */
  lemma FreshSucceeds(db: Db, r: Request, clock: Time, stamp: Time, newId: Id)
    requires !Unexpired(db, KeyOf(r), clock)
    ensures Execute(db, r, clock, stamp, newId).1.Ok? <==>
              WellFormed(r.command) && Attempt(Lookup(db, TargetOf(r.command, newId)), r, stamp, newId).Ok?
  {
    hide Attempt, WellFormed;
  }

  lemma DbGrowsSame(db: Db) ensures DbGrows(db, db) {
    forall id | id in db.matches ensures Grows(id, db.matches[id], db.matches[id]) {
      GrowsSame(id, db.matches[id], db.matches[id]);
    }
  }

  lemma DbGrowsTransitive(a: Db, b: Db, c: Db)
    requires DbGrows(a, b) && DbGrows(b, c)
    ensures DbGrows(a, c)
  {
    forall id | id in a.matches ensures Grows(id, a.matches[id], c.matches[id]) {
      GrowsTransitive(id, a.matches[id], b.matches[id], c.matches[id]);
    }
  }

  lemma GrowsTransitive(id: Id, m: Match, m': Match, m'': Match)
    requires Grows(id, m, m') && Grows(id, m', m'')
    ensures Grows(id, m, m'')
  {
    hide SnapshotAt;
    forall k | 0 <= k <= |m.events| ensures SnapshotAt(id, m'', k) == SnapshotAt(id, m, k) {
      assert SnapshotAt(id, m', k) == SnapshotAt(id, m, k);
    }
  }
}
