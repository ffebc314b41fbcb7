/** PostgresRepository: the commands, each shown to do what Execute says and nothing else. */
module Postgres {
  import opened Prelude
  import opened Text
  import opened Domain
  import opened Ledger
  import opened Store
  import opened Effects
  import opened Invariants
  import opened Tables
  import opened Listing
  import opened Repository

  type Answer = Result<Response, Error>

  class PostgresRepository {
    var matches: map<Id, Match>
    var records: map<Key, Record>
    var outbox: seq<Message>

    function Tables(): Db
      reads this
    {
      Db(matches, records, outbox)
    }

    constructor ()
      ensures Tables() == Db(map[], map[], [])
    {
      matches, records, outbox := map[], map[], [];
    }

    // -------------------------------------------------------------- the transaction protocol

    /** beginIdempotentMutation: drop an expired record, then try to reserve the key. */
    method Begin(r: Request, clock: Time, stamp: Time) returns (tx: Transaction, reserved: bool)
      ensures fresh(tx)
      ensures reserved == !Unexpired(Tables(), KeyOf(r), clock)
      ensures tx.Seen() == View(NO_MATCH, if reserved then Reservation(r, stamp) else records[KeyOf(r)], [])
    {
      var stored := if KeyOf(r) in records then Some(records[KeyOf(r)]) else None;
      if stored.Some? && stored.value.expires <= clock {
        stored := None;
      }
      reserved := stored.None?;
      if reserved {
        stored := Some(Reservation(r, stamp));
      }
      tx := new Transaction(stored.value);
    }

    /** readStoredJSON. */
    method ReadStored(tx: Transaction, hash: Hash) returns (answer: Answer)
      ensures answer == if tx.record.hash != hash then Err(IdempotencyConflict) else Ok(tx.record.response)
    {
      if tx.record.hash != hash {
        return Err(IdempotencyConflict);
      }
      answer := Ok(tx.record.response);
    }

    /** SELECT ... FOR UPDATE of the match row and its live row. */
    method Lock(tx: Transaction, id: Id) returns (found: bool)
      modifies tx
      ensures found == (id in matches)
      ensures tx.Seen() == if found then old(tx.Seen()).(current := matches[id]) else old(tx.Seen())
    {
      found := id in matches;
      if found {
        tx.current := matches[id];
      }
    }

    method Commit(tx: Transaction, r: Request, newId: Id)
      modifies this
      ensures Tables() == Install(old(Tables()), r, newId, tx.Seen())
    {
      matches := matches[TargetOf(r.command, newId) := tx.current];
      records := records[KeyOf(r) := tx.record];
      outbox := outbox + tx.outbox;
    }

    // -------------------------------------------------------------- setup

    method Create(organization: Id, playersPerSide: int, text: string, hash: Hash, clock: Time, stamp: Time, newId: Id)
      returns (answer: Answer)
      modifies this
      ensures (Tables(), answer)
           == Execute(old(Tables()), Request(Command.Create(organization, playersPerSide), text, hash), clock, stamp, newId)
    {
      hide Exec, ExecAll;
      var r := Request(Command.Create(organization, playersPerSide), text, hash);
      if playersPerSide < 2 || playersPerSide > 11 { return Err(InvalidInput); }
      var tx, reserved := Begin(r, clock, stamp);
      if !reserved { answer := ReadStored(tx, hash); return; }
      if newId in matches { return Err(ConstraintViolation); }
      var response := MatchResponse(newId, Some(organization), Draft, 0);
      ghost var plan := Decide(newId, NO_MATCH, r.command, newId).value;
      assert plan == [InsertDraft(organization, playersPerSide)]
                     + ([Enqueue(Created(newId, organization, Draft, 0))] + [SaveResponse(response)]);
      ExecFirst(tx.Seen(), plan[0], plan[1..]);
      var failure := tx.Run(InsertDraft(organization, playersPerSide));
      if failure.Some? { return Err(failure.value); }
      ExecFirst(tx.Seen(), plan[1], [plan[2]]);
      failure := tx.Run(Enqueue(Created(newId, organization, Draft, 0)));
      if failure.Some? { return Err(failure.value); }
      tx.Save(response);
      Commit(tx, r, newId);
      answer := Ok(response);
    }

    method ReplaceRoster(id: Id, roster: Roster, text: string, hash: Hash, clock: Time, stamp: Time, newId: Id)
      returns (answer: Answer)
      modifies this
      ensures (Tables(), answer)
           == Execute(old(Tables()), Request(Command.ReplaceRoster(id, roster), text, hash), clock, stamp, newId)
    {
      hide Exec, ExecAll, ValidRoster, LoadRoster;
      var r := Request(Command.ReplaceRoster(id, roster), text, hash);
      var tx, reserved := Begin(r, clock, stamp);
      if !reserved { answer := ReadStored(tx, hash); return; }
      var found := Lock(tx, id);
      if !found { return Err(MatchNotFound); }
      if tx.current.status != Draft { return Err(MatchNotDraft); }
      var ok := ValidateRoster(roster, tx.current.playersPerSide);
      if !ok { return Err(InvalidInput); }
      var all := roster.home + roster.away;
      ghost var goal := Attempt(Some(matches[id]), r, stamp, newId);
      assert [DeleteParticipants] + InsertParticipants(all) + [SaveRoster]
          == [DeleteParticipants] + (InsertParticipants(all) + [SaveRoster]);
      ExecFirst(tx.Seen(), DeleteParticipants, InsertParticipants(all) + [SaveRoster]);
      var failure := tx.Run(DeleteParticipants);
      if failure.Some? { return Err(failure.value); }
      assert all[0..] == all;
      for k := 0 to |all|
        invariant Tables() == old(Tables())
        invariant goal == ExecAll(tx.Seen(), InsertParticipants(all[k..]) + [SaveRoster])
      {
        assert InsertParticipants(all[k..]) + [SaveRoster]
            == [InsertParticipant(all[k])] + (InsertParticipants(all[k + 1..]) + [SaveRoster]);
        ExecFirst(tx.Seen(), InsertParticipant(all[k]), InsertParticipants(all[k + 1..]) + [SaveRoster]);
        failure := tx.Run(InsertParticipant(all[k]));
        if failure.Some? { return Err(failure.value); }
      }
      assert InsertParticipants(all[|all|..]) + [SaveRoster] == [SaveRoster];
      answer := SaveRosterAndCommit(tx, r, newId);
    }

    /** The common end of the roster and lineup commands: load what was written, store it, commit, answer it. */
    method SaveRosterAndCommit(tx: Transaction, r: Request, newId: Id) returns (answer: Answer)
      modifies this, tx
      ensures ExecAll(old(tx.Seen()), [SaveRoster]).Ok?
      ensures var v := ExecAll(old(tx.Seen()), [SaveRoster]).value;
              Tables() == Install(old(Tables()), r, newId, v) && answer == Ok(v.record.response)
    {
      ExecSaveRoster(tx.Seen());
      var roster := tx.LoadRosterRows();
      tx.Save(RosterResponse(roster));
      Commit(tx, r, newId);
      answer := Ok(RosterResponse(roster));
    }

    method SetInitialLineups(id: Id, home: seq<Id>, away: seq<Id>, text: string, hash: Hash,
                             clock: Time, stamp: Time, newId: Id)
      returns (answer: Answer)
      modifies this
      ensures (Tables(), answer)
           == Execute(old(Tables()), Request(SetLineups(id, home, away), text, hash), clock, stamp, newId)
    {
      hide Exec, ExecAll, LoadRoster;
      var r := Request(SetLineups(id, home, away), text, hash);
      var tx, reserved := Begin(r, clock, stamp);
      if !reserved { answer := ReadStored(tx, hash); return; }
      if home == [] || away == [] { return Err(InvalidInput); }
      var homeTwice := HasDuplicates(home);
      var awayTwice := HasDuplicates(away);
      if homeTwice || awayTwice { return Err(InvalidInput); }
      var found := Lock(tx, id);
      if !found { return Err(MatchNotFound); }
      if tx.current.status != Draft { return Err(MatchNotDraft); }
      if |home| != tx.current.playersPerSide || |away| != tx.current.playersPerSide { return Err(InvalidInput); }
      var homeSide, awaySide := SetLineupSide(Home, home), SetLineupSide(Away, away);
      assert [homeSide, awaySide, SaveRoster] == [homeSide] + ([awaySide] + [SaveRoster]);
      ExecFirst(tx.Seen(), homeSide, [awaySide] + [SaveRoster]);
      var failure := tx.Run(homeSide);
      if failure.Some? { return Err(failure.value); }
      ExecFirst(tx.Seen(), awaySide, [SaveRoster]);
      failure := tx.Run(awaySide);
      if failure.Some? { return Err(failure.value); }
      answer := SaveRosterAndCommit(tx, r, newId);
    }

    method MarkReady(id: Id, text: string, hash: Hash, clock: Time, stamp: Time, newId: Id) returns (answer: Answer)
      modifies this
      ensures (Tables(), answer)
           == Execute(old(Tables()), Request(Command.MarkReady(id), text, hash), clock, stamp, newId)
    {
      hide Exec, ExecAll, StarterCount;
      var r := Request(Command.MarkReady(id), text, hash);
      var tx, reserved := Begin(r, clock, stamp);
      if !reserved { answer := ReadStored(tx, hash); return; }
      var found := Lock(tx, id);
      if !found { return Err(MatchNotFound); }
      if tx.current.status != Draft { return Err(MatchNotDraft); }
      var homeStarters, awayStarters := StarterCount(tx.current.participants, Home), StarterCount(tx.current.participants, Away);
      if homeStarters != tx.current.playersPerSide || awayStarters != tx.current.playersPerSide {
        return Err(InvalidInput);
      }
      var response := MatchResponse(id, None, Ready, 0);
      assert [SetStatus(Ready), SaveResponse(response)] == [SetStatus(Ready)] + [SaveResponse(response)];
      ExecFirst(tx.Seen(), SetStatus(Ready), [SaveResponse(response)]);
      var failure := tx.Run(SetStatus(Ready));
      if failure.Some? { return Err(failure.value); }
      tx.Save(response);
      Commit(tx, r, newId);
      answer := Ok(response);
    }

    /** The LIVE snapshot of the domain function is dropped: the one read under the lock is published and returned. */
    method StartLiveSession(id: Id, text: string, hash: Hash, clock: Time, stamp: Time, newId: Id)
      returns (answer: Answer)
      modifies this
      ensures (Tables(), answer)
           == Execute(old(Tables()), Request(StartLive(id), text, hash), clock, stamp, newId)
    {
      hide Exec, ExecAll, StarterCount;
      var r := Request(StartLive(id), text, hash);
      var tx, reserved := Begin(r, clock, stamp);
      if !reserved { answer := ReadStored(tx, hash); return; }
      var found := Lock(tx, id);
      if !found { return Err(MatchNotFound); }
      var snapshot := SnapshotOf(id, tx.current);
      match Domain.StartLiveSession(snapshot) {
        case Err(e) => return Err(e);
        case Ok(_) =>
      }
      var homeStarters, awayStarters := StarterCount(tx.current.participants, Home), StarterCount(tx.current.participants, Away);
      if homeStarters != tx.current.playersPerSide || awayStarters != tx.current.playersPerSide {
        return Err(InvalidInput);
      }
      var response, message := SnapshotResponse(snapshot), StatusChanged(id, snapshot);
      assert [SetStatus(Live), Enqueue(message), SaveResponse(response)]
          == [SetStatus(Live)] + ([Enqueue(message)] + [SaveResponse(response)]);
      ExecFirst(tx.Seen(), SetStatus(Live), [Enqueue(message)] + [SaveResponse(response)]);
      var failure := tx.Run(SetStatus(Live));
      if failure.Some? { return Err(failure.value); }
      ExecFirst(tx.Seen(), Enqueue(message), [SaveResponse(response)]);
      failure := tx.Run(Enqueue(message));
      if failure.Some? { return Err(failure.value); }
      tx.Save(response);
      Commit(tx, r, newId);
      answer := Ok(response);
    }

    // -------------------------------------------------------------- the ledger

    /** Append locks the match even for a retry, so an unknown match wins over a stored answer. */
    method Append(id: Id, c: AppendCommand, text: string, hash: Hash, clock: Time, stamp: Time, newId: Id)
      returns (answer: Answer)
      modifies this
      ensures (Tables(), answer)
           == Execute(old(Tables()), Request(Command.Append(id, c), text, hash), clock, stamp, newId)
    {
      hide Exec, ExecAll, ValidCommand, EncodeQualifiers, ApplyEvent, WrongSide, DecideAppend;
      var r := Request(Command.Append(id, c), text, hash);
      var ok := ValidateCommand(c);
      if !ok { return Err(InvalidInput); }
      var tx, reserved := Begin(r, clock, stamp);
      var found := Lock(tx, id);
      if !found { return Err(MatchNotFound); }
      if !reserved { answer := ReadStored(tx, hash); return; }
      var decided := CheckAppend(id, tx.current, c, newId);
      if decided.Err? { return Err(decided.error); }
      var (event, updated, qualifiers) := decided.value;
      var view := EventView(event.id, event.sequence, c.action, c.side, c.subjects, qualifiers);
      var row := EventRow(event.id, c.clientId, event.sequence, c.action, c.side, qualifiers);
      answer := RunEvent(tx, row, c.subjects, None, updated, Recorded(id, view, updated),
                         EventResponse(view, updated));
      assert AppendPlan(id, c, event, updated, qualifiers)
          == EventPlan(row, c.subjects, None, updated, Recorded(id, view, updated), EventResponse(view, updated));
      if answer.Ok? { Commit(tx, r, newId); }
    }

    /** The statements both ledger commands end with; link is the row Reverse adds to event_reversals. */
    static function EventPlan(row: EventRow, subjects: seq<Subject>, link: Option<(Id, string)>, next: Snapshot,
                              message: Message, response: Response): seq<Stmt> {
      [InsertEvent(row)]
      + (InsertSubjects(Numbered(row.id, subjects))
         + ((if link.Some? then [InsertReversal(row.id, link.value.0, link.value.1)] else [])
            + ([UpdateLive(next.sequence, next.home, next.away)] + ([Enqueue(message)] + [SaveResponse(response)]))))
    }

    method RunEvent(tx: Transaction, row: EventRow, subjects: seq<Subject>, link: Option<(Id, string)>, next: Snapshot,
                    message: Message, response: Response)
      returns (answer: Answer)
      modifies tx
      ensures match old(ExecAll(tx.Seen(), EventPlan(row, subjects, link, next, message, response)))
              case Err(e) => answer == Err(e)
              case Ok(v) => answer == Ok(response) && tx.Seen() == v && v.record.response == response
    {
      hide Exec, ExecAll;
      ghost var last := [Enqueue(message)] + [SaveResponse(response)];
      var live := UpdateLive(next.sequence, next.home, next.away);
      ghost var linked := (if link.Some? then [InsertReversal(row.id, link.value.0, link.value.1)] else []) + ([live] + last);
      ExecFirst(tx.Seen(), InsertEvent(row), InsertSubjects(Numbered(row.id, subjects)) + linked);
      var failure := tx.Run(InsertEvent(row));
      if failure.Some? { return Err(failure.value); }
      failure := tx.InsertAllSubjects(row.id, subjects, linked);
      if failure.Some? { return Err(failure.value); }
      if link.Some? {
        ExecFirst(tx.Seen(), InsertReversal(row.id, link.value.0, link.value.1), [live] + last);
        failure := tx.Run(InsertReversal(row.id, link.value.0, link.value.1));
        if failure.Some? { return Err(failure.value); }
      } else {
        assert linked == [live] + last;
      }
      ExecFirst(tx.Seen(), live, last);
      failure := tx.Run(live);
      if failure.Some? { return Err(failure.value); }
      ExecFirst(tx.Seen(), Enqueue(message), [SaveResponse(response)]);
      failure := tx.Run(Enqueue(message));
      if failure.Some? { return Err(failure.value); }
      tx.Save(response);
      answer := Ok(response);
    }

    /** The checks of Append under the lock, up to the encoded qualifiers. */
    method CheckAppend(id: Id, m: Match, c: AppendCommand, newId: Id)
      returns (decided: Result<(Event, Snapshot, map<string, Json>), Error>)
      ensures match DecideAppend(id, m, c, newId)
              case Err(e) => decided == Err(e)
              case Ok(plan) =>
                && decided.Ok?
                && plan == AppendPlan(id, c, decided.value.0, decided.value.1, decided.value.2)
    {
      hide WrongSide, EncodeQualifiers, ApplyEvent, AppendPlan;
      var unique := UniqueParticipantIds(c.subjects);
      if |RosterIds(m.participants) * unique| != |unique| { return Err(InvalidInput); }
      var misplaced := SubjectsMisplaced(m.participants, c.side, c.subjects);
      if misplaced { return Err(InvalidInput); }
      match ApplyEvent(SnapshotOf(id, m), c, newId) {
        case Err(e) => return Err(e);
        case Ok((event, updated)) =>
          var encoded := EncodeQualifiers(c.qualifiers);
          if encoded.None? { return Err(EncodingFailed); }
          return Ok((event, updated, encoded.value));
      }
    }

    method Reverse(id: Id, eventId: Id, clientId: Id, expected: int, reason: string, text: string, hash: Hash,
                   clock: Time, stamp: Time, newId: Id)
      returns (answer: Answer)
      modifies this
      ensures (Tables(), answer)
           == Execute(old(Tables()), Request(Command.Reverse(id, eventId, clientId, expected, reason), text, hash),
                      clock, stamp, newId)
    {
      hide Exec, ExecAll, DecideReverse, SubjectsOf;
      var r := Request(Command.Reverse(id, eventId, clientId, expected, reason), text, hash);
      if expected < 0 || ByteLength(TrimSpace(reason)) < 3 || ByteLength(reason) > 500 { return Err(InvalidInput); }
      var tx, reserved := Begin(r, clock, stamp);
      if !reserved { answer := ReadStored(tx, hash); return; }
      var found := Lock(tx, id);
      if !found { return Err(MatchNotFound); }
      var decided := CheckReverse(tx, id, eventId, clientId, expected, reason, newId);
      if decided.Err? { return Err(decided.error); }
      var (event, updated, qualifiers) := decided.value;
      var c := event.command;
      var view := EventView(event.id, event.sequence, EventReversal, c.side, c.subjects, qualifiers);
      var row := EventRow(event.id, clientId, event.sequence, EventReversal, c.side, qualifiers);
      answer := RunEvent(tx, row, c.subjects, Some((eventId, TrimSpace(reason))), updated, Reversed(id, view, updated),
                         EventResponse(view, updated));
      assert ReversePlan(id, eventId, clientId, TrimSpace(reason), event, updated, qualifiers)
          == EventPlan(row, c.subjects, Some((eventId, TrimSpace(reason))), updated, Reversed(id, view, updated), EventResponse(view, updated));
      if answer.Ok? { Commit(tx, r, newId); }
    }

    method CheckReverse(tx: Transaction, id: Id, eventId: Id, clientId: Id, expected: int, reason: string, newId: Id)
      returns (decided: Result<(Event, Snapshot, map<string, Json>), Error>)
      ensures match DecideReverse(id, tx.current, eventId, clientId, expected, reason, newId)
              case Err(e) => decided == Err(e)
              case Ok(plan) =>
                && decided.Ok?
                && plan == ReversePlan(id, eventId, clientId, TrimSpace(reason), decided.value.0, decided.value.1, decided.value.2)
    {
      hide ReversePlan, SubjectsOf, ReverseEvent, EncodeQualifiers;
      var m := tx.current;
      if m.sequence != expected { return Err(SequenceConflict); }
      match FindEvent(m.events, eventId) {
        case None => return Err(EventNotFound);
        case Some(row) =>
          if eventId in m.reversals.Values { return Err(EventAlreadyReversed); }
          var subjects := tx.LoadSubjects(row.id);
          var original := Event(row.id, 0, AppendCommand(row.clientId, 0, row.action, row.side, subjects,
                                                         DecodeQualifiers(row.qualifiers)));
          match ReverseEvent(SnapshotOf(id, m), original, clientId, TrimSpace(reason), newId) {
            case Err(e) => return Err(e);
            case Ok((event, updated)) =>
              var encoded := EncodeQualifiers(event.command.qualifiers);
              if encoded.None? { return Err(EncodingFailed); }
              return Ok((event, updated, encoded.value));
          }
      }
    }

    // -------------------------------------------------------------- reads

    /** In consistent tables the answer is the ledger's: its length, and each side's sum over unreversed events. */
    method GetSnapshot(id: Id) returns (answer: Result<Snapshot, Error>)
      ensures answer.Err? <==> id !in matches
      ensures answer.Err? ==> answer.error == MatchNotFound
      ensures DbInv(Tables()) && id in matches ==>
                var m := matches[id];
                answer == Ok(Snapshot(id, m.status, |m.events|, Score(m.events, m.reversals.Values, Home),
                                      Score(m.events, m.reversals.Values, Away)))
    {
      if id !in matches { return Err(MatchNotFound); }
      answer := Ok(SnapshotOf(id, matches[id]));
      if DbInv(Tables()) { assert MatchInv(matches[id]); }
    }

    /** In consistent tables the answer is the later events themselves, and the sequence of the last of them. */
    method ListEvents(id: Id, after: int) returns (answer: Result<(seq<EventView>, int), Error>)
      ensures after < 0 <==> answer == Err(InvalidInput)
      ensures after >= 0 && id !in matches <==> answer == Err(MatchNotFound)
      ensures DbInv(Tables()) && after >= 0 && id in matches ==>
                var m := matches[id];
                var later := if after <= |m.events| then m.events[after..] else [];
                && answer.Ok? && answer.value.1 == (if later == [] then 0 else |m.events|)
                && |answer.value.0| == |later|
                && forall i :: 0 <= i < |later| ==>
                     var item := answer.value.0[i];
                     && item.id == later[i].id && item.sequence == later[i].sequence && item.action == later[i].action
                     && item.side == later[i].side && item.qualifiers == later[i].qualifiers
                     && item.subjects == SubjectsOf(m.subjects, later[i].id)
    {
      if after < 0 { return Err(InvalidInput); }
      if id !in matches { return Err(MatchNotFound); }
      var items, last := GroupRows(ListQuery(matches[id], after));
      answer := Ok((items, last));
      if DbInv(Tables()) {
        assert MatchInv(matches[id]);
        ListedLast(matches[id], after);
      }
    }
  }
}
