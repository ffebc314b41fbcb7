/** Whole runs of the system: who wins a sequence number, what a retry gets, what never changes again. */
module History {
  import opened Prelude
  import opened Domain
  import opened Ledger
  import opened Store
  import opened Effects
  import opened Invariants
  import opened Setup
  import opened Commands
  import opened Tables
  import opened Projection
  import opened Convergence

  /** The command ran for real and committed, rather than failing or replaying a stored answer. */
  ghost predicate Performs(s: System, a: Atom) {
    a.Run? && WellFormed(a.request.command) && !Unexpired(s.db, KeyOf(a.request), a.clock)
    && Attempt(Lookup(s.db, TargetOf(a.request.command, a.newId)), a.request, a.stamp, a.newId).Ok?
  }

  predicate IsLedgerCommand(c: Command) { c.Append? || c.Reverse? }

  function ExpectedOf(c: Command): int
    requires IsLedgerCommand(c)
  {
    if c.Append? then c.event.expected else c.expected
  }

  function ClientOf(c: Command): Id
    requires IsLedgerCommand(c)
  {
    if c.Append? then c.event.clientId else c.clientId
  }

  // ---------------------------------------------------------------- one winner per sequence number

  /** A performed ledger command found the sequence it expected and adds exactly one row, under a new client id. */
  lemma LedgerCommandAddsOne(s: System, a: Atom)
    requires SystemInv(s) && Performs(s, a) && IsLedgerCommand(a.request.command)
    ensures var id := a.request.command.matchId;
            var db' := Next(s, a).db;
            && id in s.db.matches && id in db'.matches
            && EventCount(s.db, id) == ExpectedOf(a.request.command)
            && EventCount(db', id) == ExpectedOf(a.request.command) + 1
            && !HasClient(s.db.matches[id].events, ClientOf(a.request.command))
            && HasClient(db'.matches[id].events, ClientOf(a.request.command))
  {
    var c := a.request.command;
    var id := c.matchId;
    assert id in s.db.matches;
    var m := s.db.matches[id];
    assert MatchInv(m);
    var rec := Reservation(a.request, a.stamp);
    hide Exec, ExecAll, DecideAppend, DecideReverse, SubjectRows, SubjectInv, SetupInv, DbInv, SystemInv, Score, Faithful, Numbered;
    if c.Append? {
      var row, next, v := AppendEffect(id, m, c.event, a.newId, rec);
      assert v.current.events[|m.events|] == row;
    } else {
      var i, row, next, v := ReverseEffect(id, m, c.eventId, c.clientId, c.expected, c.reason, a.newId, rec);
      assert v.current.events[|m.events|] == row;
    }
  }

  /**
   * At most one append or reversal of a match ever commits for a given expected sequence, in any run: later
   * commits always expected more. And no client_event_id enters a ledger twice, whatever expired in between.
   */
  lemma OneWinner(atoms: seq<Atom>, i: nat, j: nat)
    requires i < j < |atoms|
    requires Performs(At(atoms, i), atoms[i]) && IsLedgerCommand(atoms[i].request.command)
    requires Performs(At(atoms, j), atoms[j]) && IsLedgerCommand(atoms[j].request.command)
    requires atoms[i].request.command.matchId == atoms[j].request.command.matchId
    ensures ExpectedOf(atoms[i].request.command) < ExpectedOf(atoms[j].request.command)
    ensures ClientOf(atoms[i].request.command) != ClientOf(atoms[j].request.command)
  {
    assert atoms[i].Run? && atoms[j].Run?;
    hide SystemInv, Performs, Next, At;
    var id := atoms[i].request.command.matchId;
    RunKeeps(atoms, i);
    RunKeeps(atoms, j);
    LedgerCommandAddsOne(At(atoms, i), atoms[i]);
    LedgerCommandAddsOne(At(atoms, j), atoms[j]);
    AtStep(atoms, i);
    EventCountGrows(atoms, i + 1, j, id);
    EventsStay(atoms, i + 1, j, id, ClientOf(atoms[i].request.command));
  }

  lemma EventsStay(atoms: seq<Atom>, i: nat, j: nat, id: Id, clientId: Id)
    requires i <= j <= |atoms| && id in At(atoms, i).db.matches
    requires HasClient(At(atoms, i).db.matches[id].events, clientId)
    ensures id in At(atoms, j).db.matches && HasClient(At(atoms, j).db.matches[id].events, clientId)
  {
    RunGrows(atoms, i, j);
    var m, m' := At(atoms, i).db.matches[id], At(atoms, j).db.matches[id];
    assert Grows(id, m, m');
    var k :| 0 <= k < |m.events| && m.events[k].clientId == clientId;
    assert m'.events[k] == m.events[k];
  }

  // ---------------------------------------------------------------- exactly once

  /** Keys never collide: one key means one text, one kind of command, one match (or organization) and one client id. */
  lemma KeysSeparate(a: Request, b: Request)
    requires KeyOf(a) == KeyOf(b)
    ensures a.text == b.text
    ensures match a.command
            case Create(o, _) => b.command.Create? && b.command.organization == o
            case ReplaceRoster(id, _) => b.command.ReplaceRoster? && b.command.matchId == id
            case SetLineups(id, _, _) => b.command.SetLineups? && b.command.matchId == id
            case MarkReady(id) => b.command.MarkReady? && b.command.matchId == id
            case StartLive(id) => b.command.StartLive? && b.command.matchId == id
            case Append(id, e) => b.command.Append? && b.command.matchId == id && b.command.event.clientId == e.clientId
            case Reverse(id, _, c, _, _) => b.command.Reverse? && b.command.matchId == id && b.command.clientId == c
  {
  }

  /** No attempt to reuse the key between the two points comes after the record has expired. */
  ghost predicate InTime(atoms: seq<Atom>, i: nat, j: nat, key: Key, expires: Time) {
    forall k :: i <= k < j && k < |atoms| && atoms[k].Run? && KeyOf(atoms[k].request) == key ==> atoms[k].clock < expires
  }

  lemma RecordStep(s: System, a: Atom, key: Key)
    requires key in s.db.records
    requires a.Run? && KeyOf(a.request) == key ==> a.clock < s.db.records[key].expires
    ensures key in Next(s, a).db.records && Next(s, a).db.records[key] == s.db.records[key]
  {
    hide Attempt;
  }

  lemma {:induction false} RecordSurvives(atoms: seq<Atom>, i: nat, j: nat, key: Key)
    requires i <= j <= |atoms| && key in At(atoms, i).db.records
    requires InTime(atoms, i, j, key, At(atoms, i).db.records[key].expires)
    ensures key in At(atoms, j).db.records && At(atoms, j).db.records[key] == At(atoms, i).db.records[key]
    decreases j
  {
    if i < j {
      RecordSurvives(atoms, i, j - 1, key);
      AtStep(atoms, j - 1);
      RecordStep(At(atoms, j - 1), atoms[j - 1], key);
    }
  }

  lemma PerformedRecord(s: System, a: Atom)
    requires SystemInv(s) && Performs(s, a) && Possible(s, a)
    ensures var db' := Next(s, a).db;
            && a.answer.Ok? && KeyOf(a.request) in db'.records
            && db'.records[KeyOf(a.request)]
                 == Record(a.request.hash, a.answer.value, a.stamp + 86_400)
            && a.answer.value != Placeholder
            && TargetOf(a.request.command, a.newId) in db'.matches
  {
    hide Attempt, MessagesInv, OutboxComplete, CreatedOnce, MatchInv;
    AttemptGood(s.db, a.request, a.stamp, a.newId);
  }

  /**
   * Exactly once: after a committed command, any well-formed request under the same scope and key before the
   * record expires gets the first answer when its hash is the same and a conflict when it differs, and changes
   * nothing, no matter what ran in between.
   */
  lemma RetryReturnsFirst(atoms: seq<Atom>, i: nat, j: nat)
    requires i < j < |atoms| && ValidRun(START, atoms)
    requires Performs(At(atoms, i), atoms[i])
    requires atoms[j].Run? && KeyOf(atoms[j].request) == KeyOf(atoms[i].request) && WellFormed(atoms[j].request.command)
    requires InTime(atoms, i + 1, j + 1, KeyOf(atoms[i].request), atoms[i].stamp + 86_400)
    ensures atoms[j].answer == if atoms[j].request.hash == atoms[i].request.hash then atoms[i].answer
                               else Err(IdempotencyConflict)
    ensures At(atoms, j + 1) == At(atoms, j)
  {
    hide SystemInv, Performs, At, InTime, ValidRun, Execute, Attempt, WellFormed;
    FirstRecordKept(atoms, i, j);
    PossibleAt(atoms, j);
    AtStep(atoms, j);
    Replays(At(atoms, j).db, atoms[j].request, atoms[j].clock, atoms[j].stamp, atoms[j].newId);
  }

  /** What a retry finds: the first command's record, still unexpired, and its match. */
  lemma FirstRecordKept(atoms: seq<Atom>, i: nat, j: nat)
    requires i < j < |atoms| && ValidRun(START, atoms)
    requires Performs(At(atoms, i), atoms[i])
    requires atoms[j].Run? && KeyOf(atoms[j].request) == KeyOf(atoms[i].request)
    requires InTime(atoms, i + 1, j + 1, KeyOf(atoms[i].request), atoms[i].stamp + 86_400)
    ensures var db, key := At(atoms, j).db, KeyOf(atoms[i].request);
            && atoms[i].answer.Ok? && Unexpired(db, key, atoms[j].clock)
            && db.records[key].hash == atoms[i].request.hash && db.records[key].response == atoms[i].answer.value
            && TargetOf(atoms[i].request.command, atoms[i].newId) in db.matches
  {
    assert atoms[i].Run?;
    hide SystemInv, Performs, At, ValidRun, Execute, Attempt, WellFormed, Next;
    PossibleAt(atoms, i);
    RunKeeps(atoms, i);
    PerformedRecord(At(atoms, i), atoms[i]);
    AtStep(atoms, i);
    RecordSurvives(atoms, i + 1, j, KeyOf(atoms[i].request));
    TargetStays(atoms, i + 1, j, TargetOf(atoms[i].request.command, atoms[i].newId));
  }

  lemma Replays(db: Db, r: Request, clock: Time, stamp: Time, newId: Id)
    requires WellFormed(r.command) && Unexpired(db, KeyOf(r), clock)
    requires r.command.Append? ==> r.command.matchId in db.matches
    ensures Execute(db, r, clock, stamp, newId)
         == (db, if db.records[KeyOf(r)].hash == r.hash then Ok(db.records[KeyOf(r)].response) else Err(IdempotencyConflict))
  {
  }

  lemma PossibleAt(atoms: seq<Atom>, k: nat)
    requires k < |atoms| && ValidRun(START, atoms)
    ensures Possible(At(atoms, k), atoms[k])
  {
  }

  lemma TargetStays(atoms: seq<Atom>, i: nat, j: nat, id: Id)
    requires i <= j <= |atoms| && id in At(atoms, i).db.matches
    ensures id in At(atoms, j).db.matches
  {
    RunGrows(atoms, i, j);
  }

  /** Every stored record is the answer of a command that really committed, under that key and hash. */
  lemma {:induction false} RecordProvenance(atoms: seq<Atom>, k: nat, key: Key) returns (p: nat)
    requires k <= |atoms| && ValidRun(START, atoms) && key in At(atoms, k).db.records
    ensures p < k && Performs(At(atoms, p), atoms[p]) && KeyOf(atoms[p].request) == key
    ensures At(atoms, k).db.records[key]
         == Record(atoms[p].request.hash, atoms[p].answer.value, atoms[p].stamp + 86_400)
    ensures atoms[p].answer.Ok? && atoms[p].answer.value != Placeholder
  {
    hide SystemInv, At, Attempt, ValidRun, Execute, Next;
    NoRecordsAtStart(atoms, key, k);
    AtStep(atoms, k - 1);
    var s, a := At(atoms, k - 1), atoms[k - 1];
    RunKeeps(atoms, k - 1);
    if Performs(s, a) && KeyOf(a.request) == key {
      p := k - 1;
      PossibleAt(atoms, p);
      PerformedRecord(s, a);
    } else {
      UnperformedRecord(s, a, key);
      p := RecordProvenance(atoms, k - 1, key);
    }
  }

  lemma NoRecordsAtStart(atoms: seq<Atom>, key: Key, k: nat)
    requires k <= |atoms| && key in At(atoms, k).db.records
    ensures k > 0
  {
  }

  lemma UnperformedRecord(s: System, a: Atom, key: Key)
    requires !(Performs(s, a) && KeyOf(a.request) == key) && key in Next(s, a).db.records
    ensures key in s.db.records && s.db.records[key] == Next(s, a).db.records[key]
  {
    hide Attempt;
  }

  // ---------------------------------------------------------------- a replay always decodes

  /** The response type a repository method decodes the stored body into, by the scope it stores under. */
  predicate Decodes(scope: Scope, response: Response) {
    match scope
    case CreateScope(o) => response.MatchResponse? && response.organization == Some(o) && response.status == Draft
    case RosterScope(_) => response.RosterResponse?
    case LineupScope(_) => response.RosterResponse?
    case ReadyScope(id) => response.MatchResponse? && response.matchId == id && response.status == Ready
    case LiveScope(id) => response.SnapshotResponse? && response.snapshot.matchId == id
    case EventScope(id, _) =>
      response.EventResponse? && response.snapshot.matchId == id && response.event.sequence == response.snapshot.sequence
      && !response.event.action.EventReversal?
    case ReversalScope(id, _) =>
      response.EventResponse? && response.snapshot.matchId == id && response.event.sequence == response.snapshot.sequence
      && response.event.action.EventReversal?
  }

  lemma LedgerAnswerDecodes(m: Match, r: Request, stamp: Time, newId: Id)
    requires MatchInv(m) && IsLedgerCommand(r.command) && Attempt(Some(m), r, stamp, newId).Ok?
    ensures Decodes(ScopeOf(r.command), Attempt(Some(m), r, stamp, newId).value.record.response)
  {
    hide Exec, ExecAll, DecideAppend, DecideReverse, SubjectRows, SubjectInv, SetupInv, Score, Faithful, Numbered;
    var c, rec := r.command, Reservation(r, stamp);
    if c.Append? {
      var row, next, v := AppendEffect(c.matchId, m, c.event, newId, rec);
    } else {
      var i, row, next, v := ReverseEffect(c.matchId, m, c.eventId, c.clientId, c.expected, c.reason, newId, rec);
    }
  }

  lemma SetupAnswerDecodes(m: Match, r: Request, stamp: Time, newId: Id)
    requires MatchInv(m) && !IsLedgerCommand(r.command) && !r.command.Create? && Attempt(Some(m), r, stamp, newId).Ok?
    ensures Decodes(ScopeOf(r.command), Attempt(Some(m), r, stamp, newId).value.record.response)
  {
    hide Exec, ExecAll, StarterCount, LedgerInv, SubjectInv, ScoreInv, ValidRoster;
    assert r.command.StartLive? || m.status.Draft?;
    hide MatchInv, Attempt, LineupAccepted, LineupsComplete;
    match r.command {
      case ReplaceRoster(_, _) => RosterOutcome(m, r, stamp, newId);
      case SetLineups(_, _, _) => LineupOutcome(m, r, stamp, newId);
      case MarkReady(_) => ReadyOutcome(m, r, stamp, newId);
      case StartLive(_) => StartLiveOutcome(m, r, stamp, newId);
    }
  }

  lemma AnswerDecodes(db: Db, r: Request, stamp: Time, newId: Id)
    requires DbInv(db) && Attempt(Lookup(db, TargetOf(r.command, newId)), r, stamp, newId).Ok?
    ensures Decodes(ScopeOf(r.command), Attempt(Lookup(db, TargetOf(r.command, newId)), r, stamp, newId).value.record.response)
  {
    var found := Lookup(db, TargetOf(r.command, newId));
    assert found.Some? <==> !r.command.Create?;
    hide Attempt, DbInv;
    if r.command.Create? {
      CreateOutcome(r, stamp, newId);
    } else {
      InvOfMatch(db, r.command.matchId);
      if IsLedgerCommand(r.command) { LedgerAnswerDecodes(found.value, r, stamp, newId); }
      else { SetupAnswerDecodes(found.value, r, stamp, newId); }
    }
  }

  lemma PerformedDecodes(s: System, a: Atom)
    requires SystemInv(s) && Performs(s, a) && Possible(s, a)
    ensures a.answer.Ok? && Decodes(KeyOf(a.request).scope, a.answer.value)
  {
    hide Attempt, DbInv, Decodes;
    AnswerDecodes(s.db, a.request, a.stamp, a.newId);
  }

  /**
   * In every run, whatever a retry finds under its key decodes into the type its method answers with, and speaks of
   * that method's own match: scopes never let one command read another kind's response.
   */
  lemma {:induction false} StoredResponsesDecode(atoms: seq<Atom>, k: nat, key: Key)
    requires k <= |atoms| && ValidRun(START, atoms) && key in At(atoms, k).db.records
    ensures Decodes(key.scope, At(atoms, k).db.records[key].response)
  {
    hide At, ValidRun, SystemInv, Performs, Decodes, Possible;
    var p := RecordProvenance(atoms, k, key);
    RunKeeps(atoms, p);
    PossibleAt(atoms, p);
    PerformedDecodes(At(atoms, p), atoms[p]);
  }

  // ---------------------------------------------------------------- setup and ledger in every reachable state

  /** Once a match has left DRAFT its roster and lineups never change again, and both lineups are complete. */
  lemma RosterFrozen(atoms: seq<Atom>, i: nat, j: nat, id: Id)
    requires i <= j <= |atoms| && id in At(atoms, i).db.matches && !At(atoms, i).db.matches[id].status.Draft?
    ensures id in At(atoms, j).db.matches && !At(atoms, j).db.matches[id].status.Draft?
    ensures At(atoms, j).db.matches[id].participants == At(atoms, i).db.matches[id].participants
    ensures LineupsComplete(At(atoms, j).db.matches[id])
  {
    RunGrows(atoms, i, j);
    RunKeeps(atoms, j);
    hide At, SnapshotAt, StarterCount;
    assert Grows(id, At(atoms, i).db.matches[id], At(atoms, j).db.matches[id]);
    assert MatchInv(At(atoms, j).db.matches[id]);
  }

  /** The lineup re-check of StartLiveSession never fails: from READY, going live always succeeds. */
  lemma StartLiveAlwaysSucceeds(atoms: seq<Atom>, k: nat, r: Request, stamp: Time, newId: Id)
    requires k <= |atoms| && r.command.StartLive? && r.command.matchId in At(atoms, k).db.matches
    requires At(atoms, k).db.matches[r.command.matchId].status.Ready?
    ensures Attempt(Lookup(At(atoms, k).db, r.command.matchId), r, stamp, newId).Ok?
  {
    RunKeeps(atoms, k);
    hide At, Attempt, DbInv;
    var db := At(atoms, k).db;
    assert MatchInv(db.matches[r.command.matchId]) by { InvOfMatch(db, r.command.matchId); }
    StartLiveOutcome(db.matches[r.command.matchId], r, stamp, newId);
  }

  /**
   * The books of every reachable match: the live row is the sum over unreversed events, no score is negative,
   * and points, undone rows, deductions and neutral rows account for every sequence number.
   */
  lemma BooksBalance(atoms: seq<Atom>, k: nat, id: Id)
    requires k <= |atoms| && id in At(atoms, k).db.matches
    ensures var m := At(atoms, k).db.matches[id];
            && m.sequence == |m.events| && LedgerInv(m.events, m.reversals)
            && m.home == Score(m.events, m.reversals.Values, Home) >= 0
            && m.away == Score(m.events, m.reversals.Values, Away) >= 0
            && m.home + m.away + 2 * |m.reversals| + 2 * Deductions(m.events, m.reversals.Values) + Neutral(m.events)
                 == m.sequence
            && m.home + m.away + 2 * |m.reversals| <= m.sequence
  {
    RunKeeps(atoms, k);
    hide At;
    InvOfMatch(At(atoms, k).db, id);
    Conservation(At(atoms, k).db.matches[id].events, At(atoms, k).db.matches[id].reversals);
  }

  /**
   * Every reversal row of a reachable match undoes an earlier scoring event of the same side, lists that event's
   * subjects, and stores its id beside a reason; no event is reversed twice and no reversal is reversed.
   */
  lemma ReversalsAreSound(atoms: seq<Atom>, k: nat, id: Id, j: nat)
    requires k <= |atoms| && id in At(atoms, k).db.matches
    requires j < |At(atoms, k).db.matches[id].events| && At(atoms, k).db.matches[id].events[j].action.EventReversal?
    ensures var m := At(atoms, k).db.matches[id];
            && m.events[j].id in m.reversals && m.events[j].id !in m.reversals.Values
            && (exists i :: Reverses(m.events, j, i, m.reversals)
                  && SubjectsOf(m.subjects, m.events[j].id) == SubjectsOf(m.subjects, m.events[i].id))
            && HasNotes(m.events[j].qualifiers, m.reversals[m.events[j].id])
            && (forall r :: r in m.reversals && m.reversals[r] == m.reversals[m.events[j].id] ==> r == m.events[j].id)
  {
    RunKeeps(atoms, k);
    hide At, SubjectsOf;
    var m := At(atoms, k).db.matches[id];
    InvOfMatch(At(atoms, k).db, id);
    var i :| Reverses(m.events, j, i, m.reversals);
    if m.events[j].id in m.reversals.Values { ReversedAreScoring(m.events, m.reversals, m.events[j].id); }
  }
}
