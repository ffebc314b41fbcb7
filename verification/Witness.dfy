/** Concrete runs: a match that goes live and scores, and the schedules in which its read model goes wrong. */
module Witness {
  import opened Prelude
  import opened Text
  import opened Domain
  import opened Ledger
  import opened Store
  import opened Effects
  import opened Invariants
  import opened Setup
  import opened Commands
  import opened Tables
  import opened Projection
  import opened Convergence
  import opened Acceptance

  const ORGANIZATION: Id := Id(1)
  const MATCH: Id := Id(2)

  const ROSTER: Roster := Roster(
    [Participant(Id(11), Home, 1, "A", "", NotSelected), Participant(Id(12), Home, 2, "B", "", NotSelected)],
    [Participant(Id(21), Away, 1, "C", "", NotSelected), Participant(Id(22), Away, 2, "D", "", NotSelected)])

  const GOAL: AppendCommand := AppendCommand(Id(31), 0, Goal, Home, [Subject(Scorer, Id(11))], map[])

  function Ask(c: Command): Request { Request(c, "key-of-the-match", Hash(0)) }

  // ---------------------------------------------------------------- extending a run by one commit

  /** What the tables look like to the next command: the match, the scopes already used, the messages sent. */
  ghost predicate Stage(atoms: seq<Atom>, m: Match, used: set<Scope>, outbox: seq<Message>) {
    var db := After(START, atoms).db;
    && ValidRun(START, atoms)
    && MATCH in db.matches && db.matches[MATCH] == m && db.outbox == outbox
    && (forall k :: k in db.records ==> k.scope in used)
  }

  lemma StageInv(atoms: seq<Atom>, m: Match, used: set<Scope>, outbox: seq<Message>)
    requires Stage(atoms, m, used, outbox)
    ensures MatchInv(m) && SystemInv(After(START, atoms))
  {
    WholeRun(atoms);
    RunKeeps(atoms, |atoms|);
    hide MatchInv, After;
    InvOfMatch(After(START, atoms).db, MATCH);
  }

  /** The run went on with one committed command, which left the read model and the rebuilds alone. */
  ghost predicate Extends(more: seq<Atom>, atoms: seq<Atom>, a: Atom) {
    && more == atoms + [a] && a.Run?
    && After(START, more).rm == After(START, atoms).rm && After(START, more).rebuilds == After(START, atoms).rebuilds
  }

  lemma Commit(atoms: seq<Atom>, m: Match, used: set<Scope>, outbox: seq<Message>, c: Command, newId: Id, v: View)
    returns (more: seq<Atom>, a: Atom)
    requires Stage(atoms, m, used, outbox) && !c.Create? && c.matchId == MATCH && ScopeOf(c) !in used && WellFormed(c)
    requires Attempt(Some(m), Ask(c), 0, newId) == Ok(v)
    ensures Stage(more, v.current, used + {ScopeOf(c)}, outbox + v.outbox) && Extends(more, atoms, a)
  {
    hide Attempt, WellFormed, After, ValidRun;
    a := Run(Ask(c), 0, 0, newId, Ok(v.record.response));
    more := atoms + [a];
    assert Execute(After(START, atoms).db, Ask(c), 0, 0, newId)
        == (Install(After(START, atoms).db, Ask(c), newId, v), Ok(v.record.response));
    RunExtends(START, atoms, a);
  }

  // ---------------------------------------------------------------- to a live match

  lemma CreatedRun() returns (atoms: seq<Atom>)
    ensures Stage(atoms, DraftMatch(ORGANIZATION, 2), {CreateScope(ORGANIZATION)}, [Created(MATCH, ORGANIZATION, Draft, 0)])
    ensures After(START, atoms).rm == START.rm && After(START, atoms).rebuilds == []
    ensures forall k :: 0 <= k < |atoms| ==> atoms[k].Run?
  {
    var r := Ask(Create(ORGANIZATION, 2));
    CreateOutcome(r, 0, MATCH);
    hide Attempt, ValidRun;
    var v := Attempt(None, r, 0, MATCH).value;
    var a := Run(r, 0, 0, MATCH, Ok(v.record.response));
    assert Execute(EMPTY, r, 0, 0, MATCH) == (Install(EMPTY, r, MATCH, v), Ok(v.record.response));
    atoms := [] + [a];
    EmptyRun();
    RunExtends(START, [], a);
    assert [] + v.outbox == v.outbox;
  }

  lemma EmptyRun()
    ensures ValidRun(START, []) && After(START, []) == START
  {
  }

  lemma NamesAreTrimmed()
    ensures TrimSpace("A") == "A" && TrimSpace("B") == "B" && TrimSpace("C") == "C" && TrimSpace("D") == "D" && TrimSpace("") == ""
  {
  }

  lemma RosterIsValid()
    ensures ValidRoster(ROSTER, 2) && AllStorable(ROSTER.home + ROSTER.away)
  {
    NamesAreTrimmed();
    hide TrimSpace;
    var all := ROSTER.home + ROSTER.away;
    assert all[0].id == Id(11) && all[1].id == Id(12) && all[2].id == Id(21) && all[3].id == Id(22);
  }

  const HOME_STARTERS: seq<Id> := [Id(11), Id(12)]
  const AWAY_STARTERS: seq<Id> := [Id(21), Id(22)]

  function LiveMatch(): Match {
    DraftMatch(ORGANIZATION, 2).(
      participants := FieldAll(StoredAll(ROSTER.home + ROSTER.away), HOME_STARTERS, AWAY_STARTERS), status := Live)
  }

  lemma LineupsAreAccepted()
    ensures LineupAccepted(DraftMatch(ORGANIZATION, 2).(participants := StoredAll(ROSTER.home + ROSTER.away)),
                           HOME_STARTERS, AWAY_STARTERS)
  {
    var ps := StoredAll(ROSTER.home + ROSTER.away);
    assert ps[0].id == Id(11) && ps[1].id == Id(12) && ps[2].id == Id(21) && ps[3].id == Id(22);
    assert ps[0].side == Home && ps[1].side == Home && ps[2].side == Away && ps[3].side == Away;
  }

  const CREATION: Message := Created(MATCH, ORGANIZATION, Draft, 0)
  const STARTED: Message := StatusChanged(MATCH, Snapshot(MATCH, Ready, 0, 0, 0))

  function SetupScopes(): set<Scope> {
    {CreateScope(ORGANIZATION), RosterScope(MATCH), LineupScope(MATCH), ReadyScope(MATCH), LiveScope(MATCH)}
  }

  /** Five commands take a new match to LIVE, with its creation and its status change in the outbox. */
  lemma LiveRun() returns (atoms: seq<Atom>)
    ensures Stage(atoms, LiveMatch(), SetupScopes(), [CREATION, STARTED])
    ensures After(START, atoms).rm == START.rm && After(START, atoms).rebuilds == []
    ensures forall k :: 0 <= k < |atoms| ==> atoms[k].Run?
  {
    hide Stage, Attempt, MatchInv, LoadRoster, ValidRoster, AllStorable, LineupAccepted, LineupsComplete, StoredAll, FieldAll, After, SystemInv, Grows;
    var a;
    atoms := CreatedRun();
    var m, used, outbox := DraftMatch(ORGANIZATION, 2), {CreateScope(ORGANIZATION)}, [CREATION];
    StageInv(atoms, m, used, outbox);
    RosterIsValid();
    RosterOutcome(m, Ask(ReplaceRoster(MATCH, ROSTER)), 0, MATCH);
    var v := Attempt(Some(m), Ask(ReplaceRoster(MATCH, ROSTER)), 0, MATCH).value;
    atoms, a := Commit(atoms, m, used, outbox, ReplaceRoster(MATCH, ROSTER), MATCH, v);
    assert outbox + [] == outbox;
    m, used := v.current, used + {RosterScope(MATCH)};
    StageInv(atoms, m, used, outbox);
    LineupsAreAccepted();
    var lineups := SetLineups(MATCH, HOME_STARTERS, AWAY_STARTERS);
    LineupOutcome(m, Ask(lineups), 0, MATCH);
    FieldedComplete(m, HOME_STARTERS, AWAY_STARTERS) by { UniqueRoster(m); }
    v := Attempt(Some(m), Ask(lineups), 0, MATCH).value;
    atoms, a := Commit(atoms, m, used, outbox, lineups, MATCH, v);
    m, used := v.current, used + {LineupScope(MATCH)};
    ReadyOutcome(m, Ask(MarkReady(MATCH)), 0, MATCH);
    v := Attempt(Some(m), Ask(MarkReady(MATCH)), 0, MATCH).value;
    atoms, a := Commit(atoms, m, used, outbox, MarkReady(MATCH), MATCH, v);
    m, used := v.current, used + {ReadyScope(MATCH)};
    StageInv(atoms, m, used, outbox);
    StartLiveOutcome(m, Ask(StartLive(MATCH)), 0, MATCH);
    v := Attempt(Some(m), Ask(StartLive(MATCH)), 0, MATCH).value;
    atoms, a := Commit(atoms, m, used, outbox, StartLive(MATCH), MATCH, v);
    assert v.current == LiveMatch() && used + {LiveScope(MATCH)} == SetupScopes();
    assert outbox + v.outbox == [CREATION, STARTED];
  }

  lemma UniqueRoster(m: Match)
    requires MatchInv(m)
    ensures UniqueParticipants(m.participants)
  {
  }

  // ---------------------------------------------------------------- one goal

  lemma GoalIsValid()
    ensures ValidCommand(GOAL) && DeltaOrZero(Goal, GOAL.qualifiers) == 1
    ensures EncodeQualifiers(GOAL.qualifiers).Some? && StorableQualifiers(EncodeQualifiers(GOAL.qualifiers).value)
  {
    assert GOAL.subjects[0].role == Scorer;
  }

  lemma ScorerPlays()
    ensures OnRightSide(LiveMatch().participants, Home, GOAL.subjects[0])
  {
    var ps := LiveMatch().participants;
    assert ps[0].id == Id(11) && ps[0].side == Home;
  }

  lemma GoalIsRecordable()
    ensures Recordable(LiveMatch(), GOAL, Id(41)) && WellFormed(Append(MATCH, GOAL))
  {
    GoalIsValid();
    ScorerPlays();
    hide ValidCommand, EncodeQualifiers, StorableQualifiers, OnRightSide, DeltaOrZero, FieldAll, StoredAll;
  }

  lemma FirstEvent(m: Match, c: AppendCommand, newId: Id, rec: Record) returns (v: View, message: Message)
    requires MatchInv(m) && m.events == [] && WellFormed(Append(MATCH, c))
    requires rec == Reservation(Ask(Append(MATCH, c)), 0) && AppendCommits(MATCH, m, c, newId, rec)
    ensures Attempt(Some(m), Ask(Append(MATCH, c)), 0, newId) == Ok(v)
    ensures |v.current.events| == 1 && v.current.status == Live && v.outbox == [message] && Carries(message, MATCH, 1)
  {
    hide Exec, ExecAll, DecideAppend, SubjectRows, SubjectInv, SetupInv, ValidCommand, AllListable, Faithful, NewRow, Score;
    var row, next;
    row, next, v := AppendEffect(MATCH, m, c, newId, rec);
    message := v.outbox[0];
  }

  /** The goal commits in any run that has reached the live match, whatever the read model has seen. */
  lemma ScoredRun(atoms: seq<Atom>) returns (more: seq<Atom>, a: Atom, m: Match, message: Message)
    requires Stage(atoms, LiveMatch(), SetupScopes(), [CREATION, STARTED])
    ensures Stage(more, m, SetupScopes() + {EventScope(MATCH, Id(31))}, [CREATION, STARTED, message])
    ensures Extends(more, atoms, a) && |m.events| == 1 && m.status == Live && Carries(message, MATCH, 1)
  {
    GoalIsRecordable();
    hide Stage, Recordable, MatchInv, AppendCommits, SetupScopes, Attempt, Extends, Carries, FieldAll, StoredAll, WellFormed;
    var c, rec := Append(MATCH, GOAL), Reservation(Ask(Append(MATCH, GOAL)), 0);
    StageInv(atoms, LiveMatch(), SetupScopes(), [CREATION, STARTED]);
    AppendCommitsExactly(MATCH, LiveMatch(), GOAL, Id(41), rec);
    var v;
    v, message := FirstEvent(LiveMatch(), GOAL, Id(41), rec);
    m := v.current;
    assert [CREATION, STARTED] + [message] == [CREATION, STARTED, message];
    NewScope();
    more, a := Commit(atoms, LiveMatch(), SetupScopes(), [CREATION, STARTED], c, Id(41), v);
  }

  lemma NewScope()
    ensures EventScope(MATCH, Id(31)) !in SetupScopes()
  {
  }

  // ---------------------------------------------------------------- the schedules

  /** A run that goes on with a delivery or a statement of a rebuild. */
  lemma Continue(atoms: seq<Atom>, a: Atom) returns (more: seq<Atom>)
    requires ValidRun(START, atoms) && Possible(After(START, atoms), a)
    ensures more == atoms + [a] && ValidRun(START, more) && After(START, more) == Next(After(START, atoms), a)
  {
    more := atoms + [a];
    RunExtends(START, atoms, a);
  }

  /** A run that has processed the creation and read the live match for a rebuild, before its first event. */
  lemma ReadRun() returns (atoms: seq<Atom>)
    ensures Stage(atoms, LiveMatch(), SetupScopes(), [CREATION, STARTED]) && |atoms| >= 2
    ensures forall k :: 0 <= k < |atoms| - 2 ==> atoms[k].Run?
    ensures atoms[|atoms| - 2] == Deliver(0) && atoms[|atoms| - 1] == RebuildRead(MATCH)
    ensures After(START, atoms).rm == ReadModel({0}, map[MATCH := Row(ORGANIZATION, Draft, 0, 0, 0)])
    ensures After(START, atoms).rebuilds == [Rebuild(MATCH, CurrentRow(LiveMatch()), false)]
  {
    hide Stage, ValidRun, LiveMatch, SetupScopes, After, MatchInv, DbInv;
    var live := LiveRun();
    StageInv(live, LiveMatch(), SetupScopes(), [CREATION, STARTED]);
    OpenStage(live, LiveMatch(), SetupScopes(), [CREATION, STARTED]);
    TablesHold(After(START, live));
    RebuildAgrees(After(START, live).db, MATCH);
    var created := Continue(live, Deliver(0));
    atoms := Continue(created, RebuildRead(MATCH));
    SameTables(live, atoms, LiveMatch(), SetupScopes(), [CREATION, STARTED]);
  }

  lemma SameTables(atoms: seq<Atom>, more: seq<Atom>, m: Match, used: set<Scope>, outbox: seq<Message>)
    requires Stage(atoms, m, used, outbox) && ValidRun(START, more) && After(START, more).db == After(START, atoms).db
    ensures Stage(more, m, used, outbox)
  {
  }

  lemma LiveMatchIsIdle()
    ensures LiveMatch().events == [] && CurrentRow(LiveMatch()) == Row(ORGANIZATION, Live, 0, 0, 0)
  {
  }

  /**
   * Lost update, as a run of the program: the creation and the only event are delivered, in order and once each,
   * and the row is right, until the upsert of a rebuild that had read the match before the goal takes it back.
   */
  lemma LostUpdateRun() returns (atoms: seq<Atom>)
    ensures ValidRun(START, atoms) && CreatedFirst(atoms, MATCH)
    ensures var s := After(START, atoms);
            && MATCH in s.db.matches && 2 < |s.db.outbox| && Carries(s.db.outbox[2], MATCH, EventCount(s.db, MATCH))
            && DeliveredIn(atoms, 2) && !Converged(s, MATCH)
    ensures atoms != [] && Converged(After(START, atoms[..|atoms| - 1]), MATCH)
  {
    hide Stage, ValidRun, LiveMatch, SetupScopes, After, CurrentRow, Carries, CreatedFirst, DeliveredIn, MatchInv, SystemInv;
    var read := ReadRun();
    OpenStage(read, LiveMatch(), SetupScopes(), [CREATION, STARTED]);
    var scored, goal, m, message := ScoredRun(read);
    var outbox := [CREATION, STARTED, message];
    OpenStage(scored, m, SetupScopes() + {EventScope(MATCH, Id(31))}, outbox);
    LiveMatchIsIdle();
    var projected := Continue(scored, Deliver(2));
    atoms := Continue(projected, RebuildWrite(0));
    assert atoms[..|atoms| - 1] == projected && projected[..|projected| - 1] == scored;
    assert atoms[..|projected|] == projected && atoms[..|scored|] == scored;
    GoalProjected(scored, m, SetupScopes() + {EventScope(MATCH, Id(31))}, outbox);
    StageInv(scored, m, SetupScopes() + {EventScope(MATCH, Id(31))}, outbox);
    SequenceCountsEvents(m);
    Behind(After(START, projected), m);
    DeliveredLate(atoms, |scored|);
    CreatedEarly(atoms, read, |read| - 2);
  }

  lemma GoalProjected(scored: seq<Atom>, m: Match, used: set<Scope>, outbox: seq<Message>)
    requires Stage(scored, m, used, outbox) && |m.events| == 1 && m.status == Live
    requires |outbox| == 3 && Carries(outbox[2], MATCH, 1)
    requires After(START, scored).rm == ReadModel({0}, map[MATCH := Row(ORGANIZATION, Draft, 0, 0, 0)])
    ensures Converged(Next(After(START, scored), Deliver(2)), MATCH)
  {
    hide MatchInv, DbInv, Carries, After;
    StageInv(scored, m, used, outbox);
    OpenStage(scored, m, used, outbox);
    var s := After(START, scored);
    var s' := Next(s, Deliver(2));
    StepKeeps(s, Deliver(2));
    DeliveryShows(s, 2, MATCH, Mark(1, Live));
    CurrentExactly(s', MATCH);
  }

  lemma Behind(s: System, m: Match)
    requires MATCH in s.db.matches && s.db.matches[MATCH] == m && m.sequence == 1
    requires s.rebuilds == [Rebuild(MATCH, Row(ORGANIZATION, Live, 0, 0, 0), false)]
    ensures !Converged(Next(s, RebuildWrite(0)), MATCH)
  {
  }

  lemma DeliveredLate(atoms: seq<Atom>, k: nat)
    requires k < |atoms| && atoms[k] == Deliver(2) && 2 < |At(atoms, k).db.outbox|
    ensures DeliveredIn(atoms, 2)
  {
  }

  /** The creation is processed at step p, and nothing before it touches the row. */
  lemma CreatedEarly(atoms: seq<Atom>, read: seq<Atom>, p: nat)
    requires p + 2 == |read| && read <= atoms && forall k :: 0 <= k < p ==> atoms[k].Run?
    requires atoms[p] == Deliver(0) && atoms[p + 1].RebuildRead?
    requires 0 in After(START, read).rm.inbox && After(START, read).db.outbox == [CREATION, STARTED]
    ensures CreatedFirst(atoms, MATCH)
  {
    hide At, After;
    assert atoms[..|read|] == read && read[..|read|] == read;
    assert At(atoms, |read|) == After(START, read) by { PrefixRun(atoms, |read|); }
    assert CreationClaimed(At(atoms, |read|), MATCH) by { assert CREATION.Created?; }
    RunGrows(atoms, p, |read|);
    OutboxGrows(At(atoms, p).db, At(atoms, |read|).db);
    assert |At(atoms, p).db.outbox| > 0 ==> At(atoms, p).db.outbox[0] == CREATION;
    forall k | 0 <= k < |atoms| && Touches(At(atoms, k), atoms[k], MATCH) ensures CreationClaimed(At(atoms, k), MATCH) {
      if k >= |read| {
        RunGrows(atoms, |read|, k);
        OutboxGrows(At(atoms, |read|).db, At(atoms, k).db);
        ClaimedLater(atoms, |read|, k);
        ClaimedStays(At(atoms, |read|), At(atoms, k), MATCH);
      }
    }
  }

  lemma PrefixRun(atoms: seq<Atom>, k: nat)
    requires k <= |atoms|
    ensures At(atoms, k) == After(START, atoms[..k])
  {
  }

  /** A run in which the goal's message is delivered before the match has a row. */
  lemma EarlyRun() returns (atoms: seq<Atom>)
    ensures ValidRun(START, atoms) && atoms != []
    ensures var s, a := At(atoms, |atoms| - 1), atoms[|atoms| - 1];
            FirstDelivery(s, a) && Carries(s.db.outbox[a.source], MATCH, 1) && MATCH !in s.rm.rows
  {
    hide Stage, ValidRun, LiveMatch, SetupScopes;
    var live := LiveRun();
    var scored, a, m, message := ScoredRun(live);
    OpenStage(scored, m, SetupScopes() + {EventScope(MATCH, Id(31))}, [CREATION, STARTED, message]);
    atoms := Continue(scored, Deliver(2));
    assert atoms[..|atoms| - 1] == scored;
  }

  lemma OpenStage(atoms: seq<Atom>, m: Match, used: set<Scope>, outbox: seq<Message>)
    requires Stage(atoms, m, used, outbox)
    ensures var db := After(START, atoms).db;
            ValidRun(START, atoms) && MATCH in db.matches && db.matches[MATCH] == m && db.outbox == outbox
  {
  }
}
