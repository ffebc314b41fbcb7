/** Whole commands: what each one keeps about every table, and what the system as a whole can rely on. */
module Commands {
  import opened Prelude
  import opened Domain
  import opened Ledger
  import opened Store
  import opened Effects
  import opened Invariants
  import opened Setup

  // ---------------------------------------------------------------- growth of one match

  /** The live snapshot right after the first k events were recorded. */
  function SnapshotAt(id: Id, m: Match, k: nat): Snapshot
    requires k <= |m.events|
  {
    Snapshot(id, Live, k, ScoreAt(m.events, m.reversals, k, Home), ScoreAt(m.events, m.reversals, k, Away))
  }

  /** The ledger only grows, and every snapshot of its past stays what it was. */
  ghost predicate Grows(id: Id, m: Match, m': Match) {
    && m.events <= m'.events
    && (forall k {:trigger SnapshotAt(id, m', k)} :: 0 <= k <= |m.events| ==> SnapshotAt(id, m', k) == SnapshotAt(id, m, k))
    && (!m.status.Draft? ==> m'.participants == m.participants && !m'.status.Draft?)
    && m'.playersPerSide == m.playersPerSide && m'.organization == m.organization
  }

  predicate IsEvent(message: Message) { message.Recorded? || message.Reversed? }

  /** At most one event per command, published with the snapshot it produced. */
  ghost predicate Published(id: Id, m: Match, m': Match, outbox: seq<Message>) {
    if |m'.events| == |m.events| then
      forall i :: 0 <= i < |outbox| ==> outbox[i].StatusChanged? && outbox[i].matchId == id
    else
      && |m'.events| == |m.events| + 1 && |outbox| == 1 && m'.status.Live?
      && IsEvent(outbox[0]) && outbox[0].matchId == id && outbox[0].snapshot == SnapshotOf(id, m')
  }

  ghost predicate GoodRecord(r: Request, stamp: Time, record: Record) {
    record.hash == r.hash && record.expires == stamp + IDEMPOTENCY_TTL && record.response != Placeholder
  }

  lemma GrowsSame(id: Id, m: Match, m': Match)
    requires m'.events == m.events && m'.reversals == m.reversals
    requires !m.status.Draft? ==> m'.participants == m.participants && !m'.status.Draft?
    requires m'.playersPerSide == m.playersPerSide && m'.organization == m.organization
    ensures Grows(id, m, m')
  {
  }

  lemma GrowsRow(id: Id, m: Match, row: EventRow, subjects: seq<Subject>, reversals: Reversals, next: Snapshot)
    requires NewRow(m, row) && m.status.Live?
    requires forall id :: id != row.id ==> (id in reversals <==> id in m.reversals)
    requires forall id :: id != row.id && id in reversals && id in m.reversals ==> reversals[id] == m.reversals[id]
    ensures Grows(id, m, EventState(m, row, subjects, reversals, next))
  {
    var m' := EventState(m, row, subjects, reversals, next);
    NewRowDiffers(m, row);
    forall k | 0 <= k <= |m.events| ensures SnapshotAt(id, m', k) == SnapshotAt(id, m, k) {
      ScoreAtStable(m.events, m.reversals, row, reversals, k, Home);
      ScoreAtStable(m.events, m.reversals, row, reversals, k, Away);
    }
  }

  /** The current snapshot of a live match is the point score of its whole ledger. */
  lemma SnapshotIsCurrent(id: Id, m: Match)
    requires MatchInv(m)
    ensures m.status.Live? ==> SnapshotOf(id, m) == SnapshotAt(id, m, |m.events|)
    ensures m.home == ScoreAt(m.events, m.reversals, |m.events|, Home)
    ensures m.away == ScoreAt(m.events, m.reversals, |m.events|, Away)
  {
    ScoreAtEnd(m.events, m.reversals, Home);
    ScoreAtEnd(m.events, m.reversals, Away);
  }

  // ---------------------------------------------------------------- each command

  /** What a successful command leaves in its view. */
  ghost predicate Successful(id: Id, m: Match, r: Request, stamp: Time, v: View) {
    MatchInv(v.current) && Grows(id, m, v.current) && Published(id, m, v.current, v.outbox) && GoodRecord(r, stamp, v.record)
  }

  lemma AppendSucceeds(m: Match, r: Request, stamp: Time, newId: Id)
    requires MatchInv(m) && r.command.Append? && Attempt(Some(m), r, stamp, newId).Ok?
    ensures Successful(r.command.matchId, m, r, stamp, Attempt(Some(m), r, stamp, newId).value)
  {
    hide DecideAppend, ExecAll, Exec, LedgerInv, SubjectRows, SubjectInv, SetupInv;
    var id, rec := r.command.matchId, Reservation(r, stamp);
    AppendKeeps(id, m, r.command.event, newId, rec);
    var row, next, v := AppendEffect(id, m, r.command.event, newId, rec);
    GrowsRow(id, m, row, r.command.event.subjects, m.reversals, next);
  }

  lemma ReverseSucceeds(m: Match, r: Request, stamp: Time, newId: Id)
    requires MatchInv(m) && r.command.Reverse? && Attempt(Some(m), r, stamp, newId).Ok?
    ensures Successful(r.command.matchId, m, r, stamp, Attempt(Some(m), r, stamp, newId).value)
  {
    hide DecideReverse, ExecAll, Exec, LedgerInv, SubjectRows, SubjectInv, SetupInv;
    var id, rec, c := r.command.matchId, Reservation(r, stamp), r.command;
    ReverseKeeps(id, m, c.eventId, c.clientId, c.expected, c.reason, newId, rec);
    var i, row, next, v := ReverseEffect(id, m, c.eventId, c.clientId, c.expected, c.reason, newId, rec);
    GrowsRow(id, m, row, SubjectsOf(m.subjects, c.eventId), m.reversals[newId := c.eventId], next);
  }

  /** A draft whose participants change, and nothing else. */
  lemma DraftChange(id: Id, m: Match, ps: seq<Participant>)
    requires MatchInv(m) && m.status.Draft? && UniqueParticipants(ps)
    ensures MatchInv(m.(participants := ps)) && Grows(id, m, m.(participants := ps))
  {
    hide LedgerInv, UniqueParticipants, StarterCount, Score, ScoreAt;
    GrowsSame(id, m, m.(participants := ps));
  }

  lemma RosterSucceeds(m: Match, r: Request, stamp: Time, newId: Id)
    requires MatchInv(m) && r.command.ReplaceRoster? && Attempt(Some(m), r, stamp, newId).Ok?
    ensures Successful(r.command.matchId, m, r, stamp, Attempt(Some(m), r, stamp, newId).value)
  {
    hide ExecAll, Exec, LoadRoster, ValidRoster, LedgerInv, UniqueParticipants, InsertParticipants, StarterCount, Score, SubjectInv;
    assert m.status.Draft?;
    hide Attempt, LoadRoster, ValidRoster, AllStorable, MatchInv, Grows, UniqueParticipants;
    var roster := r.command.roster;
    RosterOutcome(m, r, stamp, newId);
    StoredSides(roster, m.playersPerSide);
    DraftChange(r.command.matchId, m, StoredAll(roster.home + roster.away));
  }

  lemma LineupsSucceed(m: Match, r: Request, stamp: Time, newId: Id)
    requires MatchInv(m) && r.command.SetLineups? && Attempt(Some(m), r, stamp, newId).Ok?
    ensures Successful(r.command.matchId, m, r, stamp, Attempt(Some(m), r, stamp, newId).value)
  {
    hide ExecAll, Exec;
    assert m.status.Draft? && UniqueParticipants(m.participants);
    hide Attempt, LoadRoster, MatchInv, Grows, UniqueParticipants, LineupAccepted;
    var c := r.command;
    LineupOutcome(m, r, stamp, newId);
    FieldedComplete(m, c.home, c.away);
    DraftChange(c.matchId, m, FieldAll(m.participants, c.home, c.away));
  }

  lemma ExecTwo(v: View, a: Stmt, b: Stmt)
    ensures ExecAll(v, [a, b]) == match Exec(v, a) case Err(e) => Err(e) case Ok(w) => Exec(w, b)
  {
    assert [a, b] == [a] + [b];
    ExecConcat(v, [a], [b]);
    ExecOne(v, a);
    match Exec(v, a) { case Err(_) => case Ok(w) => ExecOne(w, b); }
  }

  /** Exactly the drafts with two complete lineups become READY, and nothing but the status changes. */
  lemma ReadyOutcome(m: Match, r: Request, stamp: Time, newId: Id)
    requires r.command.MarkReady?
    ensures Attempt(Some(m), r, stamp, newId) ==
      if m.status != Draft then Err(MatchNotDraft)
      else if !LineupsComplete(m) then Err(InvalidInput)
      else Ok(View(m.(status := Ready),
                   Reservation(r, stamp).(response := MatchResponse(r.command.matchId, None, Ready, 0)), []))
  {
    var v := View(m, Reservation(r, stamp), []);
    ExecTwo(v, SetStatus(Ready), SaveResponse(MatchResponse(r.command.matchId, None, Ready, 0)));
  }

  /** Exactly the drafts with as many starters on each side as the match has places, counted by person, become READY. */
  lemma ReadyExactly(m: Match, r: Request, stamp: Time, newId: Id)
    requires MatchInv(m) && r.command.MarkReady?
    ensures var home := set p | p in m.participants && p.side == Home && p.status == Starter :: p.id;
            var away := set p | p in m.participants && p.side == Away && p.status == Starter :: p.id;
            Attempt(Some(m), r, stamp, newId).Ok? <==>
              m.status == Draft && |home| == m.playersPerSide && |away| == m.playersPerSide
  {
    assert UniqueParticipants(m.participants);
    hide Attempt, MatchInv, UniqueParticipants, StarterCount;
    ReadyOutcome(m, r, stamp, newId);
    StartersById(m.participants, Home);
    StartersById(m.participants, Away);
    assert StarterIds(m.participants, Home) == set p | p in m.participants && p.side == Home && p.status == Starter :: p.id;
    assert StarterIds(m.participants, Away) == set p | p in m.participants && p.side == Away && p.status == Starter :: p.id;
  }

  lemma ReadySucceeds(m: Match, r: Request, stamp: Time, newId: Id)
    requires MatchInv(m) && r.command.MarkReady? && Attempt(Some(m), r, stamp, newId).Ok?
    ensures Successful(r.command.matchId, m, r, stamp, Attempt(Some(m), r, stamp, newId).value)
  {
    ReadyOutcome(m, r, stamp, newId);
    GrowsSame(r.command.matchId, m, m.(status := Ready));
  }

  /** Going live writes LIVE, yet answers and publishes the snapshot it read, which still says READY. */
  lemma StartLiveOutcome(m: Match, r: Request, stamp: Time, newId: Id)
    requires MatchInv(m) && r.command.StartLive?
    ensures Attempt(Some(m), r, stamp, newId) ==
      if m.status != Ready then Err(MatchNotReady)
      else Ok(View(m.(status := Live),
                   Reservation(r, stamp).(response := SnapshotResponse(SnapshotOf(r.command.matchId, m))),
                   [StatusChanged(r.command.matchId, SnapshotOf(r.command.matchId, m))]))
  {
    if m.status == Ready {
      var id := r.command.matchId;
      var v := View(m, Reservation(r, stamp), []);
      var a, b, c := SetStatus(Live), Enqueue(StatusChanged(id, SnapshotOf(id, m))),
                     SaveResponse(SnapshotResponse(SnapshotOf(id, m)));
      assert [a, b, c] == [a] + [b, c];
      ExecConcat(v, [a], [b, c]);
      ExecOne(v, a);
      ExecTwo(v.(current := m.(status := Live)), b, c);
      assert [] + [b.message] == [b.message];
    }
  }

  lemma StartLiveSucceeds(m: Match, r: Request, stamp: Time, newId: Id)
    requires MatchInv(m) && r.command.StartLive? && Attempt(Some(m), r, stamp, newId).Ok?
    ensures Successful(r.command.matchId, m, r, stamp, Attempt(Some(m), r, stamp, newId).value)
  {
    StartLiveOutcome(m, r, stamp, newId);
    GrowsSame(r.command.matchId, m, m.(status := Live));
  }

  lemma CreateOutcome(r: Request, stamp: Time, newId: Id)
    requires r.command.Create?
    ensures var c := r.command;
            Attempt(None, r, stamp, newId) ==
              Ok(View(Match(c.organization, c.playersPerSide, Draft, [], 0, 0, 0, [], [], map[]),
                      Reservation(r, stamp).(response := MatchResponse(newId, Some(c.organization), Draft, 0)),
                      [Created(newId, c.organization, Draft, 0)]))
  {
    var o, n := r.command.organization, r.command.playersPerSide;
    var v := View(NO_MATCH, Reservation(r, stamp), []);
    var a, b, c := InsertDraft(o, n), Enqueue(Created(newId, o, Draft, 0)), SaveResponse(MatchResponse(newId, Some(o), Draft, 0));
    assert [a, b, c] == [a] + [b, c];
    ExecConcat(v, [a], [b, c]);
    ExecOne(v, a);
    ExecTwo(v.(current := DraftMatch(o, n)), b, c);
    assert [] + [b.message] == [b.message];
  }

  /** The whole of setup as four commands in a row; None if any of them fails. */
  ghost function RunSetup(m: Match, roster: Request, lineups: Request, ready: Request, live: Request, stamp: Time, newId: Id)
    : Option<Match>
  {
    match Attempt(Some(m), roster, stamp, newId)
    case Err(_) => None
    case Ok(v1) =>
      match Attempt(Some(v1.current), lineups, stamp, newId)
      case Err(_) => None
      case Ok(v2) =>
        match Attempt(Some(v2.current), ready, stamp, newId)
        case Err(_) => None
        case Ok(v3) =>
          match Attempt(Some(v3.current), live, stamp, newId)
          case Err(_) => None
          case Ok(v4) => Some(v4.current)
  }

  lemma AcceptedShape(m: Match, c: Command)
    requires MatchInv(m) && c.SetLineups? && LineupAccepted(m, c.home, c.away)
    ensures !ShapeError(c)
  {
  }

  /** LIVE is reachable from a draft by exactly the valid storable rosters with lineups accepted on the stored rows. */
  lemma SetupOutcome(m: Match, roster: Request, lineups: Request, ready: Request, live: Request, stamp: Time, newId: Id)
    requires MatchInv(m) && m.status.Draft?
    requires roster.command.ReplaceRoster? && lineups.command.SetLineups?
    requires ready.command.MarkReady? && live.command.StartLive?
    ensures var all := StoredAll(roster.command.roster.home + roster.command.roster.away);
            var home, away := lineups.command.home, lineups.command.away;
            RunSetup(m, roster, lineups, ready, live, stamp, newId) ==
              if && ValidRoster(roster.command.roster, m.playersPerSide)
                 && AllStorable(roster.command.roster.home + roster.command.roster.away)
                 && LineupAccepted(m.(participants := all), home, away)
              then Some(m.(participants := FieldAll(all, home, away), status := Live))
              else None
  {
    hide Attempt, MatchInv, LoadRoster, ValidRoster, AllStorable, LineupAccepted, LineupsComplete, FieldAll, StoredAll, Grows;
    var r := roster.command.roster;
    RosterOutcome(m, roster, stamp, newId);
    if ValidRoster(r, m.playersPerSide) && AllStorable(r.home + r.away) {
      var m1 := m.(participants := StoredAll(r.home + r.away));
      StoredSides(r, m.playersPerSide);
      DraftChange(roster.command.matchId, m, m1.participants);
      LineupOutcome(m1, lineups, stamp, newId);
      if LineupAccepted(m1, lineups.command.home, lineups.command.away) {
        AcceptedShape(m1, lineups.command);
        var m2 := m1.(participants := FieldAll(m1.participants, lineups.command.home, lineups.command.away));
        FieldedComplete(m1, lineups.command.home, lineups.command.away);
        DraftChange(lineups.command.matchId, m1, m2.participants);
        ReadyOutcome(m2, ready, stamp, newId);
        ReadySucceeds(m2, ready, stamp, newId);
        assert MatchInv(m2.(status := Ready));
        StartLiveOutcome(m2.(status := Ready), live, stamp, newId);
      }
    }
  }

  /** Every command other than a creation, in one place. */
  lemma AttemptSucceeds(m: Match, r: Request, stamp: Time, newId: Id)
    requires MatchInv(m) && !r.command.Create? && Attempt(Some(m), r, stamp, newId).Ok?
    ensures Successful(r.command.matchId, m, r, stamp, Attempt(Some(m), r, stamp, newId).value)
  {
    hide Attempt, MatchInv, Successful;
    match r.command {
      case ReplaceRoster(_, _) => RosterSucceeds(m, r, stamp, newId);
      case SetLineups(_, _, _) => LineupsSucceed(m, r, stamp, newId);
      case MarkReady(_) => ReadySucceeds(m, r, stamp, newId);
      case StartLive(_) => StartLiveSucceeds(m, r, stamp, newId);
      case Append(_, _) => AppendSucceeds(m, r, stamp, newId);
      case Reverse(_, _, _, _, _) => ReverseSucceeds(m, r, stamp, newId);
    }
  }

  lemma DraftInv(organization: Id, n: int)
    requires 2 <= n <= 11
    ensures MatchInv(DraftMatch(organization, n))
  {
    var m := DraftMatch(organization, n);
    assert m.reversals.Values == {};
  }
}
