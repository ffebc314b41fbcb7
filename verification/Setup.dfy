/** The setup state machine: rosters, initial lineups, READY and LIVE. */
module Setup {
  import opened Prelude
  import opened Text
  import opened Domain
  import opened Store
  import opened Effects
  import opened Invariants

  // ---------------------------------------------------------------- counting by id

  ghost predicate IdsDistinct(ps: set<Participant>) {
    forall p, q :: p in ps && q in ps && p.id == q.id ==> p == q
  }

  lemma {:induction false} IdsCount(ps: set<Participant>)
    requires IdsDistinct(ps)
    ensures |set p | p in ps :: p.id| == |ps|
  {
    if ps == {} {
    } else {
      var q :| q in ps;
      IdsCount(ps - {q});
      assert (set p | p in ps :: p.id) == (set p | p in ps - {q} :: p.id) + {q.id};
      assert q.id !in (set p | p in ps - {q} :: p.id);
    }
  }

  lemma RowsDistinct(ps: seq<Participant>)
    requires UniqueParticipants(ps)
    ensures IdsDistinct(set p | p in ps)
  {
    forall p, q | p in ps && q in ps && p.id == q.id ensures p == q {
      var i :| 0 <= i < |ps| && ps[i] == p;
      var j :| 0 <= j < |ps| && ps[j] == q;
    }
  }

  function StarterIds(ps: seq<Participant>, side: Side): set<Id> {
    set p | p in ps && p.side == side && p.status.Starter? :: p.id
  }

  function ListedIds(ps: seq<Participant>, side: Side, ids: seq<Id>): set<Id> {
    set p | p in ps && p.side == side && p.id in ids :: p.id
  }

  lemma StartersById(ps: seq<Participant>, side: Side)
    requires UniqueParticipants(ps)
    ensures StarterCount(ps, side) == |StarterIds(ps, side)|
  {
    RowsDistinct(ps);
    var starters := set p | p in ps && p.side == side && p.status.Starter?;
    assert starters <= set p | p in ps;
    IdsCount(starters);
    assert (set p | p in starters :: p.id) == StarterIds(ps, side);
  }

  lemma ListedById(ps: seq<Participant>, side: Side, ids: seq<Id>)
    requires UniqueParticipants(ps)
    ensures ListedCount(ps, side, ids) == |ListedIds(ps, side, ids)|
  {
    RowsDistinct(ps);
    var listed := set p | p in ps && p.side == side && p.id in ids;
    assert listed <= set p | p in ps;
    IdsCount(listed);
    assert (set p | p in listed :: p.id) == ListedIds(ps, side, ids);
  }

  lemma {:induction false} NoDuplicatesCount(ids: seq<Id>)
    ensures !Duplicates(ids) <==> |set x | x in ids| == |ids|
    ensures |set x | x in ids| <= |ids|
  {
    if ids == [] {
    } else {
      var n := |ids| - 1;
      var front := ids[..n];
      NoDuplicatesCount(front);
      assert (set x | x in ids) == (set x | x in front) + {ids[n]} by {
        assert ids == front + [ids[n]];
      }
      if Duplicates(front) {
        var i, j :| 0 <= i < j < |front| && front[i] == front[j];
        assert ids[i] == ids[j];
      }
      if ids[n] in front {
        var i :| 0 <= i < |front| && front[i] == ids[n];
        assert ids[i] == ids[n];
      }
      if Duplicates(ids) && !Duplicates(front) {
        var i, j :| 0 <= i < j < |ids| && ids[i] == ids[j];
        assert forall k :: 0 <= k < n ==> front[k] == ids[k];
        assert j == n;
        assert front[i] == ids[n];
      }
    }
  }

  ghost predicate OnSide(ps: seq<Participant>, side: Side, id: Id) {
    exists i :: 0 <= i < |ps| && ps[i].id == id && ps[i].side == side
  }

  /** Pigeonhole: for a duplicate-free list, the row count equals its length exactly when all of it is on the roster. */
  lemma CountMeansMembership(ps: seq<Participant>, side: Side, ids: seq<Id>)
    requires UniqueParticipants(ps) && !Duplicates(ids)
    ensures ListedCount(ps, side, ids) == |ids| <==> forall id :: id in ids ==> OnSide(ps, side, id)
  {
    var all := set x | x in ids;
    var listed := ListedIds(ps, side, ids);
    ListedById(ps, side, ids);
    NoDuplicatesCount(ids);
    assert listed <= all;
    forall id ensures id in listed <==> id in ids && OnSide(ps, side, id) {
      if id in listed {
        var p :| p in ps && p.side == side && p.id in ids && p.id == id;
        var i :| 0 <= i < |ps| && ps[i] == p;
      }
      if id in ids && OnSide(ps, side, id) {
        var i :| 0 <= i < |ps| && ps[i].id == id && ps[i].side == side;
        assert ps[i] in ps;
      }
    }
    if |listed| == |all| { SubsetSameSize(listed, all); }
    if forall id :: id in ids ==> OnSide(ps, side, id) { assert listed == all; }
  }

  lemma SubsetSameSize(a: set<Id>, b: set<Id>)
    requires a <= b && |a| == |b|
    ensures a == b
  {
    assert |b - a| == |b| - |a|;
    assert b == a + (b - a);
  }

  // ---------------------------------------------------------------- initial lineups

  /** The CASE update makes starters of exactly the listed ids and leaves the other side's starters alone. */
  lemma AssignStarters(ps: seq<Participant>, side: Side, ids: seq<Id>, other: Side)
    ensures StarterIds(AssignSide(ps, side, ids), side) == ListedIds(ps, side, ids)
    ensures other != side ==> StarterIds(AssignSide(ps, side, ids), other) == StarterIds(ps, other)
  {
    var after := AssignSide(ps, side, ids);
    forall id ensures id in StarterIds(after, side) <==> id in ListedIds(ps, side, ids) {
      if id in StarterIds(after, side) {
        var p :| p in after && p.side == side && p.status.Starter? && p.id == id;
        var i :| 0 <= i < |after| && after[i] == p;
        assert ps[i] in ps && ps[i].id == id;
      }
      if id in ListedIds(ps, side, ids) {
        var p :| p in ps && p.side == side && p.id in ids && p.id == id;
        var i :| 0 <= i < |ps| && ps[i] == p;
        assert after[i] in after;
      }
    }
    if other != side {
      forall id ensures id in StarterIds(after, other) <==> id in StarterIds(ps, other) {
        if id in StarterIds(after, other) {
          var p :| p in after && p.side == other && p.status.Starter? && p.id == id;
          var i :| 0 <= i < |after| && after[i] == p;
          assert ps[i] in ps;
        }
        if id in StarterIds(ps, other) {
          var p :| p in ps && p.side == other && p.status.Starter? && p.id == id;
          var i :| 0 <= i < |ps| && ps[i] == p;
          assert after[i] in after;
        }
      }
    }
  }

  lemma AssignKeepsRows(ps: seq<Participant>, side: Side, ids: seq<Id>)
    requires UniqueParticipants(ps)
    ensures UniqueParticipants(AssignSide(ps, side, ids))
    ensures forall s, id :: OnSide(AssignSide(ps, side, ids), s, id) <==> OnSide(ps, s, id)
  {
    var after := AssignSide(ps, side, ids);
    assert forall i :: 0 <= i < |ps| ==> after[i].id == ps[i].id && after[i].side == ps[i].side && after[i].shirt == ps[i].shirt;
  }

  /** The lineup each participant ends up with. */
  function Fielded(p: Participant, home: seq<Id>, away: seq<Id>): Participant {
    p.(status := if p.id in (if p.side.Home? then home else away) then Starter else Bench)
  }

  function FieldAll(ps: seq<Participant>, home: seq<Id>, away: seq<Id>): (r: seq<Participant>)
    ensures |r| == |ps|
  {
    seq(|ps|, i requires 0 <= i < |ps| => Fielded(ps[i], home, away))
  }

  ghost predicate LineupAccepted(m: Match, home: seq<Id>, away: seq<Id>) {
    && |home| == m.playersPerSide && |away| == m.playersPerSide
    && !Duplicates(home) && !Duplicates(away)
    && AllOnSide(m.participants, Home, home) && AllOnSide(m.participants, Away, away)
  }

  ghost predicate AllOnSide(ps: seq<Participant>, side: Side, ids: seq<Id>) {
    forall id :: id in ids ==> OnSide(ps, side, id)
  }

  lemma LineupSideRuns(v: View, side: Side, ids: seq<Id>)
    requires UniqueParticipants(v.current.participants) && !Duplicates(ids)
    ensures ExecAll(v, [SetLineupSide(side, ids)]) ==
      if AllOnSide(v.current.participants, side, ids)
      then Ok(v.(current := v.current.(participants := AssignSide(v.current.participants, side, ids))))
      else Err(InvalidInput)
  {
    ExecOne(v, SetLineupSide(side, ids));
    CountMeansMembership(v.current.participants, side, ids);
  }

  lemma LineupRuns(v: View, home: seq<Id>, away: seq<Id>)
    requires UniqueParticipants(v.current.participants) && !Duplicates(home) && !Duplicates(away)
    ensures var run := ExecAll(v, [SetLineupSide(Home, home), SetLineupSide(Away, away), SaveRoster]);
            var ps := FieldAll(v.current.participants, home, away);
            if AllOnSide(v.current.participants, Home, home) && AllOnSide(v.current.participants, Away, away)
            then run == Ok(View(v.current.(participants := ps),
                                v.record.(response := RosterResponse(LoadRoster(ps))), v.outbox))
            else run == Err(InvalidInput)
  {
    var a, b := SetLineupSide(Home, home), SetLineupSide(Away, away);
    var ps := v.current.participants;
    var mid := AssignSide(ps, Home, home);
    hide Exec, ExecAll;
    assert [a, b, SaveRoster] == [a] + [b, SaveRoster];
    ExecConcat(v, [a], [b, SaveRoster]);
    LineupSideRuns(v, Home, home);
    if AllOnSide(ps, Home, home) {
      AssignKeepsRows(ps, Home, home);
      assert AllOnSide(mid, Away, away) <==> AllOnSide(ps, Away, away);
      LineupAwayRuns(v.(current := v.current.(participants := mid)), away);
      assert AssignSide(mid, Away, away) == FieldAll(ps, home, away);
    }
  }

  lemma LineupAwayRuns(v: View, away: seq<Id>)
    requires UniqueParticipants(v.current.participants) && !Duplicates(away)
    ensures var ps := AssignSide(v.current.participants, Away, away);
            ExecAll(v, [SetLineupSide(Away, away), SaveRoster]) ==
              if AllOnSide(v.current.participants, Away, away)
              then Ok(View(v.current.(participants := ps),
                           v.record.(response := RosterResponse(LoadRoster(ps))), v.outbox))
              else Err(InvalidInput)
  {
    hide Exec, ExecAll;
    var b := SetLineupSide(Away, away);
    assert [b, SaveRoster] == [b] + [SaveRoster];
    ExecConcat(v, [b], [SaveRoster]);
    LineupSideRuns(v, Away, away);
    ExecSaveRoster(v.(current := v.current.(participants := AssignSide(v.current.participants, Away, away))));
  }

  /**
   * SetInitialLineups succeeds on a draft exactly for complete duplicate-free lists drawn from each side's
   * roster; then the starters are those lists and everyone else sits on the bench.
   */
  lemma LineupOutcome(m: Match, r: Request, stamp: Time, newId: Id)
    requires MatchInv(m) && r.command.SetLineups?
    ensures var ps := FieldAll(m.participants, r.command.home, r.command.away);
            Attempt(Some(m), r, stamp, newId) ==
              if ShapeError(r.command) then Err(InvalidInput)
              else if m.status != Draft then Err(MatchNotDraft)
              else if LineupAccepted(m, r.command.home, r.command.away)
              then Ok(View(m.(participants := ps), Reservation(r, stamp).(response := RosterResponse(LoadRoster(ps))), []))
              else Err(InvalidInput)
  {
    if !ShapeError(r.command) && m.status == Draft {
      LineupRuns(View(m, Reservation(r, stamp), []), r.command.home, r.command.away);
    }
  }

  lemma FieldedComplete(m: Match, home: seq<Id>, away: seq<Id>)
    requires UniqueParticipants(m.participants) && LineupAccepted(m, home, away)
    ensures UniqueParticipants(FieldAll(m.participants, home, away))
    ensures LineupsComplete(m.(participants := FieldAll(m.participants, home, away)))
  {
    var ps := m.participants;
    var mid := AssignSide(ps, Home, home);
    var done := AssignSide(mid, Away, away);
    assert done == FieldAll(ps, home, away);
    AssignKeepsRows(ps, Home, home);
    AssignKeepsRows(mid, Away, away);
    AssignStarters(ps, Home, home, Away);
    AssignStarters(mid, Away, away, Home);
    StartersById(done, Home);
    StartersById(done, Away);
    ListedById(ps, Home, home);
    ListedById(mid, Away, away);
    CountMeansMembership(ps, Home, home);
    CountMeansMembership(mid, Away, away);
  }

  // ---------------------------------------------------------------- rosters

  function StoredAll(ps: seq<Participant>): (r: seq<Participant>)
    ensures |r| == |ps|
  {
    seq(|ps|, i requires 0 <= i < |ps| => StoredParticipant(ps[i]))
  }

  lemma ValidRosterUnique(r: Roster, n: int)
    requires ValidRoster(r, n)
    ensures UniqueParticipants(r.home + r.away)
  {
    var all := r.home + r.away;
    forall i, j | 0 <= i < j < |all|
      ensures all[i].id != all[j].id && (all[i].side == all[j].side ==> all[i].shirt != all[j].shirt)
    {
      if j < |r.home| { assert all[i] == r.home[i] && all[j] == r.home[j]; }
      else if i < |r.home| {
        assert ValidParticipant(Home, r.home[i]) && ValidParticipant(Away, r.away[j - |r.home|]);
      } else { assert all[i] == r.away[i - |r.home|] && all[j] == r.away[j - |r.home|]; }
    }
  }

  /** Every participant fits the columns it is stored in. */
  ghost predicate AllStorable(ps: seq<Participant>) {
    forall i :: 0 <= i < |ps| ==> !ParticipantRefused(ps[i])
  }

  /** The insertion loop: unique participants never clash, and all go in, in order, exactly when each fits its columns. */
  lemma {:induction false} ExecInserts(v: View, ps: seq<Participant>, k: nat)
    requires UniqueParticipants(ps) && k <= |ps| && v.current.participants == StoredAll(ps[..k])
    ensures ExecAll(v, InsertParticipants(ps[k..])) ==
              if AllStorable(ps[k..]) then Ok(v.(current := v.current.(participants := StoredAll(ps))))
              else Err(ConstraintViolation)
    decreases |ps| - k
  {
    if k == |ps| {
      assert ps[..k] == ps && ps[k..] == [];
    } else {
      var next := v.(current := v.current.(participants := StoredAll(ps[..k + 1])));
      assert InsertParticipants(ps[k..])[1..] == InsertParticipants(ps[k + 1..]);
      assert !ParticipantClash(v.current.participants, ps[k]) by {
        forall i | 0 <= i < k ensures
          !(v.current.participants[i].id == ps[k].id ||
            (v.current.participants[i].side == ps[k].side && v.current.participants[i].shirt == ps[k].shirt))
        {
          assert v.current.participants[i] == StoredParticipant(ps[i]);
        }
      }
      assert ps[k..][0] == ps[k] && ps[k..][1..] == ps[k + 1..];
      if !ParticipantRefused(ps[k]) {
        assert v.current.participants + [StoredParticipant(ps[k])] == StoredAll(ps[..k + 1]);
        ExecInserts(next, ps, k + 1);
        assert AllStorable(ps[k..]) <==> AllStorable(ps[k + 1..]) by { StorableTail(ps, k); }
      }
    }
  }

  lemma StorableTail(ps: seq<Participant>, k: nat)
    requires k < |ps| && !ParticipantRefused(ps[k])
    ensures AllStorable(ps[k..]) <==> AllStorable(ps[k + 1..])
  {
    assert ps[k..] == [ps[k]] + ps[k + 1..];
  }

  lemma RosterRuns(v: View, ps: seq<Participant>)
    requires UniqueParticipants(ps) && v.current.subjects == []
    ensures ExecAll(v, [DeleteParticipants] + InsertParticipants(ps) + [SaveRoster])
         == if AllStorable(ps)
            then Ok(View(v.current.(participants := StoredAll(ps)),
                         v.record.(response := RosterResponse(LoadRoster(StoredAll(ps)))), v.outbox))
            else Err(ConstraintViolation)
  {
    hide ExecAll;
    var w := v.(current := v.current.(participants := []));
    assert [DeleteParticipants] + InsertParticipants(ps) + [SaveRoster]
        == [DeleteParticipants] + (InsertParticipants(ps) + [SaveRoster]);
    ExecConcat(v, [DeleteParticipants], InsertParticipants(ps) + [SaveRoster]);
    ExecOne(v, DeleteParticipants);
    ExecConcat(w, InsertParticipants(ps), [SaveRoster]);
    assert ps[..0] == [] && ps[0..] == ps;
    ExecInserts(w, ps, 0);
    if AllStorable(ps) { ExecSaveRoster(w.(current := w.current.(participants := StoredAll(ps)))); }
  }

  lemma {:induction false} OfSideMultiset(ps: seq<Participant>, side: Side, p: Participant)
    ensures multiset(OfSide(ps, side))[p] == if p.side == side then multiset(ps)[p] else 0
  {
    if ps != [] {
      var n := |ps| - 1;
      OfSideMultiset(ps[..n], side, p);
      assert ps == ps[..n] + [ps[n]];
    }
  }

  lemma {:induction false} OfSideMember(ps: seq<Participant>, side: Side, p: Participant)
    ensures p in OfSide(ps, side) <==> p in ps && p.side == side
  {
    if ps != [] {
      var n := |ps| - 1;
      OfSideMember(ps[..n], side, p);
      assert ps == ps[..n] + [ps[n]];
    }
  }

  lemma {:induction false} OfSideSorted(ps: seq<Participant>, side: Side)
    requires SortedBy(ps, SideRank)
    ensures SortedBy(OfSide(ps, side), SideRank)
  {
    if ps != [] {
      var n := |ps| - 1;
      var front := OfSide(ps[..n], side);
      OfSideSorted(ps[..n], side);
      forall p | p in front ensures KeyLe(SideRank(p), SideRank(ps[n])) {
        OfSideMember(ps[..n], side, p);
        var k :| 0 <= k < n && ps[..n][k] == p;
        assert ps[k] == p;
      }
    }
  }

  ghost predicate ShirtsAscending(ps: seq<Participant>) {
    forall i, j :: 0 <= i < j < |ps| ==> ps[i].shirt < ps[j].shirt
  }

  lemma CountedTwice(ps: seq<Participant>, i: nat, j: nat)
    requires i < j < |ps| && ps[i] == ps[j]
    ensures multiset(ps)[ps[i]] >= 2
  {
    assert ps == ps[..j] + ps[j..];
    assert ps[..j][i] in multiset(ps[..j]) && ps[j..][0] in multiset(ps[j..]);
  }

  lemma {:induction false} CountedOnce(ps: seq<Participant>, p: Participant)
    requires UniqueParticipants(ps)
    ensures multiset(ps)[p] <= 1
  {
    if ps != [] {
      var n := |ps| - 1;
      CountedOnce(ps[..n], p);
      assert ps == ps[..n] + [ps[n]];
    }
  }

  lemma LoadedSide(ps: seq<Participant>, side: Side)
    requires UniqueParticipants(ps)
    ensures multiset(OfSide(OrderBy(ps, SideRank), side)) == multiset(OfSide(ps, side))
    ensures ShirtsAscending(OfSide(OrderBy(ps, SideRank), side))
  {
    var sorted := OrderBy(ps, SideRank);
    var loaded := OfSide(sorted, side);
    forall p ensures multiset(loaded)[p] == multiset(OfSide(ps, side))[p] <= 1 {
      OfSideMultiset(sorted, side, p);
      OfSideMultiset(ps, side, p);
      CountedOnce(ps, p);
    }
    forall i, j | 0 <= i < j < |loaded| ensures loaded[i].shirt < loaded[j].shirt {
      LoadedSorted(ps, side, i, j);
      if loaded[i] == loaded[j] { CountedTwice(loaded, i, j); }
    }
  }

  /** Different rows of one side never share a shirt, so their order by shirt is strict. */
  lemma LoadedSorted(ps: seq<Participant>, side: Side, i: nat, j: nat)
    requires UniqueParticipants(ps) && i < j < |OfSide(OrderBy(ps, SideRank), side)|
    ensures var loaded := OfSide(OrderBy(ps, SideRank), side);
            loaded[i].shirt <= loaded[j].shirt && (loaded[i].shirt == loaded[j].shirt ==> loaded[i] == loaded[j])
  {
    var sorted := OrderBy(ps, SideRank);
    var loaded := OfSide(sorted, side);
    OrderBySorted(ps, SideRank);
    OfSideSorted(sorted, side);
    OfSideMember(sorted, side, loaded[i]);
    OfSideMember(sorted, side, loaded[j]);
    assert KeyLe(SideRank(loaded[i]), SideRank(loaded[j]));
    assert loaded[i] in multiset(sorted) && loaded[j] in multiset(sorted);
    assert loaded[i] in multiset(ps) && loaded[j] in multiset(ps);
  }

  lemma {:induction false} OfSideConcat(ps: seq<Participant>, qs: seq<Participant>, side: Side)
    ensures OfSide(ps + qs, side) == OfSide(ps, side) + OfSide(qs, side)
    decreases |qs|
  {
    if qs == [] {
      assert ps + qs == ps;
    } else {
      var n := |qs| - 1;
      assert (ps + qs)[..|ps + qs| - 1] == ps + qs[..n];
      OfSideConcat(ps, qs[..n], side);
    }
  }

  lemma {:induction false} OfSideUniform(ps: seq<Participant>, side: Side)
    requires forall i :: 0 <= i < |ps| ==> ps[i].side == side
    ensures OfSide(ps, side) == ps && OfSide(ps, if side.Home? then Away else Home) == []
  {
    if ps != [] {
      OfSideUniform(ps[..|ps| - 1], side);
      assert ps == ps[..|ps| - 1] + [ps[|ps| - 1]];
    }
  }

  lemma StoredSides(r: Roster, n: int)
    requires ValidRoster(r, n)
    ensures var all := StoredAll(r.home + r.away);
            && UniqueParticipants(all)
            && OfSide(all, Home) == StoredAll(r.home) && OfSide(all, Away) == StoredAll(r.away)
  {
    var home, away := StoredAll(r.home), StoredAll(r.away);
    ValidRosterUnique(r, n);
    UniqueStored(r.home + r.away);
    assert StoredAll(r.home + r.away) == home + away;
    assert forall i :: 0 <= i < |home| ==> ValidParticipant(Home, r.home[i]) && home[i].side == Home;
    assert forall i :: 0 <= i < |away| ==> ValidParticipant(Away, r.away[i]) && away[i].side == Away;
    OfSideConcat(home, away, Home);
    OfSideConcat(home, away, Away);
    OfSideUniform(home, Home);
    OfSideUniform(away, Away);
  }

  /**
   * On a draft exactly the valid rosters that fit their columns are accepted; the table then holds the stored rows and the response is
   * what loadRoster reads back from it.
   */
  lemma RosterOutcome(m: Match, r: Request, stamp: Time, newId: Id)
    requires MatchInv(m) && r.command.ReplaceRoster?
    ensures var all := StoredAll(r.command.roster.home + r.command.roster.away);
            Attempt(Some(m), r, stamp, newId) ==
              if m.status != Draft then Err(MatchNotDraft)
              else if !ValidRoster(r.command.roster, m.playersPerSide) then Err(InvalidInput)
              else if !AllStorable(r.command.roster.home + r.command.roster.away) then Err(ConstraintViolation)
              else Ok(View(m.(participants := all),
                           Reservation(r, stamp).(response := RosterResponse(LoadRoster(all))), []))
  {
    var roster := r.command.roster;
    if m.status == Draft && ValidRoster(roster, m.playersPerSide) {
      ValidRosterUnique(roster, m.playersPerSide);
      RosterRuns(View(m, Reservation(r, stamp), []), roster.home + roster.away);
    }
  }

  /**
   * Roster round trip: reading a stored valid roster back gives each side its own participants, names trimmed
   * and unselected, in shirt order.
   */
  lemma RosterRoundTrip(roster: Roster, n: int)
    requires ValidRoster(roster, n)
    ensures var loaded := LoadRoster(StoredAll(roster.home + roster.away));
            && multiset(loaded.home) == multiset(StoredAll(roster.home)) && ShirtsAscending(loaded.home)
            && multiset(loaded.away) == multiset(StoredAll(roster.away)) && ShirtsAscending(loaded.away)
  {
    StoredSides(roster, n);
    LoadedSide(StoredAll(roster.home + roster.away), Home);
    LoadedSide(StoredAll(roster.home + roster.away), Away);
  }

  // ---------------------------------------------------------------- what is stored and answered, field by field

  /** The two lists hold exactly the rows of their sides, each once, in ascending shirt order. */
  ghost predicate Loads(ps: seq<Participant>, loaded: Roster) {
    && (forall p :: p in loaded.home <==> p in ps && p.side == Home)
    && (forall p :: p in loaded.away <==> p in ps && p.side == Away)
    && ShirtsAscending(loaded.home) && ShirtsAscending(loaded.away)
  }

  lemma LoadsExactly(ps: seq<Participant>)
    requires UniqueParticipants(ps)
    ensures Loads(ps, LoadRoster(ps))
  {
    var sorted := OrderBy(ps, SideRank);
    LoadedSide(ps, Home);
    LoadedSide(ps, Away);
    forall p ensures (p in OfSide(sorted, Home) <==> p in ps && p.side == Home)
                  && (p in OfSide(sorted, Away) <==> p in ps && p.side == Away) {
      OfSideMember(sorted, Home, p);
      OfSideMember(sorted, Away, p);
      assert p in sorted <==> p in multiset(sorted);
      assert p in ps <==> p in multiset(ps);
    }
  }

  /** The row of a submitted participant: the same person, with texts trimmed, not selected yet. */
  predicate Registers(p: Participant, row: Participant) {
    && row.id == p.id && row.side == p.side && row.shirt == p.shirt
    && row.name == TrimSpace(p.name) && row.position == TrimSpace(p.position) && row.status == NotSelected
  }

  lemma StoredRegisters(ps: seq<Participant>)
    ensures forall i :: 0 <= i < |ps| ==> Registers(ps[i], StoredAll(ps)[i])
  {
  }

  /** Each submitted participant has a row, each row a submitted participant, and there are no more of one than the other. */
  ghost predicate Registered(submitted: seq<Participant>, rows: seq<Participant>) {
    && |rows| == |submitted|
    && (forall i :: 0 <= i < |submitted| ==> exists k :: 0 <= k < |rows| && Registers(submitted[i], rows[k]))
    && (forall k :: 0 <= k < |rows| ==> exists i :: 0 <= i < |submitted| && Registers(submitted[i], rows[k]))
  }

  lemma RegisteredSide(submitted: seq<Participant>, rows: seq<Participant>)
    requires multiset(rows) == multiset(StoredAll(submitted))
    ensures Registered(submitted, rows)
  {
    var stored := StoredAll(submitted);
    assert |rows| == |multiset(rows)| && |stored| == |multiset(stored)|;
    forall i | 0 <= i < |submitted| ensures exists k :: 0 <= k < |rows| && Registers(submitted[i], rows[k]) {
      assert stored[i] in multiset(stored);
      assert stored[i] in multiset(rows);
      var k :| 0 <= k < |rows| && rows[k] == stored[i];
      assert Registers(submitted[i], rows[k]);
    }
    forall k | 0 <= k < |rows| ensures exists i :: 0 <= i < |submitted| && Registers(submitted[i], rows[k]) {
      assert rows[k] in multiset(rows);
      assert rows[k] in multiset(stored);
      var i :| 0 <= i < |stored| && stored[i] == rows[k];
      assert Registers(submitted[i], rows[k]);
    }
  }

  /** One submitted participant, spelled out: the right side, a shirt from 1 to 99, and texts that fit their columns. */
  predicate Acceptable(p: Participant, side: Side) {
    && p.side == side && 1 <= p.shirt <= 99
    && 1 <= |TrimSpace(p.name)| <= 100 && '\0' !in TrimSpace(p.name)
    && |TrimSpace(p.position)| <= 16 && '\0' !in TrimSpace(p.position)
  }

  /** Exactly the drafts given enough acceptable participants a side, no shirt twice on one and no id twice at all. */
  lemma RosterAcceptedExactly(m: Match, r: Request, stamp: Time, newId: Id)
    requires MatchInv(m) && r.command.ReplaceRoster?
    ensures var home, away := r.command.roster.home, r.command.roster.away;
            Attempt(Some(m), r, stamp, newId).Ok? <==>
              && m.status == Draft && |home| >= m.playersPerSide && |away| >= m.playersPerSide
              && (forall i :: 0 <= i < |home| ==> Acceptable(home[i], Home))
              && (forall i :: 0 <= i < |away| ==> Acceptable(away[i], Away))
              && (forall i, j :: 0 <= i < j < |home| ==> home[i].shirt != home[j].shirt && home[i].id != home[j].id)
              && (forall i, j :: 0 <= i < j < |away| ==> away[i].shirt != away[j].shirt && away[i].id != away[j].id)
              && (forall i, j :: 0 <= i < |home| && 0 <= j < |away| ==> home[i].id != away[j].id)
  {
    assert 2 <= m.playersPerSide <= 11;
    hide Attempt, MatchInv, LoadRoster, StoredAll, AllStorable, ValidRoster, Acceptable;
    RosterOutcome(m, r, stamp, newId);
    RosterSpelledOut(r.command.roster, m.playersPerSide);
  }

  lemma RosterSpelledOut(roster: Roster, n: int)
    requires 2 <= n <= 11
    ensures var home, away := roster.home, roster.away;
            ValidRoster(roster, n) && AllStorable(home + away) <==>
              && |home| >= n && |away| >= n
              && (forall i :: 0 <= i < |home| ==> Acceptable(home[i], Home))
              && (forall i :: 0 <= i < |away| ==> Acceptable(away[i], Away))
              && (forall i, j :: 0 <= i < j < |home| ==> home[i].shirt != home[j].shirt && home[i].id != home[j].id)
              && (forall i, j :: 0 <= i < j < |away| ==> away[i].shirt != away[j].shirt && away[i].id != away[j].id)
              && (forall i, j :: 0 <= i < |home| && 0 <= j < |away| ==> home[i].id != away[j].id)
  {
    hide AllStorable, DistinctIds, ValidSide, Acceptable;
    SidesStorable(roster.home, roster.away);
    SidesDistinct(roster.home, roster.away);
    AcceptableSide(roster.home, Home);
    AcceptableSide(roster.away, Away);
  }

  lemma AcceptableSide(ps: seq<Participant>, side: Side)
    ensures ValidSide(side, ps) && AllStorable(ps) <==>
              && (forall i :: 0 <= i < |ps| ==> Acceptable(ps[i], side))
              && (forall i, j :: 0 <= i < j < |ps| ==> ps[i].shirt != ps[j].shirt)
  {
    hide TrimSpace;
    if ValidSide(side, ps) && AllStorable(ps) {
      forall i | 0 <= i < |ps| ensures Acceptable(ps[i], side) {
        assert ValidParticipant(side, ps[i]) && !ParticipantRefused(ps[i]);
      }
    }
  }

  lemma SidesStorable(home: seq<Participant>, away: seq<Participant>)
    ensures AllStorable(home + away) <==> AllStorable(home) && AllStorable(away)
  {
    hide ParticipantRefused;
    var all := home + away;
    assert forall i :: 0 <= i < |home| ==> all[i] == home[i];
    assert forall j :: 0 <= j < |away| ==> all[|home| + j] == away[j];
  }

  lemma SidesDistinct(home: seq<Participant>, away: seq<Participant>)
    ensures DistinctIds(home + away) <==>
              && (forall i, j :: 0 <= i < j < |home| ==> home[i].id != home[j].id)
              && (forall i, j :: 0 <= i < j < |away| ==> away[i].id != away[j].id)
              && forall i, j :: 0 <= i < |home| && 0 <= j < |away| ==> home[i].id != away[j].id
  {
    var all := home + away;
    assert forall i :: 0 <= i < |home| ==> all[i] == home[i];
    assert forall j :: 0 <= j < |away| ==> all[|home| + j] == away[j];
  }

  /**
   * ReplaceRoster, field by field: the answer lists each side's submitted participants and nobody else, in strictly
   * ascending shirt order, each under its own id, side and shirt with name and position trimmed and not selected;
   * the table holds the same people in the order they were submitted, and nothing else of the match changes.
   */
  lemma RosterStored(m: Match, r: Request, stamp: Time, newId: Id)
    requires MatchInv(m) && m.status.Draft? && r.command.ReplaceRoster? && Attempt(Some(m), r, stamp, newId).Ok?
    ensures var v := Attempt(Some(m), r, stamp, newId).value;
            var roster, response := r.command.roster, v.record.response;
            && response.RosterResponse?
            && Registered(roster.home, response.roster.home) && ShirtsAscending(response.roster.home)
            && Registered(roster.away, response.roster.away) && ShirtsAscending(response.roster.away)
            && |v.current.participants| == |roster.home + roster.away|
            && (forall i :: 0 <= i < |roster.home + roster.away| ==>
                  Registers((roster.home + roster.away)[i], v.current.participants[i]))
            && v.current == m.(participants := v.current.participants) && v.outbox == []
  {
    hide Attempt, LoadRoster, MatchInv, ValidRoster, AllStorable, StoredAll, Registers, Registered, ShirtsAscending;
    var roster := r.command.roster;
    RosterOutcome(m, r, stamp, newId);
    StoredRegisters(roster.home + roster.away);
    RosterRoundTrip(roster, m.playersPerSide);
    var loaded := LoadRoster(StoredAll(roster.home + roster.away));
    RegisteredSide(roster.home, loaded.home);
    RegisteredSide(roster.away, loaded.away);
  }

  /** The row of a fielded participant: only the status changes, to STARTER for the listed and BENCH for the rest. */
  predicate Fields(p: Participant, row: Participant, home: seq<Id>, away: seq<Id>) {
    && row.id == p.id && row.side == p.side && row.shirt == p.shirt && row.name == p.name && row.position == p.position
    && (p.side == Home ==> row.status == (if p.id in home then Starter else Bench))
    && (p.side == Away ==> row.status == (if p.id in away then Starter else Bench))
  }

  lemma FieldedFields(ps: seq<Participant>, home: seq<Id>, away: seq<Id>)
    ensures forall i :: 0 <= i < |ps| ==> Fields(ps[i], FieldAll(ps, home, away)[i], home, away)
  {
  }

  /** SetInitialLineups, field by field: everyone keeps their place and gets a status, and the answer lists them so. */
  lemma LineupStored(m: Match, r: Request, stamp: Time, newId: Id)
    requires MatchInv(m) && m.status.Draft? && r.command.SetLineups? && Attempt(Some(m), r, stamp, newId).Ok?
    ensures var v := Attempt(Some(m), r, stamp, newId).value;
            var response := v.record.response;
            && |v.current.participants| == |m.participants|
            && (forall i :: 0 <= i < |m.participants| ==>
                  Fields(m.participants[i], v.current.participants[i], r.command.home, r.command.away))
            && response.RosterResponse? && Loads(v.current.participants, response.roster)
            && v.current == m.(participants := v.current.participants) && v.outbox == []
  {
    assert UniqueParticipants(m.participants);
    hide Attempt, LoadRoster, MatchInv, LineupAccepted, LineupsComplete, UniqueParticipants, FieldAll, Fields, Loads, ShapeError;
    FieldedFields(m.participants, r.command.home, r.command.away);
    LineupOutcome(m, r, stamp, newId);
    FieldedComplete(m, r.command.home, r.command.away);
    LoadsExactly(FieldAll(m.participants, r.command.home, r.command.away));
  }

  lemma UniqueStored(ps: seq<Participant>)
    requires UniqueParticipants(ps)
    ensures UniqueParticipants(StoredAll(ps))
  {
  }
}
