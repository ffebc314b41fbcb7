/** What every command keeps about a match: ledger structure, live score, subject links and setup state. */
module Invariants {
  import opened Prelude
  import opened Domain
  import opened Ledger
  import opened Store
  import opened Effects

  // ---------------------------------------------------------------- re-numbering subjects

  lemma {:induction false} RowsOfConcat(a: seq<SubjectRow>, b: seq<SubjectRow>, event: Id)
    ensures RowsOf(a + b, event) == RowsOf(a, event) + RowsOf(b, event)
    decreases |b|
  {
    if b == [] {
      assert a + b == a;
    } else {
      var n := |b| - 1;
      assert (a + b)[..|a + b| - 1] == a + b[..n];
      RowsOfConcat(a, b[..n], event);
    }
  }

  lemma {:induction false} RowsOfOnly(rows: seq<SubjectRow>, event: Id)
    requires forall i :: 0 <= i < |rows| ==> rows[i].event == event
    ensures RowsOf(rows, event) == rows
  {
    if rows != [] {
      RowsOfOnly(rows[..|rows| - 1], event);
      assert rows == rows[..|rows| - 1] + [rows[|rows| - 1]];
    }
  }

  lemma {:induction false} RowsOfNone(rows: seq<SubjectRow>, event: Id)
    requires forall i :: 0 <= i < |rows| ==> rows[i].event != event
    ensures RowsOf(rows, event) == []
  {
    if rows != [] { RowsOfNone(rows[..|rows| - 1], event); }
  }

  ghost predicate RolesSorted(subjects: seq<Subject>) {
    forall i, j :: 0 <= i < j < |subjects| ==> RoleRank(subjects[i].role) <= RoleRank(subjects[j].role)
  }

  /** The names of the roles as the role column stores them. */
  function RoleText(r: Role): string {
    match r
    case Assister => "ASSISTER" case Opponent => "OPPONENT" case PlayerOff => "PLAYER_OFF"
    case PlayerOn => "PLAYER_ON" case Primary => "PRIMARY" case Scorer => "SCORER" case UnsupportedRole(t) => t
  }

  predicate TextBefore(a: string, b: string) {
    b != [] && (a == [] || a[0] < b[0] || (a[0] == b[0] && TextBefore(a[1..], b[1..])))
  }

  lemma {:induction false} BeforeAfterPrefix(p: string, a: string, b: string)
    ensures TextBefore(p + a, p + b) <==> TextBefore(a, b)
  {
    if p == [] {
      assert p + a == a && p + b == b;
    } else {
      assert (p + a)[1..] == p[1..] + a && (p + b)[1..] == p[1..] + b;
      BeforeAfterPrefix(p[1..], a, b);
    }
  }

  /** ORDER BY role is the order of the stored names: the ranks follow it. */
  lemma RolesInTextOrder(a: Role, b: Role)
    requires !a.UnsupportedRole? && !b.UnsupportedRole?
    ensures RoleRank(a) < RoleRank(b) <==> TextBefore(RoleText(a), RoleText(b))
  {
    BeforeAfterPrefix("PLAYER_O", "FF", "N");
    BeforeAfterPrefix("PLAYER_O", "N", "FF");
    assert "PLAYER_O" + "FF" == "PLAYER_OFF" && "PLAYER_O" + "N" == "PLAYER_ON";
    BeforeAfterPrefix(RoleText(a), "", "");
    assert RoleText(a) + "" == RoleText(a);
  }

  lemma SubjectsOfSorted(rows: seq<SubjectRow>, event: Id)
    ensures RolesSorted(SubjectsOf(rows, event))
  {
    var sorted := OrderBy(RowsOf(rows, event), RoleOrdinal);
    OrderBySorted(RowsOf(rows, event), RoleOrdinal);
    forall i, j | 0 <= i < j < |sorted|
      ensures RoleRank(SubjectsOf(rows, event)[i].role) <= RoleRank(SubjectsOf(rows, event)[j].role)
    {
      assert KeyLe(RoleOrdinal(sorted[i]), RoleOrdinal(sorted[j]));
    }
  }

  /** Subjects already in role order come back from numbering and sorting exactly as they were. */
  lemma NumberingSortedIsIdentity(subjects: seq<Subject>, event: Id)
    requires RolesSorted(subjects)
    ensures SubjectsOf(Numbered(event, subjects), event) == subjects
  {
    var rows := Numbered(event, subjects);
    RowsOfOnly(rows, event);
    forall i, j | 0 <= i < j < |rows| ensures KeyLe(RoleOrdinal(rows[i]), RoleOrdinal(rows[j])) {
      assert RoleRank(subjects[i].role) <= RoleRank(subjects[j].role);
    }
    OrderBySortedIdentity(rows, RoleOrdinal);
    assert AsSubjects(rows) == subjects;
  }

  /** Rows inserted for a new event leave every other event's subjects alone and list under the new one. */
  lemma SubjectsAfterInsert(rows: seq<SubjectRow>, newId: Id, subjects: seq<Subject>, other: Id)
    requires forall i :: 0 <= i < |rows| ==> rows[i].event != newId
    ensures other != newId ==> SubjectsOf(rows + Numbered(newId, subjects), other) == SubjectsOf(rows, other)
    ensures SubjectsOf(rows + Numbered(newId, subjects), newId) == SubjectsOf(Numbered(newId, subjects), newId)
  {
    var added := Numbered(newId, subjects);
    RowsOfConcat(rows, added, other);
    RowsOfConcat(rows, added, newId);
    RowsOfNone(rows, newId);
    assert RowsOf(rows + added, newId) == RowsOf(added, newId);
    if other != newId {
      RowsOfNone(added, other);
      assert RowsOf(rows + added, other) == RowsOf(rows, other);
    }
  }

  // ---------------------------------------------------------------- invariants

  /** The live row agrees with what the rebuild query would compute, and neither score is negative. */
  ghost predicate ScoreInv(m: Match) {
    && m.sequence == |m.events|
    && m.home == Score(m.events, m.reversals.Values, Home) && m.home >= 0
    && m.away == Score(m.events, m.reversals.Values, Away) && m.away >= 0
  }

  /** A reversal lists the subjects of the event it reverses. */
  ghost predicate SubjectInv(m: Match) {
    forall j, i :: Reverses(m.events, j, i, m.reversals) ==>
      SubjectsOf(m.subjects, m.events[j].id) == SubjectsOf(m.subjects, m.events[i].id)
  }

  /** A reversal's stored notes: a reason, and the id of the event its link points to. */
  ghost predicate NotesInv(m: Match) {
    forall j :: 0 <= j < |m.events| && m.events[j].action.EventReversal? ==>
      m.events[j].id in m.reversals && HasNotes(m.events[j].qualifiers, m.reversals[m.events[j].id])
  }

  predicate HasNotes(q: map<string, Json>, eventId: Id) {
    && q.Keys == {"reason", "reverses_event_id"}
    && q["reason"].JsonText? && |q["reason"].text| >= 3 && q["reverses_event_id"] == JsonId(eventId)
  }

  ghost predicate UniqueParticipants(ps: seq<Participant>) {
    forall i, j :: 0 <= i < j < |ps| ==> ps[i].id != ps[j].id && (ps[i].side == ps[j].side ==> ps[i].shirt != ps[j].shirt)
  }

  ghost predicate SetupInv(m: Match) {
    && 2 <= m.playersPerSide <= 11
    && (m.status.Draft? || m.status.Ready? || m.status.Live?)
    && UniqueParticipants(m.participants)
    && (!m.status.Live? ==> m.events == [] && m.subjects == [] && m.reversals == map[])
    && (!m.status.Draft? ==> LineupsComplete(m))
  }

  ghost predicate MatchInv(m: Match) {
    LedgerInv(m.events, m.reversals) && ScoreInv(m) && SubjectRows(m) && SubjectInv(m) && NotesInv(m) && SetupInv(m)
  }

  // ---------------------------------------------------------------- ledger commands keep them

  lemma ScoreOfNewRow(m: Match, row: EventRow, side: Side)
    requires LedgerInv(m.events, m.reversals) && NewRow(m, row)
    ensures Score(m.events + [row], m.reversals.Values, side)
         == Score(m.events, m.reversals.Values, side) + (if row.side == side then Delta(row) else 0)
  {
    if row.id in m.reversals.Values { ReversedAreScoring(m.events, m.reversals, row.id); }
    ScoreAppend(m.events, row, m.reversals.Values, side);
  }

  /** A new row's subjects are as good as the rest. */
  lemma SubjectRowsKept(m: Match, row: EventRow, subjects: seq<Subject>)
    requires SubjectRows(m) && AllListable(m.participants, subjects)
    ensures SubjectRows(m.(events := m.events + [row], subjects := m.subjects + Numbered(row.id, subjects)))
  {
    var all := m.subjects + Numbered(row.id, subjects);
    forall i | 0 <= i < |all|
      ensures HasId(m.events + [row], all[i].event) && Listable(m.participants, Subject(all[i].role, all[i].participant))
    {
      if i < |m.subjects| {
        assert HasId(m.events, m.subjects[i].event);
        var k :| 0 <= k < |m.events| && m.events[k].id == m.subjects[i].event;
        assert (m.events + [row])[k].id == all[i].event;
      } else {
        assert Listable(m.participants, subjects[i - |m.subjects|]);
        assert (m.events + [row])[|m.events|].id == all[i].event;
      }
    }
  }

  /** Adding a row with its subjects keeps what every older row lists. */
  lemma SubjectsKept(m: Match, row: EventRow, subjects: seq<Subject>)
    requires SubjectRows(m) && NewRow(m, row)
    ensures var all := m.subjects + Numbered(row.id, subjects);
            && (forall k :: 0 <= k < |m.events| ==>
                  SubjectsOf(all, m.events[k].id) == SubjectsOf(m.subjects, m.events[k].id))
            && SubjectsOf(all, row.id) == SubjectsOf(Numbered(row.id, subjects), row.id)
  {
    var all := m.subjects + Numbered(row.id, subjects);
    forall i | 0 <= i < |m.subjects| ensures m.subjects[i].event != row.id {
      assert HasId(m.events, m.subjects[i].event);
    }
    forall k | 0 <= k < |m.events| ensures SubjectsOf(all, m.events[k].id) == SubjectsOf(m.subjects, m.events[k].id) {
      assert m.events[k].id != row.id;
      SubjectsAfterInsert(m.subjects, row.id, subjects, m.events[k].id);
    }
    SubjectsAfterInsert(m.subjects, row.id, subjects, row.id);
  }

  lemma NewRowDiffers(m: Match, row: EventRow)
    requires NewRow(m, row)
    ensures NewTo(m.events, row)
  {
    forall i | 0 <= i < |m.events| ensures m.events[i].id != row.id && m.events[i].clientId != row.clientId {
      assert !HasId(m.events, row.id) && !HasClient(m.events, row.clientId);
    }
  }

  /** A recorded event: what it adds to the live score is what it adds to the ledger's sum. */
  lemma PlainRowKeeps(id: Id, m: Match, row: EventRow, subjects: seq<Subject>, next: Snapshot)
    requires MatchInv(m) && m.status.Live? && NewRow(m, row) && Faithful(row)
    requires !row.action.EventReversal? && row.sequence == m.sequence + 1 && AllListable(m.participants, subjects)
    requires next == SnapshotOf(id, m).(sequence := m.sequence + 1).Add(row.side, Delta(row))
    requires next.home >= 0 && next.away >= 0
    ensures MatchInv(EventState(m, row, subjects, m.reversals, next))
  {
    hide SubjectsOf, Numbered, Score, Faithful;
    var m' := EventState(m, row, subjects, m.reversals, next);
    NewRowDiffers(m, row);
    assert LedgerInv(m'.events, m'.reversals) by { ExtendPlain(m.events, m.reversals, row); }
    assert ScoreInv(m') by {
      ScoreOfNewRow(m, row, Home);
      ScoreOfNewRow(m, row, Away);
    }
    assert SubjectRows(m') by { SubjectRowsKept(m, row, subjects); }
    assert SubjectInv(m') by { PlainSubjects(m, row, subjects); }
    assert NotesInv(m');
  }

  lemma PlainSubjects(m: Match, row: EventRow, subjects: seq<Subject>)
    requires SubjectRows(m) && SubjectInv(m) && NewRow(m, row) && ReversalStructure(m.events, m.reversals)
    ensures SubjectInv(m.(events := m.events + [row], subjects := m.subjects + Numbered(row.id, subjects)))
  {
    hide SubjectsOf, Numbered;
    var events, all := m.events + [row], m.subjects + Numbered(row.id, subjects);
    SubjectsKept(m, row, subjects);
    forall j, i | Reverses(events, j, i, m.reversals)
      ensures SubjectsOf(all, events[j].id) == SubjectsOf(all, events[i].id)
    {
      assert row.id !in m.reversals;
      assert Reverses(m.events, j, i, m.reversals);
    }
  }

  /** A reversal: the live row adds the inverse delta, the ledger's sum drops the delta itself. */
  lemma ReversalRowKeeps(id: Id, m: Match, row: EventRow, i: nat, next: Snapshot)
    requires MatchInv(m) && m.status.Live? && NewRow(m, row) && Faithful(row)
    requires row.action.EventReversal? && row.sequence == m.sequence + 1
    requires i < |m.events| && m.events[i].side == row.side && Delta(m.events[i]) != 0
    requires m.events[i].id !in m.reversals.Values && HasNotes(row.qualifiers, m.events[i].id)
    requires next == SnapshotOf(id, m).(sequence := m.sequence + 1).Add(row.side, -Delta(m.events[i]))
    requires next.home >= 0 && next.away >= 0
    ensures MatchInv(EventState(m, row, SubjectsOf(m.subjects, m.events[i].id),
                                m.reversals[row.id := m.events[i].id], next))
  {
    hide SubjectsOf, Numbered, Score, Faithful, Delta, UniqueParticipants, StarterCount, NotesInv;
    NewRowDiffers(m, row);
    assert row.id !in m.reversals;
    NotesKept(m, row, SubjectsOf(m.subjects, m.events[i].id), m.events[i].id, next);
    ExtendReversal(m.events, m.reversals, row, i);
    ReversalLive(id, m, row, i, next);
    StoredListable(m, m.events[i].id);
    SubjectRowsKept(m, row, SubjectsOf(m.subjects, m.events[i].id));
    ReversalSubjects(m, row, i);
  }

  lemma NotesKept(m: Match, row: EventRow, subjects: seq<Subject>, target: Id, next: Snapshot)
    requires NotesInv(m) && row.id !in m.reversals && HasNotes(row.qualifiers, target)
    ensures NotesInv(EventState(m, row, subjects, m.reversals[row.id := target], next))
  {
    hide HasNotes, Numbered;
  }

  lemma ReversalLive(id: Id, m: Match, row: EventRow, i: nat, next: Snapshot)
    requires LedgerInv(m.events, m.reversals) && ScoreInv(m) && NewRow(m, row)
    requires row.action.EventReversal? && row.id !in m.reversals
    requires i < |m.events| && m.events[i].side == row.side && m.events[i].id !in m.reversals.Values
    requires next == SnapshotOf(id, m).(sequence := m.sequence + 1).Add(row.side, -Delta(m.events[i]))
    requires next.home >= 0 && next.away >= 0
    ensures ScoreInv(m.(events := m.events + [row], reversals := m.reversals[row.id := m.events[i].id],
                        sequence := next.sequence, home := next.home, away := next.away))
  {
    hide Delta, LedgerInv;
    ScoreOfReversal(m, row, i, Home);
    ScoreOfReversal(m, row, i, Away);
  }

  lemma ReversalSubjects(m: Match, row: EventRow, i: nat)
    requires SubjectRows(m) && SubjectInv(m) && NewRow(m, row) && UniqueIds(m.events) && row.id !in m.reversals
    requires i < |m.events|
    ensures SubjectInv(m.(events := m.events + [row],
                          subjects := m.subjects + Numbered(row.id, SubjectsOf(m.subjects, m.events[i].id)),
                          reversals := m.reversals[row.id := m.events[i].id]))
  {
    hide SubjectsOf, Numbered;
    var target := m.events[i].id;
    var subjects := SubjectsOf(m.subjects, target);
    var events, all, reversals := m.events + [row], m.subjects + Numbered(row.id, subjects), m.reversals[row.id := target];
    NewRowDiffers(m, row);
    SubjectsKept(m, row, subjects);
    SubjectsOfSorted(m.subjects, target);
    NumberingSortedIsIdentity(subjects, row.id);
    forall j, k | Reverses(events, j, k, reversals)
      ensures SubjectsOf(all, events[j].id) == SubjectsOf(all, events[k].id)
    {
      if j < |m.events| {
        assert Reverses(m.events, j, k, m.reversals);
      } else {
        assert events[k].id == target;
      }
    }
  }

  lemma ScoreOfReversal(m: Match, row: EventRow, i: nat, side: Side)
    requires LedgerInv(m.events, m.reversals) && NewRow(m, row) && row.action.EventReversal? && row.id !in m.reversals
    requires i < |m.events| && m.events[i].id !in m.reversals.Values
    ensures Score(m.events + [row], m.reversals[row.id := m.events[i].id].Values, side)
         == Score(m.events, m.reversals.Values, side) - (if m.events[i].side == side then Delta(m.events[i]) else 0)
  {
    var target := m.events[i].id;
    var reversals := m.reversals[row.id := target];
    assert reversals.Values == m.reversals.Values + {target} by {
      forall v | v in m.reversals.Values ensures v in reversals.Values {
        var k :| k in m.reversals && m.reversals[k] == v;
        assert k in reversals && reversals[k] == v;
      }
      assert row.id in reversals;
    }
    assert Delta(row) == 0;
    hide Delta;
    ScoreReverse(m.events, m.reversals.Values, i, side);
    ScoreAppend(m.events, row, reversals.Values, side);
  }

  lemma AppendKeeps(id: Id, m: Match, c: AppendCommand, newId: Id, rec: Record)
    requires MatchInv(m)
    requires DecideAppend(id, m, c, newId).Ok?
    requires ExecAll(View(m, rec, []), DecideAppend(id, m, c, newId).value).Ok?
    ensures MatchInv(ExecAll(View(m, rec, []), DecideAppend(id, m, c, newId).value).value.current)
  {
    var row, next, v := AppendEffect(id, m, c, newId, rec);
    PlainRowKeeps(id, m, row, c.subjects, next);
  }

  lemma ReverseKeeps(id: Id, m: Match, eventId: Id, clientId: Id, expected: int, reason: string, newId: Id, rec: Record)
    requires MatchInv(m)
    requires DecideReverse(id, m, eventId, clientId, expected, reason, newId).Ok?
    requires ExecAll(View(m, rec, []), DecideReverse(id, m, eventId, clientId, expected, reason, newId).value).Ok?
    ensures MatchInv(ExecAll(View(m, rec, []), DecideReverse(id, m, eventId, clientId, expected, reason, newId).value).value.current)
  {
    var i, row, next, v := ReverseEffect(id, m, eventId, clientId, expected, reason, newId, rec);
    ReversalRowKeeps(id, m, row, i, next);
  }
}
