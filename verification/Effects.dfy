/** What the statement lists amount to: the net effect of a committed append or reversal on its match. */
module Effects {
  import opened Prelude
  import opened Text
  import opened Domain
  import opened Ledger
  import opened Store

  lemma {:induction false} ExecConcat(v: View, a: seq<Stmt>, b: seq<Stmt>)
    ensures ExecAll(v, a + b) == match ExecAll(v, a) case Err(e) => Err(e) case Ok(w) => ExecAll(w, b)
    decreases |a|
  {
    if a == [] {
      assert a + b == b;
    } else {
      assert (a + b)[1..] == a[1..] + b;
      match Exec(v, a[0]) {
        case Err(_) =>
        case Ok(w) => ExecConcat(w, a[1..], b);
      }
    }
  }

  function WithSubjects(v: View, rows: seq<SubjectRow>): View {
    v.(current := v.current.(subjects := v.current.subjects + rows))
  }

  // ---------------------------------------------------------------- subjects that satisfy their constraints

  /** A subject match_event_subjects accepts: of the roster, and in a role it knows. */
  predicate Listable(ps: seq<Participant>, s: Subject) { s.participant in RosterIds(ps) && !s.role.UnsupportedRole? }

  ghost predicate AllListable(ps: seq<Participant>, subjects: seq<Subject>) {
    forall i :: 0 <= i < |subjects| ==> Listable(ps, subjects[i])
  }

  /** Every stored subject belongs to an event of the ledger and is listable. */
  ghost predicate SubjectRows(m: Match) {
    forall i :: 0 <= i < |m.subjects| ==>
      HasId(m.events, m.subjects[i].event) && Listable(m.participants, Subject(m.subjects[i].role, m.subjects[i].participant))
  }

  /** New rows that break no constraint, whatever order they are inserted in. */
  ghost predicate Fits(m: Match, rows: seq<SubjectRow>) {
    && (forall i :: 0 <= i < |rows| ==>
          HasId(m.events, rows[i].event) && Listable(m.participants, Subject(rows[i].role, rows[i].participant)))
    && (forall i, j :: 0 <= i < |m.subjects| && 0 <= j < |rows| ==> !SameSubjectKey(m.subjects[i], rows[j]))
    && (forall i, j :: 0 <= i < j < |rows| ==> !SameSubjectKey(rows[i], rows[j]))
  }

  lemma {:induction false} ExecSubjects(v: View, rows: seq<SubjectRow>)
    requires Fits(v.current, rows)
    ensures ExecAll(v, InsertSubjects(rows)) == Ok(WithSubjects(v, rows))
    decreases |rows|
  {
    if rows == [] {
      assert v.current.subjects + rows == v.current.subjects;
    } else {
      var w := WithSubjects(v, [rows[0]]);
      assert InsertSubjects(rows)[1..] == InsertSubjects(rows[1..]);
      assert Exec(v, InsertSubject(rows[0])) == Ok(w);
      assert Fits(w.current, rows[1..]);
      ExecSubjects(w, rows[1..]);
      assert v.current.subjects + rows == (v.current.subjects + [rows[0]]) + rows[1..];
    }
  }

  /** Consecutive ordinals keep the keys of one event's subjects apart. */
  lemma NumberedFits(m: Match, row: EventRow, subjects: seq<Subject>)
    requires SubjectRows(m) && !HasId(m.events, row.id) && AllListable(m.participants, subjects)
    ensures Fits(m.(events := m.events + [row]), Numbered(row.id, subjects))
  {
    assert (m.events + [row])[|m.events|].id == row.id;
    var rows := Numbered(row.id, subjects);
    forall i | 0 <= i < |rows| ensures Listable(m.participants, Subject(rows[i].role, rows[i].participant)) {
      assert Listable(m.participants, subjects[i]);
    }
  }

  /** The count of distinct roster ids equals the count of distinct subjects only when every subject is listed. */
  lemma CountMeansListed(listed: set<Id>, asked: set<Id>)
    ensures |listed * asked| == |asked| <==> asked <= listed
  {
    if asked <= listed {
      assert listed * asked == asked;
    } else {
      var id :| id in asked && id !in listed;
      CountBelow(listed * asked, asked - {id});
    }
  }

  lemma {:induction false} CountBelow(a: set<Id>, b: set<Id>)
    requires a <= b
    ensures |a| <= |b|
  {
    if a != {} {
      var x :| x in a;
      CountBelow(a - {x}, b - {x});
    }
  }

  lemma DecidedListable(id: Id, m: Match, c: AppendCommand, newId: Id)
    requires DecideAppend(id, m, c, newId).Ok?
    ensures AllListable(m.participants, c.subjects)
  {
    hide EncodeQualifiers, AppendPlan, RosterIds;
    CountMeansListed(RosterIds(m.participants), SubjectIds(c.subjects));
    forall i | 0 <= i < |c.subjects| ensures Listable(m.participants, c.subjects[i]) {
      assert c.subjects[i].participant in SubjectIds(c.subjects);
    }
  }

  lemma {:induction false} RowsOfMember(rows: seq<SubjectRow>, event: Id, r: SubjectRow)
    requires r in RowsOf(rows, event)
    ensures r in rows
  {
    if rows != [] {
      var n := |rows| - 1;
      if r in RowsOf(rows[..n], event) { RowsOfMember(rows[..n], event, r); }
    }
  }

  /** What Reverse reads back can be inserted again. */
  lemma StoredListable(m: Match, event: Id)
    requires SubjectRows(m)
    ensures AllListable(m.participants, SubjectsOf(m.subjects, event))
  {
    var read := OrderBy(RowsOf(m.subjects, event), RoleOrdinal);
    forall i | 0 <= i < |read| ensures Listable(m.participants, Subject(read[i].role, read[i].participant)) {
      assert read[i] in multiset(read);
      assert read[i] in multiset(RowsOf(m.subjects, event));
      RowsOfMember(m.subjects, event, read[i]);
      var k :| 0 <= k < |m.subjects| && m.subjects[k] == read[i];
    }
  }

  // ---------------------------------------------------------------- single statements

  lemma ExecOne(v: View, s: Stmt)
    ensures ExecAll(v, [s]) == Exec(v, s)
  {
    assert [s][1..] == [];
    match Exec(v, s) {
      case Err(_) =>
      case Ok(w) => assert ExecAll(w, []) == Ok(w);
    }
  }

  lemma ExecSaveRoster(v: View)
    ensures ExecAll(v, [SaveRoster])
         == Ok(v.(record := v.record.(response := RosterResponse(LoadRoster(v.current.participants)))))
  {
    ExecOne(v, SaveRoster);
  }

  lemma ExecInsertEvent(v: View, row: EventRow)
    ensures ExecAll(v, [InsertEvent(row)]) ==
      if InsertEventRow(v.current, row).Err? then Err(InsertEventRow(v.current, row).error)
      else Ok(v.(current := v.current.(events := v.current.events + [row])))
  {
    ExecOne(v, InsertEvent(row));
  }

  /** The three statements every scoring transaction ends with. */
  lemma ExecTail(v: View, next: Snapshot, message: Message, response: Response)
    requires next.sequence >= 0 && next.home >= 0 && next.away >= 0
    ensures ExecAll(v, [UpdateLive(next.sequence, next.home, next.away), Enqueue(message), SaveResponse(response)])
         == Ok(View(v.current.(sequence := next.sequence, home := next.home, away := next.away),
                    v.record.(response := response), v.outbox + [message]))
  {
    var a, b, c := UpdateLive(next.sequence, next.home, next.away), Enqueue(message), SaveResponse(response);
    assert [a, b, c] == [a] + ([b] + [c]);
    ExecConcat(v, [a], [b] + [c]);
    ExecOne(v, a);
    var w := Exec(v, a).value;
    ExecConcat(w, [b], [c]);
    ExecOne(w, b);
    ExecOne(Exec(w, b).value, c);
  }

  /** The state a committed event row leaves behind. */
  function EventState(m: Match, row: EventRow, subjects: seq<Subject>, reversals: Reversals, next: Snapshot): Match {
    m.(events := m.events + [row], subjects := m.subjects + Numbered(row.id, subjects), reversals := reversals,
       sequence := next.sequence, home := next.home, away := next.away)
  }

  lemma AppendRuns(v: View, id: Id, c: AppendCommand, event: Event, next: Snapshot, q: map<string, Json>)
    requires SubjectRows(v.current) && AllListable(v.current.participants, c.subjects)
    requires next.sequence >= 0 && next.home >= 0 && next.away >= 0
    ensures var row := EventRow(event.id, c.clientId, event.sequence, c.action, c.side, q);
            var view := EventView(event.id, event.sequence, c.action, c.side, c.subjects, q);
            ExecAll(v, AppendPlan(id, c, event, next, q)) ==
              match InsertEventRow(v.current, row)
              case Err(e) => Err(e)
              case Ok(_) => Ok(View(EventState(v.current, row, c.subjects, v.current.reversals, next),
                                    v.record.(response := EventResponse(view, next)),
                                    v.outbox + [Recorded(id, view, next)]))
  {
    var row := EventRow(event.id, c.clientId, event.sequence, c.action, c.side, q);
    var view := EventView(event.id, event.sequence, c.action, c.side, c.subjects, q);
    var rows := Numbered(event.id, c.subjects);
    var tail := [UpdateLive(next.sequence, next.home, next.away), Enqueue(Recorded(id, view, next)),
                 SaveResponse(EventResponse(view, next))];
    hide Exec, ExecAll;
    assert AppendPlan(id, c, event, next, q) == [InsertEvent(row)] + (InsertSubjects(rows) + tail);
    ExecConcat(v, [InsertEvent(row)], InsertSubjects(rows) + tail);
    ExecInsertEvent(v, row);
    if InsertEventRow(v.current, row).Ok? {
      var w := v.(current := v.current.(events := v.current.events + [row]));
      ExecConcat(w, InsertSubjects(rows), tail);
      NumberedFits(v.current, row, c.subjects);
      ExecSubjects(w, rows);
      ExecTail(WithSubjects(w, rows), next, Recorded(id, view, next), EventResponse(view, next));
    }
  }

  lemma ReverseRuns(v: View, id: Id, eventId: Id, clientId: Id, reason: string, event: Event, next: Snapshot,
                    q: map<string, Json>)
    requires SubjectRows(v.current) && AllListable(v.current.participants, event.command.subjects)
    requires HasId(v.current.events, eventId)
    requires next.sequence >= 0 && next.home >= 0 && next.away >= 0
    requires event.id !in v.current.reversals && eventId !in v.current.reversals.Values
    ensures var c := event.command;
            var row := EventRow(event.id, clientId, event.sequence, EventReversal, c.side, q);
            var view := EventView(event.id, event.sequence, EventReversal, c.side, c.subjects, q);
            ExecAll(v, ReversePlan(id, eventId, clientId, reason, event, next, q)) ==
              match InsertEventRow(v.current, row)
              case Err(e) => Err(e)
              case Ok(_) =>
                if ReasonRefused(reason) then Err(ConstraintViolation)
                else Ok(View(EventState(v.current, row, c.subjects, v.current.reversals[event.id := eventId], next),
                             v.record.(response := EventResponse(view, next)), v.outbox + [Reversed(id, view, next)]))
  {
    var c := event.command;
    var row := EventRow(event.id, clientId, event.sequence, EventReversal, c.side, q);
    var view := EventView(event.id, event.sequence, EventReversal, c.side, c.subjects, q);
    var rows := Numbered(event.id, c.subjects);
    var link := InsertReversal(event.id, eventId, reason);
    var tail := [UpdateLive(next.sequence, next.home, next.away), Enqueue(Reversed(id, view, next)),
                 SaveResponse(EventResponse(view, next))];
    hide ExecAll;
    assert ReversePlan(id, eventId, clientId, reason, event, next, q)
        == [InsertEvent(row)] + (InsertSubjects(rows) + ([link] + tail));
    ExecConcat(v, [InsertEvent(row)], InsertSubjects(rows) + ([link] + tail));
    ExecInsertEvent(v, row);
    if InsertEventRow(v.current, row).Ok? {
      var w := v.(current := v.current.(events := v.current.events + [row]));
      ExecConcat(w, InsertSubjects(rows), [link] + tail);
      NumberedFits(v.current, row, c.subjects);
      ExecSubjects(w, rows);
      var x := WithSubjects(w, rows);
      ExecConcat(x, [link], tail);
      ExecOne(x, link);
      LinkedRows(v.current.events, row, eventId);
      if !ReasonRefused(reason) {
        var y := x.(current := x.current.(reversals := x.current.reversals[event.id := eventId]));
        ExecTail(y, next, Reversed(id, view, next), EventResponse(view, next));
      }
    }
  }

  lemma LinkedRows(events: seq<EventRow>, row: EventRow, eventId: Id)
    requires HasId(events, eventId)
    ensures HasId(events + [row], row.id) && HasId(events + [row], eventId)
  {
    var i :| 0 <= i < |events| && events[i].id == eventId;
    assert (events + [row])[i] == events[i] && (events + [row])[|events|] == row;
  }

  // ---------------------------------------------------------------- a committed append or reversal

  /** Nothing about the new row repeats an identifier, a sequence number or a client_event_id of the ledger. */
  ghost predicate NewRow(m: Match, row: EventRow) {
    !HasId(m.events, row.id) && !HasSequence(m.events, row.sequence) && !HasClient(m.events, row.clientId)
  }

  lemma AppendEffect(id: Id, m: Match, c: AppendCommand, newId: Id, rec: Record)
    returns (row: EventRow, next: Snapshot, v: View)
    requires m.home >= 0 && m.away >= 0 && m.sequence >= 0 && SubjectRows(m)
    requires DecideAppend(id, m, c, newId).Ok?
    requires ExecAll(View(m, rec, []), DecideAppend(id, m, c, newId).value).Ok?
    ensures ExecAll(View(m, rec, []), DecideAppend(id, m, c, newId).value) == Ok(v)
    ensures m.status == Live && m.sequence == c.expected && ValidCommand(c) && AllListable(m.participants, c.subjects)
    ensures row.id == newId && row.clientId == c.clientId && row.sequence == m.sequence + 1
    ensures row.action == c.action && row.side == c.side && !row.action.EventReversal?
    ensures NewRow(m, row) && Faithful(row) && Delta(row) == DeltaOrZero(c.action, c.qualifiers)
    ensures KeepsQualifiers(c.qualifiers, row.qualifiers)
    ensures next == SnapshotOf(id, m).(sequence := m.sequence + 1).Add(row.side, Delta(row))
    ensures next.home >= 0 && next.away >= 0
    ensures v.current == EventState(m, row, c.subjects, m.reversals, next)
    ensures var view := EventView(newId, row.sequence, c.action, c.side, c.subjects, row.qualifiers);
            v.outbox == [Recorded(id, view, next)] && v.record == rec.(response := EventResponse(view, next))
  {
    hide Exec, ExecAll, KeepsQualifiers, EncodeQualifiers;
    var applied := ApplyEvent(SnapshotOf(id, m), c, newId).value;
    var event := applied.0;
    next := applied.1;
    var q := EncodeQualifiers(c.qualifiers).value;
    row := EventRow(newId, c.clientId, event.sequence, c.action, c.side, q);
    DeltaAgreement(c.action, c.qualifiers);
    EncodingKeeps(c.qualifiers);
    DecidedListable(id, m, c, newId);
    AppendRuns(View(m, rec, []), id, c, event, next, q);
    v := ExecAll(View(m, rec, []), DecideAppend(id, m, c, newId).value).value;
    var view := EventView(newId, row.sequence, c.action, c.side, c.subjects, q);
    assert [] + [Recorded(id, view, next)] == [Recorded(id, view, next)];
  }

  /** The subject rows of a committed event: its subjects in order, numbered from one, behind all older rows. */
  lemma SubjectRowsOf(m: Match, row: EventRow, subjects: seq<Subject>, reversals: Reversals, next: Snapshot)
    ensures var rows := EventState(m, row, subjects, reversals, next).subjects;
            && |rows| == |m.subjects| + |subjects| && rows[..|m.subjects|] == m.subjects
            && forall i :: 0 <= i < |subjects| ==>
                 rows[|m.subjects| + i] == SubjectRow(row.id, subjects[i].participant, subjects[i].role, i + 1)
  {
  }

  lemma {:induction false} FindEventAt(events: seq<EventRow>, id: Id) returns (i: nat)
    requires FindEvent(events, id).Some?
    ensures i < |events| && events[i].id == id && FindEvent(events, id) == Some(events[i])
  {
    if events[0].id == id { i := 0; }
    else {
      var k := FindEventAt(events[1..], id);
      i := k + 1;
    }
  }

  /** A reversal row that repeats an id of the ledger fails at its first statement. */
  lemma ReverseNeedsNewId(v: View, id: Id, eventId: Id, clientId: Id, reason: string, event: Event, next: Snapshot,
                          q: map<string, Json>)
    requires LedgerInv(v.current.events, v.current.reversals)
    requires ExecAll(v, ReversePlan(id, eventId, clientId, reason, event, next, q)).Ok?
    ensures event.id !in v.current.reversals
  {
    hide Exec, ExecAll;
    var plan := ReversePlan(id, eventId, clientId, reason, event, next, q);
    assert plan == [plan[0]] + plan[1..];
    ExecConcat(v, [plan[0]], plan[1..]);
    ExecInsertEvent(v, plan[0].row);
  }

  /** What a reversal row says about itself: which event it takes back, and why. */
  ghost predicate NotesOf(q: map<string, Json>, eventId: Id, reason: string) {
    && q.Keys == {"reason", "reverses_event_id"}
    && q["reason"] == JsonText(reason) && q["reverses_event_id"] == JsonId(eventId)
  }

  lemma NotesEncode(q: map<string, Qualifier>, eventId: Id, reason: string)
    requires q == map["reason" := TextValue(reason), "reverses_event_id" := IdValue(eventId)]
    ensures EncodeQualifiers(q).Some? && NotesOf(EncodeQualifiers(q).value, eventId, reason)
  {
    assert "reason" in q && "reverses_event_id" in q;
    assert EncodeQualifiers(q).value.Keys == q.Keys;
  }

  /** What an accepted reversal found and computed. */
  lemma ReverseDecided(id: Id, m: Match, eventId: Id, clientId: Id, expected: int, reason: string, newId: Id)
    returns (i: nat, event: Event, next: Snapshot, q: map<string, Json>)
    requires m.home >= 0 && m.away >= 0 && LedgerInv(m.events, m.reversals)
    requires DecideReverse(id, m, eventId, clientId, expected, reason, newId).Ok?
    ensures DecideReverse(id, m, eventId, clientId, expected, reason, newId).value
         == ReversePlan(id, eventId, clientId, TrimSpace(reason), event, next, q)
    ensures m.status == Live && m.sequence == expected
    ensures i < |m.events| && m.events[i].id == eventId && eventId !in m.reversals.Values && Delta(m.events[i]) != 0
    ensures event.id == newId && event.sequence == m.sequence + 1
    ensures NotesOf(q, eventId, TrimSpace(reason))
    ensures event.command.side == m.events[i].side && event.command.subjects == SubjectsOf(m.subjects, eventId)
    ensures next == SnapshotOf(id, m).(sequence := m.sequence + 1).Add(m.events[i].side, -Delta(m.events[i]))
    ensures next.home >= 0 && next.away >= 0
  {
    hide ReversePlan, SubjectsOf, EncodeQualifiers, TrimSpace, NotesOf;
    i := FindEventAt(m.events, eventId);
    assert Faithful(m.events[i]);
    var undone := ReverseEvent(SnapshotOf(id, m), OriginalEvent(m, m.events[i]), clientId, TrimSpace(reason), newId).value;
    event := undone.0;
    next := undone.1;
    NotesEncode(event.command.qualifiers, eventId, TrimSpace(reason));
    q := EncodeQualifiers(event.command.qualifiers).value;
  }

  lemma {:induction false} ReverseEffect(id: Id, m: Match, eventId: Id, clientId: Id, expected: int, reason: string,
                                         newId: Id, rec: Record)
    returns (i: nat, row: EventRow, next: Snapshot, v: View)
    requires m.home >= 0 && m.away >= 0 && m.sequence >= 0 && LedgerInv(m.events, m.reversals) && SubjectRows(m)
    requires DecideReverse(id, m, eventId, clientId, expected, reason, newId).Ok?
    requires ExecAll(View(m, rec, []), DecideReverse(id, m, eventId, clientId, expected, reason, newId).value).Ok?
    ensures ExecAll(View(m, rec, []), DecideReverse(id, m, eventId, clientId, expected, reason, newId).value) == Ok(v)
    ensures m.status == Live && m.sequence == expected
    ensures i < |m.events| && m.events[i].id == eventId && eventId !in m.reversals.Values
    ensures Delta(m.events[i]) != 0 && |TrimSpace(reason)| >= 3 && StorableText(TrimSpace(reason), 500)
    ensures row.id == newId && row.clientId == clientId && row.sequence == m.sequence + 1
    ensures row.action.EventReversal? && row.side == m.events[i].side
    ensures NotesOf(row.qualifiers, eventId, TrimSpace(reason))
    ensures NewRow(m, row) && Faithful(row)
    ensures next == SnapshotOf(id, m).(sequence := m.sequence + 1).Add(row.side, -Delta(m.events[i]))
    ensures next.home >= 0 && next.away >= 0
    ensures v.current == EventState(m, row, SubjectsOf(m.subjects, eventId), m.reversals[newId := eventId], next)
    ensures var view := EventView(newId, row.sequence, EventReversal, row.side, SubjectsOf(m.subjects, eventId), row.qualifiers);
            v.outbox == [Reversed(id, view, next)] && v.record == rec.(response := EventResponse(view, next))
  {
    hide Exec, ExecAll, DecideReverse, ReversePlan, SubjectsOf, Numbered, LedgerInv, SubjectRows, AllListable, TrimSpace, SpaceTrim;
    var event, q;
    i, event, next, q := ReverseDecided(id, m, eventId, clientId, expected, reason, newId);
    row := EventRow(newId, clientId, event.sequence, EventReversal, event.command.side, q);
    v := ExecAll(View(m, rec, []), DecideReverse(id, m, eventId, clientId, expected, reason, newId).value).value;
    StoredListable(m, eventId);
    SpaceTrimOfTrimmed(reason);
    ReverseNeedsNewId(View(m, rec, []), id, eventId, clientId, TrimSpace(reason), event, next, q);
    ReverseRuns(View(m, rec, []), id, eventId, clientId, TrimSpace(reason), event, next, q);
    var view := EventView(newId, row.sequence, EventReversal, row.side, SubjectsOf(m.subjects, eventId), q);
    assert [] + [Reversed(id, view, next)] == [Reversed(id, view, next)];
  }
}
