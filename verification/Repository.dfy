/**
 * The repository as the program runs it: one method per command, working step by step on an open transaction.
 * Every method is proved to have exactly the effect and the answer of Execute; a method that returns before
 * Commit leaves the tables alone, which is what rolling back means.
 */
module Repository {
  import opened Prelude
  import opened Domain
  import opened Store
  import opened Effects

  /** The first statement of a plan, separated from the rest of it. */
  lemma {:induction false} ExecFirst(v: View, s: Stmt, rest: seq<Stmt>)
    ensures ExecAll(v, [s] + rest) == match Exec(v, s) case Err(e) => Err(e) case Ok(w) => ExecAll(w, rest)
  {
    ExecConcat(v, [s], rest);
    ExecOne(v, s);
  }

  /** A transaction that has reserved or found its idempotency record: its own uncommitted rows. */
  class Transaction {
    var current: Match
    var record: Record
    var outbox: seq<Message>

    function Seen(): View
      reads this
    {
      View(current, record, outbox)
    }

    constructor (record: Record)
      ensures Seen() == View(NO_MATCH, record, [])
    {
      this.current, this.record, this.outbox := NO_MATCH, record, [];
    }

    /** One INSERT, UPDATE or DELETE. */
    method Run(s: Stmt) returns (failure: Option<Error>)
      modifies this
      ensures match Exec(old(Seen()), s)
              case Err(e) => failure == Some(e)
              case Ok(v) => failure == None && Seen() == v
    {
      failure := None;
      match s {
        case InsertDraft(o, n) => current := DraftMatch(o, n);
        case DeleteParticipants =>
          if exists i :: 0 <= i < |current.subjects| && current.subjects[i].participant in RosterIds(current.participants) {
            return Some(ConstraintViolation);
          }
          current := current.(participants := []);
        case InsertParticipant(p) =>
          if ParticipantRefused(p) || ParticipantClash(current.participants, p) { return Some(ConstraintViolation); }
          current := current.(participants := current.participants + [StoredParticipant(p)]);
        case SetLineupSide(side, ids) =>
          var count := ListedCount(current.participants, side, ids);
          if count != |ids| { return Some(InvalidInput); }
          current := current.(participants := AssignSide(current.participants, side, ids));
        case SetStatus(status) => current := current.(status := status);
        case InsertEvent(row) =>
          match InsertEventRow(current, row) {
            case Err(e) => return Some(e);
            case Ok(m) => current := m;
          }
        case InsertSubject(row) =>
          if SubjectRefused(current, row) { return Some(ConstraintViolation); }
          current := current.(subjects := current.subjects + [row]);
        case InsertReversal(reversal, reversed, reason) =>
          if ReversalRefused(current, reversal, reversed, reason) { return Some(ConstraintViolation); }
          current := current.(reversals := current.reversals[reversal := reversed]);
        case UpdateLive(sequence, home, away) =>
          if sequence < 0 || home < 0 || away < 0 { return Some(ConstraintViolation); }
          current := current.(sequence := sequence, home := home, away := away);
        case Enqueue(message) => outbox := outbox + [message];
        case SaveResponse(response) => record := record.(response := response);
        case SaveRoster =>
          var roster := LoadRosterRows();
          record := record.(response := RosterResponse(roster));
      }
    }

    /** saveIdempotencyResponse, the last statement of every plan that has a response of its own. */
    method Save(response: Response)
      modifies this
      ensures Seen() == old(Seen()).(record := old(record).(response := response))
      ensures ExecAll(old(Seen()), [SaveResponse(response)]) == Ok(Seen())
    {
      ExecOne(Seen(), SaveResponse(response));
      record := record.(response := response);
    }

    /** loadRoster: one pass over the ordered rows, splitting them by side. */
    method LoadRosterRows() returns (roster: Roster)
      ensures roster == LoadRoster(current.participants)
    {
      var rows := OrderBy(current.participants, SideRank);
      roster := Roster([], []);
      for k := 0 to |rows|
        invariant roster == Roster(OfSide(rows[..k], Home), OfSide(rows[..k], Away))
      {
        var p := rows[k];
        assert rows[..k + 1][..k] == rows[..k];
        if p.side.Home? {
          roster := roster.(home := roster.home + [p]);
        } else {
          roster := roster.(away := roster.away + [p]);
        }
      }
      assert rows[..|rows|] == rows;
    }

    /** The query of Reverse that reads the subjects of the original event. */
    method LoadSubjects(event: Id) returns (subjects: seq<Subject>)
      ensures subjects == SubjectsOf(current.subjects, event)
    {
      var rows := OrderBy(RowsOf(current.subjects, event), RoleOrdinal);
      subjects := [];
      for k := 0 to |rows|
        invariant |subjects| == k
        invariant forall i :: 0 <= i < k ==> subjects[i] == Subject(rows[i].role, rows[i].participant)
      {
        subjects := subjects + [Subject(rows[k].role, rows[k].participant)];
      }
      assert subjects == AsSubjects(rows);
    }

    /** The subject loop of Append and Reverse; rest is what the plan still has to do. */
    method InsertAllSubjects(event: Id, subjects: seq<Subject>, ghost rest: seq<Stmt>) returns (failure: Option<Error>)
      modifies this
      ensures match failure
              case None => old(ExecAll(Seen(), InsertSubjects(Numbered(event, subjects)) + rest)) == ExecAll(Seen(), rest)
              case Some(e) => old(ExecAll(Seen(), InsertSubjects(Numbered(event, subjects)) + rest)) == Err(e)
    {
      hide Exec, ExecAll;
      ghost var rows := Numbered(event, subjects);
      ghost var goal := ExecAll(Seen(), InsertSubjects(rows) + rest);
      assert rows[0..] == rows;
      failure := None;
      for k := 0 to |subjects|
        invariant goal == ExecAll(Seen(), InsertSubjects(rows[k..]) + rest) && failure == None
      {
        var s := InsertSubject(SubjectRow(event, subjects[k].participant, subjects[k].role, k + 1));
        assert InsertSubjects(rows[k..]) + rest == [s] + (InsertSubjects(rows[k + 1..]) + rest);
        ExecFirst(Seen(), s, InsertSubjects(rows[k + 1..]) + rest);
        failure := Run(s);
        if failure.Some? { return; }
      }
      assert InsertSubjects(rows[|subjects|..]) + rest == rest;
    }
  }

  /** hasDuplicates. */
  method HasDuplicates(ids: seq<Id>) returns (found: bool)
    ensures found <==> Duplicates(ids)
  {
    var seen: set<Id> := {};
    for k := 0 to |ids|
      invariant forall id :: id in seen <==> exists i :: 0 <= i < k && ids[i] == id
      invariant !Duplicates(ids[..k])
    {
      if ids[k] in seen {
        return true;
      }
      seen := seen + {ids[k]};
    }
    assert ids[..|ids|] == ids;
    found := false;
  }

  /** The first loop of Append and mapUnique: every subject's participant, as a set. */
  method UniqueParticipantIds(subjects: seq<Subject>) returns (unique: set<Id>)
    ensures unique == SubjectIds(subjects)
  {
    var ids: seq<Id> := [];
    for k := 0 to |subjects|
      invariant |ids| == k && forall i :: 0 <= i < k ==> ids[i] == subjects[i].participant
    {
      ids := ids + [subjects[k].participant];
    }
    unique := {};
    for k := 0 to |ids|
      invariant unique == set i | 0 <= i < k :: ids[i]
    {
      unique := unique + {ids[k]};
    }
    forall id ensures id in unique <==> id in SubjectIds(subjects) {
      if id in SubjectIds(subjects) {
        var s :| s in subjects && s.participant == id;
        var i :| 0 <= i < |subjects| && subjects[i] == s;
        assert ids[i] == id;
      }
    }
  }

  /** The second loop of Append: is any subject on the wrong side? */
  method SubjectsMisplaced(ps: seq<Participant>, side: Side, subjects: seq<Subject>) returns (found: bool)
    ensures found <==> exists i :: 0 <= i < |subjects| && WrongSide(ps, side, subjects[i])
  {
    for k := 0 to |subjects|
      invariant forall i :: 0 <= i < k ==> !WrongSide(ps, side, subjects[i])
    {
      match SideOf(ps, subjects[k].participant) {
        case None => return true;
        case Some(participantSide) =>
          var isOpponent := subjects[k].role.Opponent?;
          if (isOpponent && participantSide == side) || (!isOpponent && participantSide != side) {
            return true;
          }
      }
    }
    found := false;
  }
}
