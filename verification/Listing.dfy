/** Reading the ledger back: the event/subject join and the row-grouping loop that undoes it. */
module Listing {
  import opened Prelude
  import opened Domain
  import opened Ledger
  import opened Store

  /** A row of match_events LEFT JOIN match_event_subjects. */
  datatype JoinRow = JoinRow(event: EventRow, subject: Option<Subject>)

  function ViewOf(e: EventRow, subjects: seq<Subject>): EventView {
    EventView(e.id, e.sequence, e.action, e.side, subjects, e.qualifiers)
  }

  function JoinSubjects(e: EventRow, subjects: seq<Subject>): seq<JoinRow> {
    if subjects == [] then [] else [JoinRow(e, Some(subjects[0]))] + JoinSubjects(e, subjects[1..])
  }

  /** The join of one event: its subjects in (role, ordinal) order, or one row without a subject. */
  function JoinOne(m: Match, e: EventRow): seq<JoinRow> {
    var subjects := SubjectsOf(m.subjects, e.id);
    if subjects == [] then [JoinRow(e, None)] else JoinSubjects(e, subjects)
  }

  function JoinAll(m: Match, events: seq<EventRow>): seq<JoinRow> {
    if events == [] then [] else JoinOne(m, events[0]) + JoinAll(m, events[1..])
  }

  function BySequence(e: EventRow): SortKey { (e.sequence, 0) }

  function Later(events: seq<EventRow>, after: int): seq<EventRow> {
    if events == [] then []
    else (if events[0].sequence > after then [events[0]] else []) + Later(events[1..], after)
  }

  /** The list query: events after a sequence, in sequence order, joined with their subjects. */
  function ListQuery(m: Match, after: int): seq<JoinRow> {
    JoinAll(m, OrderBy(Later(m.events, after), BySequence))
  }

  /** One turn of the grouping loop: a subject of the event on top extends it, anything else starts a new item. */
  function AddRow(items: seq<EventView>, row: JoinRow): seq<EventView> {
    var n := |items| - 1;
    if row.subject.Some? && items != [] && items[n].id == row.event.id
    then items[n := items[n].(subjects := items[n].subjects + [row.subject.value])]
    else items + [ViewOf(row.event, if row.subject.Some? then [row.subject.value] else [])]
  }

  function GroupFrom(items: seq<EventView>, rows: seq<JoinRow>): seq<EventView>
    decreases |rows|
  {
    if rows == [] then items else GroupFrom(AddRow(items, rows[0]), rows[1..])
  }

  function LastSequence(items: seq<EventView>): int { if items == [] then 0 else items[|items| - 1].sequence }

  /** The loop of ListEvents over the result rows, growing the item list in place. */
  method GroupRows(rows: seq<JoinRow>) returns (items: seq<EventView>, last: int)
    ensures items == GroupFrom([], rows)
    ensures last == LastSequence(items)
  {
    items, last := [], 0;
    for k := 0 to |rows|
      invariant GroupFrom(items, rows[k..]) == GroupFrom([], rows)
      invariant last == LastSequence(items)
    {
      ghost var before := items;
      var row := rows[k];
      var event := ViewOf(row.event, []);
      assert rows[k..][0] == row && rows[k..][1..] == rows[k + 1..];
      if row.subject.Some? {
        var top := |items| - 1;
        if items != [] && items[top].id == event.id {
          items := items[top := items[top].(subjects := items[top].subjects + [row.subject.value])];
          assert items == AddRow(before, row);
          continue;
        }
        event := event.(subjects := [row.subject.value]);
      }
      items := items + [event];
      last := event.sequence;
      assert items == AddRow(before, row);
    }
  }

  /** What the list should be: each event once, with its subjects in query order. */
  function Listed(m: Match, events: seq<EventRow>): (r: seq<EventView>)
    ensures |r| == |events|
  {
    seq(|events|, i requires 0 <= i < |events| => ViewOf(events[i], SubjectsOf(m.subjects, events[i].id)))
  }

  /** Each event once, in order, with everything its row says and all of its subjects. */
  ghost predicate Lists(m: Match, events: seq<EventRow>, items: seq<EventView>) {
    && |items| == |events|
    && forall i :: 0 <= i < |events| ==>
         && items[i].id == events[i].id && items[i].sequence == events[i].sequence
         && items[i].action == events[i].action && items[i].side == events[i].side
         && items[i].qualifiers == events[i].qualifiers
         && items[i].subjects == SubjectsOf(m.subjects, events[i].id)
  }

  lemma ListedLists(m: Match, events: seq<EventRow>)
    ensures Lists(m, events, Listed(m, events))
  {
    hide SubjectsOf;
  }

  lemma {:induction false} GroupConcat(items: seq<EventView>, a: seq<JoinRow>, b: seq<JoinRow>)
    ensures GroupFrom(items, a + b) == GroupFrom(GroupFrom(items, a), b)
    decreases |a|
  {
    if a == [] {
      assert a + b == b;
    } else {
      assert (a + b)[1..] == a[1..] + b;
      GroupConcat(AddRow(items, a[0]), a[1..], b);
    }
  }

  lemma {:induction false} GroupSubjects(items: seq<EventView>, e: EventRow, done: seq<Subject>, rest: seq<Subject>)
    ensures GroupFrom(items + [ViewOf(e, done)], JoinSubjects(e, rest)) == items + [ViewOf(e, done + rest)]
    decreases |rest|
  {
    if rest == [] {
      assert done + rest == done;
    } else {
      assert AddRow(items + [ViewOf(e, done)], JoinRow(e, Some(rest[0]))) == items + [ViewOf(e, done + [rest[0]])];
      GroupSubjects(items, e, done + [rest[0]], rest[1..]);
      assert done + rest == (done + [rest[0]]) + rest[1..];
    }
  }

  lemma {:induction false} GroupOne(m: Match, items: seq<EventView>, e: EventRow)
    requires items == [] || items[|items| - 1].id != e.id
    ensures GroupFrom(items, JoinOne(m, e)) == items + [ViewOf(e, SubjectsOf(m.subjects, e.id))]
  {
    hide SubjectsOf;
    var subjects := SubjectsOf(m.subjects, e.id);
    if subjects != [] {
      GroupSubjects(items, e, [subjects[0]], subjects[1..]);
      assert [subjects[0]] + subjects[1..] == subjects;
    }
  }

  /** Grouping inverts the join whenever event ids are unique: what it appends lists exactly the joined events. */
  lemma GroupInvertsJoin(m: Match, items: seq<EventView>, events: seq<EventRow>)
    requires UniqueIds(events)
    requires items == [] || events == [] || items[|items| - 1].id != events[0].id
    ensures var all := GroupFrom(items, JoinAll(m, events));
            |items| <= |all| && all[..|items|] == items && Lists(m, events, all[|items|..])
  {
    hide SubjectsOf, JoinAll, GroupFrom, UniqueIds;
    GroupsListed(m, items, events);
    ListedLists(m, events);
    assert (items + Listed(m, events))[|items|..] == Listed(m, events);
  }

  lemma {:induction false} GroupsListed(m: Match, items: seq<EventView>, events: seq<EventRow>)
    requires UniqueIds(events)
    requires items == [] || events == [] || items[|items| - 1].id != events[0].id
    ensures GroupFrom(items, JoinAll(m, events)) == items + Listed(m, events)
    decreases |events|
  {
    hide SubjectsOf, JoinOne;
    if events == [] {
    } else {
      var rest := events[1..];
      var next := items + [ViewOf(events[0], SubjectsOf(m.subjects, events[0].id))];
      GroupConcat(items, JoinOne(m, events[0]), JoinAll(m, rest));
      GroupOne(m, items, events[0]);
      assert rest != [] ==> rest[0] == events[1];
      GroupsListed(m, next, rest);
      assert items + Listed(m, events) == next + Listed(m, rest);
    }
  }

  lemma {:induction false} LaterIsSuffix(events: seq<EventRow>, from: nat, after: nat)
    requires forall i :: 0 <= i < |events| ==> events[i].sequence == from + i + 1
    ensures Later(events, after)
         == if after <= from then events else if after - from <= |events| then events[after - from..] else []
    decreases |events|
  {
    if events != [] {
      LaterIsSuffix(events[1..], from + 1, after);
    }
  }

  /**
   * Listing round trip: in a reachable match the rows after a sequence, grouped by the loop, are the events from
   * there on, each exactly once in ascending order with all of its subjects.
   */
  lemma ListRoundTrip(m: Match, after: nat)
    requires UniqueIds(m.events) && Contiguous(m.events)
    ensures Lists(m, if after <= |m.events| then m.events[after..] else [], GroupFrom([], ListQuery(m, after)))
    ensures GroupFrom([], ListQuery(m, after)) == Listed(m, if after <= |m.events| then m.events[after..] else [])
  {
    hide SubjectsOf;
    var events := if after <= |m.events| then m.events[after..] else [];
    LaterIsSuffix(m.events, 0, after);
    assert Later(m.events, after) == events;
    OrderBySortedIdentity(events, BySequence);
    GroupsListed(m, [], events);
    assert [] + Listed(m, events) == Listed(m, events);
    ListedLists(m, events);
  }

  /** The sequence reported with a list is that of the newest event, or zero when nothing is later. */
  lemma ListedLast(m: Match, after: nat)
    requires UniqueIds(m.events) && Contiguous(m.events)
    ensures var later := if after <= |m.events| then m.events[after..] else [];
            var items := GroupFrom([], ListQuery(m, after));
            Lists(m, later, items) && LastSequence(items) == if later == [] then 0 else |m.events|
  {
    hide SubjectsOf, GroupFrom, ListQuery;
    ListRoundTrip(m, after);
  }

  /** Paging: the whole list is its first k items followed by the list after k. */
  lemma ListPages(m: Match, k: nat)
    requires UniqueIds(m.events) && Contiguous(m.events) && k <= |m.events|
    ensures var all := GroupFrom([], ListQuery(m, 0));
            && |all| == |m.events|
            && (forall i :: 0 <= i < |all| ==> all[i].sequence == i + 1)
            && all == all[..k] + GroupFrom([], ListQuery(m, k))
  {
    hide SubjectsOf, GroupFrom, ListQuery;
    ListRoundTrip(m, 0);
    ListRoundTrip(m, k);
    assert m.events[0..] == m.events;
  }
}
