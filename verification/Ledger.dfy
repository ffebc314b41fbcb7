/**
 * The immutable event ledger of one match and the score it stands for: a sum over the events that nothing
 * reverses. A reversal removes a delta from that sum retroactively, while the live row only ever adds.
 */
module Ledger {
  import opened Domain

  /** A row of match_events. */
  datatype EventRow = EventRow(
    id: Id, clientId: Id, sequence: int, action: Action, side: Side, qualifiers: map<string, Json>)

  /** The rows of event_reversals: reversal_event_id to reversed_event_id. */
  type Reversals = map<Id, Id>

  /** What one row adds to the sum in the rebuild query. */
  function Delta(e: EventRow): int {
    match SqlDelta(e.action, e.qualifiers) case Some(d) => d case None => 0
  }

  /** The stored row means the same to the query and to the Go code that decodes it. */
  predicate Faithful(e: EventRow) {
    && SqlDelta(e.action, e.qualifiers).Some?
    && ScoreDelta(e.action, DecodeQualifiers(e.qualifiers)) == SqlDelta(e.action, e.qualifiers)
  }

  function Contribution(e: EventRow, reversed: set<Id>, side: Side): int {
    if e.side == side && e.id !in reversed then Delta(e) else 0
  }

  /** The SUM of the rebuild query for one side. */
  function Score(events: seq<EventRow>, reversed: set<Id>, side: Side): int {
    if events == [] then 0
    else Score(events[..|events| - 1], reversed, side) + Contribution(events[|events| - 1], reversed, side)
  }

  predicate HasId(events: seq<EventRow>, id: Id) {
    exists i :: 0 <= i < |events| && events[i].id == id
  }

  ghost predicate UniqueIds(events: seq<EventRow>) {
    forall i, j :: 0 <= i < j < |events| ==> events[i].id != events[j].id
  }

  ghost predicate UniqueClients(events: seq<EventRow>) {
    forall i, j :: 0 <= i < j < |events| ==> events[i].clientId != events[j].clientId
  }

  ghost predicate Contiguous(events: seq<EventRow>) {
    forall i :: 0 <= i < |events| ==> events[i].sequence == i + 1
  }

  /** Row j is the reversal of row i: later, same side, and i is a scoring event. */
  ghost predicate Reverses(events: seq<EventRow>, j: int, i: int, reversals: Reversals) {
    && 0 <= i < j < |events|
    && events[j].id in reversals && reversals[events[j].id] == events[i].id
    && events[i].side == events[j].side && Delta(events[i]) != 0
  }

  ghost predicate ReversalStructure(events: seq<EventRow>, reversals: Reversals) {
    && (forall j :: 0 <= j < |events| ==> (events[j].action.EventReversal? <==> events[j].id in reversals))
    && (forall id :: id in reversals ==> HasId(events, id))
    && (forall j :: 0 <= j < |events| && events[j].id in reversals ==> exists i :: Reverses(events, j, i, reversals))
    && (forall a, b :: a in reversals && b in reversals && reversals[a] == reversals[b] ==> a == b)
  }

  ghost predicate LedgerInv(events: seq<EventRow>, reversals: Reversals) {
    && UniqueIds(events) && UniqueClients(events) && Contiguous(events)
    && (forall i :: 0 <= i < |events| ==> Faithful(events[i]))
    && ReversalStructure(events, reversals)
  }

  // ---------------------------------------------------------------- how the sum moves

  lemma ScoreAppend(events: seq<EventRow>, e: EventRow, reversed: set<Id>, side: Side)
    ensures Score(events + [e], reversed, side) == Score(events, reversed, side) + Contribution(e, reversed, side)
  {
    assert (events + [e])[..|events|] == events;
  }

  /** Marking an id that is not in the ledger changes nothing. */
  lemma {:induction false} ScoreIgnores(events: seq<EventRow>, reversed: set<Id>, id: Id, side: Side)
    requires !HasId(events, id)
    ensures Score(events, reversed + {id}, side) == Score(events, reversed, side)
  {
    if events != [] {
      var front := events[..|events| - 1];
      assert forall i :: 0 <= i < |front| ==> front[i] == events[i];
      ScoreIgnores(front, reversed, id, side);
      assert events[|events| - 1].id != id;
    }
  }

  /** Marking row i as reversed takes exactly its delta out of its own side's sum. */
  lemma {:induction false} ScoreReverse(events: seq<EventRow>, reversed: set<Id>, i: nat, side: Side)
    requires UniqueIds(events) && i < |events| && events[i].id !in reversed
    ensures Score(events, reversed + {events[i].id}, side)
         == Score(events, reversed, side) - (if events[i].side == side then Delta(events[i]) else 0)
  {
    var n := |events| - 1;
    var front := events[..n];
    if i == n {
      assert !HasId(front, events[i].id);
      ScoreIgnores(front, reversed, events[i].id, side);
    } else {
      assert front[i] == events[i];
      ScoreReverse(front, reversed, i, side);
      assert events[n].id != events[i].id;
    }
  }

  // ---------------------------------------------------------------- appends keep the structure

  ghost predicate NewTo(events: seq<EventRow>, e: EventRow) {
    forall i :: 0 <= i < |events| ==> events[i].id != e.id && events[i].clientId != e.clientId
  }

  lemma ExtendRows(events: seq<EventRow>, e: EventRow)
    requires UniqueIds(events) && UniqueClients(events) && Contiguous(events)
    requires NewTo(events, e) && e.sequence == |events| + 1
    ensures UniqueIds(events + [e]) && UniqueClients(events + [e]) && Contiguous(events + [e])
  {
  }

  lemma HasIdExtend(events: seq<EventRow>, e: EventRow, id: Id)
    ensures HasId(events + [e], id) <==> HasId(events, id) || id == e.id
  {
    if HasId(events, id) {
      var i :| 0 <= i < |events| && events[i].id == id;
      assert (events + [e])[i].id == id;
    }
    if id == e.id { assert (events + [e])[|events|].id == id; }
  }

  lemma ReversesExtend(events: seq<EventRow>, reversals: Reversals, e: EventRow, next: Reversals, j: nat)
    requires ReversalStructure(events, reversals) && NewTo(events, e)
    requires j < |events| && events[j].id in reversals
    requires forall id :: id in reversals ==> id in next && next[id] == reversals[id]
    ensures exists i :: Reverses(events + [e], j, i, next)
  {
    var i :| Reverses(events, j, i, reversals);
    assert Reverses(events + [e], j, i, next);
  }

  lemma ExtendPlain(events: seq<EventRow>, reversals: Reversals, e: EventRow)
    requires LedgerInv(events, reversals)
    requires Faithful(e) && !e.action.EventReversal? && e.sequence == |events| + 1 && NewTo(events, e)
    ensures LedgerInv(events + [e], reversals)
  {
    hide Faithful, Delta;
    var all := events + [e];
    ExtendRows(events, e);
    assert e.id !in reversals;
    forall id | id in reversals ensures HasId(all, id) { HasIdExtend(events, e, id); }
    forall j | 0 <= j < |all| && all[j].id in reversals ensures exists i :: Reverses(all, j, i, reversals) {
      ReversesExtend(events, reversals, e, reversals, j);
    }
  }

  lemma ExtendReversal(events: seq<EventRow>, reversals: Reversals, e: EventRow, i: nat)
    requires LedgerInv(events, reversals)
    requires e.action.EventReversal? && Faithful(e) && e.sequence == |events| + 1 && NewTo(events, e)
    requires i < |events| && events[i].side == e.side && Delta(events[i]) != 0 && events[i].id !in reversals.Values
    ensures LedgerInv(events + [e], reversals[e.id := events[i].id])
  {
    hide Faithful, Delta;
    var all := events + [e];
    var next := reversals[e.id := events[i].id];
    ExtendRows(events, e);
    assert e.id !in reversals;
    forall id | id in next ensures HasId(all, id) { HasIdExtend(events, e, id); }
    forall j | 0 <= j < |all| && all[j].id in next ensures exists k :: Reverses(all, j, k, next) {
      if j == |events| { assert Reverses(all, j, i, next); }
      else { ReversesExtend(events, reversals, e, next, j); }
    }
    forall a, b | a in next && b in next && next[a] == next[b] ensures a == b {
      if a != e.id { assert reversals[a] in reversals.Values; }
      if b != e.id { assert reversals[b] in reversals.Values; }
    }
  }

  /** No reversal is ever reversed, and what is reversed is a scoring row of the ledger. */
  lemma ReversedAreScoring(events: seq<EventRow>, reversals: Reversals, id: Id)
    requires LedgerInv(events, reversals) && id in reversals.Values
    ensures exists i :: 0 <= i < |events| && events[i].id == id && Delta(events[i]) != 0 && id !in reversals
  {
    var r :| r in reversals && reversals[r] == id;
    var j :| 0 <= j < |events| && events[j].id == r;
    var i :| Reverses(events, j, i, reversals);
    assert !events[i].action.EventReversal?;
  }

  // ---------------------------------------------------------------- scores at a point of the ledger

  /** The events reversed by reversals among the first k rows. */
  function ReversedBefore(events: seq<EventRow>, reversals: Reversals, k: nat): set<Id>
    requires k <= |events|
  {
    set i | 0 <= i < k && events[i].id in reversals :: reversals[events[i].id]
  }

  /** The ledger score of the first k rows, counting only reversals among them. */
  function ScoreAt(events: seq<EventRow>, reversals: Reversals, k: nat, side: Side): int
    requires k <= |events|
  {
    Score(events[..k], ReversedBefore(events, reversals, k), side)
  }

  lemma ReversedBeforeAll(events: seq<EventRow>, reversals: Reversals)
    requires LedgerInv(events, reversals)
    ensures ReversedBefore(events, reversals, |events|) == reversals.Values
  {
    forall id | id in reversals.Values ensures id in ReversedBefore(events, reversals, |events|) {
      var r :| r in reversals && reversals[r] == id;
      assert HasId(events, r);
    }
  }

  /** The whole ledger's point score is the sum the rebuild query computes. */
  lemma ScoreAtEnd(events: seq<EventRow>, reversals: Reversals, side: Side)
    requires LedgerInv(events, reversals)
    ensures ScoreAt(events, reversals, |events|, side) == Score(events, reversals.Values, side)
  {
    ReversedBeforeAll(events, reversals);
    assert events[..|events|] == events;
  }

  /** Growing the ledger never changes a point score of the past, even when the new row reverses an old one. */
  lemma ScoreAtStable(events: seq<EventRow>, reversals: Reversals, e: EventRow, next: Reversals, k: nat, side: Side)
    requires k <= |events|
    requires forall i :: 0 <= i < |events| ==> events[i].id != e.id
    requires forall id :: id != e.id ==> (id in next <==> id in reversals)
    requires forall id :: id != e.id && id in next && id in reversals ==> next[id] == reversals[id]
    ensures ScoreAt(events + [e], next, k, side) == ScoreAt(events, reversals, k, side)
  {
    assert (events + [e])[..k] == events[..k];
    assert forall i :: 0 <= i < k ==> (events + [e])[i] == events[i];
    assert ReversedBefore(events + [e], next, k) == ReversedBefore(events, reversals, k);
  }

  // ---------------------------------------------------------------- conservation

  /** Unreversed rows that take a point away. */
  function Deductions(events: seq<EventRow>, reversed: set<Id>): nat {
    if events == [] then 0 else
      var e := events[|events| - 1];
      Deductions(events[..|events| - 1], reversed) + (if e.id !in reversed && Delta(e) == -1 then 1 else 0)
  }

  /** Rows with no delta that are not reversals. */
  function Neutral(events: seq<EventRow>): nat {
    if events == [] then 0 else
      var e := events[|events| - 1];
      Neutral(events[..|events| - 1]) + (if Delta(e) == 0 && !e.action.EventReversal? then 1 else 0)
  }

  function Marked(events: seq<EventRow>, ids: set<Id>): nat {
    if events == [] then 0
    else Marked(events[..|events| - 1], ids) + (if events[|events| - 1].id in ids then 1 else 0)
  }

  /** In a ledger without duplicate ids a set of its ids marks as many rows as it has members. */
  lemma {:induction false} MarkedCounts(events: seq<EventRow>, ids: set<Id>)
    requires UniqueIds(events) && forall id :: id in ids ==> HasId(events, id)
    ensures Marked(events, ids) == |ids|
  {
    if events == [] {
      assert forall id :: id in ids ==> HasId(events, id);
      assert ids == {};
    } else {
      var n := |events| - 1;
      var rest := ids - {events[n].id};
      forall id | id in rest ensures HasId(events[..n], id) {
        var i :| 0 <= i < |events| && events[i].id == id;
        assert events[..n][i].id == id;
      }
      MarkedCounts(events[..n], rest);
      MarkedSame(events[..n], ids, rest);
      assert events[n].id in ids ==> |rest| == |ids| - 1;
      assert events[n].id !in ids ==> rest == ids;
    }
  }

  lemma {:induction false} MarkedSame(events: seq<EventRow>, a: set<Id>, b: set<Id>)
    requires forall i :: 0 <= i < |events| ==> (events[i].id in a <==> events[i].id in b)
    ensures Marked(events, a) == Marked(events, b)
  {
    if events != [] { MarkedSame(events[..|events| - 1], a, b); }
  }

  /** Row by row: every row is a point, an undone point with its undoing, a deduction or neutral. */
  lemma {:induction false} Accounting(events: seq<EventRow>, reversals: Reversals, reversed: set<Id>)
    requires forall i :: 0 <= i < |events| ==> Faithful(events[i])
    requires forall i :: 0 <= i < |events| ==> (events[i].action.EventReversal? <==> events[i].id in reversals)
    requires forall i :: 0 <= i < |events| && events[i].id in reversed ==> Delta(events[i]) != 0
    ensures Score(events, reversed, Home) + Score(events, reversed, Away) + 2 * Deductions(events, reversed)
            + Neutral(events) + Marked(events, reversed) + Marked(events, reversals.Keys) == |events|
  {
    if events != [] {
      var n := |events| - 1;
      var e := events[n];
      Accounting(events[..n], reversals, reversed);
      assert Faithful(e);
      if e.action.EventReversal? { assert Delta(e) == 0; }
    }
  }

  lemma {:induction false} ValuesCount(m: Reversals)
    requires forall a, b :: a in m && b in m && m[a] == m[b] ==> a == b
    ensures |m.Values| == |m.Keys|
    decreases |m|
  {
    if m.Keys == {} {
      assert m.Values == {};
    } else {
      var k :| k in m.Keys;
      var rest := m - {k};
      assert rest.Keys == m.Keys - {k};
      forall v | v in m.Values - {m[k]} ensures v in rest.Values {
        var a :| a in m && m[a] == v;
        assert a in rest && rest[a] == v;
      }
      assert rest.Values == m.Values - {m[k]};
      ValuesCount(rest);
    }
  }

  /**
   * Conservation: points on the board, two rows for every undo, two for every standing deduction and one for
   * every neutral row add up to the sequence.
   */
  lemma {:induction false} Conservation(events: seq<EventRow>, reversals: Reversals)
    requires LedgerInv(events, reversals)
    ensures Score(events, reversals.Values, Home) + Score(events, reversals.Values, Away) + 2 * |reversals|
            + 2 * Deductions(events, reversals.Values) + Neutral(events) == |events|
  {
    forall i | 0 <= i < |events| && events[i].id in reversals.Values ensures Delta(events[i]) != 0 {
      ReversedAreScoring(events, reversals, events[i].id);
    }
    forall id | id in reversals.Values ensures HasId(events, id) {
      ReversedAreScoring(events, reversals, id);
    }
    Accounting(events, reversals, reversals.Values);
    MarkedCounts(events, reversals.Values);
    MarkedCounts(events, reversals.Keys);
    ValuesCount(reversals);
    assert |reversals| == |reversals.Keys|;
  }
}
