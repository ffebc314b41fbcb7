/** What interleaved transactions guarantee: one-at-a-time behaviour, no trace of aborts, no deadlock, an end. */
module Interleaving {
  import opened Prelude
  import opened Domain
  import opened Ledger
  import opened Store
  import opened Projection
  import opened History
  import opened Protocol

  // ---------------------------------------------------------------- atomicity

  /**
   * Atomicity: after any interleaving of statements, aborts, clock ticks, deliveries and rebuild statements, the
   * committed tables and the read model are exactly what running the logged commands alone, in commit order,
   * produces. The logged commands are exactly the finished transactions, each once, and what each of them answered
   * is the answer of that solitary run. All laws about such runs therefore hold here too.
   */
  lemma Serializable(moves: seq<Move>)
    ensures var w := Reached(moves);
            && w.sys == After(START, w.log) && ValidRun(START, w.log)
            && (forall k :: 0 <= k < |w.log| && w.log[k].Run? ==> exists t :: Authored(w, k, t))
            && (forall t :: 0 <= t < |w.txs| && w.txs[t].phase.Finished? ==> Authored(w, w.txs[t].phase.at, t))
            && (forall t, u :: 0 <= t < u < |w.txs| && w.txs[t].phase.Finished? && w.txs[u].phase.Finished? ==>
                  w.txs[t].phase.at != w.txs[u].phase.at)
  {
    ReachedInv(moves);
  }

  /** Uncommitted work is invisible: only the step that logs a successful answer changes the tables. */
  lemma OnlyCommitsShow(w: World, t: nat)
    requires CanAdvance(w, t)
    ensures var w' := Advanced(w, t);
            && w'.sys.rm == w.sys.rm
            && w'.txs == w.txs[t := w'.txs[t]]
            && (w'.sys.db != w.sys.db ==> w'.txs[t].phase.Finished? && w'.txs[t].phase.answer.Ok?)
            && (if w'.txs[t].phase.Finished? then w'.txs[t].phase.at == |w.log| && w'.log == w.log + [w'.log[|w.log|]]
                else w'.log == w.log)
  {
    hide Exec, Decide, ShapeError, Blocked, Install;
  }

  /** Finished transactions stay as they are; whoever finishes later comes later in the log. */
  ghost predicate FinishesLater(w: World, w': World) {
    && w.log <= w'.log && |w.txs| <= |w'.txs|
    && (forall u :: 0 <= u < |w.txs| && w.txs[u].phase.Finished? ==> w'.txs[u] == w.txs[u])
    && (forall u :: 0 <= u < |w'.txs| && w'.txs[u].phase.Finished? && !(u < |w.txs| && w.txs[u].phase.Finished?) ==>
          w'.txs[u].phase.at >= |w.log|)
  }

  lemma StepFinishes(w: World, a: Move)
    ensures FinishesLater(w, Step(w, a))
  {
    hide Advanced, CanAdvance, Possible, Next;
    if a.Advance? && CanAdvance(w, a.t) {
      InFlightAdvances(w, a.t);
      OnlyCommitsShow(w, a.t);
    }
  }

  lemma InFlightAdvances(w: World, t: nat)
    requires CanAdvance(w, t)
    ensures t < |w.txs| && InFlight(w.txs[t])
  {
  }

  lemma {:induction false} MovesFinish(moves: seq<Move>, i: nat)
    requires i <= |moves|
    ensures FinishesLater(Reached(moves[..i]), Reached(moves))
    decreases |moves|
  {
    if i == |moves| {
      assert moves[..i] == moves;
    } else {
      var front := moves[..|moves| - 1];
      assert front[..i] == moves[..i];
      MovesFinish(front, i);
      hide Step;
      StepFinishes(Reached(front), moves[|moves| - 1]);
    }
  }

  /**
   * Strictness: the order of the log respects real time. A transaction that had its answer before another one had
   * finished, or begun, comes before it.
   */
  lemma {:induction false} RealTimeOrder(moves: seq<Move>, i: nat, t: nat, u: nat)
    requires i <= |moves| && t < |Reached(moves[..i]).txs| && Reached(moves[..i]).txs[t].phase.Finished?
    requires u < |Reached(moves).txs| && Reached(moves).txs[u].phase.Finished?
    requires !(u < |Reached(moves[..i]).txs| && Reached(moves[..i]).txs[u].phase.Finished?)
    ensures t < |Reached(moves).txs| && Reached(moves).txs[t] == Reached(moves[..i]).txs[t]
    ensures Reached(moves).txs[t].phase.at < Reached(moves).txs[u].phase.at
  {
    hide Reached, LockInv, LogInv, TxInv;
    MovesFinish(moves, i);
    ReachedInv(moves[..i]);
    var at := Reached(moves[..i]).txs[t].phase.at;
    assert Authored(Reached(moves[..i]), at, t);
  }

  /** An abort at any point leaves no trace: tables, read model, log and other transactions are as before, its locks free. */
  lemma {:induction false} AbortLeavesNoTrace(moves: seq<Move>, t: nat)
    requires t < |Reached(moves).txs| && InFlight(Reached(moves).txs[t])
    ensures var w := Reached(moves);
            var w' := Step(w, Abort(t));
            && w'.sys == w.sys && w'.log == w.log
            && (forall u :: 0 <= u < |w.txs| && u != t ==> w'.txs[u] == w.txs[u])
            && (forall r :: r in Holds(w.txs[t]) ==> r !in w'.locks)
            && (forall r :: r in w.locks && r !in Holds(w.txs[t]) ==> r in w'.locks && w'.locks[r] == w.locks[r])
  {
    ReachedInv(moves);
    hide Reached, Holds;
    var w := Reached(moves);
    OpenWorld(w, t);
  }

  /**
   * Exactly once, interleaved: however transactions race, each one under the same scope and key that read its
   * clock before the first answer expired gets that answer or a conflict, and commits nothing.
   */
  lemma InterleavedExactlyOnce(moves: seq<Move>, i: nat, j: nat)
    requires i < j < |Reached(moves).log|
    requires var log := Reached(moves).log;
             && Performs(At(log, i), log[i])
             && log[j].Run? && KeyOf(log[j].request) == KeyOf(log[i].request) && WellFormed(log[j].request.command)
    requires forall t :: 0 <= t < |Reached(moves).txs| ==>
               ReadsClockBefore(Reached(moves).txs[t], i, KeyOf(Reached(moves).log[i].request),
                                Reached(moves).log[i].stamp + 86_400)
    ensures var log := Reached(moves).log;
            && log[j].answer == (if log[j].request.hash == log[i].request.hash then log[i].answer
                                 else Err(IdempotencyConflict))
            && At(log, j + 1) == At(log, j)
  {
    var w := Reached(moves);
    ReachedInv(moves);
    assert w.log[i].Run?;
    hide Reached, Performs, ValidRun, At, WellFormed, AuthorInv, LockInv, InTime, Authored, ReadsClockBefore;
    ClocksInTime(w, i, j, KeyOf(w.log[i].request), w.log[i].stamp + 86_400);
    RetryReturnsFirst(w.log, i, j);
  }

  lemma ClocksInTime(w: World, i: nat, j: nat, key: Key, expires: Time)
    requires AuthorInv(w) && i < j < |w.log|
    requires forall t :: 0 <= t < |w.txs| ==> ReadsClockBefore(w.txs[t], i, key, expires)
    ensures InTime(w.log, i + 1, j + 1, key, expires)
  {
    forall k | i + 1 <= k < j + 1 && w.log[k].Run? && KeyOf(w.log[k].request) == key
      ensures w.log[k].clock < expires
    {
      var t: nat :| Authored(w, k, t);
      assert ReadsClockBefore(w.txs[t], i, key, expires);
    }
  }

  /** If tx finished after log position i under the key, its DELETE looked at the clock before expires. */
  predicate ReadsClockBefore(tx: Tx, i: nat, key: Key, expires: Time) {
    tx.phase.Finished? && tx.phase.at > i && TxKey(tx) == key ==> tx.clock < expires
  }

  /** The books balance in every interleaving: derived scores, no negatives, every sequence number accounted for. */
  lemma InterleavedBooks(moves: seq<Move>, id: Id)
    requires id in Reached(moves).sys.db.matches
    ensures var m := Reached(moves).sys.db.matches[id];
            && m.sequence == |m.events| && LedgerInv(m.events, m.reversals)
            && m.home == Score(m.events, m.reversals.Values, Home) >= 0
            && m.away == Score(m.events, m.reversals.Values, Away) >= 0
            && m.home + m.away + 2 * |m.reversals| + 2 * Deductions(m.events, m.reversals.Values) + Neutral(m.events)
                 == m.sequence
  {
    Serializable(moves);
    var w := Reached(moves);
    hide Reached, ValidRun;
    assert w.log[..|w.log|] == w.log;
    BooksBalance(w.log, |w.log|, id);
  }

  // ---------------------------------------------------------------- no deadlock

  /** Whoever holds a match row is never blocked: it already has its key, and the live row goes with the match row. */
  lemma MatchHolderRuns(w: World, t: nat)
    requires WorldInv(w) && t < |w.txs| && MatchRow(TxTarget(w.txs[t])) in Holds(w.txs[t])
    ensures CanAdvance(w, t)
  {
    OpenWorld(w, t);
    var tx := w.txs[t];
    hide WorldInv, LockInv, TxInv, Refusal, WellFormed;
    if Blocked(w, t) {
      var row := Wants(w, tx).value;
      assert row == LiveRow(TxTarget(tx));
      var u := w.locks[row];
      LockOwner(w, row);
      LiveGoesWithMatch(w.txs[u], TxTarget(tx));
      Exclusive(w, t, u);
      assert false;
    }
  }

  lemma LockOwner(w: World, r: Resource)
    requires LockInv(w.locks, w.txs) && r in w.locks
    ensures w.locks[r] < |w.txs| && r in Holds(w.txs[w.locks[r]])
  {
  }

  lemma LiveGoesWithMatch(tx: Tx, id: Id)
    requires LiveRow(id) in Holds(tx)
    ensures MatchRow(id) in Holds(tx)
  {
  }

  /** A transaction that holds its key can only be waiting for its match row. */
  lemma KeyHolderWaits(w: World, t: nat)
    requires WorldInv(w) && t < |w.txs| && KeyRow(TxKey(w.txs[t])) in Holds(w.txs[t]) && Blocked(w, t)
    ensures Wants(w, w.txs[t]) == Some(MatchRow(TxTarget(w.txs[t])))
  {
    OpenWorld(w, t);
    var tx := w.txs[t];
    if MatchRow(TxTarget(tx)) in Holds(tx) { MatchHolderRuns(w, t); }
    hide WorldInv, TxInv, Refusal, WellFormed;
    LockOwner(w, Wants(w, tx).value);
  }

  lemma HoldersAreInFlight(w: World, r: Resource)
    requires WorldInv(w) && r in w.locks
    ensures w.locks[r] < |w.txs| && r in Holds(w.txs[w.locks[r]]) && InFlight(w.txs[w.locks[r]])
  {
    hide TxInv;
  }

  lemma OwnRow(tx: Tx, r: Resource)
    requires r in Holds(tx)
    ensures r.KeyRow? ==> r == KeyRow(TxKey(tx))
    ensures r.MatchRow? ==> r == MatchRow(TxTarget(tx))
  {
  }

  /**
   * Deadlock freedom: because every transaction takes its key before its rows, whenever one is in flight some
   * transaction can take its next step.
   */
  lemma NoDeadlock(w: World, t: nat) returns (u: nat)
    requires WorldInv(w) && t < |w.txs| && InFlight(w.txs[t])
    ensures CanAdvance(w, u)
  {
    hide WorldInv, Holds;
    u := t;
    if Blocked(w, t) {
      var first := Wants(w, w.txs[t]).value;
      HoldersAreInFlight(w, first);
      u := w.locks[first];
      OwnRow(w.txs[u], first);
      if first.LiveRow? {
        LiveGoesWithMatch(w.txs[u], first.id);
        OwnRow(w.txs[u], MatchRow(first.id));
      }
      if MatchRow(TxTarget(w.txs[u])) in Holds(w.txs[u]) {
        MatchHolderRuns(w, u);
      } else if Blocked(w, u) {
        KeyHolderWaits(w, u);
        var second := MatchRow(TxTarget(w.txs[u]));
        HoldersAreInFlight(w, second);
        u := w.locks[second];
        OwnRow(w.txs[u], second);
        MatchHolderRuns(w, u);
      }
    }
  }

  // ---------------------------------------------------------------- an end

  function PhaseRank(p: Phase): nat {
    match p
    case Begun => 6 case Swept(_) => 5 case Keyed(_) => 4 case MatchLocked(_) => 3 case LiveLocked(_) => 2
    case Writing(_, _) => 1 case Finished(_, _) => 0 case Aborted => 0
  }

  function StmtsLeft(p: Phase): nat { if p.Writing? then |p.rest| else 0 }

  function PhasesLeft(txs: seq<Tx>): nat {
    if txs == [] then 0 else PhasesLeft(txs[..|txs| - 1]) + PhaseRank(txs[|txs| - 1].phase)
  }

  function TotalStmts(txs: seq<Tx>): nat {
    if txs == [] then 0 else TotalStmts(txs[..|txs| - 1]) + StmtsLeft(txs[|txs| - 1].phase)
  }

  lemma {:induction false} LeftAfter(txs: seq<Tx>, t: nat, tx: Tx)
    requires t < |txs|
    ensures PhasesLeft(txs[t := tx]) == PhasesLeft(txs) - PhaseRank(txs[t].phase) + PhaseRank(tx.phase)
    ensures TotalStmts(txs[t := tx]) == TotalStmts(txs) - StmtsLeft(txs[t].phase) + StmtsLeft(tx.phase)
  {
    var n := |txs| - 1;
    if t == n {
      assert txs[t := tx][..n] == txs[..n];
    } else {
      assert txs[t := tx][..n] == txs[..n][t := tx];
      LeftAfter(txs[..n], t, tx);
    }
  }

  /** Less work is left: fewer phases, or the same phases and fewer statements. */
  predicate LessLeft(w: World, w': World) {
    PhasesLeft(w'.txs) < PhasesLeft(w.txs) ||
    (PhasesLeft(w'.txs) == PhasesLeft(w.txs) && TotalStmts(w'.txs) < TotalStmts(w.txs))
  }

  predicate Shorter(p: Phase, q: Phase) {
    PhaseRank(p) < PhaseRank(q) || (PhaseRank(p) == PhaseRank(q) && StmtsLeft(p) < StmtsLeft(q))
  }

  /** w' differs from w in the transactions table at t only, where less is left to do. */
  ghost predicate Shortened(w: World, w': World, t: nat) {
    t < |w.txs| && t < |w'.txs| && w'.txs == w.txs[t := w'.txs[t]] && Shorter(w'.txs[t].phase, w.txs[t].phase)
  }

  lemma ReplayShortens(w: World, t: nat)
    requires t < |w.txs| && InFlight(w.txs[t]) && TxKey(w.txs[t]) in w.sys.db.records
    ensures Shortened(w, Replay(w, t, w.txs[t]), t)
  {
    hide ReadRecord;
  }

  lemma LockShortens(w: World, t: nat, reserved: bool)
    requires t < |w.txs| && w.txs[t].phase == Keyed(reserved)
    ensures Shortened(w, LockStep(w, t, w.txs[t], reserved), t)
  {
    hide Refusal;
  }

  lemma DecideShortens(w: World, t: nat)
    requires t < |w.txs| && (w.txs[t].phase.MatchLocked? || w.txs[t].phase.LiveLocked?)
    ensures Shortened(w, DecideStep(w, t, w.txs[t]), t)
  {
    hide Decide;
  }

  lemma WriteShortens(w: World, t: nat)
    requires t < |w.txs| && w.txs[t].phase.Writing?
    ensures Shortened(w, WriteStep(w, t, w.txs[t], w.txs[t].phase.view, w.txs[t].phase.rest), t)
  {
    hide Exec, Install;
  }

  lemma StartShortens(w: World, t: nat)
    requires CanAdvance(w, t) && (w.txs[t].phase.Begun? || w.txs[t].phase.Swept?)
    ensures Shortened(w, Advanced(w, t), t)
  {
    hide Blocked, Expired, WellFormed;
  }

  lemma AdvanceShortens(w: World, t: nat)
    requires WorldInv(w) && CanAdvance(w, t)
    ensures Shortened(w, Advanced(w, t), t)
  {
    OpenWorld(w, t);
    hide WorldInv, LockInv, Blocked, Replay, LockStep, DecideStep, WriteStep, Holds, Refusal, Attempt, ExecAll, WellFormed,
         Expired, Unexpired, Shortened, Take, Moved, Fail;
    var tx := w.txs[t];
    match tx.phase {
      case Keyed(reserved) =>
        if reserved || tx.request.command.Append? { LockShortens(w, t, reserved); } else { ReplayShortens(w, t); }
      case MatchLocked(_) => if !NeedsLiveRow(tx.request.command) { DecideShortens(w, t); }
      case LiveLocked(reserved) => if reserved { DecideShortens(w, t); } else { ReplayShortens(w, t); }
      case Writing(_, _) => WriteShortens(w, t);
      case _ => StartShortens(w, t);
    }
  }

  /** Every statement and every abort leaves less work, in the same lexicographic measure. */
  lemma EveryStepShortens(w: World, t: nat)
    requires WorldInv(w)
    ensures CanAdvance(w, t) ==> LessLeft(w, Step(w, Advance(t)))
    ensures t < |w.txs| && InFlight(w.txs[t]) ==> LessLeft(w, Step(w, Abort(t)))
  {
    hide WorldInv, Advanced, Blocked;
    if CanAdvance(w, t) {
      AdvanceShortens(w, t);
      LeftAfter(w.txs, t, Advanced(w, t).txs[t]);
    }
    if t < |w.txs| && InFlight(w.txs[t]) {
      LeftAfter(w.txs, t, w.txs[t].(phase := Aborted));
    }
  }

  ghost function Play(w: World, schedule: seq<nat>): World
    decreases |schedule|
  {
    if schedule == [] then w else Play(Step(w, Advance(schedule[0])), schedule[1..])
  }

  ghost predicate Quiescent(w: World) {
    forall t :: 0 <= t < |w.txs| ==> !InFlight(w.txs[t])
  }

  /** From any reachable state there is a schedule that finishes every transaction without aborting any. */
  lemma {:induction false} AllFinish(w: World) returns (schedule: seq<nat>)
    requires WorldInv(w)
    ensures Quiescent(Play(w, schedule))
    ensures |Play(w, schedule).txs| == |w.txs|
    ensures forall t :: 0 <= t < |w.txs| && !w.txs[t].phase.Aborted? ==> Play(w, schedule).txs[t].phase.Finished?
    decreases PhasesLeft(w.txs), TotalStmts(w.txs)
  {
    hide WorldInv, CanAdvance;
    schedule := [];
    if !Quiescent(w) {
      var t :| 0 <= t < |w.txs| && InFlight(w.txs[t]);
      var u := NoDeadlock(w, t);
      var w' := Step(w, Advance(u));
      EveryStepShortens(w, u);
      StepKeepsWorld(w, Advance(u));
      NoneAborted(w, u);
      var rest := AllFinish(w');
      schedule := [u] + rest;
      assert schedule[1..] == rest;
    }
  }

  lemma NoneAborted(w: World, u: nat)
    requires WorldInv(w) && CanAdvance(w, u)
    ensures |Step(w, Advance(u)).txs| == |w.txs|
    ensures forall t :: 0 <= t < |w.txs| && !w.txs[t].phase.Aborted? ==> !Step(w, Advance(u)).txs[t].phase.Aborted?
  {
    hide WorldInv, Exec, Decide, ShapeError, Blocked, Install;
  }
}
