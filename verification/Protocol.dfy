/**
 * Many transactions at once, statement by statement, over committed tables, private views and row locks. Every
 * interleaving, with crashes anywhere, is explained by running the finished commands one at a time.
 */
module Protocol {
  import opened Prelude
  import opened Domain
  import opened Store
  import opened Projection

  datatype Resource = KeyRow(key: Key) | MatchRow(id: Id) | LiveRow(id: Id)

  /** Where a transaction stands between its statements. */
  datatype Phase =
    | Begun                                     // BEGIN
    | Swept(dropped: bool)                      // DELETE of the expired record; true when it found one
    | Keyed(reserved: bool)                     // INSERT ... ON CONFLICT DO NOTHING
    | MatchLocked(reserved: bool)               // FOR UPDATE OF matches (or the insert of a new match row)
    | LiveLocked(reserved: bool)                // ... and of match_live_state
    | Writing(view: View, rest: seq<Stmt>)      // decided; statements still to run
    | Finished(at: nat, answer: Result<Response, Error>)  // committed or failed; its place in the log, its answer
    | Aborted                                   // connection lost or cancelled

  datatype Tx = Tx(request: Request, newId: Id, clock: Time, stamp: Time, phase: Phase)

  datatype World = World(sys: System, now: Time, locks: map<Resource, nat>, txs: seq<Tx>, log: seq<Atom>)

  const INITIAL: World := World(START, 0, map[], [], [])

  function TxKey(tx: Tx): Key { KeyOf(tx.request) }

  function TxTarget(tx: Tx): Id { TargetOf(tx.request.command, tx.newId) }

  predicate NeedsLiveRow(c: Command) { c.Append? || c.Reverse? || c.StartLive? }

  predicate InFlight(tx: Tx) { !tx.phase.Finished? && !tx.phase.Aborted? }

  /** The row locks a transaction holds, read off its phase. */
  function Holds(tx: Tx): set<Resource> {
    var key, row := KeyRow(TxKey(tx)), MatchRow(TxTarget(tx));
    match tx.phase
    case Begun => {}
    case Swept(dropped) => if dropped then {key} else {}
    case Keyed(reserved) => if reserved then {key} else {}
    case MatchLocked(reserved) => if reserved then {key, row} else {row}
    case LiveLocked(reserved) => if reserved then {key, row, LiveRow(row.id)} else {row, LiveRow(row.id)}
    case Writing(_, _) => if NeedsLiveRow(tx.request.command) then {key, row, LiveRow(row.id)} else {key, row}
    case Finished(_, _) => {}
    case Aborted => {}
  }

  // ---------------------------------------------------------------- one statement

  predicate Expired(db: Db, key: Key, now: Time) { key in db.records && db.records[key].expires <= now }

  /** The answer a locking attempt gives at once, without waiting. */
  ghost function Refusal(db: Db, tx: Tx, reserved: bool): Option<Error> {
    var c := tx.request.command;
    if reserved && ShapeError(c) then Some(InvalidInput)
    else if c.Create? && TxTarget(tx) in db.matches then Some(ConstraintViolation)
    else if !c.Create? && TxTarget(tx) !in db.matches then Some(MatchNotFound)
    else None
  }

  /** The row the next statement has to lock or wait for. */
  ghost function Wants(w: World, tx: Tx): Option<Resource> {
    match tx.phase
    case Begun =>
      if WellFormed(tx.request.command) && Expired(w.sys.db, TxKey(tx), w.now) then Some(KeyRow(TxKey(tx))) else None
    case Swept(_) => Some(KeyRow(TxKey(tx)))
    case Keyed(reserved) =>
      if (reserved || tx.request.command.Append?) && Refusal(w.sys.db, tx, reserved).None?
      then Some(MatchRow(TxTarget(tx))) else None
    case MatchLocked(_) => if NeedsLiveRow(tx.request.command) then Some(LiveRow(TxTarget(tx))) else None
    case _ => None
  }

  ghost predicate Blocked(w: World, t: nat)
    requires t < |w.txs|
  {
    Wants(w, w.txs[t]).Some? && Wants(w, w.txs[t]).value in w.locks && w.locks[Wants(w, w.txs[t]).value] != t
  }

  ghost predicate CanAdvance(w: World, t: nat) {
    t < |w.txs| && InFlight(w.txs[t]) && !Blocked(w, t)
  }

  function Release(locks: map<Resource, nat>, t: nat): map<Resource, nat> {
    map r | r in locks && locks[r] != t :: locks[r]
  }

  function Moved(w: World, t: nat, tx: Tx): World
    requires t < |w.txs|
  {
    w.(txs := w.txs[t := tx])
  }

  function Take(w: World, t: nat, tx: Tx, r: Resource): World
    requires t < |w.txs|
  {
    w.(txs := w.txs[t := tx], locks := w.locks[r := t])
  }

  /** COMMIT or ROLLBACK with an answer: locks go, the answer is logged with the clock reading it was based on. */
  function Finish(w: World, t: nat, tx: Tx, clock: Time, db: Db, answer: Result<Response, Error>): World
    requires t < |w.txs|
  {
    World(w.sys.(db := db), w.now, Release(w.locks, t), w.txs[t := tx.(phase := Finished(|w.log|, answer))],
          w.log + [Run(tx.request, clock, tx.stamp, tx.newId, answer)])
  }

  function Fail(w: World, t: nat, tx: Tx, e: Error): World
    requires t < |w.txs|
  {
    Finish(w, t, tx, tx.clock, w.sys.db, Err(e))
  }

  /**
   * A replay reads a record its own DELETE left alone or never saw. Should that record have expired in between,
   * the command behaves as if its DELETE had run just before the expiry.
   */
  function ReplayClock(db: Db, tx: Tx): Time
    requires TxKey(tx) in db.records
  {
    if db.records[TxKey(tx)].expires > tx.clock then tx.clock else db.records[TxKey(tx)].expires - 1
  }

  function Replay(w: World, t: nat, tx: Tx): World
    requires t < |w.txs|
  {
    if TxKey(tx) !in w.sys.db.records then w
    else Finish(w, t, tx, ReplayClock(w.sys.db, tx), w.sys.db, ReadRecord(w.sys.db, tx.request))
  }

  ghost function DecideStep(w: World, t: nat, tx: Tx): World
    requires t < |w.txs|
  {
    var found := Lookup(w.sys.db, TxTarget(tx));
    var m := if found.Some? then found.value else NO_MATCH;
    match Decide(TxTarget(tx), m, tx.request.command, tx.newId)
    case Err(e) => Fail(w, t, tx, e)
    case Ok(stmts) => Moved(w, t, tx.(phase := Writing(View(m, Reservation(tx.request, tx.stamp), []), stmts)))
  }

  ghost function LockStep(w: World, t: nat, tx: Tx, reserved: bool): World
    requires t < |w.txs|
  {
    match Refusal(w.sys.db, tx, reserved)
    case Some(e) => Fail(w, t, tx, e)
    case None => Take(w, t, tx.(phase := MatchLocked(reserved)), MatchRow(TxTarget(tx)))
  }

  ghost function WriteStep(w: World, t: nat, tx: Tx, view: View, rest: seq<Stmt>): World
    requires t < |w.txs|
  {
    if rest == [] then
      Finish(w, t, tx, tx.clock, Install(w.sys.db, tx.request, tx.newId, view), Ok(view.record.response))
    else
      match Exec(view, rest[0])
      case Err(e) => Fail(w, t, tx, e)
      case Ok(view') => Moved(w, t, tx.(phase := Writing(view', rest[1..])))
  }

  /** The next statement of transaction t, when nothing blocks it. */
  ghost function Advanced(w: World, t: nat): World
    requires CanAdvance(w, t)
  {
    var tx := w.txs[t];
    match tx.phase
    case Begun =>
      var tx' := tx.(clock := w.now);
      if !WellFormed(tx.request.command) then Fail(w, t, tx', InvalidInput)
      else if Expired(w.sys.db, TxKey(tx), w.now) then Take(w, t, tx'.(phase := Swept(true)), KeyRow(TxKey(tx)))
      else Moved(w, t, tx'.(phase := Swept(false)))
    case Swept(dropped) =>
      if !dropped && TxKey(tx) in w.sys.db.records then Moved(w, t, tx.(stamp := w.now, phase := Keyed(false)))
      else Take(w, t, tx.(stamp := w.now, phase := Keyed(true)), KeyRow(TxKey(tx)))
    case Keyed(reserved) =>
      if reserved || tx.request.command.Append? then LockStep(w, t, tx, reserved) else Replay(w, t, tx)
    case MatchLocked(reserved) =>
      if NeedsLiveRow(tx.request.command)
      then Take(w, t, tx.(phase := LiveLocked(reserved)), LiveRow(TxTarget(tx)))
      else DecideStep(w, t, tx)
    case LiveLocked(reserved) => if reserved then DecideStep(w, t, tx) else Replay(w, t, tx)
    case Writing(view, rest) => WriteStep(w, t, tx, view, rest)
    case _ => w
  }

  // ---------------------------------------------------------------- runs

  /** One thing that can happen next. */
  datatype Move =
    | Begin(request: Request, newId: Id)
    | Tick(elapsed: nat)
    | Advance(t: nat)
    | Abort(t: nat)
    | Feed(atom: Atom)

  ghost function Step(w: World, a: Move): World {
    match a
    case Begin(r, newId) => w.(txs := w.txs + [Tx(r, newId, w.now, w.now, Begun)])
    case Tick(elapsed) => w.(now := w.now + elapsed)
    case Advance(t) => if CanAdvance(w, t) then Advanced(w, t) else w
    case Abort(t) =>
      if t < |w.txs| && InFlight(w.txs[t])
      then w.(txs := w.txs[t := w.txs[t].(phase := Aborted)], locks := Release(w.locks, t)) else w
    case Feed(atom) =>
      // A delivery, or one of the two statements of a rebuild, as one atomic step each.
      if !atom.Run? && Possible(w.sys, atom) then w.(sys := Next(w.sys, atom), log := w.log + [atom]) else w
  }

  ghost function Reached(moves: seq<Move>): World {
    if moves == [] then INITIAL else Step(Reached(moves[..|moves| - 1]), moves[|moves| - 1])
  }

  // ---------------------------------------------------------------- invariants

  ghost predicate LockInv(locks: map<Resource, nat>, txs: seq<Tx>) {
    && (forall r :: r in locks ==> locks[r] < |txs| && r in Holds(txs[locks[r]]))
    && (forall t, r :: 0 <= t < |txs| && r in Holds(txs[t]) ==> r in locks && locks[r] == t)
  }

  /** What a transaction knows about the committed tables, and keeps knowing because of its locks. */
  ghost predicate TxInv(db: Db, tx: Tx) {
    var c := tx.request.command;
    match tx.phase
    case Swept(dropped) => WellFormed(c) && (dropped ==> Expired(db, TxKey(tx), tx.clock))
    case Keyed(reserved) => WellFormed(c) && KeyFact(db, tx, reserved)
    case MatchLocked(reserved) => RowFact(db, tx, reserved)
    case LiveLocked(reserved) => RowFact(db, tx, reserved) && NeedsLiveRow(c)
    case Writing(view, rest) =>
      && WellFormed(c) && KeyFact(db, tx, true)
      && ExecAll(view, rest) == Attempt(Lookup(db, TxTarget(tx)), tx.request, tx.stamp, tx.newId)
    case _ => true
  }

  ghost predicate KeyFact(db: Db, tx: Tx, reserved: bool) {
    if reserved then !Unexpired(db, TxKey(tx), tx.clock) else TxKey(tx) in db.records
  }

  ghost predicate RowFact(db: Db, tx: Tx, reserved: bool) {
    && WellFormed(tx.request.command) && KeyFact(db, tx, reserved) && Refusal(db, tx, reserved).None?
    && (reserved || tx.request.command.Append?)
  }

  ghost predicate LogInv(w: World) {
    w.sys == After(START, w.log) && ValidRun(START, w.log)
  }

  /** Transaction t finished as entry k of the log: its request, its id and its answer, on a clock it had reached. */
  ghost predicate Authored(w: World, k: nat, t: nat) {
    && t < |w.txs| && k < |w.log| && w.log[k].Run? && w.txs[t].phase == Finished(k, w.log[k].answer)
    && w.log[k].request == w.txs[t].request && w.log[k].newId == w.txs[t].newId
    && w.log[k].stamp == w.txs[t].stamp && w.log[k].clock <= w.txs[t].clock
  }

  /** The finished transactions are exactly the logged commands, one for one. */
  ghost predicate AuthorInv(w: World) {
    && (forall k :: 0 <= k < |w.log| && w.log[k].Run? ==> exists t :: Authored(w, k, t))
    && (forall t :: 0 <= t < |w.txs| && w.txs[t].phase.Finished? ==> Authored(w, w.txs[t].phase.at, t))
    && (forall t, u :: 0 <= t < u < |w.txs| && w.txs[t].phase.Finished? && w.txs[u].phase.Finished? ==>
          w.txs[t].phase.at != w.txs[u].phase.at)
  }

  ghost predicate WorldInv(w: World) {
    && LockInv(w.locks, w.txs) && LogInv(w) && AuthorInv(w)
    && (forall t :: 0 <= t < |w.txs| ==> TxInv(w.sys.db, w.txs[t]))
  }

  // ---------------------------------------------------------------- locks

  lemma TakeKeepsLocks(locks: map<Resource, nat>, txs: seq<Tx>, t: nat, tx: Tx, r: Resource)
    requires LockInv(locks, txs) && t < |txs| && (r in locks ==> locks[r] == t)
    requires Holds(tx) == Holds(txs[t]) + {r}
    ensures LockInv(locks[r := t], txs[t := tx])
  {
    hide Holds;
  }

  lemma MoveKeepsLocks(locks: map<Resource, nat>, txs: seq<Tx>, t: nat, tx: Tx)
    requires LockInv(locks, txs) && t < |txs| && Holds(tx) == Holds(txs[t])
    ensures LockInv(locks, txs[t := tx])
  {
    hide Holds;
  }

  lemma ReleaseKeepsLocks(locks: map<Resource, nat>, txs: seq<Tx>, t: nat, tx: Tx)
    requires LockInv(locks, txs) && t < |txs| && Holds(tx) == {}
    ensures LockInv(Release(locks, t), txs[t := tx])
  {
    hide Holds;
  }

  lemma Exclusive(w: World, t: nat, u: nat)
    requires LockInv(w.locks, w.txs) && t < |w.txs| && u < |w.txs| && t != u
    ensures forall r :: r in Holds(w.txs[t]) ==> r !in Holds(w.txs[u])
  {
    hide Holds;
    forall r | r in Holds(w.txs[t]) ensures r !in Holds(w.txs[u]) {
      assert w.locks[r] == t;
    }
  }

  // ---------------------------------------------------------------- the log

  /** Steps that finish nobody and log no command leave every author in place. */
  lemma AuthorsStay(w: World, w': World)
    requires AuthorInv(w) && w.log <= w'.log && forall k :: |w.log| <= k < |w'.log| ==> !w'.log[k].Run?
    requires forall t :: 0 <= t < |w.txs| && w.txs[t].phase.Finished? ==> t < |w'.txs| && w'.txs[t] == w.txs[t]
    requires forall t :: 0 <= t < |w'.txs| && w'.txs[t].phase.Finished? ==> t < |w.txs| && w.txs[t].phase.Finished?
    ensures AuthorInv(w')
  {
    forall k | 0 <= k < |w'.log| && w'.log[k].Run? ensures exists u :: Authored(w', k, u) {
      assert w.log[k].Run?;
      var u :| Authored(w, k, u);
      assert Authored(w', k, u);
    }
  }

  lemma AuthorsGrow(w: World, t: nat, tx: Tx, clock: Time, db: Db, answer: Result<Response, Error>)
    requires AuthorInv(w) && t < |w.txs| && InFlight(w.txs[t]) && clock <= tx.clock
    ensures AuthorInv(Finish(w, t, tx, clock, db, answer))
  {
    var w' := Finish(w, t, tx, clock, db, answer);
    assert Authored(w', |w.log|, t);
    forall k | 0 <= k < |w.log| && w.log[k].Run? ensures exists u :: Authored(w', k, u) {
      var u :| Authored(w, k, u);
      assert Authored(w', k, u);
    }
  }

  // ---------------------------------------------------------------- a commit disturbs nobody else

  /** tx keeps its knowledge when a commit touches neither a key nor a match row it has locked. */
  lemma InstallDisturbsNobody(db: Db, r: Request, newId: Id, v: View, tx: Tx)
    requires TxInv(db, tx)
    requires KeyRow(KeyOf(r)) !in Holds(tx) && MatchRow(TargetOf(r.command, newId)) !in Holds(tx)
    ensures TxInv(Install(db, r, newId, v), tx)
  {
    hide ExecAll, Attempt, ShapeError;
    var db' := Install(db, r, newId, v);
    if tx.phase.Writing? {
      assert TxTarget(tx) != TargetOf(r.command, newId);
      assert Lookup(db', TxTarget(tx)) == Lookup(db, TxTarget(tx));
    }
  }

  // ---------------------------------------------------------------- every step keeps the invariant

  /** A silent step: transaction t moves on, perhaps with one more lock; nothing is committed. */
  lemma QuietKeeps(w: World, t: nat, tx: Tx, locks: map<Resource, nat>)
    requires WorldInv(w) && t < |w.txs| && InFlight(w.txs[t]) && TxInv(w.sys.db, tx) && !tx.phase.Finished?
    requires LockInv(locks, w.txs[t := tx])
    ensures WorldInv(w.(txs := w.txs[t := tx], locks := locks))
  {
    hide TxInv, LockInv;
    AuthorsStay(w, w.(txs := w.txs[t := tx], locks := locks));
  }

  /** A logged step whose answer and tables are those of the command run alone on the committed tables. */
  lemma FinishKeeps(w: World, t: nat, tx: Tx, clock: Time, db: Db, answer: Result<Response, Error>)
    requires WorldInv(w) && t < |w.txs| && InFlight(w.txs[t])
    requires tx.request == w.txs[t].request && tx.newId == w.txs[t].newId && clock <= tx.clock
    requires Execute(w.sys.db, tx.request, clock, tx.stamp, tx.newId) == (db, answer)
    requires forall u :: 0 <= u < |w.txs| && u != t ==> TxInv(db, w.txs[u])
    ensures WorldInv(Finish(w, t, tx, clock, db, answer))
  {
    hide TxInv, Execute, AuthorInv;
    var w' := Finish(w, t, tx, clock, db, answer);
    var a := Run(tx.request, clock, tx.stamp, tx.newId, answer);
    RunExtends(START, w.log, a);
    ReleaseKeepsLocks(w.locks, w.txs, t, w'.txs[t]);
    assert TxInv(db, w'.txs[t]) by { FinishedIsFree(db, w'.txs[t]); }
    AuthorsGrow(w, t, tx, clock, db, answer);
  }

  lemma FinishedIsFree(db: Db, tx: Tx)
    requires tx.phase.Finished? || tx.phase.Aborted?
    ensures TxInv(db, tx)
  {
  }

  lemma FailKeeps(w: World, t: nat, tx: Tx, e: Error)
    requires WorldInv(w) && t < |w.txs| && InFlight(w.txs[t])
    requires tx.request == w.txs[t].request && tx.newId == w.txs[t].newId
    requires Execute(w.sys.db, tx.request, tx.clock, tx.stamp, tx.newId) == (w.sys.db, Err(e))
    ensures WorldInv(Fail(w, t, tx, e))
  {
    hide Execute, TxInv;
    FinishKeeps(w, t, tx, tx.clock, w.sys.db, Err(e));
  }

  lemma ReplayKeeps(w: World, t: nat, tx: Tx)
    requires WorldInv(w) && t < |w.txs| && InFlight(w.txs[t]) && tx == w.txs[t]
    requires WellFormed(tx.request.command) && TxKey(tx) in w.sys.db.records
    ensures WorldInv(Replay(w, t, tx))
  {
    hide TxInv, Attempt;
    FinishKeeps(w, t, tx, ReplayClock(w.sys.db, tx), w.sys.db, ReadRecord(w.sys.db, tx.request));
  }

  lemma LockStepKeeps(w: World, t: nat, tx: Tx, reserved: bool)
    requires WorldInv(w) && CanAdvance(w, t) && tx == w.txs[t] && tx.phase == Keyed(reserved)
    requires reserved || tx.request.command.Append?
    ensures WorldInv(LockStep(w, t, tx, reserved))
  {
    hide WorldInv;
    assert WorldInv(w) && TxInv(w.sys.db, tx) && LockInv(w.locks, w.txs) by { OpenWorld(w, t); }
    match Refusal(w.sys.db, tx, reserved) {
      case Some(e) =>
        RefusedAlone(w.sys.db, tx, reserved);
        FailKeeps(w, t, tx, e);
      case None =>
        var tx' := tx.(phase := MatchLocked(reserved));
        TakeKeepsLocks(w.locks, w.txs, t, tx', MatchRow(TxTarget(tx)));
        QuietKeeps(w, t, tx', w.locks[MatchRow(TxTarget(tx)) := t]);
    }
  }

  lemma OpenWorld(w: World, t: nat)
    requires WorldInv(w) && t < |w.txs|
    ensures LockInv(w.locks, w.txs) && TxInv(w.sys.db, w.txs[t])
  {
  }

  /** A refusal is the answer the command would get alone. */
  lemma RefusedAlone(db: Db, tx: Tx, reserved: bool)
    requires WellFormed(tx.request.command) && KeyFact(db, tx, reserved) && Refusal(db, tx, reserved).Some?
    requires reserved || tx.request.command.Append?
    ensures Execute(db, tx.request, tx.clock, tx.stamp, tx.newId) == (db, Err(Refusal(db, tx, reserved).value))
  {
    hide Decide, ExecAll;
  }

  lemma DecideStepKeeps(w: World, t: nat, tx: Tx)
    requires WorldInv(w) && t < |w.txs| && InFlight(w.txs[t]) && tx == w.txs[t]
    requires RowFact(w.sys.db, tx, true)
    requires Holds(tx.(phase := Writing(View(NO_MATCH, Reservation(tx.request, tx.stamp), []), []))) == Holds(tx)
    ensures WorldInv(DecideStep(w, t, tx))
  {
    hide WorldInv, Decide, ExecAll;
    assert LockInv(w.locks, w.txs) by { OpenWorld(w, t); }
    var found := Lookup(w.sys.db, TxTarget(tx));
    var m := if found.Some? then found.value else NO_MATCH;
    match Decide(TxTarget(tx), m, tx.request.command, tx.newId) {
      case Err(e) => FailKeeps(w, t, tx, e);
      case Ok(stmts) =>
        var tx' := tx.(phase := Writing(View(m, Reservation(tx.request, tx.stamp), []), stmts));
        MoveKeepsLocks(w.locks, w.txs, t, tx');
        QuietKeeps(w, t, tx', w.locks);
    }
  }

  lemma WriteStepKeeps(w: World, t: nat, tx: Tx, view: View, rest: seq<Stmt>)
    requires WorldInv(w) && t < |w.txs| && tx == w.txs[t] && tx.phase == Writing(view, rest)
    ensures WorldInv(WriteStep(w, t, tx, view, rest))
  {
    hide WorldInv, Attempt, Exec;
    assert LockInv(w.locks, w.txs) && TxInv(w.sys.db, tx) by { OpenWorld(w, t); }
    if rest == [] {
      var db' := Install(w.sys.db, tx.request, tx.newId, view);
      assert ExecAll(view, rest) == Ok(view);
      forall u | 0 <= u < |w.txs| && u != t ensures TxInv(db', w.txs[u]) {
        OpenWorld(w, u);
        Exclusive(w, t, u);
        assert KeyRow(TxKey(tx)) in Holds(tx) && MatchRow(TxTarget(tx)) in Holds(tx);
        InstallDisturbsNobody(w.sys.db, tx.request, tx.newId, view, w.txs[u]);
      }
      FinishKeeps(w, t, tx, tx.clock, db', Ok(view.record.response));
    } else {
      match Exec(view, rest[0]) {
        case Err(e) => FailKeeps(w, t, tx, e);
        case Ok(view') =>
          var tx' := tx.(phase := Writing(view', rest[1..]));
          MoveKeepsLocks(w.locks, w.txs, t, tx');
          QuietKeeps(w, t, tx', w.locks);
      }
    }
  }

  lemma BeginStepKeeps(w: World, t: nat)
    requires WorldInv(w) && CanAdvance(w, t) && w.txs[t].phase.Begun?
    ensures WorldInv(Advanced(w, t))
  {
    hide WorldInv, Attempt;
    OpenWorld(w, t);
    var tx := w.txs[t];
    var tx' := tx.(clock := w.now);
    if !WellFormed(tx.request.command) {
      FailKeeps(w, t, tx', InvalidInput);
    } else if Expired(w.sys.db, TxKey(tx), w.now) {
      TakeKeepsLocks(w.locks, w.txs, t, tx'.(phase := Swept(true)), KeyRow(TxKey(tx)));
      QuietKeeps(w, t, tx'.(phase := Swept(true)), w.locks[KeyRow(TxKey(tx)) := t]);
    } else {
      MoveKeepsLocks(w.locks, w.txs, t, tx'.(phase := Swept(false)));
      QuietKeeps(w, t, tx'.(phase := Swept(false)), w.locks);
    }
  }

  lemma SweptStepKeeps(w: World, t: nat)
    requires WorldInv(w) && CanAdvance(w, t) && w.txs[t].phase.Swept?
    ensures WorldInv(Advanced(w, t))
  {
    hide WorldInv;
    OpenWorld(w, t);
    var tx := w.txs[t];
    if !tx.phase.dropped && TxKey(tx) in w.sys.db.records {
      var tx' := tx.(stamp := w.now, phase := Keyed(false));
      MoveKeepsLocks(w.locks, w.txs, t, tx');
      QuietKeeps(w, t, tx', w.locks);
    } else {
      var tx' := tx.(stamp := w.now, phase := Keyed(true));
      TakeKeepsLocks(w.locks, w.txs, t, tx', KeyRow(TxKey(tx)));
      QuietKeeps(w, t, tx', w.locks[KeyRow(TxKey(tx)) := t]);
    }
  }

  lemma LiveStepKeeps(w: World, t: nat)
    requires WorldInv(w) && CanAdvance(w, t) && w.txs[t].phase.MatchLocked? && NeedsLiveRow(w.txs[t].request.command)
    ensures WorldInv(Advanced(w, t))
  {
    hide WorldInv;
    OpenWorld(w, t);
    var tx := w.txs[t];
    var tx' := tx.(phase := LiveLocked(tx.phase.reserved));
    TakeKeepsLocks(w.locks, w.txs, t, tx', LiveRow(TxTarget(tx)));
    QuietKeeps(w, t, tx', w.locks[LiveRow(TxTarget(tx)) := t]);
  }

  lemma AdvanceKeeps(w: World, t: nat)
    requires WorldInv(w) && CanAdvance(w, t)
    ensures WorldInv(Advanced(w, t))
  {
    OpenWorld(w, t);
    var tx := w.txs[t];
    hide WorldInv, LockInv;
    match tx.phase {
      case Begun => BeginStepKeeps(w, t);
      case Swept(_) => SweptStepKeeps(w, t);
      case Keyed(reserved) =>
        if reserved || tx.request.command.Append? { LockStepKeeps(w, t, tx, reserved); } else { ReplayKeeps(w, t, tx); }
      case MatchLocked(reserved) =>
        if NeedsLiveRow(tx.request.command) { LiveStepKeeps(w, t); } else { DecideStepKeeps(w, t, tx); }
      case LiveLocked(reserved) =>
        if reserved { DecideStepKeeps(w, t, tx); } else { ReplayKeeps(w, t, tx); }
      case Writing(view, rest) => WriteStepKeeps(w, t, tx, view, rest);
    }
  }

  lemma FeedKeeps(w: World, a: Atom)
    requires WorldInv(w) && !a.Run? && Possible(w.sys, a)
    ensures WorldInv(w.(sys := Next(w.sys, a), log := w.log + [a]))
  {
    hide TxInv, LockInv;
    RunExtends(START, w.log, a);
    AuthorsStay(w, w.(sys := Next(w.sys, a), log := w.log + [a]));
  }

  lemma NewcomerLocks(locks: map<Resource, nat>, txs: seq<Tx>, tx: Tx)
    requires LockInv(locks, txs) && tx.phase.Begun?
    ensures LockInv(locks, txs + [tx])
  {
    assert Holds(tx) == {};
    hide Holds;
  }

  lemma BeginKeeps(w: World, tx: Tx)
    requires WorldInv(w) && tx.phase.Begun?
    ensures WorldInv(w.(txs := w.txs + [tx]))
  {
    assert TxInv(w.sys.db, tx);
    NewcomerLocks(w.locks, w.txs, tx);
    hide TxInv, LockInv;
    AuthorsStay(w, w.(txs := w.txs + [tx]));
  }

  lemma AbortKeeps(w: World, t: nat)
    requires WorldInv(w) && t < |w.txs| && InFlight(w.txs[t])
    ensures WorldInv(Step(w, Abort(t)))
  {
    hide TxInv;
    var tx := w.txs[t].(phase := Aborted);
    FinishedIsFree(w.sys.db, tx);
    ReleaseKeepsLocks(w.locks, w.txs, t, tx);
    QuietKeeps(w, t, tx, Release(w.locks, t));
  }

  lemma StepKeepsWorld(w: World, a: Move)
    requires WorldInv(w)
    ensures WorldInv(Step(w, a))
  {
    hide WorldInv, Advanced, CanAdvance, Possible, Next;
    match a {
      case Begin(r, newId) => BeginKeeps(w, Tx(r, newId, w.now, w.now, Begun));
      case Tick(elapsed) => TickKeeps(w, elapsed);
      case Advance(t) => if CanAdvance(w, t) { AdvanceKeeps(w, t); }
      case Abort(t) => if t < |w.txs| && InFlight(w.txs[t]) { AbortKeeps(w, t); }
      case Feed(atom) => if !atom.Run? && Possible(w.sys, atom) { FeedKeeps(w, atom); }
    }
  }

  lemma TickKeeps(w: World, elapsed: nat)
    requires WorldInv(w)
    ensures WorldInv(w.(now := w.now + elapsed))
  {
    hide TxInv, LockInv;
    AuthorsStay(w, w.(now := w.now + elapsed));
  }

  lemma {:induction false} ReachedInv(moves: seq<Move>)
    ensures WorldInv(Reached(moves))
  {
    if moves != [] {
      ReachedInv(moves[..|moves| - 1]);
      StepKeepsWorld(Reached(moves[..|moves| - 1]), moves[|moves| - 1]);
    }
  }
}
