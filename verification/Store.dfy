/**
 * The tables behind the match write model and what each command does to them when it runs alone: a decision on
 * the locked rows, then a list of SQL statements against the transaction's own view. A statement that fails
 * rolls everything back.
 */
module Store {
  import opened Prelude
  import opened Text
  import opened Domain
  import opened Ledger

  type Time = int

  datatype Hash = Hash(digest: int)

  datatype Scope =
    | CreateScope(organization: Id) | RosterScope(matchId: Id) | LineupScope(matchId: Id) | ReadyScope(matchId: Id)
    | LiveScope(matchId: Id) | EventScope(matchId: Id, clientId: Id) | ReversalScope(matchId: Id, clientId: Id)

  /** The primary key of idempotency_records. */
  datatype Key = Key(scope: Scope, text: string)

  datatype EventView = EventView(
    id: Id, sequence: int, action: Action, side: Side, subjects: seq<Subject>, qualifiers: map<string, Json>)

  datatype Response =
    | Placeholder
    | MatchResponse(matchId: Id, organization: Option<Id>, status: Status, sequence: int)
    | RosterResponse(roster: Roster)
    | SnapshotResponse(snapshot: Snapshot)
    | EventResponse(event: EventView, snapshot: Snapshot)

  datatype Record = Record(hash: Hash, response: Response, expires: Time)

  /** A row of outbox_events; its position in the table stands for its generated id. */
  datatype Message =
    | Created(matchId: Id, organization: Id, status: Status, sequence: int)
    | StatusChanged(matchId: Id, snapshot: Snapshot)
    | Recorded(matchId: Id, event: EventView, snapshot: Snapshot)
    | Reversed(matchId: Id, event: EventView, snapshot: Snapshot)

  /** A row of match_event_subjects. */
  datatype SubjectRow = SubjectRow(event: Id, participant: Id, role: Role, ordinal: int)

  /** Everything the database holds about one match: its row, its live row, roster, ledger and reversal links. */
  datatype Match = Match(
    organization: Id, playersPerSide: int, status: Status,
    participants: seq<Participant>,
    sequence: int, home: int, away: int,
    events: seq<EventRow>, subjects: seq<SubjectRow>, reversals: Reversals)

  datatype Db = Db(matches: map<Id, Match>, records: map<Key, Record>, outbox: seq<Message>)

  const IDEMPOTENCY_TTL: Time := 24 * 60 * 60

  // ---------------------------------------------------------------- requests

  datatype Command =
    | Create(organization: Id, playersPerSide: int)
    | ReplaceRoster(matchId: Id, roster: Roster)
    | SetLineups(matchId: Id, home: seq<Id>, away: seq<Id>)
    | MarkReady(matchId: Id)
    | StartLive(matchId: Id)
    | Append(matchId: Id, event: AppendCommand)
    | Reverse(matchId: Id, eventId: Id, clientId: Id, expected: int, reason: string)

  datatype Request = Request(command: Command, text: string, hash: Hash)

  function ScopeOf(c: Command): Scope {
    match c
    case Create(o, _) => CreateScope(o)
    case ReplaceRoster(m, _) => RosterScope(m)
    case SetLineups(m, _, _) => LineupScope(m)
    case MarkReady(m) => ReadyScope(m)
    case StartLive(m) => LiveScope(m)
    case Append(m, e) => EventScope(m, e.clientId)
    case Reverse(m, _, c, _, _) => ReversalScope(m, c)
  }

  function KeyOf(r: Request): Key { Key(ScopeOf(r.command), r.text) }

  /** The match row a command locks; a creation inserts it under a generated id. */
  function TargetOf(c: Command, newId: Id): Id { if c.Create? then newId else c.matchId }

  /** The checks a repository method makes before it opens a transaction. */
  predicate WellFormed(c: Command) {
    match c
    case Create(_, n) => 2 <= n <= 11
    case Append(_, e) => ValidCommand(e)
    case Reverse(_, _, _, expected, reason) => expected >= 0 && ByteLength(TrimSpace(reason)) >= 3 && ByteLength(reason) <= 500
    case _ => true
  }

  // ---------------------------------------------------------------- queries

  function RoleRank(r: Role): int {
    match r
    case Assister => 0 case Opponent => 1 case PlayerOff => 2
    case PlayerOn => 3 case Primary => 4 case Scorer => 5 case UnsupportedRole(_) => 6
  }

  function RoleOrdinal(s: SubjectRow): SortKey { (RoleRank(s.role), s.ordinal) }

  function RowsOf(rows: seq<SubjectRow>, event: Id): seq<SubjectRow> {
    if rows == [] then []
    else RowsOf(rows[..|rows| - 1], event) + (if rows[|rows| - 1].event == event then [rows[|rows| - 1]] else [])
  }

  function AsSubjects(rows: seq<SubjectRow>): (r: seq<Subject>)
    ensures |r| == |rows|
  {
    seq(|rows|, i requires 0 <= i < |rows| => Subject(rows[i].role, rows[i].participant))
  }

  /** SELECT role, participant_id ... WHERE event_id = event ORDER BY role, ordinal. */
  function SubjectsOf(rows: seq<SubjectRow>, event: Id): seq<Subject> {
    AsSubjects(OrderBy(RowsOf(rows, event), RoleOrdinal))
  }

  /** The rows the insertion loops write: ordinals count from one. */
  function Numbered(event: Id, subjects: seq<Subject>): (r: seq<SubjectRow>)
    ensures |r| == |subjects|
  {
    seq(|subjects|, i requires 0 <= i < |subjects| =>
      SubjectRow(event, subjects[i].participant, subjects[i].role, i + 1))
  }

  function SubjectIds(subjects: seq<Subject>): set<Id> { set s | s in subjects :: s.participant }

  function RosterIds(ps: seq<Participant>): set<Id> { set p | p in ps :: p.id }

  function SideOf(ps: seq<Participant>, id: Id): Option<Side> {
    if ps == [] then None else if ps[0].id == id then Some(ps[0].side) else SideOf(ps[1..], id)
  }

  /** Opponents must come from the other side, everyone else from the event's own. */
  predicate WrongSide(ps: seq<Participant>, side: Side, s: Subject) {
    SideOf(ps, s.participant).None? ||
    (if s.role.Opponent? then SideOf(ps, s.participant).value == side else SideOf(ps, s.participant).value != side)
  }

  function FindEvent(events: seq<EventRow>, id: Id): Option<EventRow> {
    if events == [] then None
    else if events[0].id == id then Some(events[0]) else FindEvent(events[1..], id)
  }

  /** count(*) of the starters of one side; the primary key keeps the rows of the table distinct. */
  function StarterCount(ps: seq<Participant>, side: Side): nat {
    |set p | p in ps && p.side == side && p.status.Starter?|
  }

  function ListedCount(ps: seq<Participant>, side: Side, ids: seq<Id>): nat {
    |set p | p in ps && p.side == side && p.id in ids|
  }

  function SideRank(p: Participant): SortKey { (if p.side.Home? then 0 else 1, p.shirt) }

  function OfSide(ps: seq<Participant>, side: Side): seq<Participant> {
    if ps == [] then []
    else OfSide(ps[..|ps| - 1], side) + (if ps[|ps| - 1].side == side then [ps[|ps| - 1]] else [])
  }

  /** SELECT ... ORDER BY side, shirt_number, split into the two lists. */
  function LoadRoster(ps: seq<Participant>): Roster {
    var sorted := OrderBy(ps, SideRank);
    Roster(OfSide(sorted, Home), OfSide(sorted, Away))
  }

  function SnapshotOf(id: Id, m: Match): Snapshot { Snapshot(id, m.status, m.sequence, m.home, m.away) }

  // ---------------------------------------------------------------- statements

  /** What one open transaction sees and will install: its match, its own key record, its new outbox rows. */
  datatype View = View(current: Match, record: Record, outbox: seq<Message>)

  datatype Stmt =
    | InsertDraft(organization: Id, playersPerSide: int)
    | DeleteParticipants
    | InsertParticipant(participant: Participant)
    | SetLineupSide(side: Side, ids: seq<Id>)
    | SetStatus(status: Status)
    | InsertEvent(row: EventRow)
    | InsertSubject(subject: SubjectRow)
    | InsertReversal(reversal: Id, reversed: Id, reason: string)
    | UpdateLive(sequence: int, home: int, away: int)
    | Enqueue(message: Message)
    | SaveResponse(response: Response)
    | SaveRoster

  function DraftMatch(organization: Id, playersPerSide: int): Match {
    Match(organization, playersPerSide, Draft, [], 0, 0, 0, [], [], map[])
  }

  function StoredParticipant(p: Participant): Participant {
    p.(name := TrimSpace(p.name), position := TrimSpace(p.position), status := NotSelected)
  }

  /** What the columns and the shirt check of match_participants refuse in a single row. */
  predicate ParticipantRefused(p: Participant) {
    p.shirt < 1 || p.shirt > 99 || !StorableText(TrimSpace(p.name), 100) || !StorableText(TrimSpace(p.position), 16)
  }

  /** The unique indexes on match_participants. */
  predicate ParticipantClash(ps: seq<Participant>, p: Participant) {
    exists i :: 0 <= i < |ps| && (ps[i].id == p.id || (ps[i].side == p.side && ps[i].shirt == p.shirt))
  }

  function Assigned(p: Participant, side: Side, ids: seq<Id>): Participant {
    if p.side != side then p else p.(status := if p.id in ids then Starter else Bench)
  }

  function AssignSide(ps: seq<Participant>, side: Side, ids: seq<Id>): (r: seq<Participant>)
    ensures |r| == |ps|
  {
    seq(|ps|, i requires 0 <= i < |ps| => Assigned(ps[i], side, ids))
  }

  predicate HasClient(events: seq<EventRow>, clientId: Id) {
    exists i :: 0 <= i < |events| && events[i].clientId == clientId
  }

  predicate HasSequence(events: seq<EventRow>, sequence: int) {
    exists i :: 0 <= i < |events| && events[i].sequence == sequence
  }

  /** What jsonb refuses: NUL characters, and numbers beyond the range of numeric. */
  predicate StorableQualifiers(qs: map<string, Json>) {
    forall k :: k in qs ==>
      '\0' !in k && (qs[k].JsonNumber? ==> StorableNumber(qs[k].value)) && (qs[k].JsonText? ==> '\0' !in qs[k].text)
  }

  /** The action catalog, the jsonb column and the unique constraints of match_events; only Append translates a repeated client_event_id. */
  function InsertEventRow(m: Match, row: EventRow): Result<Match, Error> {
    if row.action.UnsupportedAction? || !StorableQualifiers(row.qualifiers) then Err(ConstraintViolation)
    else if HasId(m.events, row.id) || HasSequence(m.events, row.sequence) then Err(ConstraintViolation)
    else if HasClient(m.events, row.clientId) then
      Err(if row.action.EventReversal? then ConstraintViolation else EventAlreadyExists)
    else Ok(m.(events := m.events + [row]))
  }

  predicate SameSubjectKey(a: SubjectRow, b: SubjectRow) {
    a.event == b.event && a.role == b.role && a.ordinal == b.ordinal
  }

  /** The keys and the role check of match_event_subjects. */
  predicate SubjectRefused(m: Match, row: SubjectRow) {
    || !HasId(m.events, row.event) || row.participant !in RosterIds(m.participants) || row.role.UnsupportedRole?
    || exists i :: 0 <= i < |m.subjects| && SameSubjectKey(m.subjects[i], row)
  }

  /** The reason column of event_reversals and its check. */
  predicate ReasonRefused(reason: string) { |SpaceTrim(reason)| < 3 || !StorableText(reason, 500) }

  /** The keys of event_reversals. */
  predicate ReversalRefused(m: Match, reversal: Id, reversed: Id, reason: string) {
    || reversal in m.reversals || reversed in m.reversals.Values
    || !HasId(m.events, reversal) || !HasId(m.events, reversed) || ReasonRefused(reason)
  }

  ghost function Exec(v: View, s: Stmt): Result<View, Error> {
    var m := v.current;
    match s
    case InsertDraft(o, n) => Ok(v.(current := DraftMatch(o, n)))
    case DeleteParticipants =>
      if exists i :: 0 <= i < |m.subjects| && m.subjects[i].participant in RosterIds(m.participants)
      then Err(ConstraintViolation)
      else Ok(v.(current := m.(participants := [])))
    case InsertParticipant(p) =>
      if ParticipantRefused(p) || ParticipantClash(m.participants, p) then Err(ConstraintViolation)
      else Ok(v.(current := m.(participants := m.participants + [StoredParticipant(p)])))
    case SetLineupSide(side, ids) =>
      if ListedCount(m.participants, side, ids) != |ids| then Err(InvalidInput)
      else Ok(v.(current := m.(participants := AssignSide(m.participants, side, ids))))
    case SetStatus(status) => Ok(v.(current := m.(status := status)))
    case InsertEvent(row) =>
      (match InsertEventRow(m, row)
       case Err(e) => Err(e)
       case Ok(m') => Ok(v.(current := m')))
    case InsertSubject(row) =>
      if SubjectRefused(m, row) then Err(ConstraintViolation)
      else Ok(v.(current := m.(subjects := m.subjects + [row])))
    case InsertReversal(reversal, reversed, reason) =>
      if ReversalRefused(m, reversal, reversed, reason) then Err(ConstraintViolation)
      else Ok(v.(current := m.(reversals := m.reversals[reversal := reversed])))
    case UpdateLive(sequence, home, away) =>
      if sequence < 0 || home < 0 || away < 0 then Err(ConstraintViolation)
      else Ok(v.(current := m.(sequence := sequence, home := home, away := away)))
    case Enqueue(message) => Ok(v.(outbox := v.outbox + [message]))
    case SaveResponse(response) => Ok(v.(record := v.record.(response := response)))
    case SaveRoster => Ok(v.(record := v.record.(response := RosterResponse(LoadRoster(m.participants)))))
  }

  ghost function ExecAll(v: View, stmts: seq<Stmt>): Result<View, Error>
    decreases |stmts|
  {
    if stmts == [] then Ok(v) else
      match Exec(v, stmts[0])
      case Err(e) => Err(e)
      case Ok(v') => ExecAll(v', stmts[1..])
  }

  // ---------------------------------------------------------------- decisions on the locked rows

  function InsertParticipants(ps: seq<Participant>): (r: seq<Stmt>)
    ensures |r| == |ps|
  {
    seq(|ps|, i requires 0 <= i < |ps| => InsertParticipant(ps[i]))
  }

  function InsertSubjects(rows: seq<SubjectRow>): (r: seq<Stmt>)
    ensures |r| == |rows|
  {
    seq(|rows|, i requires 0 <= i < |rows| => InsertSubject(rows[i]))
  }

  /** hasDuplicates, as a property of the list. */
  ghost predicate Duplicates(ids: seq<Id>) {
    exists i, j :: 0 <= i < j < |ids| && ids[i] == ids[j]
  }

  /** SetInitialLineups rejects malformed lists after reserving its key but before it locks the match. */
  ghost predicate ShapeError(c: Command) {
    c.SetLineups? && (c.home == [] || c.away == [] || Duplicates(c.home) || Duplicates(c.away))
  }

  ghost function DecideAppend(id: Id, m: Match, c: AppendCommand, newId: Id): Result<seq<Stmt>, Error> {
    var ids := SubjectIds(c.subjects);
    if |RosterIds(m.participants) * ids| != |ids| then Err(InvalidInput)
    else if exists i :: 0 <= i < |c.subjects| && WrongSide(m.participants, c.side, c.subjects[i]) then Err(InvalidInput)
    else
      match ApplyEvent(SnapshotOf(id, m), c, newId)
      case Err(e) => Err(e)
      case Ok((event, next)) =>
        match EncodeQualifiers(c.qualifiers)
        case None => Err(EncodingFailed)
        case Some(q) => Ok(AppendPlan(id, c, event, next, q))
  }

  function AppendPlan(id: Id, c: AppendCommand, event: Event, next: Snapshot, q: map<string, Json>): seq<Stmt> {
    var view := EventView(event.id, event.sequence, c.action, c.side, c.subjects, q);
    [InsertEvent(EventRow(event.id, c.clientId, event.sequence, c.action, c.side, q))]
    + InsertSubjects(Numbered(event.id, c.subjects))
    + [UpdateLive(next.sequence, next.home, next.away),
       Enqueue(Recorded(id, view, next)),
       SaveResponse(EventResponse(view, next))]
  }

  /** The event Reverse rebuilds from the stored row: decoded qualifiers, subjects in query order. */
  function OriginalEvent(m: Match, row: EventRow): Event {
    Event(row.id, 0, AppendCommand(row.clientId, 0, row.action, row.side, SubjectsOf(m.subjects, row.id),
                                   DecodeQualifiers(row.qualifiers)))
  }

  ghost function DecideReverse(id: Id, m: Match, eventId: Id, clientId: Id, expected: int, reason: string, newId: Id)
    : Result<seq<Stmt>, Error>
  {
    if m.sequence != expected then Err(SequenceConflict)
    else
      match FindEvent(m.events, eventId)
      case None => Err(EventNotFound)
      case Some(row) =>
        if eventId in m.reversals.Values then Err(EventAlreadyReversed)
        else
          match ReverseEvent(SnapshotOf(id, m), OriginalEvent(m, row), clientId, TrimSpace(reason), newId)
          case Err(e) => Err(e)
          case Ok((event, next)) =>
            match EncodeQualifiers(event.command.qualifiers)
            case None => Err(EncodingFailed)
            case Some(q) => Ok(ReversePlan(id, eventId, clientId, TrimSpace(reason), event, next, q))
  }

  function ReversePlan(id: Id, eventId: Id, clientId: Id, reason: string, event: Event, next: Snapshot, q: map<string, Json>)
    : seq<Stmt>
  {
    var c := event.command;
    var view := EventView(event.id, event.sequence, EventReversal, c.side, c.subjects, q);
    [InsertEvent(EventRow(event.id, clientId, event.sequence, EventReversal, c.side, q))]
    + InsertSubjects(Numbered(event.id, c.subjects))
    + [InsertReversal(event.id, eventId, reason),
       UpdateLive(next.sequence, next.home, next.away),
       Enqueue(Reversed(id, view, next)),
       SaveResponse(EventResponse(view, next))]
  }

  ghost predicate LineupsComplete(m: Match) {
    StarterCount(m.participants, Home) == m.playersPerSide && StarterCount(m.participants, Away) == m.playersPerSide
  }

  ghost function Decide(id: Id, m: Match, c: Command, newId: Id): Result<seq<Stmt>, Error> {
    match c
    case Create(o, n) =>
      Ok([InsertDraft(o, n), Enqueue(Created(id, o, Draft, 0)), SaveResponse(MatchResponse(id, Some(o), Draft, 0))])
    case ReplaceRoster(_, roster) =>
      if m.status != Draft then Err(MatchNotDraft)
      else if !ValidRoster(roster, m.playersPerSide) then Err(InvalidInput)
      else Ok([DeleteParticipants] + InsertParticipants(roster.home + roster.away) + [SaveRoster])
    case SetLineups(_, home, away) =>
      if m.status != Draft then Err(MatchNotDraft)
      else if |home| != m.playersPerSide || |away| != m.playersPerSide then Err(InvalidInput)
      else Ok([SetLineupSide(Home, home), SetLineupSide(Away, away), SaveRoster])
    case MarkReady(_) =>
      if m.status != Draft then Err(MatchNotDraft)
      else if !LineupsComplete(m) then Err(InvalidInput)
      else Ok([SetStatus(Ready), SaveResponse(MatchResponse(id, None, Ready, 0))])
    case StartLive(_) =>
      // The LIVE snapshot is only a check: the stored, returned and published one still says READY.
      (match StartLiveSession(SnapshotOf(id, m))
       case Err(e) => Err(e)
       case Ok(_) =>
         if !LineupsComplete(m) then Err(InvalidInput)
         else Ok([SetStatus(Live), Enqueue(StatusChanged(id, SnapshotOf(id, m))),
                  SaveResponse(SnapshotResponse(SnapshotOf(id, m)))]))
    case Append(_, e) => DecideAppend(id, m, e, newId)
    case Reverse(_, eventId, clientId, expected, reason) =>
      DecideReverse(id, m, eventId, clientId, expected, reason, newId)
  }

  // ---------------------------------------------------------------- one command, alone

  function Lookup(db: Db, id: Id): Option<Match> {
    if id in db.matches then Some(db.matches[id]) else None
  }

  function Reservation(r: Request, stamp: Time): Record { Record(r.hash, Placeholder, stamp + IDEMPOTENCY_TTL) }

  const NO_MATCH: Match := DraftMatch(Id(0), 2)

  /** Everything between reserving the key and committing, on the committed state of the target match. */
  ghost function Attempt(found: Option<Match>, r: Request, stamp: Time, newId: Id): Result<View, Error> {
    var c := r.command;
    if ShapeError(c) then Err(InvalidInput)
    else if c.Create? && found.Some? then Err(ConstraintViolation)
    else if !c.Create? && found.None? then Err(MatchNotFound)
    else
      var m := if found.Some? then found.value else NO_MATCH;
      match Decide(TargetOf(c, newId), m, c, newId)
      case Err(e) => Err(e)
      case Ok(stmts) => ExecAll(View(m, Reservation(r, stamp), []), stmts)
  }

  /** Commit: the view replaces the match and the key record, and its messages join the outbox. */
  function Install(db: Db, r: Request, newId: Id, v: View): Db {
    Db(db.matches[TargetOf(r.command, newId) := v.current], db.records[KeyOf(r) := v.record], db.outbox + v.outbox)
  }

  /** A record the first DELETE of a transaction at time clock leaves in place. */
  predicate Unexpired(db: Db, key: Key, clock: Time) { key in db.records && db.records[key].expires > clock }

  function ReadRecord(db: Db, r: Request): Result<Response, Error>
    requires KeyOf(r) in db.records
  {
    if r.command.Append? && r.command.matchId !in db.matches then Err(MatchNotFound)
    else if db.records[KeyOf(r)].hash != r.hash then Err(IdempotencyConflict)
    else Ok(db.records[KeyOf(r)].response)
  }

  /**
   * The whole transaction, run alone. clock is read by the DELETE of an expired record, stamp by the INSERT that
   * reserves the key, and newId is the identifier the database generates.
   */
  ghost function Execute(db: Db, r: Request, clock: Time, stamp: Time, newId: Id): (Db, Result<Response, Error>) {
    if !WellFormed(r.command) then (db, Err(InvalidInput))
    else if Unexpired(db, KeyOf(r), clock) then (db, ReadRecord(db, r))
    else
      match Attempt(Lookup(db, TargetOf(r.command, newId)), r, stamp, newId)
      case Err(e) => (db, Err(e))
      case Ok(v) => (Install(db, r, newId, v), Ok(v.record.response))
  }
}
