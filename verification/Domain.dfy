/** The pure transition rules of the live match write model, and the validators that guard them. */
module Domain {
  import opened Prelude
  import opened Text

  /** Identifiers are opaque: only equality between them matters. */
  datatype Id = Id(value: int)

  datatype Side = Home | Away

  datatype Status = Draft | Scheduled | Ready | Live | Paused | Completed | Finalized | Abandoned

  datatype ParticipationStatus = Starter | Bench | NotSelected | LeftMatch

  datatype Participant = Participant(
    id: Id, side: Side, shirt: int, name: string, position: string, status: ParticipationStatus)

  datatype Roster = Roster(home: seq<Participant>, away: seq<Participant>)

  /** The order of the six roles is their alphabetical order, which is how SQL sorts them. */
  datatype Role = Assister | Opponent | PlayerOff | PlayerOn | Primary | Scorer | UnsupportedRole(text: string)

  datatype Subject = Subject(role: Role, participant: Id)

  /** The actions recorded for one PRIMARY player that never touch the score. */
  datatype Statistic =
    | ShotOnTarget | ShotOffTarget | ShotOffPost | Assist | ChanceCreated | AerialWon | AerialLost | FoulWon
    | FoulCommitted | DribbleWon | TackleWon | LostBall | KeyPass | Recovery | Interception | Block | DuelWon
    | DuelLost | DribbledPast | Clearance | HeaderCleared | GoalkeeperSave | GoalkeeperDivingSave
    | GoalkeeperClaim | GoalkeeperPunch | GoalkeeperSweep | GoalConceded | DistributionLong | DistributionShort

  datatype Action =
    | Goal | ScoreAdjustment | Substitution | Stat(statistic: Statistic) | EventReversal | UnsupportedAction(code: string)

  /** A qualifier as a command carries it, in any of the Go types a caller can put in the map; a float64 is its decimal. */
  datatype Qualifier =
    | IntValue(n: int) | FloatValue(v: Numeric) | NumberText(literal: string) | TextValue(text: string)
    | IdValue(id: Id) | OtherValue

  /** A qualifier as the jsonb column stores it. */
  datatype Json = JsonNumber(value: Numeric) | JsonText(text: string) | JsonId(id: Id) | JsonOther

  datatype AppendCommand = AppendCommand(
    clientId: Id, expected: int, action: Action, side: Side, subjects: seq<Subject>, qualifiers: map<string, Qualifier>)

  datatype Event = Event(id: Id, sequence: int, command: AppendCommand)

  datatype Snapshot = Snapshot(matchId: Id, status: Status, sequence: int, home: int, away: int) {
    function Score(side: Side): int { if side.Home? then home else away }

    function Add(side: Side, delta: int): Snapshot {
      if side.Home? then this.(home := home + delta) else this.(away := away + delta)
    }
  }

  datatype Error =
    | InvalidInput | MatchNotFound | MatchNotDraft | MatchNotReady | MatchNotLive | SequenceConflict
    | ScoreUnderflow | ReversalUnderflow | EventNotReversible | EventNotFound | EventAlreadyReversed
    | EventAlreadyExists | IdempotencyConflict | ConstraintViolation | EncodingFailed

  // ---------------------------------------------------------------- score deltas

  /** The three numeric representations a score_delta can arrive in. */
  function IntegerOf(q: Qualifier): Option<int> {
    match q
    case IntValue(n) => Some(n)
    case FloatValue(v) => Whole(v)
    case NumberText(t) => ParseInt64(t)
    case _ => None
  }

  /** AppendEventCommand.ScoreDelta; None stands for its error. */
  function ScoreDelta(action: Action, qualifiers: map<string, Qualifier>): (r: Option<int>)
    ensures r.Some? ==> -1 <= r.value <= 1
    ensures action.ScoreAdjustment? && r.Some? ==> r.value != 0
  {
    match action
    case Goal => Some(1)
    case ScoreAdjustment =>
      if "score_delta" !in qualifiers then None else
        (match IntegerOf(qualifiers["score_delta"])
         case None => None
         case Some(d) => if d < -1 || d > 1 || d == 0 then None else Some(d))
    case _ => Some(0)
  }

  /** Event.ScoreDelta drops the error and keeps Go's zero value. */
  function DeltaOrZero(action: Action, qualifiers: map<string, Qualifier>): int {
    match ScoreDelta(action, qualifiers) case Some(d) => d case None => 0
  }

  /** json.Marshal of one qualifier; a json.Number must be a valid literal, and an empty one is written as 0. */
  function EncodeQualifier(q: Qualifier): Option<Json> {
    match q
    case IntValue(n) => Some(JsonNumber(Numeric(n, 0)))
    case FloatValue(v) => Some(JsonNumber(Shortest(v)))
    case NumberText(t) =>
      if t == [] then Some(JsonNumber(Numeric(0, 0))) else
        (match SplitJsonNumber(t) case None => None case Some(p) => Some(JsonNumber(NumericOf(p))))
    case TextValue(s) => Some(JsonText(s))
    case IdValue(i) => Some(JsonId(i))
    case OtherValue => Some(JsonOther)
  }

  function EncodeQualifiers(qs: map<string, Qualifier>): Option<map<string, Json>> {
    if forall k :: k in qs ==> EncodeQualifier(qs[k]).Some?
    then Some(map k | k in qs :: EncodeQualifier(qs[k]).value)
    else None
  }

  /** json.Unmarshal into map[string]any: every number becomes a float64. */
  function DecodeQualifier(j: Json): Qualifier {
    match j
    case JsonNumber(v) => FloatValue(v)
    case JsonText(s) => TextValue(s)
    case JsonId(i) => IdValue(i)
    case JsonOther => OtherValue
  }

  function DecodeQualifiers(js: map<string, Json>): map<string, Qualifier> {
    map k | k in js :: DecodeQualifier(js[k])
  }

  /** The CASE expression of the rebuild query; None when the ::integer cast raises an error. */
  function SqlDelta(action: Action, stored: map<string, Json>): Option<int> {
    match action
    case Goal => Some(1)
    case ScoreAdjustment =>
      if "score_delta" !in stored then Some(0) else
        (match stored["score_delta"]
         case JsonNumber(v) => CastInteger(NumericText(v))
         case JsonText(t) => CastInteger(t)
         case _ => None)
    case _ => Some(0)
  }

  /** The stored value is the submitted one: the same text, id or opaque value, or a number worth the same. */
  predicate StoredAs(q: Qualifier, j: Json) {
    match q
    case TextValue(s) => j == JsonText(s)
    case IdValue(i) => j == JsonId(i)
    case OtherValue => j == JsonOther
    case IntValue(n) => j.JsonNumber? && SameNumber(j.value, Numeric(n, 0))
    case FloatValue(v) => j.JsonNumber? && SameNumber(j.value, v)
    case NumberText(t) =>
      j.JsonNumber? && if t == [] then j.value.coefficient == 0
                       else SplitJsonNumber(t).Some? && WorthOf(j.value, SplitJsonNumber(t).value)
  }

  /** Every submitted qualifier is stored under its own key with its own value, and nothing else is. */
  ghost predicate KeepsQualifiers(submitted: map<string, Qualifier>, stored: map<string, Json>) {
    submitted.Keys == stored.Keys && forall k :: k in submitted ==> StoredAs(submitted[k], stored[k])
  }

  lemma EncodingKeeps(submitted: map<string, Qualifier>)
    requires EncodeQualifiers(submitted).Some?
    ensures KeepsQualifiers(submitted, EncodeQualifiers(submitted).value)
  {
    var stored := EncodeQualifiers(submitted).value;
    forall k | k in submitted ensures StoredAs(submitted[k], stored[k]) {
      assert EncodeQualifier(submitted[k]).Some?;
      match submitted[k] {
        case FloatValue(v) => ShortestIsSame(v);
        case NumberText(t) => if t != [] { LiteralKeepsWorth(SplitJsonNumber(t).value); }
        case _ =>
      }
    }
  }

  /** Reading a row back loses nothing: what Reverse decodes would be stored as what it was decoded from. */
  lemma DecodingKeeps(stored: map<string, Json>)
    ensures KeepsQualifiers(DecodeQualifiers(stored), stored)
  {
  }

  /** An accepted delta is stored as the number whose text is "1" or "-1", however it was submitted. */
  lemma AcceptedDeltaText(submitted: map<string, Qualifier>)
    requires ScoreDelta(ScoreAdjustment, submitted).Some? && EncodeQualifiers(submitted).Some?
    ensures var d := ScoreDelta(ScoreAdjustment, submitted).value;
            && EncodeQualifiers(submitted).value["score_delta"] == JsonNumber(Numeric(d, 0))
            && NumericText(Numeric(d, 0)) == if d == 1 then "1" else "-1"
  {
    var q := submitted["score_delta"];
    assert EncodeQualifier(q).Some?;
    if q.NumberText? { NumberReadersAgree(q.literal); }
  }

  /** One number, three readers: the submitted command, the decoded stored row and the SQL sum never disagree. */
  lemma DeltaAgreement(action: Action, submitted: map<string, Qualifier>)
    requires ScoreDelta(action, submitted).Some? && EncodeQualifiers(submitted).Some?
    ensures var stored := EncodeQualifiers(submitted).value;
            && ScoreDelta(action, DecodeQualifiers(stored)) == ScoreDelta(action, submitted)
            && SqlDelta(action, stored) == ScoreDelta(action, submitted)
  {
    if action.ScoreAdjustment? {
      AcceptedDeltaText(submitted);
      CastReadsIntegers(Numeric(ScoreDelta(action, submitted).value, 0));
    }
  }

  // ---------------------------------------------------------------- command validation

  function RequiredRoles(action: Action): Option<set<Role>> {
    match action
    case Goal => Some({Scorer})
    case ScoreAdjustment => Some({Primary})
    case Substitution => Some({PlayerOn, PlayerOff})
    case Stat(_) => Some({Primary})
    case EventReversal => None
    case UnsupportedAction(_) => None
  }

  const GOAL_FINISH_TYPES: set<string> := {"STRONG_FOOT", "WEAK_FOOT", "HEADER", "VOLLEY", "OTHER"}

  predicate QualifiersValid(action: Action, qs: map<string, Qualifier>) {
    && (action.Goal? && "finish_type" in qs ==>
          qs["finish_type"].TextValue? && qs["finish_type"].text in GOAL_FINISH_TYPES)
    && (action.ScoreAdjustment? ==>
          && "reason" in qs && qs["reason"].TextValue? && TrimSpace(qs["reason"].text) != []
          && ScoreDelta(action, qs).Some?)
  }

  /** What AppendEventCommand.Validate accepts. */
  predicate ValidCommand(c: AppendCommand) {
    && c.expected >= 0
    && c.subjects != []
    && (forall i :: 0 <= i < |c.subjects| ==> !c.subjects[i].role.UnsupportedRole?)
    && RequiredRoles(c.action).Some?
    && (forall r :: r in RequiredRoles(c.action).value ==> exists i :: 0 <= i < |c.subjects| && c.subjects[i].role == r)
    && QualifiersValid(c.action, c.qualifiers)
  }

  method ValidateCommand(c: AppendCommand) returns (ok: bool)
    ensures ok == ValidCommand(c)
  {
    if c.expected < 0 || c.subjects == [] { return false; }
    var roles: set<Role> := {};
    for i := 0 to |c.subjects|
      invariant forall j :: 0 <= j < i ==> !c.subjects[j].role.UnsupportedRole?
      invariant forall r :: r in roles <==> exists j :: 0 <= j < i && c.subjects[j].role == r
    {
      if c.subjects[i].role.UnsupportedRole? { return false; }
      roles := roles + {c.subjects[i].role};
    }
    match RequiredRoles(c.action) {
      case None => return false;
      case Some(required) =>
        if !(required <= roles) {
          var missing :| missing in required && missing !in roles;
          return false;
        }
    }
    return QualifiersValid(c.action, c.qualifiers);
  }

  predicate HasRole(c: AppendCommand, role: Role) {
    exists i :: 0 <= i < |c.subjects| && c.subjects[i].role == role
  }

  /** What each action asks for, spelled out: nobody can submit a reversal, and no score moves without a reason. */
  lemma ValidCommandExactly(c: AppendCommand)
    ensures var q := c.qualifiers;
            ValidCommand(c) <==>
              && c.expected >= 0 && c.subjects != []
              && (forall i :: 0 <= i < |c.subjects| ==> !c.subjects[i].role.UnsupportedRole?)
              && (match c.action
                  case Goal =>
                    HasRole(c, Scorer) && ("finish_type" in q ==>
                      exists t :: t in ["STRONG_FOOT", "WEAK_FOOT", "HEADER", "VOLLEY", "OTHER"]
                                  && q["finish_type"] == TextValue(t))
                  case Substitution => HasRole(c, PlayerOn) && HasRole(c, PlayerOff)
                  case Stat(_) => HasRole(c, Primary)
                  case ScoreAdjustment =>
                    && HasRole(c, Primary)
                    && "reason" in q && q["reason"].TextValue? && TrimSpace(q["reason"].text) != []
                    && "score_delta" in q && (IntegerOf(q["score_delta"]) == Some(1) || IntegerOf(q["score_delta"]) == Some(-1))
                  case EventReversal => false
                  case UnsupportedAction(_) => false)
  {
    hide TrimSpace, IntegerOf;
  }

  // ---------------------------------------------------------------- roster validation

  predicate ValidParticipant(side: Side, p: Participant) {
    TrimSpace(p.name) != [] && p.side == side && 1 <= p.shirt <= 99
  }

  ghost predicate ValidSide(side: Side, ps: seq<Participant>) {
    && (forall i :: 0 <= i < |ps| ==> ValidParticipant(side, ps[i]))
    && (forall i, j :: 0 <= i < j < |ps| ==> ps[i].shirt != ps[j].shirt)
  }

  ghost predicate DistinctIds(ps: seq<Participant>) {
    forall i, j :: 0 <= i < j < |ps| ==> ps[i].id != ps[j].id
  }

  /** What Roster.Validate accepts: two complete sides, unique shirts on each, and no id used twice anywhere. */
  ghost predicate ValidRoster(r: Roster, playersPerSide: int) {
    && 2 <= playersPerSide <= 11
    && |r.home| >= playersPerSide && |r.away| >= playersPerSide
    && ValidSide(Home, r.home) && ValidSide(Away, r.away)
    && DistinctIds(r.home + r.away)
  }

  ghost predicate SeenExactly(seen: set<Id>, ps: seq<Participant>) {
    forall id :: id in seen <==> exists j :: 0 <= j < |ps| && ps[j].id == id
  }

  /** The inner loop of Roster.Validate, with the id map carried over from the earlier side. */
  method ValidateSide(side: Side, earlier: seq<Participant>, ps: seq<Participant>, seen0: set<Id>)
    returns (ok: bool, seen: set<Id>)
    requires SeenExactly(seen0, earlier) && DistinctIds(earlier)
    ensures ok <==> ValidSide(side, ps) && DistinctIds(earlier + ps)
    ensures ok ==> SeenExactly(seen, earlier + ps)
  {
    seen := seen0;
    var shirts: set<int> := {};
    assert earlier + ps[..0] == earlier;
    for i := 0 to |ps|
      invariant ValidSide(side, ps[..i]) && DistinctIds(earlier + ps[..i]) && SeenExactly(seen, earlier + ps[..i])
      invariant forall s :: s in shirts <==> exists j :: 0 <= j < i && ps[j].shirt == s
    {
      var p := ps[i];
      ghost var before, after := earlier + ps[..i], earlier + ps[..i + 1];
      assert after == before + [p];
      assert after <= earlier + ps;
      if TrimSpace(p.name) == [] || p.side != side { return false, seen; }
      if p.id in seen {
        ghost var j :| 0 <= j < |before| && before[j].id == p.id;
        assert (earlier + ps)[j].id == (earlier + ps)[|earlier| + i].id;
        return false, seen;
      }
      if p.shirt < 1 || p.shirt > 99 { return false, seen; }
      if p.shirt in shirts { return false, seen; }
      SeenOneMore(seen, before, p);
      seen := seen + {p.id};
      shirts := shirts + {p.shirt};
    }
    assert ps[..|ps|] == ps;
    ok := true;
  }

  lemma SeenOneMore(seen: set<Id>, ps: seq<Participant>, p: Participant)
    requires SeenExactly(seen, ps)
    ensures SeenExactly(seen + {p.id}, ps + [p])
  {
    forall id ensures id in seen + {p.id} <==> exists j :: 0 <= j < |ps + [p]| && (ps + [p])[j].id == id {
      if id == p.id { assert (ps + [p])[|ps|].id == id; }
      if id in seen {
        var j :| 0 <= j < |ps| && ps[j].id == id;
        assert (ps + [p])[j].id == id;
      }
    }
  }

  lemma DistinctPrefix(ps: seq<Participant>, qs: seq<Participant>)
    ensures DistinctIds(ps + qs) ==> DistinctIds(ps)
  {
    if DistinctIds(ps + qs) {
      forall i, j | 0 <= i < j < |ps| ensures ps[i].id != ps[j].id {
        assert (ps + qs)[i] == ps[i] && (ps + qs)[j] == ps[j];
      }
    }
  }

  method ValidateRoster(r: Roster, playersPerSide: int) returns (ok: bool)
    ensures ok <==> ValidRoster(r, playersPerSide)
  {
    if playersPerSide < 2 || playersPerSide > 11 { return false; }
    if |r.home| < playersPerSide { return false; }
    var seen: set<Id>;
    ok, seen := ValidateSide(Home, [], r.home, {});
    DistinctPrefix(r.home, r.away);
    assert [] + r.home == r.home;
    if !ok || |r.away| < playersPerSide { return false; }
    ok, seen := ValidateSide(Away, r.home, r.away, seen);
  }

  // ---------------------------------------------------------------- transitions

  /** StartLiveSession: the only way into live scoring. */
  function StartLiveSession(s: Snapshot): Result<Snapshot, Error> {
    if s.status != Ready then Err(MatchNotReady) else Ok(s.(status := Live))
  }

  function ApplyEvent(s: Snapshot, c: AppendCommand, id: Id): Result<(Event, Snapshot), Error> {
    if !ValidCommand(c) then Err(InvalidInput)
    else if s.status != Live then Err(MatchNotLive)
    else if s.sequence != c.expected then Err(SequenceConflict)
    else
      var delta := DeltaOrZero(c.action, c.qualifiers);
      if delta < 0 && s.Score(c.side) < -delta then Err(ScoreUnderflow)
      else
        var next := s.(sequence := s.sequence + 1).Add(c.side, delta);
        Ok((Event(id, next.sequence, c), next))
  }

  function ReverseEvent(s: Snapshot, original: Event, clientId: Id, reason: string, id: Id): Result<(Event, Snapshot), Error> {
    if s.status != Live then Err(MatchNotLive)
    else if TrimSpace(reason) == [] then Err(InvalidInput)
    else
      var c := original.command;
      var inverse := -DeltaOrZero(c.action, c.qualifiers);
      if inverse == 0 then Err(EventNotReversible)
      else if inverse < 0 && s.Score(c.side) < -inverse then Err(ReversalUnderflow)
      else
        var next := s.(sequence := s.sequence + 1).Add(c.side, inverse);
        var command := AppendCommand(clientId, next.sequence - 1, EventReversal, c.side, c.subjects,
                                     map["reason" := TextValue(reason), "reverses_event_id" := IdValue(original.id)]);
        Ok((Event(id, next.sequence, command), next))
  }
}
