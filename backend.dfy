/** The Django back end: the score-record model, the serializer's write
    validation, the score view set (list, create, update, lock) and the
    results, completion and progress views. Database tables are in-memory
    sequences; score records are a map keyed by (jury id, team id), which is
    what the `unique_together` constraint makes them. */
module Backend {
  import opened Util
  import opened Assoc
  import opened Sorting

  // ---------------------------------------------------------------------
  // models.py

  datatype Role = Admin | Jury

  /** A user created without a role is a jury member. */
  const DefaultRole: Role := Jury

  datatype User = User(id: nat, username: string, role: Role)

  /** `max_score` is an integer; the model validator demands at least 1. */
  datatype Criterion = Criterion(id: string, name: string, maxScore: int)

  predicate ValidCriterion(c: Criterion) {
    c.maxScore >= 1
  }

  datatype Team = Team(id: nat, name: string)

  /** One jury's scores for one team. `submittedAt` is a clock reading. */
  datatype TeamScore = TeamScore(
    jury: nat,
    team: nat,
    scores: seq<(string, real)>,
    locked: bool,
    submittedAt: Option<int>)

  /** `TeamScore.get_total`: the plain sum of the stored values. */
  function GetTotal(ts: TeamScore): real {
    SumValues(ts.scores)
  }

  /** Criteria with these ids: the ones the score tests create. */
  const InnovationId: string := "1"
  const TechniqueId: string := "2"

  /** The weighted test expects 10 x 1.0 + 12 x 2.5 = 40 from `get_total`;
      the model method adds the raw values and gives 22. */
  lemma GetTotalIgnoresWeights()
    ensures GetTotal(TeamScore(1, 1, [(InnovationId, 10.0), (TechniqueId, 12.0)], false, None)) == 22.0
  {
    var m := [(InnovationId, 10.0), (TechniqueId, 12.0)];
    SumValuesCons(m[0], m[1..]);
    SumValuesCons(m[1], []);
    assert m == [m[0]] + m[1..];
    assert m[1..] == [m[1]] + [];
  }

  // ---------------------------------------------------------------------
  // serializers.py: TeamScoreSerializer.validate

  datatype ValidationError =
    | LockedScores                                // "Cannot modify locked scores"
    | ScoreOutOfRange(name: string, maxScore: int) // "Score for <name> must be between 0 and <max>"
    | UnknownCriterion(id: string)               // "Criterion <id> does not exist"

  /** The fields a client may write; an absent key is `None`. Only
      `created_at` and `updated_at` are read-only, so `submittedAt` is
      writable too: `Some(None)` is an explicit null. */
  datatype WriteData = WriteData(
    jury: Option<nat>,
    team: Option<nat>,
    scores: Option<seq<(string, real)>>,
    locked: Option<bool>,
    submittedAt: Option<Option<int>>)

  /** Criterion ids are primary keys. */
  predicate UniqueIds(criteria: seq<Criterion>) {
    forall i, j :: 0 <= i < j < |criteria| ==> criteria[i].id != criteria[j].id
  }

  /** `Criterion.objects.get(id=...)`. */
  function FindCriterion(criteria: seq<Criterion>, id: string): (r: Option<Criterion>)
    ensures r.None? <==> forall c :: c in criteria ==> c.id != id
    ensures r.Some? ==> r.value in criteria && r.value.id == id
  {
    if criteria == [] then None
    else if criteria[0].id == id then Some(criteria[0])
    else FindCriterion(criteria[1..], id)
  }

  /** A submitted score is acceptable when its criterion exists and the
      score lies between 0 and that criterion's maximum, both included. */
  predicate Acceptable(e: (string, real), criteria: seq<Criterion>) {
    exists c :: c in criteria && c.id == e.0 && 0.0 <= e.1 <= c.maxScore as real
  }

  /** The error one entry raises, if any. */
  function EntryError(e: (string, real), criteria: seq<Criterion>): (r: Option<ValidationError>)
    requires UniqueIds(criteria)
    ensures r.None? <==> Acceptable(e, criteria)
    ensures r.Some? ==> r.value != LockedScores
  {
    match FindCriterion(criteria, e.0)
    case None => Some(UnknownCriterion(e.0))
    case Some(c) =>
      if e.1 < 0.0 || e.1 > c.maxScore as real then
        assert forall c' :: c' in criteria && c'.id == e.0 ==> c' == c by {
          forall c' | c' in criteria && c'.id == e.0 ensures c' == c {
            var i :| 0 <= i < |criteria| && criteria[i] == c';
            var j :| 0 <= j < |criteria| && criteria[j] == c;
            assert criteria[i].id == criteria[j].id;
          }
        }
        Some(ScoreOutOfRange(c.name, c.maxScore))
      else None
  }

  /** The loop over the submitted scores: the first bad entry raises. */
  function FirstScoreError(entries: seq<(string, real)>, criteria: seq<Criterion>): (r: Option<ValidationError>)
    requires UniqueIds(criteria)
    ensures r.None? <==> forall i :: 0 <= i < |entries| ==> Acceptable(entries[i], criteria)
    ensures r.Some? ==> exists i :: 0 <= i < |entries|
                           && (forall j :: 0 <= j < i ==> Acceptable(entries[j], criteria))
                           && r == EntryError(entries[i], criteria)
  {
    if entries == [] then None
    else match EntryError(entries[0], criteria)
      case Some(e) => Some(e)
      case None =>
        var rest := FirstScoreError(entries[1..], criteria);
        FirstScoreErrorStep(entries, criteria, rest);
        rest
  }

  /** An acceptable first entry passes the tail's verdict on to the whole list. */
  lemma FirstScoreErrorStep(entries: seq<(string, real)>, criteria: seq<Criterion>, rest: Option<ValidationError>)
    requires UniqueIds(criteria)
    requires entries != [] && Acceptable(entries[0], criteria)
    requires rest.None? <==> forall i :: 0 <= i < |entries[1..]| ==> Acceptable(entries[1..][i], criteria)
    requires rest.Some? ==> exists i :: 0 <= i < |entries[1..]|
                               && (forall j :: 0 <= j < i ==> Acceptable(entries[1..][j], criteria))
                               && rest == EntryError(entries[1..][i], criteria)
    ensures rest.None? <==> forall i :: 0 <= i < |entries| ==> Acceptable(entries[i], criteria)
    ensures rest.Some? ==> exists i :: 0 <= i < |entries|
                              && (forall j :: 0 <= j < i ==> Acceptable(entries[j], criteria))
                              && rest == EntryError(entries[i], criteria)
  {
    assert forall i :: 1 <= i < |entries| ==> entries[i] == entries[1..][i - 1];
    if rest.Some? {
      var i :| 0 <= i < |entries[1..]|
               && (forall j :: 0 <= j < i ==> Acceptable(entries[1..][j], criteria))
               && rest == EntryError(entries[1..][i], criteria);
      assert forall j :: 0 <= j < i + 1 ==> Acceptable(entries[j], criteria) by {
        forall j | 0 <= j < i + 1 ensures Acceptable(entries[j], criteria) {
          if j > 0 { assert entries[j] == entries[1..][j - 1]; }
        }
      }
      assert entries[i + 1] == entries[1..][i];
    }
  }

  /** `validate(data)`: a write to a locked record is refused first; then
      every submitted score is checked; on success `data` comes back as it is. */
  function Validate(instance: Option<TeamScore>, data: WriteData, criteria: seq<Criterion>): (r: Result<WriteData, ValidationError>)
    requires UniqueIds(criteria)
    ensures r.Ok? ==> r.value == data
    ensures (instance.Some? && instance.value.locked) ==> r == Err(LockedScores)
    ensures r.Ok? <==> !(instance.Some? && instance.value.locked)
                       && (data.scores.Some? ==> forall i :: 0 <= i < |data.scores.value| ==> Acceptable(data.scores.value[i], criteria))
  {
    if instance.Some? && instance.value.locked then Err(LockedScores)
    else if data.scores.Some? then
      match FirstScoreError(data.scores.value, criteria)
      case Some(e) => Err(e)
      case None => Ok(data)
    else Ok(data)
  }

  /** Scores that pass validation add up to at most the sum of their criteria's maxima. */
  function MaxOfEntries(entries: seq<(string, real)>, criteria: seq<Criterion>): real {
    if entries == [] then 0.0
    else
      (match FindCriterion(criteria, entries[0].0) case Some(c) => c.maxScore as real case None => 0.0)
      + MaxOfEntries(entries[1..], criteria)
  }

  lemma {:induction false} ValidatedTotalBounds(entries: seq<(string, real)>, criteria: seq<Criterion>)
    requires UniqueIds(criteria)
    requires forall i :: 0 <= i < |entries| ==> Acceptable(entries[i], criteria)
    ensures 0.0 <= SumValues(entries) <= MaxOfEntries(entries, criteria)
  {
    if entries == [] {
      assert SumValues(entries) == 0.0;
    } else {
      SumValuesCons(entries[0], entries[1..]);
      assert entries == [entries[0]] + entries[1..];
      assert EntryError(entries[0], criteria).None?;
      forall i | 0 <= i < |entries[1..]| ensures Acceptable(entries[1..][i], criteria) {
        assert entries[1..][i] == entries[i + 1];
      }
      ValidatedTotalBounds(entries[1..], criteria);
    }
  }

  // ---------------------------------------------------------------------
  // views.py: TeamScoreViewSet

  datatype CreateError = MissingField | NotUnique | Invalid(reason: ValidationError)

  datatype UpdateError = NotFound | Forbidden | UpdateMissingField | UpdateNotUnique | UpdateInvalid(reason: ValidationError)

  datatype LockError = LockNotFound | AlreadyLocked

  /** Every score a write sends passes `validate`'s checks (vacuous when none are sent). */
  predicate ScoresAcceptable(data: WriteData, criteria: seq<Criterion>) {
    data.scores.Some? ==> forall i :: 0 <= i < |data.scores.value| ==> Acceptable(data.scores.value[i], criteria)
  }

  /** The jury a create files the record under: a jury caller's own id, an admin's `jury` field. */
  function CreateOwner(caller: User, data: WriteData): Option<nat> {
    if caller.role == Jury then Some(caller.id) else data.jury
  }

  /** A jury caller's `jury` field is overwritten with its own id; then the
      required fields, the (jury, team) uniqueness and `validate` are checked
      in that order. A new record starts unlocked, without a submission time,
      and with an empty score map, unless the request says otherwise. */
  function CreateStep(caller: User, data: WriteData, criteria: seq<Criterion>, records: map<(nat, nat), TeamScore>): (r: Result<TeamScore, CreateError>)
    requires UniqueIds(criteria)
    ensures r.Ok? && caller.role == Jury ==> r.value.jury == caller.id
    ensures r.Ok? ==> (r.value.jury, r.value.team) !in records
    ensures r.Ok? && caller.role == Admin ==> data.jury == Some(r.value.jury)
    ensures r.Ok? ==> data.team == Some(r.value.team)
    ensures r.Ok? ==> r.value.submittedAt == data.submittedAt.GetOr(None)
    ensures r.Ok? && data.locked.None? ==> !r.value.locked
    ensures r.Ok? && data.locked.Some? ==> r.value.locked == data.locked.value
    ensures r.Ok? && data.scores.Some? ==> r.value.scores == data.scores.value
    ensures r.Ok? && data.scores.None? ==> r.value.scores == []
    ensures r.Ok? ==> forall i :: 0 <= i < |r.value.scores| ==> Acceptable(r.value.scores[i], criteria)
    ensures r == Err(MissingField) <==> CreateOwner(caller, data).None? || data.team.None?
    ensures r == Err(NotUnique) <==>
              CreateOwner(caller, data).Some? && data.team.Some?
              && (CreateOwner(caller, data).value, data.team.value) in records
    ensures (r.Err? && r.error.Invalid?) <==>
              CreateOwner(caller, data).Some? && data.team.Some?
              && (CreateOwner(caller, data).value, data.team.value) !in records
              && !ScoresAcceptable(data, criteria)
    ensures r.Ok? <==>
              CreateOwner(caller, data).Some? && data.team.Some?
              && (CreateOwner(caller, data).value, data.team.value) !in records
              && ScoresAcceptable(data, criteria)
  {
    var d := if caller.role == Jury then data.(jury := Some(caller.id)) else data;
    if d.jury.None? || d.team.None? then Err(MissingField)
    else if (d.jury.value, d.team.value) in records then Err(NotUnique)
    else match Validate(None, d, criteria)
      case Err(e) => Err(Invalid(e))
      case Ok(v) => Ok(TeamScore(v.jury.value, v.team.value, v.scores.GetOr([]), v.locked.GetOr(false), v.submittedAt.GetOr(None)))
  }

  /** A jury caller only sees its own records; an admin sees all. */
  predicate CanSee(caller: User, rec: TeamScore) {
    caller.role == Admin || rec.jury == caller.id
  }

  /** `update`: an unseen record is 404, a locked one 403 "Cannot modify locked
      scores". Then the serializer runs: a full update (PUT) must name both
      `jury` and `team`; a record moved to another (jury, team) pair must
      find that pair free; then `validate`. The written fields replace the
      stored ones and the others stay, so the record may change owner. */
  function UpdateStep(caller: User, rec: Option<TeamScore>, data: WriteData, partial: bool,
                      criteria: seq<Criterion>, records: map<(nat, nat), TeamScore>): (r: Result<TeamScore, UpdateError>)
    requires UniqueIds(criteria)
    ensures rec.None? || !CanSee(caller, rec.value) ==> r == Err(NotFound)
    ensures rec.Some? && CanSee(caller, rec.value) && rec.value.locked ==> r == Err(Forbidden)
    ensures (rec.Some? && CanSee(caller, rec.value) && !rec.value.locked
             && !partial && (data.jury.None? || data.team.None?)) ==> r == Err(UpdateMissingField)
    ensures r.Ok? ==> rec.Some? && !rec.value.locked
                      && (!partial ==> data.jury.Some? && data.team.Some?)
                      && r.value.jury == data.jury.GetOr(rec.value.jury)
                      && r.value.team == data.team.GetOr(rec.value.team)
                      && r.value.scores == data.scores.GetOr(rec.value.scores)
                      && r.value.locked == data.locked.GetOr(rec.value.locked)
                      && r.value.submittedAt == data.submittedAt.GetOr(rec.value.submittedAt)
    ensures r.Ok? ==> (r.value.jury, r.value.team) == (rec.value.jury, rec.value.team)
                      || (r.value.jury, r.value.team) !in records
    ensures r.Ok? && data.scores.Some? ==> forall i :: 0 <= i < |r.value.scores| ==> Acceptable(r.value.scores[i], criteria)
    ensures r == Err(UpdateNotUnique) <==>
              rec.Some? && CanSee(caller, rec.value) && !rec.value.locked
              && (partial || (data.jury.Some? && data.team.Some?))
              && (data.jury.GetOr(rec.value.jury), data.team.GetOr(rec.value.team)) != (rec.value.jury, rec.value.team)
              && (data.jury.GetOr(rec.value.jury), data.team.GetOr(rec.value.team)) in records
    ensures (r.Err? && r.error.UpdateInvalid?) <==>
              rec.Some? && CanSee(caller, rec.value) && !rec.value.locked
              && (partial || (data.jury.Some? && data.team.Some?))
              && ((data.jury.GetOr(rec.value.jury), data.team.GetOr(rec.value.team)) == (rec.value.jury, rec.value.team)
                  || (data.jury.GetOr(rec.value.jury), data.team.GetOr(rec.value.team)) !in records)
              && !ScoresAcceptable(data, criteria)
    ensures r.Ok? <==>
              rec.Some? && CanSee(caller, rec.value) && !rec.value.locked
              && (partial || (data.jury.Some? && data.team.Some?))
              && ((data.jury.GetOr(rec.value.jury), data.team.GetOr(rec.value.team)) == (rec.value.jury, rec.value.team)
                  || (data.jury.GetOr(rec.value.jury), data.team.GetOr(rec.value.team)) !in records)
              && ScoresAcceptable(data, criteria)
  {
    if rec.None? || !CanSee(caller, rec.value) then Err(NotFound)
    else if rec.value.locked then Err(Forbidden)
    else if !partial && (data.jury.None? || data.team.None?) then Err(UpdateMissingField)
    else
      var pair := (data.jury.GetOr(rec.value.jury), data.team.GetOr(rec.value.team));
      if pair != (rec.value.jury, rec.value.team) && pair in records then Err(UpdateNotUnique)
      else match Validate(rec, data, criteria)
        case Err(e) => Err(UpdateInvalid(e))
        case Ok(v) => Ok(TeamScore(pair.0, pair.1, v.scores.GetOr(rec.value.scores),
                                   v.locked.GetOr(rec.value.locked), v.submittedAt.GetOr(rec.value.submittedAt)))
  }

  /** A jury may hand its own unlocked sheet to another jury: the record
      moves unless that jury already has a sheet for the team. */
  lemma UpdateCanChangeOwner(caller: User, rec: TeamScore, other: nat, criteria: seq<Criterion>,
                             records: map<(nat, nat), TeamScore>)
    requires UniqueIds(criteria) && CanSee(caller, rec) && !rec.locked && other != rec.jury
    ensures var r := UpdateStep(caller, Some(rec), WriteData(Some(other), Some(rec.team), None, None, None),
                                false, criteria, records);
            if (other, rec.team) in records then r == Err(UpdateNotUnique) else r == Ok(rec.(jury := other))
  {
  }

  /** `lock`: an unseen record is 404, a locked one 400 "Already locked";
      otherwise it becomes locked with submission time `now`. */
  function LockStep(caller: User, rec: Option<TeamScore>, now: int): (r: Result<TeamScore, LockError>)
    ensures rec.None? || !CanSee(caller, rec.value) ==> r == Err(LockNotFound)
    ensures rec.Some? && CanSee(caller, rec.value) && rec.value.locked ==> r == Err(AlreadyLocked)
    ensures rec.Some? && CanSee(caller, rec.value) && !rec.value.locked
            ==> r == Ok(rec.value.(locked := true, submittedAt := Some(now)))
    ensures r.Ok? ==> rec.Some? && !rec.value.locked
                      && r.value == rec.value.(locked := true, submittedAt := Some(now))
  {
    if rec.None? || !CanSee(caller, rec.value) then Err(LockNotFound)
    else if rec.value.locked then Err(AlreadyLocked)
    else Ok(rec.value.(locked := true, submittedAt := Some(now)))
  }

  /** Once a record has been locked, every later update and lock is refused. */
  lemma LockIsFinal(caller: User, rec: TeamScore, now: int, data: WriteData, partial: bool, criteria: seq<Criterion>,
                     records: map<(nat, nat), TeamScore>, later: int)
    requires UniqueIds(criteria)
    requires LockStep(caller, Some(rec), now).Ok?
    ensures var locked := LockStep(caller, Some(rec), now).value;
            UpdateStep(caller, Some(locked), data, partial, criteria, records) == Err(Forbidden)
            && LockStep(caller, Some(locked), later) == Err(AlreadyLocked)
  {
  }

  /** The score table. Each record sits under its own (jury, team) pair. */
  class ScoreStore {
    var records: map<(nat, nat), TeamScore>

    ghost predicate Valid()
      reads this
    {
      forall k :: k in records ==> records[k].jury == k.0 && records[k].team == k.1
    }

    constructor ()
      ensures Valid() && records == map[]
    {
      records := map[];
    }

    /** `get_queryset`: optional jury and team filters; a jury caller only
        gets its own records. */
    function Listing(caller: User, juryFilter: Option<nat>, teamFilter: Option<nat>): (r: set<TeamScore>)
      reads this
      requires Valid()
      ensures forall s :: s in r <==>
        (exists k :: k in records && records[k] == s)
        && (juryFilter.Some? ==> s.jury == juryFilter.value)
        && (teamFilter.Some? ==> s.team == teamFilter.value)
        && (caller.role == Jury ==> s.jury == caller.id)
    {
      set k | k in records
              && (juryFilter.Some? ==> k.0 == juryFilter.value)
              && (teamFilter.Some? ==> k.1 == teamFilter.value)
              && (caller.role == Jury ==> k.0 == caller.id)
        :: records[k]
    }

    method Create(caller: User, data: WriteData, criteria: seq<Criterion>) returns (r: Result<TeamScore, CreateError>)
      requires Valid() && UniqueIds(criteria)
      modifies this
      ensures Valid()
      ensures r == CreateStep(caller, data, criteria, old(records))
      ensures records == if r.Ok? then old(records)[(r.value.jury, r.value.team) := r.value] else old(records)
    {
      r := CreateStep(caller, data, criteria, records);
      if r.Ok? {
        records := records[(r.value.jury, r.value.team) := r.value];
      }
    }

    /** The record at `key` is replaced by its updated form, filed under
        its (possibly new) pair; the table keeps one record per pair. */
    method Update(caller: User, key: (nat, nat), data: WriteData, partial: bool, criteria: seq<Criterion>)
      returns (r: Result<TeamScore, UpdateError>)
      requires Valid() && UniqueIds(criteria)
      modifies this
      ensures Valid()
      ensures r == UpdateStep(caller, if key in old(records) then Some(old(records)[key]) else None,
                              data, partial, criteria, old(records))
      ensures records == if r.Ok? then (old(records) - {key})[(r.value.jury, r.value.team) := r.value] else old(records)
      ensures r.Ok? ==> |records| == |old(records)|
      ensures key in old(records) && old(records)[key].locked ==> records == old(records)
    {
      r := UpdateStep(caller, if key in records then Some(records[key]) else None, data, partial, criteria, records);
      if r.Ok? {
        records := (records - {key})[(r.value.jury, r.value.team) := r.value];
      }
    }

    method Lock(caller: User, key: (nat, nat), now: int) returns (r: Result<TeamScore, LockError>)
      requires Valid()
      modifies this
      ensures Valid()
      ensures r == LockStep(caller, if key in old(records) then Some(old(records)[key]) else None, now)
      ensures records == if r.Ok? then old(records)[key := r.value] else old(records)
      ensures key in old(records) && old(records)[key].locked ==> records == old(records)
    {
      r := LockStep(caller, if key in records then Some(records[key]) else None, now);
      if r.Ok? {
        records := records[key := r.value];
      }
    }
  }

  // ---------------------------------------------------------------------
  // views.py: results_view

  datatype JuryScore = JuryScore(juryId: nat, juryName: string, scores: seq<(string, real)>, total: real)

  datatype TeamResult = TeamResult(teamId: nat, teamName: string, totalScore: real, juryScores: seq<JuryScore>)

  /** `User.objects.filter(role='jury')`, in table order. */
  function Juries(users: seq<User>): (r: seq<User>)
    ensures forall u :: u in r <==> u in users && u.role == Jury
  {
    if users == [] then []
    else (if users[0].role == Jury then [users[0]] else []) + Juries(users[1..])
  }

  /** One jury's line in a team's result: its record's scores and plain sum,
      draft or locked alike, or `{}` and 0 when it has no record. */
  function JuryLine(jury: User, team: Team, records: map<(nat, nat), TeamScore>): JuryScore {
    if (jury.id, team.id) in records then
      var rec := records[(jury.id, team.id)];
      JuryScore(jury.id, jury.username, rec.scores, GetTotal(rec))
    else JuryScore(jury.id, jury.username, [], 0.0)
  }

  function Totals(lines: seq<JuryScore>): (r: seq<real>)
    ensures |r| == |lines| && forall i :: 0 <= i < |lines| ==> r[i] == lines[i].total
  {
    if lines == [] then [] else Totals(lines[..|lines| - 1]) + [lines[|lines| - 1].total]
  }

  /** The inner loop's list: one line per jury, in jury order. */
  function JuryLines(juries: seq<User>, team: Team, records: map<(nat, nat), TeamScore>): (r: seq<JuryScore>)
    ensures |r| == |juries|
  {
    if juries == [] then []
    else JuryLines(juries[..|juries| - 1], team, records) + [JuryLine(juries[|juries| - 1], team, records)]
  }

  /** Line i of a team's result belongs to jury i. */
  lemma {:induction false} JuryLinesAt(juries: seq<User>, team: Team, records: map<(nat, nat), TeamScore>, i: nat)
    requires i < |juries|
    ensures JuryLines(juries, team, records)[i] == JuryLine(juries[i], team, records)
  {
    var n := |juries| - 1;
    if i < n {
      JuryLinesAt(juries[..n], team, records, i);
    }
  }

  function TeamLine(team: Team, juries: seq<User>, records: map<(nat, nat), TeamScore>): TeamResult {
    var lines := JuryLines(juries, team, records);
    TeamResult(team.id, team.name, Sum(Totals(lines)), lines)
  }

  /** The outer loop's list: one result per team, in table order. */
  function TeamLines(teams: seq<Team>, juries: seq<User>, records: map<(nat, nat), TeamScore>): (r: seq<TeamResult>)
    ensures |r| == |teams|
    ensures forall i :: 0 <= i < |teams| ==> r[i] == TeamLine(teams[i], juries, records)
  {
    if teams == [] then []
    else TeamLines(teams[..|teams| - 1], juries, records) + [TeamLine(teams[|teams| - 1], juries, records)]
  }

  function ResultKey(r: TeamResult): seq<real> {
    [-r.totalScore]
  }

  /** `results.sort(key=total_score, reverse=True)`: stable, highest first. */
  function RankedResults(teams: seq<Team>, users: seq<User>, records: map<(nat, nat), TeamScore>): seq<TeamResult> {
    SortByKey(TeamLines(teams, Juries(users), records), ResultKey)
  }

  lemma TotalsSnoc(lines: seq<JuryScore>, line: JuryScore)
    ensures Sum(Totals(lines + [line])) == Sum(Totals(lines)) + line.total
  {
    assert (lines + [line])[..|lines|] == lines;
    assert (Totals(lines) + [line.total])[..|lines|] == Totals(lines);
  }

  lemma JuryLinesSnoc(juries: seq<User>, j: nat, team: Team, records: map<(nat, nat), TeamScore>)
    requires j < |juries|
    ensures JuryLines(juries[..j + 1], team, records) == JuryLines(juries[..j], team, records) + [JuryLine(juries[j], team, records)]
  {
    assert juries[..j + 1][..j] == juries[..j];
  }

  /** One turn of the inner loop of `results_view`: the next jury's line
      extends the lines and adds its total to the team's. */
  lemma LineStep(juries: seq<User>, j: nat, team: Team, records: map<(nat, nat), TeamScore>, lines: seq<JuryScore>, line: JuryScore)
    requires j < |juries| && lines == JuryLines(juries[..j], team, records)
    requires line == JuryLine(juries[j], team, records)
    ensures lines + [line] == JuryLines(juries[..j + 1], team, records)
    ensures Sum(Totals(lines + [line])) == Sum(Totals(lines)) + line.total
  {
    JuryLinesSnoc(juries, j, team, records);
    TotalsSnoc(lines, line);
  }

  lemma TeamLinesSnoc(teams: seq<Team>, t: nat, juries: seq<User>, records: map<(nat, nat), TeamScore>)
    requires t < |teams|
    ensures TeamLines(teams[..t + 1], juries, records) == TeamLines(teams[..t], juries, records) + [TeamLine(teams[t], juries, records)]
  {
    assert teams[..t + 1][..t] == teams[..t];
  }

  /** A jury with a record gets that record's scores and raw sum. */
  lemma JuryLineOfRecord(jury: User, team: Team, records: map<(nat, nat), TeamScore>)
    requires (jury.id, team.id) in records
    ensures JuryLine(jury, team, records)
            == JuryScore(jury.id, jury.username, records[(jury.id, team.id)].scores,
                         SumValues(records[(jury.id, team.id)].scores))
  {
  }

  /** The inner loop of `results_view` for one team: one line per jury,
      adding each existing record's sum into the team's total. */
  method TeamResultOf(team: Team, juries: seq<User>, records: map<(nat, nat), TeamScore>) returns (r: TeamResult)
    ensures r == TeamLine(team, juries, records)
  {
    var total := 0.0;
    var lines: seq<JuryScore> := [];
    var j := 0;
    while j < |juries|
      invariant 0 <= j <= |juries|
      invariant lines == JuryLines(juries[..j], team, records)
      invariant total == Sum(Totals(lines))
    {
      var jury := juries[j];
      var line;
      if (jury.id, team.id) in records {
        var scoresDict := records[(jury.id, team.id)].scores;
        var juryTotal := SumValues(scoresDict);
        line := JuryScore(jury.id, jury.username, scoresDict, juryTotal);
        JuryLineOfRecord(jury, team, records);
        total := total + juryTotal;
      } else {
        line := JuryScore(jury.id, jury.username, [], 0.0);
        assert line == JuryLine(jury, team, records);
      }
      LineStep(juries, j, team, records, lines, line);
      lines := lines + [line];
      j := j + 1;
    }
    assert juries[..j] == juries;
    r := TeamResult(team.id, team.name, total, lines);
  }

  method ResultsView(teams: seq<Team>, users: seq<User>, records: map<(nat, nat), TeamScore>) returns (results: seq<TeamResult>)
    ensures results == RankedResults(teams, users, records)
  {
    var juries := Juries(users);
    var unsorted: seq<TeamResult> := [];
    var t := 0;
    while t < |teams|
      invariant 0 <= t <= |teams|
      invariant unsorted == TeamLines(teams[..t], juries, records)
    {
      var teamResult := TeamResultOf(teams[t], juries, records);
      TeamLinesSnoc(teams, t, juries, records);
      unsorted := unsorted + [teamResult];
      t := t + 1;
    }
    assert teams[..t] == teams;
    results := SortByKey(unsorted, ResultKey);
  }

  /** One result per team, each with one line per jury-role user. */
  lemma RankedResultsOnePerTeam(teams: seq<Team>, users: seq<User>, records: map<(nat, nat), TeamScore>)
    ensures multiset(RankedResults(teams, users, records)) == multiset(TeamLines(teams, Juries(users), records))
    ensures forall r :: r in RankedResults(teams, users, records) ==> |r.juryScores| == |Juries(users)|
  {
    var u := TeamLines(teams, Juries(users), records);
    SortByKeySortedPermutation(u, ResultKey);
    forall r | r in RankedResults(teams, users, records) ensures |r.juryScores| == |Juries(users)| {
      assert r in multiset(u);
      var i :| 0 <= i < |u| && u[i] == r;
      assert r == TeamLine(teams[i], Juries(users), records);
    }
  }

  /** Ranked by total, highest first. */
  lemma RankedResultsDescending(teams: seq<Team>, users: seq<User>, records: map<(nat, nat), TeamScore>)
    ensures var r := RankedResults(teams, users, records);
            forall i, j :: 0 <= i < j < |r| ==> r[i].totalScore >= r[j].totalScore
  {
    var r := RankedResults(teams, users, records);
    SortByKeySortedPermutation(TeamLines(teams, Juries(users), records), ResultKey);
    forall i, j | 0 <= i < j < |r| ensures r[i].totalScore >= r[j].totalScore {
      assert !LexLt(ResultKey(r[j]), ResultKey(r[i]));
    }
  }

  /** Teams with the same total keep the order of the team table. */
  lemma RankedResultsStable(teams: seq<Team>, users: seq<User>, records: map<(nat, nat), TeamScore>, total: real)
    ensures WithKey(RankedResults(teams, users, records), ResultKey, [-total])
         == WithKey(TeamLines(teams, Juries(users), records), ResultKey, [-total])
  {
    SortByKeyStable(TeamLines(teams, Juries(users), records), ResultKey, [-total]);
  }

  /** A team's total is the sum of its jury lines; a missing record adds 0,
      and a draft adds its scores the same as a locked record. */
  lemma JuryLineTotal(jury: User, team: Team, records: map<(nat, nat), TeamScore>)
    ensures var l := JuryLine(jury, team, records);
            && l.juryId == jury.id
            && ((jury.id, team.id) !in records ==> l.scores == [] && l.total == 0.0)
            && ((jury.id, team.id) in records ==> l.total == SumValues(records[(jury.id, team.id)].scores))
  {
  }

  // ---------------------------------------------------------------------
  // views.py: check_completion_view and jury_progress_view

  datatype Completion = Completion(allComplete: bool, teamsCount: nat, juriesCount: nat, scoresCount: nat, requiredScores: nat)

  /** The locked records, of any event, jury or team. */
  function LockedKeys(records: map<(nat, nat), TeamScore>): set<(nat, nat)> {
    set k | k in records && records[k].locked
  }

  function CheckCompletion(teams: seq<Team>, users: seq<User>, records: map<(nat, nat), TeamScore>): (r: Completion)
    ensures r.teamsCount == |teams| && r.juriesCount == |Juries(users)|
    ensures r.teamsCount == 0 || r.juriesCount == 0 ==> !r.allComplete && r.scoresCount == 0 && r.requiredScores == 0
    ensures r.teamsCount > 0 && r.juriesCount > 0 ==>
              r.requiredScores == r.teamsCount * r.juriesCount
              && r.scoresCount == |LockedKeys(records)|
              && (r.allComplete <==> r.scoresCount == r.requiredScores)
  {
    var t, j := |teams|, |Juries(users)|;
    if t == 0 || j == 0 then Completion(false, t, j, 0, 0)
    else Completion(|LockedKeys(records)| == t * j, t, j, |LockedKeys(records)|, t * j)
  }

  function Ids(teams: seq<Team>): set<nat> {
    set t | t in teams :: t.id
  }

  function UserIds(users: seq<User>): set<nat> {
    set u | u in users :: u.id
  }

  predicate DistinctTeams(teams: seq<Team>) {
    forall i, j :: 0 <= i < j < |teams| ==> teams[i].id != teams[j].id
  }

  predicate DistinctUsers(users: seq<User>) {
    forall i, j :: 0 <= i < j < |users| ==> users[i].id != users[j].id
  }

  /** Every record belongs to an existing team and a current jury-role user. */
  predicate NoStrayRecords(teams: seq<Team>, users: seq<User>, records: map<(nat, nat), TeamScore>) {
    forall k :: k in records ==> k.0 in UserIds(Juries(users)) && k.1 in Ids(teams)
  }

  lemma {:induction false} DistinctTeamIdsCard(teams: seq<Team>)
    requires DistinctTeams(teams)
    ensures |Ids(teams)| == |teams|
  {
    if teams != [] {
      var rest := teams[1..];
      assert DistinctTeams(rest) by {
        forall i, j | 0 <= i < j < |rest| ensures rest[i].id != rest[j].id {
          assert rest[i] == teams[i + 1] && rest[j] == teams[j + 1];
        }
      }
      DistinctTeamIdsCard(rest);
      assert Ids(teams) == Ids(rest) + {teams[0].id} by {
        assert teams == [teams[0]] + rest;
      }
    }
  }

  lemma {:induction false} DistinctUserIdsCard(users: seq<User>)
    requires DistinctUsers(users)
    ensures |UserIds(users)| == |users|
  {
    if users != [] {
      var rest := users[1..];
      assert DistinctUsers(rest) by {
        forall i, j | 0 <= i < j < |rest| ensures rest[i].id != rest[j].id {
          assert rest[i] == users[i + 1] && rest[j] == users[j + 1];
        }
      }
      DistinctUserIdsCard(rest);
      assert UserIds(users) == UserIds(rest) + {users[0].id} by {
        assert users == [users[0]] + rest;
      }
    }
  }

  /** A user whose id no member of `rest` shares, put in front of a list
      of distinct users, keeps the list distinct. */
  lemma ConsDistinct(u: User, rest: seq<User>, jr: seq<User>)
    requires forall k :: 0 <= k < |rest| ==> rest[k].id != u.id
    requires forall x :: x in jr ==> x in rest
    requires DistinctUsers(jr)
    ensures DistinctUsers([u] + jr)
  {
    var s := [u] + jr;
    forall i, j | 0 <= i < j < |s| ensures s[i].id != s[j].id {
      if i == 0 {
        assert s[j] == jr[j - 1];
        assert s[j] in rest;
      } else {
        assert s[i] == jr[i - 1] && s[j] == jr[j - 1];
      }
    }
  }

  lemma {:induction false} JuriesDistinct(users: seq<User>)
    requires DistinctUsers(users)
    ensures DistinctUsers(Juries(users))
  {
    if users != [] {
      var rest := users[1..];
      assert DistinctUsers(rest) by {
        forall i, j | 0 <= i < j < |rest| ensures rest[i].id != rest[j].id {
          assert rest[i] == users[i + 1] && rest[j] == users[j + 1];
        }
      }
      JuriesDistinct(rest);
      if users[0].role == Jury {
        assert forall k :: 0 <= k < |rest| ==> rest[k] == users[k + 1];
        ConsDistinct(users[0], rest, Juries(rest));
      } else {
        assert Juries(users) == Juries(rest);
      }
    }
  }

  /** The pairs (j, t) for t in a set of team ids. */
  function Row(j: nat, ts: set<nat>): set<(nat, nat)> {
    set t | t in ts :: (j, t)
  }

  lemma {:induction false} RowCard(j: nat, ts: set<nat>)
    ensures |Row(j, ts)| == |ts|
    decreases |ts|
  {
    if ts != {} {
      var t0 :| t0 in ts;
      RowCard(j, ts - {t0});
      assert Row(j, ts) == Row(j, ts - {t0}) + {(j, t0)};
      assert (j, t0) !in Row(j, ts - {t0});
    }
  }

  /** All (j, t) with j in js and t in ts. */
  function Product(js: set<nat>, ts: set<nat>): set<(nat, nat)> {
    set j, t | j in js && t in ts :: (j, t)
  }

  /** Taking one jury out of the product takes out its row of |teams| pairs. */
  lemma ProductSplit(js: set<nat>, ts: set<nat>, j0: nat)
    requires j0 in js
    ensures |Product(js, ts)| == |Product(js - {j0}, ts)| + |ts|
  {
    var js' := js - {j0};
    RowCard(j0, ts);
    assert Product(js, ts) == Product(js', ts) + Row(j0, ts);
    assert Product(js', ts) * Row(j0, ts) == {};
  }

  /** |juries x teams| = |juries| * |teams|. */
  lemma {:induction false} ProductCard(js: set<nat>, ts: set<nat>)
    ensures |Product(js, ts)| == |js| * |ts|
    decreases |js|
  {
    if js != {} {
      var j0 :| j0 in js;
      var js' := js - {j0};
      ProductCard(js', ts);
      ProductSplit(js, ts, j0);
      assert |js'| == |js| - 1;
      assert |js'| * |ts| + |ts| == |js| * |ts| by {
        assert (|js'| + 1) * |ts| == |js'| * |ts| + |ts|;
      }
    }
  }

  /** When every record's key pairs a member of `js` with a member of `ts`,
      the locked keys number |js| * |ts| exactly when every such pair is a
      locked record. */
  lemma AllLockedCount(js: set<nat>, ts: set<nat>, nJ: nat, nT: nat, records: map<(nat, nat), TeamScore>)
    requires |js| == nJ && |ts| == nT
    requires forall k :: k in records ==> k.0 in js && k.1 in ts
    ensures |LockedKeys(records)| == nT * nJ <==>
              forall j, t :: j in js && t in ts ==> (j, t) in records && records[(j, t)].locked
  {
    var p, l := Product(js, ts), LockedKeys(records);
    ProductCard(js, ts);
    assert nT * nJ == |p|;
    assert l <= p;
    SubsetCard(l, p);
    if |l| == |p| {
      assert l == p;
      forall j, t | j in js && t in ts ensures (j, t) in records && records[(j, t)].locked {
        assert (j, t) in p;
      }
    }
    if forall j, t :: j in js && t in ts ==> (j, t) in records && records[(j, t)].locked {
      assert p <= l;
      assert l == p;
    }
  }

  /** When no record belongs to a vanished team or a non-jury user,
      `all_complete` holds exactly when every jury has locked a record for
      every team (and there is at least one of each). */
  lemma CheckCompletionSound(teams: seq<Team>, users: seq<User>, records: map<(nat, nat), TeamScore>)
    requires DistinctTeams(teams) && DistinctUsers(users)
    requires NoStrayRecords(teams, users, records)
    ensures CheckCompletion(teams, users, records).allComplete <==>
              |teams| > 0 && |Juries(users)| > 0
              && forall j, t :: j in UserIds(Juries(users)) && t in Ids(teams) ==>
                   (j, t) in records && records[(j, t)].locked
  {
    var js, ts := UserIds(Juries(users)), Ids(teams);
    JuriesDistinct(users);
    DistinctUserIdsCard(Juries(users));
    DistinctTeamIdsCard(teams);
    AllLockedCount(js, ts, |Juries(users)|, |teams|, records);
  }

  datatype Progress = Progress(juryId: nat, juryName: string, teamsCount: nat, scoredCount: nat, percentage: int)

  /** `jury_progress_view`: 404 unless the id names a jury-role user; else that
      jury's locked records against the team count, as a Python-rounded percentage. */
  function JuryProgress(users: seq<User>, juryId: nat, teams: seq<Team>, records: map<(nat, nat), TeamScore>): (r: Option<Progress>)
    ensures r.None? <==> forall u :: u in users ==> !(u.id == juryId && u.role == Jury)
    ensures r.Some? ==> (r.value.juryId == juryId && r.value.teamsCount == |teams|
                         && r.value.scoredCount == |LockedOf(juryId, records)|)
    ensures r.Some? && |teams| == 0 ==> r.value.percentage == 0
    ensures r.Some? ==> exists u :: u in users && u.id == juryId && u.role == Jury && r.value.juryName == u.username
    ensures r.Some? && |teams| > 0 ==>
              (-|teams| <= 2 * (r.value.scoredCount * 100 - r.value.percentage * |teams|) <= |teams|)
    ensures r.Some? && |teams| > 0
            && (2 * (r.value.scoredCount * 100 - r.value.percentage * |teams|) == |teams|
                || 2 * (r.value.scoredCount * 100 - r.value.percentage * |teams|) == -|teams|)
            ==> r.value.percentage % 2 == 0
  {
    match FindJury(users, juryId)
    case None => None
    case Some(jury) =>
      var scored := |LockedOf(juryId, records)|;
      var t := |teams|;
      Some(Progress(jury.id, jury.username, t, scored, if t > 0 then RoundHalfEven(scored * 100, t) else 0))
  }

  /** `User.objects.get(id=jury_id, role='jury')`. */
  function FindJury(users: seq<User>, id: nat): (r: Option<User>)
    ensures r.None? <==> forall u :: u in users ==> !(u.id == id && u.role == Jury)
    ensures r.Some? ==> r.value in users && r.value.id == id && r.value.role == Jury
  {
    if users == [] then None
    else if users[0].id == id && users[0].role == Jury then Some(users[0])
    else FindJury(users[1..], id)
  }

  /** The locked records of one jury. */
  function LockedOf(juryId: nat, records: map<(nat, nat), TeamScore>): set<(nat, nat)> {
    set k | k in records && k.0 == juryId && records[k].locked
  }

  lemma ScoredAtMostTeams(users: seq<User>, juryId: nat, teams: seq<Team>, records: map<(nat, nat), TeamScore>)
    requires DistinctTeams(teams)
    requires NoStrayRecords(teams, users, records)
    ensures |LockedOf(juryId, records)| <= |teams|
  {
    assert LockedOf(juryId, records) <= Row(juryId, Ids(teams));
    SubsetCard(LockedOf(juryId, records), Row(juryId, Ids(teams)));
    RowCard(juryId, Ids(teams));
    DistinctTeamIdsCard(teams);
  }

  /** Without stray records a jury has scored at most every team, so the
      percentage stays within 0..100. */
  lemma JuryProgressBounds(users: seq<User>, juryId: nat, teams: seq<Team>, records: map<(nat, nat), TeamScore>)
    requires DistinctTeams(teams)
    requires NoStrayRecords(teams, users, records)
    requires JuryProgress(users, juryId, teams, records).Some?
    ensures var p := JuryProgress(users, juryId, teams, records).value;
            p.scoredCount <= p.teamsCount && 0 <= p.percentage <= 100
  {
    ScoredAtMostTeams(users, juryId, teams, records);
    assert |LockedOf(juryId, records)| == JuryProgress(users, juryId, teams, records).value.scoredCount;
    if |teams| > 0 {
      PercentageBounds(|LockedOf(juryId, records)|, |teams|);
    }
  }
}
