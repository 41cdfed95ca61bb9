/** The records both React clients keep in memory. The newer client names
    the owning event `event`, the older one `eventId`; the model uses one
    field for both. A team carries two pairs of passage fields because the
    newer client reads the API's snake_case `passage_order`/`passage_time`
    while the shuffler writes camelCase `passageOrder`/`passageTime`. */
module ClientTypes {
  import opened Util

  /** The id of the event both clients fall back on. */
  const DefaultEventId: string := "event-juryhack-2025"

  datatype ClientRole = AdminRole | JuryRole | TeamRole

  datatype User = User(
    id: string,
    username: string,
    password: Option<string>,
    role: ClientRole,
    event: Option<string>,
    assignedCriteria: Option<seq<string>>)

  datatype Status = Upcoming | Ongoing | Completed

  datatype Event = Event(
    id: string,
    name: string,
    date: string,
    status: Status,
    description: Option<string>,
    createdAt: string)

  /** `weight` is read by the scoring pages although the declared type lacks it. */
  datatype Criterion = Criterion(
    id: string,
    event: string,
    name: string,
    maxScore: real,
    priority: int,
    weight: Option<real>)

  /** How a team entered the older client: typed in or imported. */
  datatype Origin = Manual | Excel

  datatype Team = Team(
    id: string,
    event: string,
    name: string,
    description: Option<string>,
    email: Option<string>,
    generatedEmail: Option<string>,
    hasLoggedIn: Option<bool>,
    importedFrom: Option<Origin>,
    passageOrder: Option<int>,
    passageTime: Option<string>,
    apiPassageOrder: Option<int>,
    apiPassageTime: Option<string>)

  /** One jury's score sheet for one team; `id` is absent until the server
      assigns one. `submittedAt` is the ISO time text stamped when the jury
      confirms the sheet. */
  datatype TeamScore = TeamScore(
    id: Option<string>,
    event: string,
    jury: string,
    team: string,
    scores: seq<(string, real)>,
    locked: bool,
    criterionComments: seq<(string, string)>,
    globalComments: string,
    submittedAt: Option<string>)

  /** JavaScript truthiness of an optional number: `undefined` and 0 are false. */
  predicate TruthyNum(x: Option<real>) {
    x.Some? && x.value != 0.0
  }

  /** `x || d` on an optional number. */
  function OrNum(x: Option<real>, d: real): (r: real)
    ensures TruthyNum(x) ==> r == x.value
    ensures !TruthyNum(x) ==> r == d
  {
    if TruthyNum(x) then x.value else d
  }

  /** `s || d` on an optional string: `undefined` and '' are false. */
  function OrStr(x: Option<string>, d: Option<string>): (r: Option<string>)
    ensures x.Some? && x.value != "" ==> r == x
    ensures (x.None? || x.value == "") ==> r == d
  {
    if x.Some? && x.value != "" then x else d
  }

  /** JavaScript truthiness of an optional string: `undefined`, `null` and '' are false. */
  predicate TruthyStr(x: Option<string>) {
    x.Some? && x.value != ""
  }

  /** `criteria.find(c => c.id === id)`. */
  function FindCriterion(criteria: seq<Criterion>, id: string): (r: Option<Criterion>)
    ensures r.None? <==> forall c :: c in criteria ==> c.id != id
    ensures r.Some? ==> r.value in criteria && r.value.id == id
  {
    if criteria == [] then None
    else if criteria[0].id == id then Some(criteria[0])
    else FindCriterion(criteria[1..], id)
  }

  /** `find` returns the first criterion with the id: none before it has it. */
  lemma {:induction false} FindCriterionFirst(criteria: seq<Criterion>, id: string)
    ensures FindCriterion(criteria, id).Some? ==>
              exists i :: 0 <= i < |criteria| && criteria[i] == FindCriterion(criteria, id).value
                          && forall j :: 0 <= j < i ==> criteria[j].id != id
  {
    if criteria != [] && criteria[0].id != id && FindCriterion(criteria, id).Some? {
      var r := FindCriterion(criteria[1..], id);
      FindCriterionFirst(criteria[1..], id);
      var i :| 0 <= i < |criteria[1..]| && criteria[1..][i] == r.value
               && forall j :: 0 <= j < i ==> criteria[1..][j].id != id;
      assert criteria[i + 1] == r.value;
      forall j | 0 <= j < i + 1 ensures criteria[j].id != id {
        if j > 0 { assert criteria[j] == criteria[1..][j - 1]; }
      }
    } else if criteria != [] && criteria[0].id == id {
      assert criteria[0] == FindCriterion(criteria, id).value;
    }
  }

  /** `teamScores.find(ts => ts.jury === jury && ts.team === team)`. */
  function FindScore(scores: seq<TeamScore>, jury: string, team: string): (r: Option<TeamScore>)
    ensures r.None? <==> forall s :: s in scores ==> !(s.jury == jury && s.team == team)
    ensures r.Some? ==> r.value in scores && r.value.jury == jury && r.value.team == team
  {
    if scores == [] then None
    else if scores[0].jury == jury && scores[0].team == team then Some(scores[0])
    else FindScore(scores[1..], jury, team)
  }

  /** `find` returns the first sheet of the pair: none before it belongs to the pair. */
  lemma {:induction false} FindScoreFirst(scores: seq<TeamScore>, jury: string, team: string)
    ensures FindScore(scores, jury, team).Some? ==>
              exists i :: 0 <= i < |scores| && scores[i] == FindScore(scores, jury, team).value
                          && forall j :: 0 <= j < i ==> !(scores[j].jury == jury && scores[j].team == team)
  {
    if scores != [] && !(scores[0].jury == jury && scores[0].team == team) && FindScore(scores, jury, team).Some? {
      var r := FindScore(scores[1..], jury, team);
      FindScoreFirst(scores[1..], jury, team);
      var i :| 0 <= i < |scores[1..]| && scores[1..][i] == r.value
               && forall j :: 0 <= j < i ==> !(scores[1..][j].jury == jury && scores[1..][j].team == team);
      assert scores[i + 1] == r.value;
      forall j | 0 <= j < i + 1 ensures !(scores[j].jury == jury && scores[j].team == team) {
        if j > 0 { assert scores[j] == scores[1..][j - 1]; }
      }
    } else if scores != [] && scores[0].jury == jury && scores[0].team == team {
      assert scores[0] == FindScore(scores, jury, team).value;
    }
  }

  /** At most one sheet per jury and team. */
  predicate OneSheetPerPair(teamScores: seq<TeamScore>) {
    forall i, j :: 0 <= i < j < |teamScores| ==>
      !(teamScores[i].jury == teamScores[j].jury && teamScores[i].team == teamScores[j].team)
  }

  /** `teamScores.find(...)` with the extra `&& ts.locked` condition. */
  function FindLockedScore(scores: seq<TeamScore>, jury: string, team: string): (r: Option<TeamScore>)
    ensures r.None? <==> forall s :: s in scores ==> !(s.jury == jury && s.team == team && s.locked)
    ensures r.Some? ==> r.value in scores && r.value.jury == jury && r.value.team == team && r.value.locked
  {
    if scores == [] then None
    else if scores[0].jury == jury && scores[0].team == team && scores[0].locked then Some(scores[0])
    else FindLockedScore(scores[1..], jury, team)
  }

  /** The locked variant also returns the first match: no earlier sheet is a locked one of the pair. */
  lemma {:induction false} FindLockedScoreFirst(scores: seq<TeamScore>, jury: string, team: string)
    ensures FindLockedScore(scores, jury, team).Some? ==>
              exists i :: 0 <= i < |scores| && scores[i] == FindLockedScore(scores, jury, team).value
                          && forall j :: 0 <= j < i ==> !(scores[j].jury == jury && scores[j].team == team && scores[j].locked)
  {
    if scores != [] && !(scores[0].jury == jury && scores[0].team == team && scores[0].locked)
       && FindLockedScore(scores, jury, team).Some? {
      var r := FindLockedScore(scores[1..], jury, team);
      FindLockedScoreFirst(scores[1..], jury, team);
      var i :| 0 <= i < |scores[1..]| && scores[1..][i] == r.value
               && forall j :: 0 <= j < i ==> !(scores[1..][j].jury == jury && scores[1..][j].team == team && scores[1..][j].locked);
      assert scores[i + 1] == r.value;
      forall j | 0 <= j < i + 1 ensures !(scores[j].jury == jury && scores[j].team == team && scores[j].locked) {
        if j > 0 { assert scores[j] == scores[1..][j - 1]; }
      }
    } else if scores != [] && scores[0].jury == jury && scores[0].team == team && scores[0].locked {
      assert scores[0] == FindLockedScore(scores, jury, team).value;
    }
  }
}
