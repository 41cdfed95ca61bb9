/** The jury's two scoring screens in both clients: the single-team page
    reached from the dashboard, and the guided page that walks through the
    teams in order. Each page is an object whose fields are the React state;
    what the page reads from the data context (the jury's existing sheet,
    the current event) comes in as parameters, and a confirmed sheet is
    returned to the caller, which hands it to the data context. */
module ScorePages {
  import opened Util
  import opened Assoc
  import opened ClientTypes
  import opened ScoreRules

  /** The message the newer guided page shows when the feedback is too short. */
  const FeedbackError: string := "Le feedback est obligatoire (minimum 10 caractères)"

  /** `criteria.forEach(c => { m[c.id] = v; })` on an empty object: one entry
      per criterion id, in criteria order, each holding `v`. */
  method FillIds<V>(criteria: seq<Criterion>, v: V) returns (m: seq<(string, V)>)
    ensures m == Fill(CriterionIds(criteria), v)
    ensures DistinctKeys(m)
    ensures forall k :: k in Keys(m) <==> exists c :: c in criteria && c.id == k
    ensures forall c :: c in criteria ==> Get(m, c.id) == Some(v)
  {
    m := [];
    var i := 0;
    while i < |criteria|
      invariant 0 <= i <= |criteria|
      invariant m == Fill(CriterionIds(criteria[..i]), v)
    {
      assert CriterionIds(criteria[..i + 1]) == CriterionIds(criteria[..i]) + [criteria[i].id];
      assert (CriterionIds(criteria[..i]) + [criteria[i].id])[..i] == CriterionIds(criteria[..i]);
      m := Put(m, criteria[i].id, v);
      i := i + 1;
    }
    assert criteria[..i] == criteria;
    FillAt(CriterionIds(criteria), v);
    CriterionIdsMembers(criteria);
    forall c | c in criteria ensures c.id in CriterionIds(criteria) {
      assert exists c' :: c' in criteria && c'.id == c.id;
    }
  }

  /** The weighted total of a sheet, `score * (criterion?.weight || 1.0)`
      summed over its entries and rounded to the nearest hundredth. On a
      clamped sheet it lies between 0 and the page's maximum, give or take
      the rounding. */
  method WeightedSheetTotal(scores: seq<(string, real)>, criteria: seq<Criterion>) returns (total: real)
    ensures total == RoundCents(WeightedTotal(scores, criteria))
    ensures ValidCriteria(criteria) && Clamped(scores, criteria) && DistinctKeys(scores)
            ==> 0.0 <= total <= MaxTotal(criteria) + 0.005
  {
    var sum := 0.0;
    var i := 0;
    while i < |scores|
      invariant 0 <= i <= |scores|
      invariant sum == WeightedTotal(scores[..i], criteria)
    {
      assert scores[..i + 1][..i] == scores[..i];
      var weight := match FindCriterion(criteria, scores[i].0)
        case None => 1.0
        case Some(c) => OrNum(c.weight, 1.0);
      sum := sum + scores[i].1 * weight;
      i := i + 1;
    }
    assert scores[..i] == scores;
    total := RoundCents(sum);
    if ValidCriteria(criteria) && Clamped(scores, criteria) && DistinctKeys(scores) {
      WeightedTotalAtMostMax(scores, criteria);
      RoundedTotalAtMostMax(scores, criteria);
    }
  }

  /** A sheet the page can trust: no repeated criterion, every entry within
      its criterion's bounds. */
  predicate SheetOk(scores: seq<(string, real)>, criteria: seq<Criterion>) {
    ValidCriteria(criteria) && Clamped(scores, criteria) && DistinctKeys(scores)
  }

  /** `getTeamScore(jury, team)` answered with a locked sheet. */
  predicate ScoredBy(teamScores: seq<TeamScore>, juryId: string, team: Team) {
    var s := FindScore(teamScores, juryId, team.id);
    s.Some? && s.value.locked
  }

  /** The guided pages' first effect: the index of the first team whose
      sheet is missing or still a draft, and whether every team is already
      locked (the loop reaches the last team without breaking). */
  method FindStart(teams: seq<Team>, juryId: string, teamScores: seq<TeamScore>)
    returns (index: nat, completed: bool)
    ensures completed <==> |teams| > 0 && forall t :: t in teams ==> ScoredBy(teamScores, juryId, t)
    ensures completed ==> index == 0
    ensures !completed && |teams| > 0 ==>
              index < |teams| && !ScoredBy(teamScores, juryId, teams[index])
              && forall j :: 0 <= j < index ==> ScoredBy(teamScores, juryId, teams[j])
    ensures |teams| == 0 ==> index == 0
  {
    index, completed := 0, false;
    var i := 0;
    while i < |teams|
      invariant 0 <= i <= |teams|
      invariant forall j :: 0 <= j < i ==> ScoredBy(teamScores, juryId, teams[j])
      invariant completed <==> i == |teams| && |teams| > 0
    {
      var existing := FindScore(teamScores, juryId, teams[i].id);
      if existing.None? || !existing.value.locked {
        index := i;
        return;
      }
      if i == |teams| - 1 {
        completed := true;
      }
      i := i + 1;
    }
    forall t | t in teams ensures ScoredBy(teamScores, juryId, t) {
      var j :| 0 <= j < |teams| && teams[j] == t;
    }
  }

  /** With one sheet per pair, the first sheet found is locked exactly when
      some sheet for the pair is locked. */
  lemma ScoredByMeansLocked(teamScores: seq<TeamScore>, juryId: string, team: Team)
    requires OneSheetPerPair(teamScores)
    ensures ScoredBy(teamScores, juryId, team)
            <==> exists s :: s in teamScores && s.jury == juryId && s.team == team.id && s.locked
  {
    var f := FindScore(teamScores, juryId, team.id);
    if s :| s in teamScores && s.jury == juryId && s.team == team.id && s.locked {
      var i :| 0 <= i < |teamScores| && teamScores[i] == s;
      var j :| 0 <= j < |teamScores| && teamScores[j] == f.value;
      assert i == j;
    }
  }

  /** The guided page opens on its completion screen exactly when the
      dashboard would count every team as scored by this jury. */
  lemma FindStartMatchesCompletion(teams: seq<Team>, juryId: string, teamScores: seq<TeamScore>)
    requires OneSheetPerPair(teamScores)
    ensures (|teams| > 0 && forall t :: t in teams ==> ScoredBy(teamScores, juryId, t))
            <==> (|teams| > 0 && forall t :: t in teams ==>
                    exists s :: s in teamScores && s.jury == juryId && s.team == t.id && s.locked)
  {
    forall t | t in teams
      ensures ScoredBy(teamScores, juryId, t)
              <==> exists s :: s in teamScores && s.jury == juryId && s.team == t.id && s.locked
    {
      ScoredByMeansLocked(teamScores, juryId, t);
    }
  }

  /** The newer single-team page (`/jury/score/:teamId`). */
  class ScoreTeamPage {
    const criteria: seq<Criterion>
    /** `existingScore?.locked || false`: a submitted sheet is read-only. */
    const locked: bool
    var scores: seq<(string, real)>
    var criterionComments: seq<(string, string)>
    var globalComments: string
    var modalOpen: bool

    /** The page with its initialising effect run: an existing sheet is
        shown as stored, otherwise every criterion starts at 0 with an
        empty comment. */
    constructor (criteria: seq<Criterion>, existing: Option<TeamScore>)
      ensures this.criteria == criteria
      ensures locked == (existing.Some? && existing.value.locked)
      ensures existing.Some? ==>
                scores == existing.value.scores
                && criterionComments == existing.value.criterionComments
                && globalComments == existing.value.globalComments
      ensures existing.None? ==>
                scores == Fill(CriterionIds(criteria), 0.0)
                && criterionComments == Fill(CriterionIds(criteria), "")
                && globalComments == ""
      ensures existing.None? && ValidCriteria(criteria) ==> SheetOk(scores, criteria)
      ensures !modalOpen
    {
      this.criteria := criteria;
      locked := existing.Some? && existing.value.locked;
      modalOpen := false;
      if existing.Some? {
        scores := existing.value.scores;
        criterionComments := existing.value.criterionComments;
        globalComments := existing.value.globalComments;
      } else {
        var zeros := FillIds(criteria, 0.0);
        var blanks := FillIds(criteria, "");
        scores := zeros;
        criterionComments := blanks;
        globalComments := "";
        if ValidCriteria(criteria) {
          ZeroScoresClamped(criteria);
        }
      }
    }

    /** A value typed for a criterion: ignored on a locked sheet or an
        unknown criterion, otherwise stored clamped to `[0, max_score]`. */
    method HandleScoreChange(criterionId: string, value: real)
      modifies this
      ensures locked || FindCriterion(criteria, criterionId).None? ==> scores == old(scores)
      ensures !locked && FindCriterion(criteria, criterionId).Some? ==>
                scores == Put(old(scores), criterionId,
                              Clamp(value, FindCriterion(criteria, criterionId).value.maxScore))
      ensures old(SheetOk(scores, criteria)) ==> SheetOk(scores, criteria)
      ensures criterionComments == old(criterionComments) && globalComments == old(globalComments)
      ensures modalOpen == old(modalOpen)
    {
      if locked {
        return;
      }
      var criterion := FindCriterion(criteria, criterionId);
      if criterion.None? {
        return;
      }
      if SheetOk(scores, criteria) {
        ScoreChangeKeepsClamped(scores, criteria, criterionId, value);
      }
      scores := Put(scores, criterionId, Clamp(value, criterion.value.maxScore));
    }

    /** A comment typed for a criterion, refused on a locked sheet. */
    method HandleCommentChange(criterionId: string, value: string)
      modifies this
      ensures criterionComments == if locked then old(criterionComments)
                                   else Put(old(criterionComments), criterionId, value)
      ensures scores == old(scores) && globalComments == old(globalComments)
      ensures modalOpen == old(modalOpen)
    {
      if !locked {
        criterionComments := Put(criterionComments, criterionId, value);
      }
    }

    /** The global comment box; it is disabled on a locked sheet. */
    method HandleGlobalCommentChange(value: string)
      modifies this
      ensures globalComments == if locked then old(globalComments) else value
      ensures scores == old(scores) && criterionComments == old(criterionComments)
      ensures modalOpen == old(modalOpen)
    {
      if !locked {
        globalComments := value;
      }
    }

    /** The total shown on the page. */
    method CalculateTotal() returns (total: real)
      ensures total == RoundCents(WeightedTotal(scores, criteria))
      ensures SheetOk(scores, criteria) ==> 0.0 <= total <= MaxTotal(criteria) + 0.005
    {
      total := WeightedSheetTotal(scores, criteria);
    }

    /** The submit button opens the confirmation unless the sheet is locked. */
    method HandleSubmit()
      modifies this
      ensures modalOpen == (old(modalOpen) || !locked)
      ensures scores == old(scores) && criterionComments == old(criterionComments)
      ensures globalComments == old(globalComments)
    {
      if !locked {
        modalOpen := true;
      }
    }

    method CloseModal()
      modifies this
      ensures !modalOpen
      ensures scores == old(scores) && criterionComments == old(criterionComments)
      ensures globalComments == old(globalComments)
    {
      modalOpen := false;
    }

    /** Confirmation: without a user, a team id or a current event nothing
        happens; otherwise the sheet goes out locked, under the jury, the
        team and the event, stamped with the confirmation time `now`, and
        the dialog closes. */
    method ConfirmSubmit(user: Option<User>, teamId: Option<string>, currentEventId: Option<string>, now: string)
      returns (saved: Option<TeamScore>)
      modifies this
      ensures saved.Some? <==> user.Some? && TruthyStr(teamId) && TruthyStr(currentEventId)
      ensures saved.Some? ==>
                saved.value == TeamScore(None, currentEventId.value, user.value.id, teamId.value,
                                         scores, true, criterionComments, globalComments, Some(now))
      ensures modalOpen == (old(modalOpen) && saved.None?)
      ensures scores == old(scores) && criterionComments == old(criterionComments)
      ensures globalComments == old(globalComments)
    {
      if user.None? || !TruthyStr(teamId) || !TruthyStr(currentEventId) {
        return None;
      }
      saved := Some(TeamScore(None, currentEventId.value, user.value.id, teamId.value,
                              scores, true, criterionComments, globalComments, Some(now)));
      modalOpen := false;
    }
  }

  /** The older single-team page: scores only, an unweighted total, and the
      sheet filed under the fixed default event. */
  class LegacyScoreTeamPage {
    const criteria: seq<Criterion>
    const locked: bool
    var scores: seq<(string, real)>
    var modalOpen: bool

    constructor (criteria: seq<Criterion>, existing: Option<TeamScore>)
      ensures this.criteria == criteria
      ensures locked == (existing.Some? && existing.value.locked)
      ensures existing.Some? ==> scores == existing.value.scores
      ensures existing.None? ==> scores == Fill(CriterionIds(criteria), 0.0)
      ensures existing.None? && ValidCriteria(criteria) ==> SheetOk(scores, criteria)
      ensures !modalOpen
    {
      this.criteria := criteria;
      locked := existing.Some? && existing.value.locked;
      modalOpen := false;
      if existing.Some? {
        scores := existing.value.scores;
      } else {
        var zeros := FillIds(criteria, 0.0);
        scores := zeros;
        if ValidCriteria(criteria) {
          ZeroScoresClamped(criteria);
        }
      }
    }

    method HandleScoreChange(criterionId: string, value: real)
      modifies this
      ensures locked || FindCriterion(criteria, criterionId).None? ==> scores == old(scores)
      ensures !locked && FindCriterion(criteria, criterionId).Some? ==>
                scores == Put(old(scores), criterionId,
                              Clamp(value, FindCriterion(criteria, criterionId).value.maxScore))
      ensures old(SheetOk(scores, criteria)) ==> SheetOk(scores, criteria)
      ensures modalOpen == old(modalOpen)
    {
      if locked {
        return;
      }
      var criterion := FindCriterion(criteria, criterionId);
      if criterion.None? {
        return;
      }
      if SheetOk(scores, criteria) {
        ScoreChangeKeepsClamped(scores, criteria, criterionId, value);
      }
      scores := Put(scores, criterionId, Clamp(value, criterion.value.maxScore));
    }

    /** `Object.values(scores).reduce(...)` against `Σ maxScore`: on a
        clamped sheet the total never exceeds the maximum shown. */
    function Total(): (total: real)
      reads this
      ensures SheetOk(scores, criteria) ==> 0.0 <= total <= MaxScoreSum(criteria)
    {
      SheetTotalAtMostMax(scores, criteria);
      SumValues(scores)
    }

    method HandleSubmit()
      modifies this
      ensures modalOpen == (old(modalOpen) || !locked)
      ensures scores == old(scores)
    {
      if !locked {
        modalOpen := true;
      }
    }

    /** Without a user or a team id nothing happens; otherwise the sheet
        goes out locked under the default event, stamped with the
        confirmation time `now`, and the dialog closes. */
    method ConfirmSubmit(user: Option<User>, teamId: Option<string>, now: string) returns (saved: Option<TeamScore>)
      modifies this
      ensures saved.Some? <==> user.Some? && TruthyStr(teamId)
      ensures saved.Some? ==>
                saved.value == TeamScore(None, DefaultEventId, user.value.id, teamId.value, scores, true, [], "", Some(now))
      ensures modalOpen == (old(modalOpen) && saved.None?)
      ensures scores == old(scores)
    {
      if user.None? || !TruthyStr(teamId) {
        return None;
      }
      saved := Some(TeamScore(None, DefaultEventId, user.value.id, teamId.value, scores, true, [], "", Some(now)));
      modalOpen := false;
    }
  }

  /** `UnweightedTotalAtMostMax` under the page's own precondition. */
  lemma SheetTotalAtMostMax(scores: seq<(string, real)>, criteria: seq<Criterion>)
    ensures SheetOk(scores, criteria) ==> 0.0 <= SumValues(scores) <= MaxScoreSum(criteria)
  {
    if SheetOk(scores, criteria) {
      UnweightedTotalAtMostMax(scores, criteria);
    }
  }

  /** The newer guided page (`/jury/scoring`). */
  class JuryScoringPage {
    const teams: seq<Team>
    const criteria: seq<Criterion>
    /** The signed-in jury's `assigned_criteria`. */
    const assignment: Option<seq<string>>
    var index: nat
    var scores: seq<(string, real)>
    var modalOpen: bool
    var allCompleted: bool
    var globalComments: string
    var error: Option<string>

    /** `teams[currentTeamIndex]` is a team, or there are no teams and the
        index is still 0. */
    predicate Valid()
      reads this
    {
      index < |teams| || (|teams| == 0 && index == 0)
    }

    constructor (teams: seq<Team>, criteria: seq<Criterion>, assignment: Option<seq<string>>)
      ensures this.teams == teams && this.criteria == criteria && this.assignment == assignment
      ensures index == 0 && scores == [] && !modalOpen && !allCompleted
      ensures globalComments == "" && error.None?
      ensures Valid()
    {
      this.teams := teams;
      this.criteria := criteria;
      this.assignment := assignment;
      index := 0;
      scores := [];
      modalOpen := false;
      allCompleted := false;
      globalComments := "";
      error := None;
    }

    /** The first effect: with at least one team, jump to the first team the
        jury has not locked, and mark the round complete when there is none. */
    method Start(juryId: string, teamScores: seq<TeamScore>)
      modifies this
      requires Valid()
      ensures Valid()
      ensures |teams| == 0 ==> index == old(index) && allCompleted == old(allCompleted)
      ensures |teams| > 0 && (exists t :: t in teams && !ScoredBy(teamScores, juryId, t)) ==>
                !ScoredBy(teamScores, juryId, teams[index])
                && (forall j :: 0 <= j < index ==> ScoredBy(teamScores, juryId, teams[j]))
                && allCompleted == old(allCompleted)
      ensures |teams| > 0 && (forall t :: t in teams ==> ScoredBy(teamScores, juryId, t)) ==>
                index == 0 && allCompleted
      ensures scores == old(scores) && globalComments == old(globalComments)
      ensures modalOpen == old(modalOpen) && error == old(error)
    {
      if |teams| > 0 {
        var i, completed := FindStart(teams, juryId, teamScores);
        index := i;
        if completed {
          allCompleted := true;
        }
      }
    }

    /** The second effect, for the team on screen: a draft sheet is taken
        as it is; otherwise every visible criterion starts at 0 and the
        feedback is emptied. */
    method LoadTeam(existing: Option<TeamScore>)
      modifies this
      requires Valid()
      ensures Valid() && index == old(index) && allCompleted == old(allCompleted)
      ensures |teams| == 0 ==> scores == old(scores) && globalComments == old(globalComments)
      ensures |teams| > 0 && existing.Some? && !existing.value.locked ==>
                scores == existing.value.scores && globalComments == old(globalComments)
      ensures |teams| > 0 && !(existing.Some? && !existing.value.locked) ==>
                scores == Fill(CriterionIds(VisibleCriteria(assignment, criteria)), 0.0)
                && globalComments == ""
      ensures modalOpen == old(modalOpen) && error == old(error)
    {
      if index < |teams| {
        if existing.Some? && !existing.value.locked {
          scores := existing.value.scores;
        } else {
          scores := FillIds(VisibleCriteria(assignment, criteria), 0.0);
          globalComments := "";
        }
      }
    }

    /** No lock check here: a value for a known criterion is stored clamped. */
    method HandleScoreChange(criterionId: string, value: real)
      modifies this
      ensures FindCriterion(criteria, criterionId).None? ==> scores == old(scores)
      ensures FindCriterion(criteria, criterionId).Some? ==>
                scores == Put(old(scores), criterionId,
                              Clamp(value, FindCriterion(criteria, criterionId).value.maxScore))
      ensures old(SheetOk(scores, criteria)) ==> SheetOk(scores, criteria)
      ensures index == old(index) && allCompleted == old(allCompleted) && modalOpen == old(modalOpen)
      ensures globalComments == old(globalComments) && error == old(error)
    {
      var criterion := FindCriterion(criteria, criterionId);
      if criterion.None? {
        return;
      }
      if SheetOk(scores, criteria) {
        ScoreChangeKeepsClamped(scores, criteria, criterionId, value);
      }
      scores := Put(scores, criterionId, Clamp(value, criterion.value.maxScore));
    }

    /** Typing feedback clears the error as soon as it would be accepted. */
    method HandleFeedbackChange(value: string)
      modifies this
      ensures globalComments == value
      ensures error == if FeedbackAccepted(value) then None else old(error)
      ensures scores == old(scores) && index == old(index) && allCompleted == old(allCompleted)
      ensures modalOpen == old(modalOpen)
    {
      globalComments := value;
      FeedbackRule(value);
      if |Trim(value)| >= 10 {
        error := None;
      }
    }

    /** The unweighted total the page shows. */
    function Total(): (total: real)
      reads this
      ensures SheetOk(scores, criteria) ==> 0.0 <= total <= MaxScoreSum(criteria)
    {
      SheetTotalAtMostMax(scores, criteria);
      SumValues(scores)
    }

    /** Submitting needs ten characters of feedback after trimming; short
        feedback sets the error and keeps the dialog shut. */
    method HandleSubmit()
      modifies this
      ensures FeedbackAccepted(globalComments) ==> error.None? && modalOpen
      ensures !FeedbackAccepted(globalComments) ==> error == Some(FeedbackError) && modalOpen == old(modalOpen)
      ensures scores == old(scores) && globalComments == old(globalComments)
      ensures index == old(index) && allCompleted == old(allCompleted)
    {
      var comments := globalComments;
      if !FeedbackAccepted(comments) {
        error := Some(FeedbackError);
        return;
      }
      error := None;
      modalOpen := true;
    }

    /** Confirmation: with a user, a team on screen and a current event, the
        sheet goes out locked with the feedback, no per-criterion comments
        and the confirmation time `now`, the dialog closes and the page
        moves to the next team, or marks the round complete after the last
        one. */
    method ConfirmSubmit(user: Option<User>, currentEventId: Option<string>, now: string) returns (saved: Option<TeamScore>)
      modifies this
      requires Valid()
      ensures Valid()
      ensures saved.Some? <==> user.Some? && |teams| > 0 && TruthyStr(currentEventId)
      ensures saved.Some? ==>
                saved.value == TeamScore(None, currentEventId.value, user.value.id, teams[old(index)].id,
                                         scores, true, [], globalComments, Some(now))
                && !modalOpen
                && (old(index) + 1 < |teams| ==> index == old(index) + 1 && allCompleted == old(allCompleted))
                && (old(index) + 1 == |teams| ==> index == old(index) && allCompleted)
      ensures saved.None? ==> index == old(index) && allCompleted == old(allCompleted) && modalOpen == old(modalOpen)
      ensures old(allCompleted) ==> allCompleted
      ensures scores == old(scores) && globalComments == old(globalComments) && error == old(error)
    {
      if user.None? || index >= |teams| {
        return None;
      }
      if !TruthyStr(currentEventId) {
        return None;
      }
      saved := Some(TeamScore(None, currentEventId.value, user.value.id, teams[index].id,
                              scores, true, [], globalComments, Some(now)));
      modalOpen := false;
      if index < |teams| - 1 {
        index := index + 1;
      } else {
        allCompleted := true;
      }
    }
  }

  /** The older guided page: every criterion, no feedback requirement. */
  class LegacyJuryScoringPage {
    const teams: seq<Team>
    const criteria: seq<Criterion>
    var index: nat
    var scores: seq<(string, real)>
    var modalOpen: bool
    var allCompleted: bool

    predicate Valid()
      reads this
    {
      index < |teams| || (|teams| == 0 && index == 0)
    }

    constructor (teams: seq<Team>, criteria: seq<Criterion>)
      ensures this.teams == teams && this.criteria == criteria
      ensures index == 0 && scores == [] && !modalOpen && !allCompleted
      ensures Valid()
    {
      this.teams := teams;
      this.criteria := criteria;
      index := 0;
      scores := [];
      modalOpen := false;
      allCompleted := false;
    }

    method Start(juryId: string, teamScores: seq<TeamScore>)
      modifies this
      requires Valid()
      ensures Valid()
      ensures |teams| == 0 ==> index == old(index) && allCompleted == old(allCompleted)
      ensures |teams| > 0 && (exists t :: t in teams && !ScoredBy(teamScores, juryId, t)) ==>
                !ScoredBy(teamScores, juryId, teams[index])
                && (forall j :: 0 <= j < index ==> ScoredBy(teamScores, juryId, teams[j]))
                && allCompleted == old(allCompleted)
      ensures |teams| > 0 && (forall t :: t in teams ==> ScoredBy(teamScores, juryId, t)) ==>
                index == 0 && allCompleted
      ensures scores == old(scores) && modalOpen == old(modalOpen)
    {
      if |teams| > 0 {
        var i, completed := FindStart(teams, juryId, teamScores);
        index := i;
        if completed {
          allCompleted := true;
        }
      }
    }

    /** A draft sheet is taken as it is; otherwise every criterion starts at 0. */
    method LoadTeam(existing: Option<TeamScore>)
      modifies this
      requires Valid()
      ensures Valid() && index == old(index) && allCompleted == old(allCompleted)
      ensures |teams| == 0 ==> scores == old(scores)
      ensures |teams| > 0 && existing.Some? && !existing.value.locked ==> scores == existing.value.scores
      ensures |teams| > 0 && !(existing.Some? && !existing.value.locked) ==>
                scores == Fill(CriterionIds(criteria), 0.0)
      ensures modalOpen == old(modalOpen)
    {
      if index < |teams| {
        if existing.Some? && !existing.value.locked {
          scores := existing.value.scores;
        } else {
          scores := FillIds(criteria, 0.0);
        }
      }
    }

    method HandleScoreChange(criterionId: string, value: real)
      modifies this
      ensures FindCriterion(criteria, criterionId).None? ==> scores == old(scores)
      ensures FindCriterion(criteria, criterionId).Some? ==>
                scores == Put(old(scores), criterionId,
                              Clamp(value, FindCriterion(criteria, criterionId).value.maxScore))
      ensures old(SheetOk(scores, criteria)) ==> SheetOk(scores, criteria)
      ensures index == old(index) && allCompleted == old(allCompleted) && modalOpen == old(modalOpen)
    {
      var criterion := FindCriterion(criteria, criterionId);
      if criterion.None? {
        return;
      }
      if SheetOk(scores, criteria) {
        ScoreChangeKeepsClamped(scores, criteria, criterionId, value);
      }
      scores := Put(scores, criterionId, Clamp(value, criterion.value.maxScore));
    }

    function Total(): (total: real)
      reads this
      ensures SheetOk(scores, criteria) ==> 0.0 <= total <= MaxScoreSum(criteria)
    {
      SheetTotalAtMostMax(scores, criteria);
      SumValues(scores)
    }

    method HandleSubmit()
      modifies this
      ensures modalOpen
      ensures scores == old(scores) && index == old(index) && allCompleted == old(allCompleted)
    {
      modalOpen := true;
    }

    /** Confirmation: the sheet goes out locked and stamped with `now`,
        then the page advances or completes. */
    method ConfirmSubmit(user: Option<User>, currentEventId: Option<string>, now: string) returns (saved: Option<TeamScore>)
      modifies this
      requires Valid()
      ensures Valid()
      ensures saved.Some? <==> user.Some? && |teams| > 0 && TruthyStr(currentEventId)
      ensures saved.Some? ==>
                saved.value == TeamScore(None, currentEventId.value, user.value.id, teams[old(index)].id,
                                         scores, true, [], "", Some(now))
                && !modalOpen
                && (old(index) + 1 < |teams| ==> index == old(index) + 1 && allCompleted == old(allCompleted))
                && (old(index) + 1 == |teams| ==> index == old(index) && allCompleted)
      ensures saved.None? ==> index == old(index) && allCompleted == old(allCompleted) && modalOpen == old(modalOpen)
      ensures old(allCompleted) ==> allCompleted
      ensures scores == old(scores)
    {
      if user.None? || index >= |teams| {
        return None;
      }
      if !TruthyStr(currentEventId) {
        return None;
      }
      saved := Some(TeamScore(None, currentEventId.value, user.value.id, teams[index].id, scores, true, [], "", Some(now)));
      modalOpen := false;
      if index < |teams| - 1 {
        index := index + 1;
      } else {
        allCompleted := true;
      }
    }
  }
}
