/** Score aggregation in the two React clients: the per-team total, the
    ranked results table, the "every team scored" test and a jury's progress.
    The newer client ranks with a four-level tie-break; the older one by
    total only. Both read the same record shape (the older one calls the
    owner fields `teamId`/`juryId`). */
module Calculations {
  import opened Util
  import opened Assoc
  import opened Sorting
  import opened ClientTypes

  // ---------------------------------------------------------------------
  // calculateTeamTotal

  /** Every value of every record of the team, drafts included. */
  function TeamTotal(teamId: string, teamScores: seq<TeamScore>): real
    decreases |teamScores|
  {
    if teamScores == [] then 0.0
    else
      var last := teamScores[|teamScores| - 1];
      TeamTotal(teamId, teamScores[..|teamScores| - 1])
        + (if last.team == teamId then SumValues(last.scores) else 0.0)
  }

  /** The two nested `forEach` loops that accumulate `total`. */
  method CalculateTeamTotal(teamId: string, teamScores: seq<TeamScore>) returns (total: real)
    ensures total == TeamTotal(teamId, teamScores)
  {
    total := 0.0;
    var i := 0;
    while i < |teamScores|
      invariant 0 <= i <= |teamScores|
      invariant total == TeamTotal(teamId, teamScores[..i])
    {
      assert teamScores[..i + 1][..i] == teamScores[..i];
      if teamScores[i].team == teamId {
        var values := Values(teamScores[i].scores);
        ghost var before := total;
        var k := 0;
        while k < |values|
          invariant 0 <= k <= |values|
          invariant total == before + Sum(values[..k])
        {
          assert values[..k + 1][..k] == values[..k];
          total := total + values[k];
          k := k + 1;
        }
        assert values[..k] == values;
      }
      i := i + 1;
    }
    assert teamScores[..i] == teamScores;
  }

  lemma {:induction false} TeamTotalAppend(teamId: string, a: seq<TeamScore>, b: seq<TeamScore>)
    ensures TeamTotal(teamId, a + b) == TeamTotal(teamId, a) + TeamTotal(teamId, b)
    decreases |b|
  {
    if b == [] {
      assert a + b == a;
    } else {
      assert (a + b)[..|a + b| - 1] == a + b[..|b| - 1];
      TeamTotalAppend(teamId, a, b[..|b| - 1]);
    }
  }

  /** Records of other teams do not count, and a record of the team adds
      the sum of its values whether it is locked or not. */
  lemma TeamTotalOfRecord(teamId: string, teamScores: seq<TeamScore>, s: TeamScore)
    ensures TeamTotal(teamId, teamScores + [s])
         == TeamTotal(teamId, teamScores) + (if s.team == teamId then SumValues(s.scores) else 0.0)
  {
    assert (teamScores + [s])[..|teamScores|] == teamScores;
  }

  lemma {:induction false} TeamTotalNoRecords(teamId: string, teamScores: seq<TeamScore>)
    requires forall s :: s in teamScores ==> s.team != teamId
    ensures TeamTotal(teamId, teamScores) == 0.0
    decreases |teamScores|
  {
    if teamScores != [] {
      var init := teamScores[..|teamScores| - 1];
      assert forall s :: s in init ==> s in teamScores;
      TeamTotalNoRecords(teamId, init);
    }
  }

  // ---------------------------------------------------------------------
  // One line per jury

  /** `{ id, username }`, the juries a results page passes in. */
  datatype Jury = Jury(id: string, username: string)

  datatype JuryLine = JuryLine(juryId: string, juryName: string, scores: seq<(string, real)>, total: real)

  /** The jury's record for the team, or `{}` with total 0 when there is none. */
  function LineFor(team: Team, jury: Jury, teamScores: seq<TeamScore>): JuryLine {
    var scores := match FindScore(teamScores, jury.id, team.id)
      case Some(s) => s.scores
      case None => [];
    JuryLine(jury.id, jury.username, scores, SumValues(scores))
  }

  function JuryLines(team: Team, juries: seq<Jury>, teamScores: seq<TeamScore>): (r: seq<JuryLine>)
    ensures |r| == |juries|
  {
    if juries == [] then []
    else JuryLines(team, juries[..|juries| - 1], teamScores) + [LineFor(team, juries[|juries| - 1], teamScores)]
  }

  lemma {:induction false} JuryLinesAt(team: Team, juries: seq<Jury>, teamScores: seq<TeamScore>, i: nat)
    requires i < |juries|
    ensures JuryLines(team, juries, teamScores)[i] == LineFor(team, juries[i], teamScores)
    decreases |juries|
  {
    if i < |juries| - 1 {
      JuryLinesAt(team, juries[..|juries| - 1], teamScores, i);
    }
  }

  function LineTotals(lines: seq<JuryLine>): (r: seq<real>)
    ensures |r| == |lines|
  {
    if lines == [] then [] else LineTotals(lines[..|lines| - 1]) + [lines[|lines| - 1].total]
  }

  lemma {:induction false} LineTotalsAt(lines: seq<JuryLine>, i: nat)
    requires i < |lines|
    ensures LineTotals(lines)[i] == lines[i].total
    decreases |lines|
  {
    if i < |lines| - 1 {
      LineTotalsAt(lines[..|lines| - 1], i);
    }
  }

  /** Each jury line names the jury, in jury order; a missing record gives
      an empty map and total 0, an existing one (draft or locked) the sum of
      its values. */
  lemma JuryLineFacts(team: Team, juries: seq<Jury>, teamScores: seq<TeamScore>, i: nat)
    requires i < |juries|
    ensures var l := JuryLines(team, juries, teamScores)[i];
            && l.juryId == juries[i].id && l.juryName == juries[i].username
            && ((forall s :: s in teamScores ==> !(s.jury == juries[i].id && s.team == team.id))
                ==> l.scores == [] && l.total == 0.0)
            && ((exists s :: s in teamScores && s.jury == juries[i].id && s.team == team.id)
                ==> (exists s' :: s' in teamScores && s'.jury == juries[i].id && s'.team == team.id
                                  && l.scores == s'.scores && l.total == SumValues(s'.scores)))
  {
    JuryLinesAt(team, juries, teamScores, i);
    assert SumValues([]) == 0.0 by { assert Values<real>([]) == []; }
  }

  // ---------------------------------------------------------------------
  // Per-criterion sums, perfect scores and spread

  /** `Σ js.scores[id] || 0` over the jury lines. */
  function ColumnSum(lines: seq<JuryLine>, id: string): real
    decreases |lines|
  {
    if lines == [] then 0.0
    else ColumnSum(lines[..|lines| - 1], id) + OrNum(Get(lines[|lines| - 1].scores, id), 0.0)
  }

  /** `criterionScores[c.id] = ...` for each criterion in turn. */
  function CriterionScores(criteria: seq<Criterion>, lines: seq<JuryLine>): seq<(string, real)>
    decreases |criteria|
  {
    if criteria == [] then []
    else
      var c := criteria[|criteria| - 1];
      Put(CriterionScores(criteria[..|criteria| - 1], lines), c.id, ColumnSum(lines, c.id))
  }

  /** The map has exactly one entry per criterion id, holding that column's sum. */
  lemma {:induction false} CriterionScoresAt(criteria: seq<Criterion>, lines: seq<JuryLine>)
    ensures DistinctKeys(CriterionScores(criteria, lines))
    ensures forall k :: k in Keys(CriterionScores(criteria, lines)) <==> exists c :: c in criteria && c.id == k
    ensures forall c :: c in criteria ==> Get(CriterionScores(criteria, lines), c.id) == Some(ColumnSum(lines, c.id))
    decreases |criteria|
  {
    if criteria != [] {
      var init, c := criteria[..|criteria| - 1], criteria[|criteria| - 1];
      assert forall x :: x in criteria ==> x in init || x == c;
      var m := CriterionScores(init, lines);
      CriterionScoresAt(init, lines);
      PutKeys(m, c.id, ColumnSum(lines, c.id));
      forall k ensures k in Keys(CriterionScores(criteria, lines)) <==> exists c' :: c' in criteria && c'.id == k {
        if exists c' :: c' in criteria && c'.id == k {
          var c' :| c' in criteria && c'.id == k;
          if c' != c {
            assert c' in init;
          }
        }
      }
      forall c' | c' in criteria
        ensures Get(CriterionScores(criteria, lines), c'.id) == Some(ColumnSum(lines, c'.id))
      {
        GetPut(m, c.id, ColumnSum(lines, c.id), c'.id);
        if c'.id != c.id {
          assert c' in init;
        }
      }
    }
  }

  lemma CriterionScoresSnoc(criteria: seq<Criterion>, i: nat, lines: seq<JuryLine>)
    requires i < |criteria|
    ensures CriterionScores(criteria[..i + 1], lines)
         == Put(CriterionScores(criteria[..i], lines), criteria[i].id, ColumnSum(lines, criteria[i].id))
  {
    assert criteria[..i + 1][..i] == criteria[..i];
  }

  lemma ColumnSumSnoc(lines: seq<JuryLine>, j: nat, id: string)
    requires j < |lines|
    ensures ColumnSum(lines[..j + 1], id) == ColumnSum(lines[..j], id) + OrNum(Get(lines[j].scores, id), 0.0)
  {
    assert lines[..j + 1][..j] == lines[..j];
  }

  /** `criteria.forEach(c => criterionScores[c.id] = juryScores.reduce(...))`. */
  method FillCriterionScores(criteria: seq<Criterion>, lines: seq<JuryLine>) returns (m: seq<(string, real)>)
    ensures m == CriterionScores(criteria, lines)
  {
    m := [];
    var i := 0;
    while i < |criteria|
      invariant 0 <= i <= |criteria|
      invariant m == CriterionScores(criteria[..i], lines)
    {
      var id := criteria[i].id;
      var sum := 0.0;
      var j := 0;
      while j < |lines|
        invariant 0 <= j <= |lines|
        invariant sum == ColumnSum(lines[..j], id)
      {
        ColumnSumSnoc(lines, j, id);
        sum := sum + OrNum(Get(lines[j].scores, id), 0.0);
        j := j + 1;
      }
      assert lines[..j] == lines;
      CriterionScoresSnoc(criteria, i, lines);
      m := Put(m, id, sum);
      i := i + 1;
    }
    assert criteria[..i] == criteria;
  }

  /** A jury line scores `c` at exactly its maximum (`===`; a missing entry never matches). */
  predicate IsPerfect(l: JuryLine, c: Criterion) {
    Get(l.scores, c.id) == Some(c.maxScore)
  }

  /** Jury lines that give `c` its maximum. */
  function PerfectIn(lines: seq<JuryLine>, c: Criterion): nat
    decreases |lines|
  {
    if lines == [] then 0
    else PerfectIn(lines[..|lines| - 1], c) + (if IsPerfect(lines[|lines| - 1], c) then 1 else 0)
  }

  /** (criterion, jury) pairs scored at the maximum. */
  function PerfectCount(criteria: seq<Criterion>, lines: seq<JuryLine>): nat
    decreases |criteria|
  {
    if criteria == [] then 0
    else PerfectCount(criteria[..|criteria| - 1], lines) + PerfectIn(lines, criteria[|criteria| - 1])
  }

  lemma {:induction false} PerfectInBounds(lines: seq<JuryLine>, c: Criterion)
    ensures PerfectIn(lines, c) <= |lines|
    ensures PerfectIn(lines, c) == |lines| <==> forall l :: l in lines ==> IsPerfect(l, c)
    decreases |lines|
  {
    if lines != [] {
      var init, l := lines[..|lines| - 1], lines[|lines| - 1];
      PerfectInBounds(init, c);
      assert lines == init + [l];
      if forall l' :: l' in init ==> IsPerfect(l', c) {
      } else {
        var l' :| l' in init && !IsPerfect(l', c);
        assert l' in lines;
      }
    }
  }

  /** At most one perfect score per (criterion, jury) pair, and every pair
      exactly when each jury gave each criterion its maximum. */
  lemma {:induction false} PerfectCountBounds(criteria: seq<Criterion>, lines: seq<JuryLine>)
    ensures PerfectCount(criteria, lines) <= |criteria| * |lines|
    ensures PerfectCount(criteria, lines) == |criteria| * |lines|
        <==> forall c, l :: c in criteria && l in lines ==> IsPerfect(l, c)
    decreases |criteria|
  {
    if criteria != [] {
      var init, c := criteria[..|criteria| - 1], criteria[|criteria| - 1];
      PerfectCountBounds(init, lines);
      PerfectInBounds(lines, c);
      assert criteria == init + [c];
      MulSucc(|init|, |lines|);
      if forall c', l :: c' in criteria && l in lines ==> IsPerfect(l, c') {
        assert forall c', l :: c' in init && l in lines ==> IsPerfect(l, c');
      }
    }
  }

  lemma MulSucc(a: nat, b: nat)
    ensures (a + 1) * b == a * b + b
  {
  }

  lemma PerfectInSnoc(lines: seq<JuryLine>, j: nat, c: Criterion)
    requires j < |lines|
    ensures PerfectIn(lines[..j + 1], c) == PerfectIn(lines[..j], c) + (if IsPerfect(lines[j], c) then 1 else 0)
  {
    assert lines[..j + 1][..j] == lines[..j];
  }

  lemma PerfectCountSnoc(criteria: seq<Criterion>, i: nat, lines: seq<JuryLine>)
    requires i < |criteria|
    ensures PerfectCount(criteria[..i + 1], lines) == PerfectCount(criteria[..i], lines) + PerfectIn(lines, criteria[i])
  {
    assert criteria[..i + 1][..i] == criteria[..i];
  }

  /** The nested `forEach` that increments `perfectScoresCount`. */
  method CountPerfectScores(criteria: seq<Criterion>, lines: seq<JuryLine>) returns (count: nat)
    ensures count == PerfectCount(criteria, lines)
  {
    count := 0;
    var i := 0;
    while i < |criteria|
      invariant 0 <= i <= |criteria|
      invariant count == PerfectCount(criteria[..i], lines)
    {
      ghost var before := count;
      var j := 0;
      while j < |lines|
        invariant 0 <= j <= |lines|
        invariant count == before + PerfectIn(lines[..j], criteria[i])
      {
        PerfectInSnoc(lines, j, criteria[i]);
        if Get(lines[j].scores, criteria[i].id) == Some(criteria[i].maxScore) {
          count := count + 1;
        }
        j := j + 1;
      }
      assert lines[..j] == lines;
      PerfectCountSnoc(criteria, i, lines);
      i := i + 1;
    }
    assert criteria[..i] == criteria;
  }

  /** `Σ (x - mean)²`. */
  function SquaredDeviations(xs: seq<real>, mean: real): real
    decreases |xs|
  {
    if xs == [] then 0.0
    else
      var d := xs[|xs| - 1] - mean;
      SquaredDeviations(xs[..|xs| - 1], mean) + d * d
  }

  /** The population variance of the jury totals, 0 without juries. The page
      keeps its square root; the square root is increasing on non-negative
      numbers, so ordering by it is ordering by the variance. */
  function Variance(xs: seq<real>): real {
    if |xs| > 0 then SquaredDeviations(xs, Sum(xs) / |xs| as real) / |xs| as real else 0.0
  }

  lemma {:induction false} SquaredDeviationsNonNegative(xs: seq<real>, mean: real)
    ensures SquaredDeviations(xs, mean) >= 0.0
    ensures (forall i :: 0 <= i < |xs| ==> xs[i] == mean) ==> SquaredDeviations(xs, mean) == 0.0
    decreases |xs|
  {
    if xs != [] {
      var init := xs[..|xs| - 1];
      var d := xs[|xs| - 1] - mean;
      SquaredDeviationsNonNegative(init, mean);
      SquareZero(d);
      if forall i :: 0 <= i < |xs| ==> xs[i] == mean {
        assert forall i :: 0 <= i < |init| ==> init[i] == xs[i];
      }
    }
  }

  lemma DivMul(t: real, n: real)
    requires n > 0.0
    ensures (t / n) * n == t
  {
  }

  /** `n > 0 ? total / n : 0`: the average gives the total back when
      multiplied by the count. */
  function Average(total: real, n: nat): (r: real)
    ensures n > 0 ==> r * n as real == total
    ensures n == 0 ==> r == 0.0
  {
    if n > 0 then
      DivMul(total, n as real);
      total / n as real
    else 0.0
  }

  lemma MulPos(a: real, b: real)
    requires a > 0.0 && b > 0.0
    ensures a * b > 0.0
  {
  }

  lemma SquareZero(d: real)
    ensures d * d >= 0.0
    ensures d == 0.0 ==> d * d == 0.0
  {
    if d < 0.0 {
      MulPos(-d, -d);
      assert d * d == (-d) * (-d);
    } else if d > 0.0 {
      MulPos(d, d);
    }
  }

  lemma {:induction false} SumConstant(xs: seq<real>, x: real)
    requires forall i :: 0 <= i < |xs| ==> xs[i] == x
    ensures Sum(xs) == |xs| as real * x
    decreases |xs|
  {
    if xs != [] {
      SumConstant(xs[..|xs| - 1], x);
    }
  }

  /** The spread is never negative, and it is zero when every jury gave the same total. */
  lemma VarianceZero(xs: seq<real>)
    ensures Variance(xs) >= 0.0
    ensures (forall i, j :: 0 <= i < |xs| && 0 <= j < |xs| ==> xs[i] == xs[j]) ==> Variance(xs) == 0.0
  {
    if xs != [] {
      var n := |xs| as real;
      var mean := Sum(xs) / n;
      SquaredDeviationsNonNegative(xs, mean);
      if forall i, j :: 0 <= i < |xs| && 0 <= j < |xs| ==> xs[i] == xs[j] {
        SumConstant(xs, xs[0]);
        assert Sum(xs) == n * xs[0];
        DivMul(xs[0], n);
        assert mean == xs[0];
      }
    }
  }

  // ---------------------------------------------------------------------
  // calculateResults, newer client

  datatype TeamResult = TeamResult(
    teamId: string,
    teamName: string,
    platformName: string,
    totalScore: real,
    averageScore: real,
    criterionScores: seq<(string, real)>,
    juryScores: seq<JuryLine>,
    perfectScoresCount: nat,
    variance: real)

  /** The result for one team, as the `teams.map` callback builds it. */
  function ResultFor(team: Team, teamScores: seq<TeamScore>, juries: seq<Jury>, criteria: seq<Criterion>): TeamResult {
    var lines := JuryLines(team, juries, teamScores);
    var totalScore := Sum(LineTotals(lines));
    TeamResult(
      team.id, team.name, ReplaceWhitespaceRuns(team.name), totalScore,
      Average(totalScore, |juries|),
      CriterionScores(criteria, lines), lines, PerfectCount(criteria, lines),
      Variance(LineTotals(lines)))
  }

  function Results(teams: seq<Team>, teamScores: seq<TeamScore>, juries: seq<Jury>, criteria: seq<Criterion>): (r: seq<TeamResult>)
    ensures |r| == |teams|
  {
    if teams == [] then []
    else Results(teams[..|teams| - 1], teamScores, juries, criteria) + [ResultFor(teams[|teams| - 1], teamScores, juries, criteria)]
  }

  lemma {:induction false} ResultsAt(teams: seq<Team>, teamScores: seq<TeamScore>, juries: seq<Jury>, criteria: seq<Criterion>, i: nat)
    requires i < |teams|
    ensures Results(teams, teamScores, juries, criteria)[i] == ResultFor(teams[i], teamScores, juries, criteria)
    decreases |teams|
  {
    var init := teams[..|teams| - 1];
    var r := Results(teams, teamScores, juries, criteria);
    if i < |teams| - 1 {
      ResultsAt(init, teamScores, juries, criteria, i);
      assert r == Results(init, teamScores, juries, criteria) + [ResultFor(teams[|teams| - 1], teamScores, juries, criteria)];
      assert r[i] == Results(init, teamScores, juries, criteria)[i];
      assert init[i] == teams[i];
    }
  }

  /** `[...criteria].sort((a, b) => a.priority_order - b.priority_order)`. */
  function ByPriority(criteria: seq<Criterion>): seq<Criterion> {
    SortByKey(criteria, (c: Criterion) => [c.priority as real])
  }

  /** The tie-break part of the sort key: the negated criterion sums in
      priority order (higher sum first), then the negated count of perfect
      scores, then the spread. */
  function TieKey(sorted: seq<Criterion>, r: TeamResult): (k: seq<real>)
    ensures |k| == |sorted| + 2
  {
    if sorted == [] then [-(r.perfectScoresCount as real), r.variance]
    else [-OrNum(Get(r.criterionScores, sorted[0].id), 0.0)] + TieKey(sorted[1..], r)
  }

  /** The comparator as a sort key: higher total, then higher criterion sums
      in priority order, then more perfect scores, then less spread. */
  function ResultKey(sorted: seq<Criterion>, r: TeamResult): seq<real> {
    [-r.totalScore] + TieKey(sorted, r)
  }

  /** The ranked table `calculateResults` returns. */
  function RankedResults(teams: seq<Team>, teamScores: seq<TeamScore>, juries: seq<Jury>, criteria: seq<Criterion>): seq<TeamResult> {
    var sorted := ByPriority(criteria);
    SortByKey(Results(teams, teamScores, juries, criteria), (r: TeamResult) => ResultKey(sorted, r))
  }

  /** The comparator read as written: `a` may stand before `b` when it does
      not return a positive number. */
  predicate ComesFirst(sorted: seq<Criterion>, a: TeamResult, b: TeamResult) {
    if b.totalScore != a.totalScore then a.totalScore > b.totalScore
    else CriteriaFirst(sorted, a, b)
  }

  predicate CriteriaFirst(sorted: seq<Criterion>, a: TeamResult, b: TeamResult)
    decreases |sorted|
  {
    if sorted == [] then
      if b.perfectScoresCount != a.perfectScoresCount then a.perfectScoresCount > b.perfectScoresCount
      else a.variance <= b.variance
    else
      var x := OrNum(Get(a.criterionScores, sorted[0].id), 0.0);
      var y := OrNum(Get(b.criterionScores, sorted[0].id), 0.0);
      if y != x then x > y else CriteriaFirst(sorted[1..], a, b)
  }

  lemma {:induction false} TieKeyOrder(sorted: seq<Criterion>, a: TeamResult, b: TeamResult)
    ensures !LexLt(TieKey(sorted, b), TieKey(sorted, a)) <==> CriteriaFirst(sorted, a, b)
    decreases |sorted|
  {
    if sorted == [] {
      assert TieKey(sorted, a) == [-(a.perfectScoresCount as real)] + [a.variance];
      assert TieKey(sorted, b) == [-(b.perfectScoresCount as real)] + [b.variance];
      LexLtCons(-(b.perfectScoresCount as real), [b.variance], -(a.perfectScoresCount as real), [a.variance]);
      LexLtCons(b.variance, [], a.variance, []);
    } else {
      LexLtCons(-OrNum(Get(b.criterionScores, sorted[0].id), 0.0), TieKey(sorted[1..], b),
                -OrNum(Get(a.criterionScores, sorted[0].id), 0.0), TieKey(sorted[1..], a));
      TieKeyOrder(sorted[1..], a, b);
    }
  }

  /** The sort key orders two results exactly as the comparator does. */
  lemma KeyOrderIsComparator(sorted: seq<Criterion>, a: TeamResult, b: TeamResult)
    ensures !LexLt(ResultKey(sorted, b), ResultKey(sorted, a)) <==> ComesFirst(sorted, a, b)
  {
    LexLtCons(-b.totalScore, TieKey(sorted, b), -a.totalScore, TieKey(sorted, a));
    TieKeyOrder(sorted, a, b);
  }

  /** One result per team: the ranking is a rearrangement of the per-team results. */
  lemma RankedResultsPermutation(teams: seq<Team>, teamScores: seq<TeamScore>, juries: seq<Jury>, criteria: seq<Criterion>)
    ensures |RankedResults(teams, teamScores, juries, criteria)| == |teams|
    ensures multiset(RankedResults(teams, teamScores, juries, criteria)) == multiset(Results(teams, teamScores, juries, criteria))
  {
    var sorted := ByPriority(criteria);
    SortByKeySortedPermutation(Results(teams, teamScores, juries, criteria), (r: TeamResult) => ResultKey(sorted, r));
  }

  /** Every earlier result beats or ties every later one under the comparator:
      higher total, then higher criterion sums in priority order, then more
      perfect scores, then less spread. */
  lemma RankedResultsOrdered(teams: seq<Team>, teamScores: seq<TeamScore>, juries: seq<Jury>, criteria: seq<Criterion>)
    ensures var r := RankedResults(teams, teamScores, juries, criteria);
            forall i, j :: 0 <= i < j < |r| ==> ComesFirst(ByPriority(criteria), r[i], r[j])
  {
    var sorted := ByPriority(criteria);
    var key := (r: TeamResult) => ResultKey(sorted, r);
    var r := RankedResults(teams, teamScores, juries, criteria);
    SortByKeySortedPermutation(Results(teams, teamScores, juries, criteria), key);
    forall i, j | 0 <= i < j < |r| ensures ComesFirst(sorted, r[i], r[j]) {
      assert !LexLt(key(r[j]), key(r[i]));
      KeyOrderIsComparator(sorted, r[i], r[j]);
    }
  }

  /** Results the comparator cannot separate keep the team order. */
  lemma RankedResultsStable(teams: seq<Team>, teamScores: seq<TeamScore>, juries: seq<Jury>, criteria: seq<Criterion>, k: seq<real>)
    ensures var key := (r: TeamResult) => ResultKey(ByPriority(criteria), r);
            WithKey(RankedResults(teams, teamScores, juries, criteria), key, k)
              == WithKey(Results(teams, teamScores, juries, criteria), key, k)
  {
    SortByKeyStable(Results(teams, teamScores, juries, criteria), (r: TeamResult) => ResultKey(ByPriority(criteria), r), k);
  }

  /** The fields of one team's result: totals add up the jury lines, the
      average divides by the number of juries (0 without juries), each
      criterion sum is its column's sum and the perfect count is bounded. */
  lemma ResultForFacts(team: Team, teamScores: seq<TeamScore>, juries: seq<Jury>, criteria: seq<Criterion>)
    ensures var r := ResultFor(team, teamScores, juries, criteria);
            && r.teamId == team.id
            && |r.juryScores| == |juries|
            && r.totalScore == Sum(LineTotals(r.juryScores))
            && (forall c :: c in criteria ==> Get(r.criterionScores, c.id) == Some(ColumnSum(r.juryScores, c.id)))
            && r.perfectScoresCount <= |criteria| * |juries|
            && r.variance >= 0.0
            && NoWhitespace(r.platformName)
  {
    var lines := JuryLines(team, juries, teamScores);
    CriterionScoresAt(criteria, lines);
    PerfectCountBounds(criteria, lines);
    VarianceZero(LineTotals(lines));
  }

  lemma ResultsSnoc(teams: seq<Team>, t: nat, teamScores: seq<TeamScore>, juries: seq<Jury>, criteria: seq<Criterion>)
    requires t < |teams|
    ensures Results(teams[..t + 1], teamScores, juries, criteria)
         == Results(teams[..t], teamScores, juries, criteria) + [ResultFor(teams[t], teamScores, juries, criteria)]
  {
    assert teams[..t + 1][..t] == teams[..t];
  }

  /** The `teams.map` callback, with its two counting loops. */
  method ComputeResult(team: Team, teamScores: seq<TeamScore>, juries: seq<Jury>, criteria: seq<Criterion>) returns (r: TeamResult)
    ensures r == ResultFor(team, teamScores, juries, criteria)
  {
    var lines := JuryLines(team, juries, teamScores);
    var totalScore := Sum(LineTotals(lines));
    var criterionScores := FillCriterionScores(criteria, lines);
    var averageScore := if |juries| > 0 then totalScore / |juries| as real else 0.0;
    assert averageScore == Average(totalScore, |juries|);
    var perfect := CountPerfectScores(criteria, lines);
    r := TeamResult(team.id, team.name, ReplaceWhitespaceRuns(team.name), totalScore, averageScore,
                    criterionScores, lines, perfect, Variance(LineTotals(lines)));
  }

  /** `calculateResults`: one result per team, then the tie-break sort. */
  method CalculateResults(teams: seq<Team>, teamScores: seq<TeamScore>, juries: seq<Jury>, criteria: seq<Criterion>)
    returns (results: seq<TeamResult>)
    ensures results == RankedResults(teams, teamScores, juries, criteria)
  {
    var sorted := ByPriority(criteria);
    var unsorted: seq<TeamResult> := [];
    var t := 0;
    while t < |teams|
      invariant 0 <= t <= |teams|
      invariant unsorted == Results(teams[..t], teamScores, juries, criteria)
    {
      var r := ComputeResult(teams[t], teamScores, juries, criteria);
      ResultsSnoc(teams, t, teamScores, juries, criteria);
      unsorted := unsorted + [r];
      t := t + 1;
    }
    assert teams[..t] == teams;
    results := SortByKey(unsorted, (r: TeamResult) => ResultKey(sorted, r));
  }

  // ---------------------------------------------------------------------
  // calculateResults, older client

  datatype LegacyResult = LegacyResult(teamId: string, teamName: string, totalScore: real, juryScores: seq<JuryLine>)

  function LegacyResultFor(team: Team, teamScores: seq<TeamScore>, juries: seq<Jury>): LegacyResult {
    var lines := JuryLines(team, juries, teamScores);
    LegacyResult(team.id, team.name, Sum(LineTotals(lines)), lines)
  }

  function LegacyResults(teams: seq<Team>, teamScores: seq<TeamScore>, juries: seq<Jury>): (r: seq<LegacyResult>)
    ensures |r| == |teams|
    ensures forall i :: 0 <= i < |teams| ==> r[i] == LegacyResultFor(teams[i], teamScores, juries)
  {
    if teams == [] then []
    else LegacyResults(teams[..|teams| - 1], teamScores, juries) + [LegacyResultFor(teams[|teams| - 1], teamScores, juries)]
  }

  function LegacyKey(r: LegacyResult): seq<real> {
    [-r.totalScore]
  }

  /** `results.sort((a, b) => b.totalScore - a.totalScore)`. */
  function LegacyRanked(teams: seq<Team>, teamScores: seq<TeamScore>, juries: seq<Jury>): seq<LegacyResult> {
    SortByKey(LegacyResults(teams, teamScores, juries), LegacyKey)
  }

  /** One result per team. */
  lemma LegacyRankedPermutation(teams: seq<Team>, teamScores: seq<TeamScore>, juries: seq<Jury>)
    ensures multiset(LegacyRanked(teams, teamScores, juries)) == multiset(LegacyResults(teams, teamScores, juries))
  {
    SortByKeySortedPermutation(LegacyResults(teams, teamScores, juries), LegacyKey);
  }

  /** Highest total first. */
  lemma LegacyRankedDescending(teams: seq<Team>, teamScores: seq<TeamScore>, juries: seq<Jury>)
    ensures var r := LegacyRanked(teams, teamScores, juries);
            forall i, j :: 0 <= i < j < |r| ==> r[i].totalScore >= r[j].totalScore
  {
    var r := LegacyRanked(teams, teamScores, juries);
    SortByKeySortedPermutation(LegacyResults(teams, teamScores, juries), LegacyKey);
    forall i, j | 0 <= i < j < |r| ensures r[i].totalScore >= r[j].totalScore {
      assert !LexLt(LegacyKey(r[j]), LegacyKey(r[i]));
    }
  }

  /** Teams with the same total keep the team order. */
  lemma LegacyRankedStable(teams: seq<Team>, teamScores: seq<TeamScore>, juries: seq<Jury>, total: real)
    ensures WithKey(LegacyRanked(teams, teamScores, juries), LegacyKey, [-total])
         == WithKey(LegacyResults(teams, teamScores, juries), LegacyKey, [-total])
  {
    SortByKeyStable(LegacyResults(teams, teamScores, juries), LegacyKey, [-total]);
  }

  /** Both clients give a team the same total and the same jury lines. */
  lemma GenerationsAgree(team: Team, teamScores: seq<TeamScore>, juries: seq<Jury>, criteria: seq<Criterion>)
    ensures LegacyResultFor(team, teamScores, juries).totalScore == ResultFor(team, teamScores, juries, criteria).totalScore
    ensures LegacyResultFor(team, teamScores, juries).juryScores == ResultFor(team, teamScores, juries, criteria).juryScores
  {
  }

  // ---------------------------------------------------------------------
  // areAllTeamsScored

  predicate HasLocked(teamScores: seq<TeamScore>, juryId: string, teamId: string) {
    exists s :: s in teamScores && s.jury == juryId && s.team == teamId && s.locked
  }

  /** Some team and some jury, and a locked record for every pair. */
  predicate AllTeamsScored(teams: seq<Team>, juries: seq<Jury>, teamScores: seq<TeamScore>) {
    |teams| > 0 && |juries| > 0
    && forall i, j :: 0 <= i < |teams| && 0 <= j < |juries| ==> HasLocked(teamScores, juries[j].id, teams[i].id)
  }

  /** The nested `for ... of` loops with their early `return false`. */
  method AreAllTeamsScored(teams: seq<Team>, juries: seq<Jury>, teamScores: seq<TeamScore>) returns (r: bool)
    ensures r == AllTeamsScored(teams, juries, teamScores)
  {
    if |teams| == 0 || |juries| == 0 {
      return false;
    }
    var i := 0;
    while i < |teams|
      invariant 0 <= i <= |teams|
      invariant forall i', j :: 0 <= i' < i && 0 <= j < |juries| ==> HasLocked(teamScores, juries[j].id, teams[i'].id)
    {
      var j := 0;
      while j < |juries|
        invariant 0 <= j <= |juries|
        invariant forall i', j' :: 0 <= i' < i && 0 <= j' < |juries| ==> HasLocked(teamScores, juries[j'].id, teams[i'].id)
        invariant forall j' :: 0 <= j' < j ==> HasLocked(teamScores, juries[j'].id, teams[i].id)
      {
        var score := FindLockedScore(teamScores, juries[j].id, teams[i].id);
        if score.None? {
          return false;
        }
        j := j + 1;
      }
      i := i + 1;
    }
    return true;
  }

  // ---------------------------------------------------------------------
  // getJuryProgress

  datatype Progress = Progress(scored: nat, total: nat, percentage: int)

  /** `teamScores.filter(ts => ts.jury === juryId && ts.locked).length`. */
  function LockedCount(juryId: string, teamScores: seq<TeamScore>): nat
    decreases |teamScores|
  {
    if teamScores == [] then 0
    else (if teamScores[0].jury == juryId && teamScores[0].locked then 1 else 0) + LockedCount(juryId, teamScores[1..])
  }

  function GetJuryProgress(juryId: string, teams: seq<Team>, teamScores: seq<TeamScore>): (r: Progress)
    ensures r.total == |teams| && r.scored == LockedCount(juryId, teamScores)
    ensures r.total == 0 ==> r.percentage == 0
    ensures r.total > 0 ==> 2 * r.total * r.percentage <= 200 * r.scored + r.total < 2 * r.total * r.percentage + 2 * r.total
  {
    var total := |teams|;
    var scored := LockedCount(juryId, teamScores);
    Progress(scored, total, if total > 0 then RoundHalfUp(scored * 100, total) else 0)
  }

  /** The teams for which the jury holds a locked record. */
  function LockedTeams(juryId: string, teamScores: seq<TeamScore>): set<string> {
    set s | s in teamScores && s.jury == juryId && s.locked :: s.team
  }

  lemma {:induction false} LockedTeamsCount(juryId: string, teamScores: seq<TeamScore>)
    ensures |LockedTeams(juryId, teamScores)| <= LockedCount(juryId, teamScores)
    decreases |teamScores|
  {
    if teamScores != [] {
      var s0, rest := teamScores[0], teamScores[1..];
      LockedTeamsCount(juryId, rest);
      assert teamScores == [s0] + rest;
      if s0.jury == juryId && s0.locked {
        assert LockedTeams(juryId, teamScores) == LockedTeams(juryId, rest) + {s0.team};
      } else {
        assert LockedTeams(juryId, teamScores) == LockedTeams(juryId, rest);
      }
    }
  }

  function TeamIds(teams: seq<Team>): set<string> {
    set t | t in teams :: t.id
  }

  predicate DistinctTeamIds(teams: seq<Team>) {
    forall i, j :: 0 <= i < j < |teams| ==> teams[i].id != teams[j].id
  }

  lemma {:induction false} TeamIdsCard(teams: seq<Team>)
    requires DistinctTeamIds(teams)
    ensures |TeamIds(teams)| == |teams|
    decreases |teams|
  {
    if teams != [] {
      var rest := teams[1..];
      TeamIdsCard(rest);
      assert teams == [teams[0]] + rest;
      assert TeamIds(teams) == TeamIds(rest) + {teams[0].id};
      assert teams[0].id !in TeamIds(rest);
    }
  }

  /** Once every pair is locked, each jury's progress reaches 100 % (with one
      record per team it is exactly 100 %). */
  lemma AllScoredMeansFullProgress(teams: seq<Team>, juries: seq<Jury>, teamScores: seq<TeamScore>, j: nat)
    requires AllTeamsScored(teams, juries, teamScores) && DistinctTeamIds(teams) && j < |juries|
    ensures GetJuryProgress(juries[j].id, teams, teamScores).scored >= |teams|
    ensures GetJuryProgress(juries[j].id, teams, teamScores).percentage >= 100
  {
    var juryId := juries[j].id;
    forall id | id in TeamIds(teams) ensures id in LockedTeams(juryId, teamScores) {
      var t :| t in teams && t.id == id;
      var i :| 0 <= i < |teams| && teams[i] == t;
      assert HasLocked(teamScores, juryId, teams[i].id);
    }
    TeamIdsCard(teams);
    SubsetCard(TeamIds(teams), LockedTeams(juryId, teamScores));
    LockedTeamsCount(juryId, teamScores);
    var p := GetJuryProgress(juryId, teams, teamScores);
    if p.percentage < 100 {
      MulLeft(p.percentage, 99, 2 * p.total);
      assert false;
    }
  }

  /** The percentage stays in [0, 100] while the count does not exceed the teams. */
  lemma JuryProgressBounds(juryId: string, teams: seq<Team>, teamScores: seq<TeamScore>)
    requires LockedCount(juryId, teamScores) <= |teams|
    ensures 0 <= GetJuryProgress(juryId, teams, teamScores).percentage <= 100
  {
    if |teams| > 0 {
      PercentageBounds(LockedCount(juryId, teamScores), |teams|);
    }
  }
}
