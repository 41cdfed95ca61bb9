/** The jury's score sheet: the clamp every input goes through, the
    weighted total the newer team page shows against its maximum, and the
    initial score maps. */
module ScoreRules {
  import opened Util
  import opened Assoc
  import opened ClientTypes

  /** `Math.max(0, Math.min(value, max))`. */
  function Clamp(value: real, max: real): (r: real)
    ensures r >= 0.0
    ensures max >= 0.0 ==> r <= max
    ensures 0.0 <= value <= max ==> r == value
    ensures value < 0.0 ==> r == 0.0
    ensures max >= 0.0 && value > max ==> r == max
  {
    var m := if value < max then value else max;
    if 0.0 > m then 0.0 else m
  }

  function CriterionIds(criteria: seq<Criterion>): (r: seq<string>)
    ensures |r| == |criteria|
    ensures forall i :: 0 <= i < |criteria| ==> r[i] == criteria[i].id
  {
    if criteria == [] then [] else [criteria[0].id] + CriterionIds(criteria[1..])
  }

  lemma CriterionIdsMembers(criteria: seq<Criterion>)
    ensures forall k :: k in CriterionIds(criteria) <==> exists c :: c in criteria && c.id == k
  {
    forall k | k in CriterionIds(criteria) ensures exists c :: c in criteria && c.id == k {
      var i :| 0 <= i < |criteria| && CriterionIds(criteria)[i] == k;
      assert criteria[i] in criteria;
    }
    forall k | exists c :: c in criteria && c.id == k ensures k in CriterionIds(criteria) {
      var c :| c in criteria && c.id == k;
      var i :| 0 <= i < |criteria| && criteria[i] == c;
      assert CriterionIds(criteria)[i] == k;
    }
  }

  /** Criteria as the admin pages keep them: distinct ids, a non-negative
      maximum and no negative weight. */
  predicate ValidCriteria(criteria: seq<Criterion>) {
    && (forall i, j :: 0 <= i < j < |criteria| ==> criteria[i].id != criteria[j].id)
    && (forall c :: c in criteria ==> c.maxScore >= 0.0 && (c.weight.None? || c.weight.value >= 0.0))
  }

  /** Every entry names a criterion and lies between 0 and that criterion's maximum. */
  predicate Clamped(m: seq<(string, real)>, criteria: seq<Criterion>) {
    forall i :: 0 <= i < |m| ==>
      FindCriterion(criteria, m[i].0).Some? && 0.0 <= m[i].1 <= FindCriterion(criteria, m[i].0).value.maxScore
  }

  /** Zero scores for every criterion are clamped. */
  lemma ZeroScoresClamped(criteria: seq<Criterion>)
    requires ValidCriteria(criteria)
    ensures Clamped(Fill(CriterionIds(criteria), 0.0), criteria)
    ensures DistinctKeys(Fill(CriterionIds(criteria), 0.0))
  {
    var m := Fill(CriterionIds(criteria), 0.0);
    FillAt(CriterionIds(criteria), 0.0);
    CriterionIdsMembers(criteria);
    forall i | 0 <= i < |m|
      ensures FindCriterion(criteria, m[i].0).Some? && 0.0 <= m[i].1 <= FindCriterion(criteria, m[i].0).value.maxScore
    {
      assert m[i].0 in Keys(m);
      assert Get(m, m[i].0) == Some(m[i].1) by {
        var j :| 0 <= j < |m| && m[j] == (m[i].0, Get(m, m[i].0).value);
        assert i == j;
      }
    }
  }

  /** Overwriting one known criterion's entry with an in-range value keeps
      every entry in range. */
  lemma PutStaysClamped(m: seq<(string, real)>, criteria: seq<Criterion>, id: string, v: real)
    requires Clamped(m, criteria) && DistinctKeys(Put(m, id, v))
    requires FindCriterion(criteria, id).Some? && 0.0 <= v <= FindCriterion(criteria, id).value.maxScore
    requires forall k :: Get(Put(m, id, v), k) == if k == id then Some(v) else Get(m, k)
    ensures Clamped(Put(m, id, v), criteria)
  {
    var m' := Put(m, id, v);
    forall i | 0 <= i < |m'|
      ensures FindCriterion(criteria, m'[i].0).Some? && 0.0 <= m'[i].1 <= FindCriterion(criteria, m'[i].0).value.maxScore
    {
      var k := m'[i].0;
      assert k in Keys(m');
      var j :| 0 <= j < |m'| && m'[j] == (k, Get(m', k).value);
      assert i == j;
      if k != id {
        var j' :| 0 <= j' < |m| && m[j'] == (k, Get(m, k).value);
      }
    }
  }

  /** Entering a value for a known criterion keeps the sheet clamped and
      changes no other entry. */
  lemma ScoreChangeKeepsClamped(m: seq<(string, real)>, criteria: seq<Criterion>, id: string, value: real)
    requires ValidCriteria(criteria) && Clamped(m, criteria) && DistinctKeys(m)
    requires FindCriterion(criteria, id).Some?
    ensures var m' := Put(m, id, Clamp(value, FindCriterion(criteria, id).value.maxScore));
            && Clamped(m', criteria) && DistinctKeys(m')
            && Get(m', id) == Some(Clamp(value, FindCriterion(criteria, id).value.maxScore))
            && forall k :: k != id ==> Get(m', k) == Get(m, k)
  {
    var v := Clamp(value, FindCriterion(criteria, id).value.maxScore);
    var m' := Put(m, id, v);
    PutKeys(m, id, v);
    forall k ensures Get(m', k) == if k == id then Some(v) else Get(m, k) {
      GetPut(m, id, v, k);
    }
    PutStaysClamped(m, criteria, id, v);
  }

  // ---------------------------------------------------------------------
  // Weighted total of the newer team page

  /** `criterion?.weight || 1.0`: a missing criterion, an absent weight and a
      zero weight all count once. */
  function WeightOf(criteria: seq<Criterion>, id: string): (w: real)
    ensures FindCriterion(criteria, id).None? ==> w == 1.0
    ensures FindCriterion(criteria, id).Some? ==> w == OrNum(FindCriterion(criteria, id).value.weight, 1.0)
  {
    match FindCriterion(criteria, id)
    case None => 1.0
    case Some(c) => OrNum(c.weight, 1.0)
  }

  /** One entry's contribution, `score * weight`. */
  function Term(e: (string, real), criteria: seq<Criterion>): real {
    e.1 * WeightOf(criteria, e.0)
  }

  /** `Σ score × weight` over the sheet's entries. */
  function WeightedTotal(m: seq<(string, real)>, criteria: seq<Criterion>): real
    decreases |m|
  {
    if m == [] then 0.0
    else WeightedTotal(m[..|m| - 1], criteria) + Term(m[|m| - 1], criteria)
  }

  /** The most one criterion can add, `max_score * (weight || 1.0)`. */
  function Cap(c: Criterion): real {
    c.maxScore * OrNum(c.weight, 1.0)
  }

  /** `criteria.reduce((sum, c) => sum + c.max_score * (c.weight || 1.0), 0)`. */
  function MaxTotal(criteria: seq<Criterion>): real
    decreases |criteria|
  {
    if criteria == [] then 0.0
    else MaxTotal(criteria[..|criteria| - 1]) + Cap(criteria[|criteria| - 1])
  }

  /** `Math.round(x * 100) / 100`: the nearest hundredth, halves upward. */
  function RoundCents(x: real): (r: real)
    ensures r * 100.0 <= x * 100.0 + 0.5 < r * 100.0 + 1.0
    ensures x - 0.005 < r <= x + 0.005
    ensures x >= 0.0 ==> r >= 0.0
  {
    ((x * 100.0 + 0.5).Floor as real) / 100.0
  }

  lemma MulMonotone(a: real, b: real, w: real)
    requires a <= b && w >= 0.0
    ensures a * w <= b * w
  {
    if a < b && w > 0.0 {
      assert (b - a) * w > 0.0;
    }
  }

  lemma MulNonNegative(a: real, w: real)
    requires a >= 0.0 && w >= 0.0
    ensures a * w >= 0.0
  {
    MulMonotone(0.0, a, w);
  }

  /** An in-range score with a non-negative weight `w` adds between 0
      and `max_score * w`. */
  lemma TermWithin(c: Criterion, v: real, criteria: seq<Criterion>)
    requires WeightOf(criteria, c.id) == OrNum(c.weight, 1.0)
    requires 0.0 <= v <= c.maxScore && (c.weight.None? || c.weight.value >= 0.0)
    ensures 0.0 <= Term((c.id, v), criteria) <= Cap(c)
  {
    var w := OrNum(c.weight, 1.0);
    MulMonotone(v, c.maxScore, w);
    MulNonNegative(v, w);
  }

  /** An in-range score of a criterion with a non-negative weight adds
      between 0 and that criterion's cap. */
  lemma TermAtMostCap(c: Criterion, v: real, criteria: seq<Criterion>)
    requires FindCriterion(criteria, c.id) == Some(c)
    requires 0.0 <= v <= c.maxScore && (c.weight.None? || c.weight.value >= 0.0)
    ensures 0.0 <= Term((c.id, v), criteria) <= Cap(c)
  {
    assert WeightOf(criteria, c.id) == OrNum(c.weight, 1.0);
    TermWithin(c, v, criteria);
  }

  lemma CapNonNegative(c: Criterion)
    requires c.maxScore >= 0.0 && (c.weight.None? || c.weight.value >= 0.0)
    ensures Cap(c) >= 0.0
  {
    MulNonNegative(c.maxScore, OrNum(c.weight, 1.0));
  }

  /** A criterion added after the others is found only under its own id. */
  lemma {:induction false} FindCriterionSnoc(criteria: seq<Criterion>, c: Criterion, id: string)
    ensures FindCriterion(criteria + [c], id)
         == if FindCriterion(criteria, id).Some? then FindCriterion(criteria, id)
            else if c.id == id then Some(c) else None
  {
    if criteria == [] {
      assert criteria + [c] == [c];
    } else {
      assert (criteria + [c])[1..] == criteria[1..] + [c];
      FindCriterionSnoc(criteria[1..], c, id);
    }
  }

  lemma {:induction false} WeightedTotalSnoc(m: seq<(string, real)>, e: (string, real), criteria: seq<Criterion>)
    ensures WeightedTotal(m + [e], criteria) == WeightedTotal(m, criteria) + Term(e, criteria)
  {
    assert (m + [e])[..|m|] == m;
  }

  /** One step of `WeightedTotalWithout` for a last entry under another key. */
  lemma WithoutOtherStep(init: seq<(string, real)>, e: (string, real), k: string, criteria: seq<Criterion>)
    requires e.0 != k
    requires WeightedTotal(init, criteria)
          == WeightedTotal(Without(init, k), criteria) + (if Get(init, k).Some? then Term((k, Get(init, k).value), criteria) else 0.0)
    ensures WeightedTotal(init + [e], criteria)
         == WeightedTotal(Without(init + [e], k), criteria) + (if Get(init + [e], k).Some? then Term((k, Get(init + [e], k).value), criteria) else 0.0)
  {
    var m := init + [e];
    assert m[..|m| - 1] == init;
    WeightedTotalSnoc(init, e, criteria);
    assert Without(m, k) == Without(init, k) + [e];
    GetSnoc(init, e, k);
    WeightedTotalSnoc(Without(init, k), e, criteria);
  }

  /** One step of `WeightedTotalWithout` for a last entry under `k`. */
  lemma WithoutSameStep(init: seq<(string, real)>, e: (string, real), k: string, criteria: seq<Criterion>)
    requires e.0 == k && k !in Keys(init)
    requires WeightedTotal(init, criteria)
          == WeightedTotal(Without(init, k), criteria) + (if Get(init, k).Some? then Term((k, Get(init, k).value), criteria) else 0.0)
    ensures WeightedTotal(init + [e], criteria)
         == WeightedTotal(Without(init + [e], k), criteria) + (if Get(init + [e], k).Some? then Term((k, Get(init + [e], k).value), criteria) else 0.0)
  {
    var m := init + [e];
    assert m[..|m| - 1] == init;
    WeightedTotalSnoc(init, e, criteria);
    assert Without(m, k) == Without(init, k);
    GetSnoc(init, e, k);
  }

  /** The entry under `k` taken out of the sum on its own. */
  lemma {:induction false} WeightedTotalWithout(m: seq<(string, real)>, k: string, criteria: seq<Criterion>)
    requires DistinctKeys(m)
    ensures WeightedTotal(m, criteria)
         == WeightedTotal(Without(m, k), criteria) + (if Get(m, k).Some? then Term((k, Get(m, k).value), criteria) else 0.0)
    decreases |m|
  {
    if m != [] {
      var init, e := m[..|m| - 1], m[|m| - 1];
      assert m == init + [e];
      assert DistinctKeys(init);
      WeightedTotalWithout(init, k, criteria);
      if e.0 != k {
        WithoutOtherStep(init, e, k, criteria);
      } else {
        assert k !in Keys(init) by {
          forall i | 0 <= i < |init| ensures init[i].0 != k {
            assert m[i] == init[i];
          }
        }
        WithoutSameStep(init, e, k, criteria);
      }
    }
  }

  /** Dropping a criterion no entry uses changes no weight. */
  lemma {:induction false} WeightedTotalDropCriterion(m: seq<(string, real)>, criteria: seq<Criterion>, c: Criterion)
    requires forall e :: e in m ==> e.0 != c.id
    ensures WeightedTotal(m, criteria + [c]) == WeightedTotal(m, criteria)
    decreases |m|
  {
    if m != [] {
      var init, e := m[..|m| - 1], m[|m| - 1];
      assert forall e' :: e' in init ==> e' in m;
      WeightedTotalDropCriterion(init, criteria, c);
      TermDropCriterion(e, criteria, c);
    }
  }

  /** An entry under another id weighs the same without the criterion. */
  lemma TermDropCriterion(e: (string, real), criteria: seq<Criterion>, c: Criterion)
    requires e.0 != c.id
    ensures Term(e, criteria + [c]) == Term(e, criteria)
  {
    WeightOfDropCriterion(criteria, c, e.0);
  }

  lemma WeightOfDropCriterion(criteria: seq<Criterion>, c: Criterion, id: string)
    requires id != c.id
    ensures WeightOf(criteria + [c], id) == WeightOf(criteria, id)
  {
    FindCriterionSnoc(criteria, c, id);
  }

  /** Without its last criterion the list is still valid, and no remaining
      criterion shares the last one's id. */
  lemma DropLastCriterion(criteria: seq<Criterion>)
    requires ValidCriteria(criteria) && criteria != []
    ensures ValidCriteria(criteria[..|criteria| - 1])
    ensures FindCriterion(criteria[..|criteria| - 1], criteria[|criteria| - 1].id).None?
  {
    var init, c := criteria[..|criteria| - 1], criteria[|criteria| - 1];
    assert forall x :: x in init ==> x in criteria;
    forall x | x in init ensures x.id != c.id {
      var i :| 0 <= i < |init| && init[i] == x;
      assert criteria[i] == x;
    }
  }

  /** The entries not under the last criterion's id are clamped against the others. */
  lemma RestClamped(m: seq<(string, real)>, criteria: seq<Criterion>)
    requires Clamped(m, criteria) && criteria != []
    ensures Clamped(Without(m, criteria[|criteria| - 1].id), criteria[..|criteria| - 1])
  {
    var init, c := criteria[..|criteria| - 1], criteria[|criteria| - 1];
    var rest := Without(m, c.id);
    assert criteria == init + [c];
    forall i | 0 <= i < |rest|
      ensures FindCriterion(init, rest[i].0).Some? && 0.0 <= rest[i].1 <= FindCriterion(init, rest[i].0).value.maxScore
    {
      assert rest[i] in rest;
      var j :| 0 <= j < |m| && m[j] == rest[i];
      FindCriterionSnoc(init, c, rest[i].0);
    }
  }

  /** The total shown is never above the "points possibles": every entry
      names a current criterion, lies within its range and weights are not
      negative. */
  lemma {:induction false} WeightedTotalAtMostMax(m: seq<(string, real)>, criteria: seq<Criterion>)
    requires ValidCriteria(criteria) && Clamped(m, criteria) && DistinctKeys(m)
    ensures 0.0 <= WeightedTotal(m, criteria) <= MaxTotal(criteria)
    decreases |criteria|
  {
    if criteria != [] {
      var init, c := criteria[..|criteria| - 1], criteria[|criteria| - 1];
      assert criteria == init + [c];
      var rest := Without(m, c.id);
      DropLastCriterion(criteria);
      RestClamped(m, criteria);
      FindCriterionSnoc(init, c, c.id);
      WeightedTotalAtMostMax(rest, init);
      WeightedTotalWithout(m, c.id, criteria);
      WeightedTotalDropCriterion(rest, init, c);
      assert c in criteria;
      CapNonNegative(c);
      var t := if Get(m, c.id).Some? then Term((c.id, Get(m, c.id).value), criteria) else 0.0;
      if Get(m, c.id).Some? {
        var v := Get(m, c.id).value;
        var j :| 0 <= j < |m| && m[j] == (c.id, v);
        TermAtMostCap(c, v, criteria);
      }
      assert WeightedTotal(m, criteria) == WeightedTotal(rest, init) + t;
    }
  }

  /** After rounding to hundredths the total exceeds the maximum by at most half a hundredth. */
  lemma RoundedTotalAtMostMax(m: seq<(string, real)>, criteria: seq<Criterion>)
    requires ValidCriteria(criteria) && Clamped(m, criteria) && DistinctKeys(m)
    ensures RoundCents(WeightedTotal(m, criteria)) <= MaxTotal(criteria) + 0.005
  {
    WeightedTotalAtMostMax(m, criteria);
  }

  /** The weighted sums `tests_scores.py` expects: 10 × 1.0 + 12 × 2.5 = 40
      and, for an id no criterion has, 10 × 1.0 = 10. */
  lemma WeightedTotalExamples()
    ensures var c1 := Criterion("1", "e", "Innovation", 20.0, 1, Some(1.0));
            var c2 := Criterion("2", "e", "Technique", 20.0, 2, Some(2.5));
            && WeightedTotal([("1", 10.0), ("2", 12.0)], [c1, c2]) == 40.0
            && WeightedTotal([("999", 10.0)], [c1, c2]) == 10.0
  {
    var c1 := Criterion("1", "e", "Innovation", 20.0, 1, Some(1.0));
    var c2 := Criterion("2", "e", "Technique", 20.0, 2, Some(2.5));
    assert WeightOf([c1, c2], "2") == 2.5;
    assert [("1", 10.0), ("2", 12.0)][..1] == [("1", 10.0)];
    assert [("999", 10.0)][..0] == [];
  }

  /** The older pages add raw values: the same rule with every weight absent. */
  function Unweighted(criteria: seq<Criterion>): (r: seq<Criterion>)
    ensures |r| == |criteria|
    ensures forall i :: 0 <= i < |criteria| ==> r[i] == criteria[i].(weight := None)
  {
    if criteria == [] then [] else Unweighted(criteria[..|criteria| - 1]) + [criteria[|criteria| - 1].(weight := None)]
  }

  /** `criteria.reduce((sum, c) => sum + c.maxScore, 0)`. */
  function MaxScoreSum(criteria: seq<Criterion>): real
    decreases |criteria|
  {
    if criteria == [] then 0.0 else MaxScoreSum(criteria[..|criteria| - 1]) + criteria[|criteria| - 1].maxScore
  }

  lemma {:induction false} FindCriterionUnweighted(criteria: seq<Criterion>, id: string)
    ensures FindCriterion(Unweighted(criteria), id).Some? == FindCriterion(criteria, id).Some?
    ensures FindCriterion(criteria, id).Some? ==>
              FindCriterion(Unweighted(criteria), id).value == FindCriterion(criteria, id).value.(weight := None)
    decreases |criteria|
  {
    if criteria != [] {
      var u := Unweighted(criteria);
      assert u[1..] == Unweighted(criteria[1..]);
      FindCriterionUnweighted(criteria[1..], id);
    }
  }

  /** With every weight absent the weighted total is the plain sum. */
  lemma {:induction false} UnweightedTotal(m: seq<(string, real)>, criteria: seq<Criterion>)
    ensures WeightedTotal(m, Unweighted(criteria)) == SumValues(m)
    decreases |m|
  {
    if m != [] {
      var init, e := m[..|m| - 1], m[|m| - 1];
      UnweightedTotal(init, criteria);
      FindCriterionUnweighted(criteria, e.0);
      assert WeightOf(Unweighted(criteria), e.0) == 1.0;
      SumValuesSnoc(m);
    }
  }

  /** With every weight absent the maximum is the sum of the maxima. */
  lemma {:induction false} UnweightedMax(criteria: seq<Criterion>)
    ensures MaxTotal(Unweighted(criteria)) == MaxScoreSum(criteria)
    decreases |criteria|
  {
    if criteria != [] {
      var init := criteria[..|criteria| - 1];
      UnweightedMax(init);
      assert Unweighted(criteria)[..|criteria| - 1] == Unweighted(init);
    }
  }

  /** The older team page: the raw sum of a clamped sheet stays within the sum of the maxima. */
  lemma UnweightedTotalAtMostMax(m: seq<(string, real)>, criteria: seq<Criterion>)
    requires ValidCriteria(criteria) && Clamped(m, criteria) && DistinctKeys(m)
    ensures 0.0 <= SumValues(m) <= MaxScoreSum(criteria)
  {
    var u := Unweighted(criteria);
    forall i | 0 <= i < |m|
      ensures FindCriterion(u, m[i].0).Some? && 0.0 <= m[i].1 <= FindCriterion(u, m[i].0).value.maxScore
    {
      FindCriterionUnweighted(criteria, m[i].0);
    }
    assert ValidCriteria(u) by {
      forall c | c in u ensures c.maxScore >= 0.0 && c.weight.None? {
        var i :| 0 <= i < |u| && u[i] == c;
        assert criteria[i] in criteria;
      }
    }
    WeightedTotalAtMostMax(m, u);
    UnweightedTotal(m, criteria);
    UnweightedMax(criteria);
  }

  // ---------------------------------------------------------------------
  // Which criteria a jury scores

  /** The criteria the newer scoring page initialises: the assignment ones
      when the list is non-empty, all otherwise. */
  function VisibleCriteria(assignment: Option<seq<string>>, criteria: seq<Criterion>): seq<Criterion> {
    if assignment.Some? && |assignment.value| > 0 then AssignedOnly(assignment.value, criteria) else criteria
  }

  function AssignedOnly(assignment: seq<string>, criteria: seq<Criterion>): (r: seq<Criterion>)
    ensures forall c :: c in r <==> c in criteria && c.id in assignment
  {
    if criteria == [] then []
    else (if criteria[0].id in assignment then [criteria[0]] else []) + AssignedOnly(assignment, criteria[1..])
  }

  /** The table row filter: no assignment list, an empty one, or the id is on it. */
  predicate ShownInTable(assignment: Option<seq<string>>, c: Criterion) {
    assignment.None? || |assignment.value| == 0 || c.id in assignment.value
  }

  /** The criteria that get a starting 0 are exactly the rows the table shows. */
  lemma VisibleMatchesTable(assignment: Option<seq<string>>, criteria: seq<Criterion>)
    ensures forall c :: c in VisibleCriteria(assignment, criteria) <==> c in criteria && ShownInTable(assignment, c)
  {
  }

  /** `!s.trim() || s.trim().length < 10` refuses; at least ten characters
      after trimming are needed. */
  predicate FeedbackAccepted(globalComments: string) {
    !(Trim(globalComments) == "" || |Trim(globalComments)| < 10)
  }

  /** Ten characters after trimming are needed, so blank feedback of any
      length and anything shorter than ten characters are refused. */
  lemma FeedbackRule(globalComments: string)
    ensures FeedbackAccepted(globalComments) <==> |Trim(globalComments)| >= 10
    ensures FeedbackAccepted(globalComments) ==> |globalComments| >= 10
    ensures (forall i :: 0 <= i < |globalComments| ==> IsWhitespace(globalComments[i]))
            ==> !FeedbackAccepted(globalComments)
  {
    if forall i :: 0 <= i < |globalComments| ==> IsWhitespace(globalComments[i]) {
      TrimOfBlank(globalComments);
    }
  }
}
