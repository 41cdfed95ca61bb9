/** The newer client's criteria screen: the form check, the loop that keeps
    each criterion assigned to one jury at most, the default priority of a
    new criterion, the priority order and the total of the maximum scores.
    The form's text fields are taken as already converted numbers. */
module ManageCriteria {
  import opened Util
  import opened ListOps
  import opened Sorting
  import opened ClientTypes
  import opened Calculations

  // ---------------------------------------------------------------------
  // handleSubmit: the criterion itself

  /** The criterion call `handleSubmit` makes. An edit sends no weight, so
      the stored weight is kept. */
  datatype CriterionWrite =
    | NoCriterionWrite
    | UpdateCriterion(id: string, name: string, maxScore: real, priority: int, event: string)
    | AddCriterion(name: string, maxScore: real, weight: real, priority: int, event: string)

  /** The form check: a name, a positive maximum, a positive priority and
      a selected event. An empty number field is `None`. */
  predicate FormAccepted(name: string, maxScore: Option<real>, priority: Option<int>, currentEventId: Option<string>) {
    name != "" && maxScore.Some? && maxScore.value > 0.0 && priority.Some? && priority.value > 0 && TruthyStr(currentEventId)
  }

  function SubmitCriterion(editingId: Option<string>, name: string, maxScore: Option<real>, priority: Option<int>,
                           weight: real, currentEventId: Option<string>): (w: CriterionWrite)
    ensures w.NoCriterionWrite? <==> !FormAccepted(name, maxScore, priority, currentEventId)
    ensures w.UpdateCriterion? <==> FormAccepted(name, maxScore, priority, currentEventId) && TruthyStr(editingId)
    ensures w.UpdateCriterion? ==> w.id == editingId.value
    ensures !w.NoCriterionWrite? ==>
              w.name == name && w.maxScore == maxScore.value && w.priority == priority.value
              && w.event == currentEventId.value && w.maxScore > 0.0 && w.priority > 0
    ensures w.AddCriterion? ==> w.weight == weight
  {
    if !FormAccepted(name, maxScore, priority, currentEventId) then NoCriterionWrite
    else if TruthyStr(editingId) then UpdateCriterion(editingId.value, name, maxScore.value, priority.value, currentEventId.value)
    else AddCriterion(name, maxScore.value, weight, priority.value, currentEventId.value)
  }

  /** What an edit does to the stored criterion: the weight and the id stay. */
  function ApplyEdit(c: Criterion, w: CriterionWrite): (r: Criterion)
    requires w.UpdateCriterion?
    ensures r.id == c.id && r.weight == c.weight
    ensures r.name == w.name && r.maxScore == w.maxScore && r.priority == w.priority && r.event == w.event
  {
    c.(name := w.name, maxScore := w.maxScore, priority := w.priority, event := w.event)
  }

  // ---------------------------------------------------------------------
  // handleSubmit: one jury per criterion

  function Assignments(jury: User): seq<string> {
    jury.assignedCriteria.GetOr([])
  }

  /** Whether the loop writes to this jury: the selected jury lacks the
      criterion, or another jury has it. */
  predicate NeedsUpdate(selectedJuryId: string, targetId: string, jury: User) {
    if jury.id == selectedJuryId then targetId !in Assignments(jury) else targetId in Assignments(jury)
  }

  /** The jury's list after the loop: the criterion appended for the
      selected jury, removed for every other, the list kept when it is
      already right. */
  function AssignmentAfter(selectedJuryId: string, targetId: string, jury: User): seq<string> {
    var current := Assignments(jury);
    if !NeedsUpdate(selectedJuryId, targetId, jury) then current
    else if jury.id == selectedJuryId then current + [targetId]
    else Filter(current, (id: string) => id != targetId)
  }

  /** One `updateUser(jury.id, { assigned_criteria })` call. */
  datatype AssignmentWrite = AssignmentWrite(id: string, assignedCriteria: seq<string>)

  function NeedsUpdateFn(selectedJuryId: string, targetId: string): User -> bool {
    (jury: User) => NeedsUpdate(selectedJuryId, targetId, jury)
  }

  function ToAssignmentWrite(selectedJuryId: string, targetId: string): User -> AssignmentWrite {
    (jury: User) => AssignmentWrite(jury.id, AssignmentAfter(selectedJuryId, targetId, jury))
  }

  /** The `for (const jury of juries)` loop: one write per jury not yet in
      the wanted state, in jury order. */
  method AssignCriterion(juries: seq<User>, selectedJuryId: string, targetId: string)
    returns (writes: seq<AssignmentWrite>)
    ensures writes == Map(Filter(juries, NeedsUpdateFn(selectedJuryId, targetId)), ToAssignmentWrite(selectedJuryId, targetId))
    ensures |writes| <= |juries|
  {
    writes := PushKept(juries, NeedsUpdateFn(selectedJuryId, targetId), ToAssignmentWrite(selectedJuryId, targetId));
  }

  /** After the loop the criterion belongs to the selected jury and to no
      other; every other criterion of every jury is kept; and a jury is
      written to exactly when its list changes. */
  lemma OneJuryPerCriterion(selectedJuryId: string, targetId: string, jury: User)
    ensures targetId in AssignmentAfter(selectedJuryId, targetId, jury) <==> jury.id == selectedJuryId
    ensures forall c :: c != targetId ==>
              (c in AssignmentAfter(selectedJuryId, targetId, jury) <==> c in Assignments(jury))
    ensures NeedsUpdate(selectedJuryId, targetId, jury) <==>
              AssignmentAfter(selectedJuryId, targetId, jury) != Assignments(jury)
  {
    var current := Assignments(jury);
    var after := AssignmentAfter(selectedJuryId, targetId, jury);
    if NeedsUpdate(selectedJuryId, targetId, jury) {
      if jury.id == selectedJuryId {
        assert targetId in after && targetId !in current;
      } else {
        assert targetId in current && targetId !in after;
      }
    }
  }

  /** The writes name each updated jury once, with its new list, when the
      jury ids are distinct. */
  lemma AssignmentWritesFacts(juries: seq<User>, selectedJuryId: string, targetId: string, writes: seq<AssignmentWrite>)
    requires writes == Map(Filter(juries, NeedsUpdateFn(selectedJuryId, targetId)), ToAssignmentWrite(selectedJuryId, targetId))
    ensures forall j :: j in juries && NeedsUpdate(selectedJuryId, targetId, j) ==>
              AssignmentWrite(j.id, AssignmentAfter(selectedJuryId, targetId, j)) in writes
    ensures forall w :: w in writes ==>
              exists j :: j in juries && NeedsUpdate(selectedJuryId, targetId, j)
                          && w == AssignmentWrite(j.id, AssignmentAfter(selectedJuryId, targetId, j))
  {
    var kept := Filter(juries, NeedsUpdateFn(selectedJuryId, targetId));
    forall j | j in juries && NeedsUpdate(selectedJuryId, targetId, j)
      ensures AssignmentWrite(j.id, AssignmentAfter(selectedJuryId, targetId, j)) in writes
    {
      assert j in kept;
      var k :| 0 <= k < |kept| && kept[k] == j;
      assert writes[k] == AssignmentWrite(j.id, AssignmentAfter(selectedJuryId, targetId, j));
    }
    forall w | w in writes
      ensures exists j :: j in juries && NeedsUpdate(selectedJuryId, targetId, j)
                          && w == AssignmentWrite(j.id, AssignmentAfter(selectedJuryId, targetId, j))
    {
      var k :| 0 <= k < |writes| && writes[k] == w;
      assert kept[k] in kept;
    }
  }

  // ---------------------------------------------------------------------
  // Next priority, order and total

  /** The largest priority of a non-empty list. */
  function MaxPriority(criteria: seq<Criterion>): (m: int)
    requires criteria != []
    ensures forall c :: c in criteria ==> c.priority <= m
    ensures exists c :: c in criteria && c.priority == m
  {
    if |criteria| == 1 then criteria[0].priority
    else
      var rest := MaxPriority(criteria[1..]);
      assert forall c :: c in criteria ==> c == criteria[0] || c in criteria[1..];
      if criteria[0].priority >= rest then criteria[0].priority else rest
  }

  /** The priority a new criterion is offered: one more than the largest,
      or 1 for the first criterion. */
  function NextPriority(criteria: seq<Criterion>): (r: int)
    ensures criteria == [] ==> r == 1
    ensures forall c :: c in criteria ==> c.priority < r
    ensures criteria != [] ==> exists c :: c in criteria && c.priority == r - 1
  {
    if criteria != [] then MaxPriority(criteria) + 1 else 1
  }

  /** A criterion added with the offered priority comes last in the
      priority order, and the offer then moves one past it. */
  lemma NextPriorityComesLast(criteria: seq<Criterion>, c: Criterion)
    requires c.priority == NextPriority(criteria)
    ensures NextPriority(criteria + [c]) == c.priority + 1
    ensures Sorted(criteria, (x: Criterion) => [x.priority as real]) ==>
              Sorted(criteria + [c], (x: Criterion) => [x.priority as real])
  {
    var all := criteria + [c];
    assert c in all;
    forall x | x in all ensures x.priority <= c.priority {
      if x != c { assert x in criteria; }
    }
  }

  /** `sortedCriteria`: ascending priority, a permutation of the list, and
      criteria of equal priority in their list order. */
  lemma SortedCriteriaFacts(criteria: seq<Criterion>, k: seq<real>)
    ensures Sorted(ByPriority(criteria), (c: Criterion) => [c.priority as real])
    ensures multiset(ByPriority(criteria)) == multiset(criteria)
    ensures WithKey(ByPriority(criteria), (c: Criterion) => [c.priority as real], k)
            == WithKey(criteria, (c: Criterion) => [c.priority as real], k)
  {
    SortByKeySortedPermutation(criteria, (c: Criterion) => [c.priority as real]);
    SortByKeyStable(criteria, (c: Criterion) => [c.priority as real], k);
  }

  /** `criteria.reduce((sum, c) => sum + c.max_score, 0)`. */
  function TotalMaxScore(criteria: seq<Criterion>): real {
    if criteria == [] then 0.0 else criteria[0].maxScore + TotalMaxScore(criteria[1..])
  }

  lemma {:induction false} TotalMaxScoreAppend(a: seq<Criterion>, b: seq<Criterion>)
    ensures TotalMaxScore(a + b) == TotalMaxScore(a) + TotalMaxScore(b)
  {
    if a != [] {
      TotalMaxScoreAppend(a[1..], b);
      assert (a + b)[1..] == a[1..] + b;
    } else {
      assert a + b == b;
    }
  }

  /** Taking the first element out of one of two permutations and a
      matching element out of the other leaves two permutations. */
  lemma RemoveMatching<T>(a: seq<T>, b: seq<T>, k: nat)
    requires multiset(a) == multiset(b) && a != [] && k < |b| && b[k] == a[0]
    ensures multiset(a[1..]) == multiset(b[..k] + b[k + 1..])
  {
    var x, front, back := a[0], b[..k], b[k + 1..];
    assert a == [x] + a[1..];
    assert b == front + [x] + back;
    assert multiset(a) == multiset{x} + multiset(a[1..]);
    assert multiset(b) == multiset(front) + multiset{x} + multiset(back);
    assert multiset(front + back) == multiset(front) + multiset(back);
    assert multiset(a[1..]) == multiset(a) - multiset{x};
    assert multiset(front + back) == multiset(b) - multiset{x};
  }

  /** The total does not depend on the order of the criteria: the sorted
      list shows the same total. */
  lemma {:induction false} TotalMaxScorePermutation(a: seq<Criterion>, b: seq<Criterion>)
    requires multiset(a) == multiset(b)
    ensures TotalMaxScore(a) == TotalMaxScore(b)
    decreases |a|
  {
    if a != [] {
      var x := a[0];
      assert x in multiset(b);
      var k :| 0 <= k < |b| && b[k] == x;
      var front, back := b[..k], b[k + 1..];
      assert b == front + [x] + back;
      RemoveMatching(a, b, k);
      TotalMaxScorePermutation(a[1..], front + back);
      TotalMaxScoreAppend(front + [x], back);
      TotalMaxScoreAppend(front, [x]);
      TotalMaxScoreAppend(front, back);
      assert TotalMaxScore([x]) == x.maxScore;
      calc {
        TotalMaxScore(b);
        TotalMaxScore(front) + x.maxScore + TotalMaxScore(back);
        x.maxScore + TotalMaxScore(front + back);
        x.maxScore + TotalMaxScore(a[1..]);
        TotalMaxScore(a);
      }
    } else {
      assert b == [];
    }
  }

  lemma SortedTotalUnchanged(criteria: seq<Criterion>)
    ensures TotalMaxScore(ByPriority(criteria)) == TotalMaxScore(criteria)
  {
    SortByKeySortedPermutation(criteria, (c: Criterion) => [c.priority as real]);
    TotalMaxScorePermutation(ByPriority(criteria), criteria);
  }
}
