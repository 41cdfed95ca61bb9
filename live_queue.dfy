/** The newer client's live queue: the teams in passage order, the team
    being judged now, the next five, and the teams already judged by every
    jury. It reads the API's `passage_order` field. */
module LiveQueue {
  import opened Util
  import opened ListOps
  import opened Sorting
  import opened ClientTypes
  import opened ManageTeams

  /** `team.passage_order` is set and non-zero. */
  predicate HasOrder(t: Team) {
    t.apiPassageOrder.Some? && t.apiPassageOrder.value != 0
  }

  /** `team.passage_order || d`. */
  function OrderOr(t: Team, d: int): (r: int)
    ensures HasOrder(t) ==> r == t.apiPassageOrder.value
    ensures !HasOrder(t) ==> r == d
  {
    if HasOrder(t) then t.apiPassageOrder.value else d
  }

  /** The queue's sort key: the order, 999 when there is none. */
  function QueueKey(t: Team): seq<real> {
    [OrderOr(t, 999) as real]
  }

  /** `orderedTeams`. */
  function OrderedTeams(teams: seq<Team>): seq<Team> {
    SortByKey(teams, QueueKey)
  }

  /** Still waiting for some jury: ordered, with fewer locked records than
      there are jury users. */
  predicate Pending(t: Team, users: seq<User>, teamScores: seq<TeamScore>) {
    HasOrder(t) && LockedForTeam(t.id, teamScores) < |JuryUsers(users)|
  }

  /** Judged by every jury: ordered, with at least as many locked records
      as there are jury users. */
  predicate Done(t: Team, users: seq<User>, teamScores: seq<TeamScore>) {
    HasOrder(t) && LockedForTeam(t.id, teamScores) >= |JuryUsers(users)|
  }

  /** `orderedTeams.find(...)`: the first pending team of the queue. */
  function FirstPending(ordered: seq<Team>, users: seq<User>, teamScores: seq<TeamScore>): (r: Option<Team>)
    ensures r.None? <==> forall i :: 0 <= i < |ordered| ==> !Pending(ordered[i], users, teamScores)
    ensures r.Some? ==> exists i :: 0 <= i < |ordered| && ordered[i] == r.value && Pending(r.value, users, teamScores)
                          && forall j :: 0 <= j < i ==> !Pending(ordered[j], users, teamScores)
  {
    var i := FindIndex(ordered, (t: Team) => Pending(t, users, teamScores));
    if i == -1 then None else Some(ordered[i])
  }

  function CurrentTeam(teams: seq<Team>, users: seq<User>, teamScores: seq<TeamScore>): Option<Team> {
    FirstPending(OrderedTeams(teams), users, teamScores)
  }

  /** Whether a team belongs after the current one in the list of next teams. */
  predicate Upcoming(current: Option<Team>, t: Team) {
    HasOrder(t) && (current.None? || t.apiPassageOrder.value > OrderOr(current.value, 0))
  }

  function UpcomingFn(current: Option<Team>): Team -> bool {
    (t: Team) => Upcoming(current, t)
  }

  /** `slice(0, n)`. */
  function Take<T>(s: seq<T>, n: nat): (r: seq<T>)
    ensures |r| <= n && r <= s
    ensures |s| <= n ==> r == s
  {
    if |s| <= n then s else s[..n]
  }

  /** `nextTeams`. */
  function NextTeams(teams: seq<Team>, users: seq<User>, teamScores: seq<TeamScore>): seq<Team> {
    var ordered := OrderedTeams(teams);
    Take(Filter(ordered, UpcomingFn(FirstPending(ordered, users, teamScores))), 5)
  }

  function DoneFn(users: seq<User>, teamScores: seq<TeamScore>): Team -> bool {
    (t: Team) => Done(t, users, teamScores)
  }

  /** The sort key of the completed list: the order, highest first. */
  function DescendingKey(t: Team): seq<real> {
    [-(OrderOr(t, 0) as real)]
  }

  /** `completedTeams`. */
  function CompletedTeams(teams: seq<Team>, users: seq<User>, teamScores: seq<TeamScore>): seq<Team> {
    SortByKey(Filter(OrderedTeams(teams), DoneFn(users, teamScores)), DescendingKey)
  }

  /** Filtering an ordered list keeps it ordered. */
  lemma FilterSorted<T(!new)>(s: seq<T>, keep: T -> bool, key: T -> seq<real>)
    requires Sorted(s, key)
    ensures Sorted(Filter(s, keep), key)
  {
    FilterPairwise(s, keep, (x, y) => !LexLt(key(y), key(x)));
  }

  /** The queue holds every team once, in ascending order, a team without
      an order counted as 999. */
  lemma OrderedTeamsFacts(teams: seq<Team>)
    ensures multiset(OrderedTeams(teams)) == multiset(teams)
    ensures forall i, j :: 0 <= i < j < |OrderedTeams(teams)| ==>
              OrderOr(OrderedTeams(teams)[i], 999) <= OrderOr(OrderedTeams(teams)[j], 999)
  {
    SortByKeySortedPermutation(teams, QueueKey);
  }

  /** In a queue sorted by order, an ordered element that the first five
      leave out comes after all five. */
  lemma TakeSkipped(kept: seq<Team>, t: Team)
    requires Sorted(kept, QueueKey) && t in kept && t !in Take(kept, 5)
    requires forall u :: u in kept ==> HasOrder(u)
    ensures |Take(kept, 5)| == 5 && forall u :: u in Take(kept, 5) ==> OrderOr(u, 0) <= OrderOr(t, 0)
  {
    var next := Take(kept, 5);
    var k :| 0 <= k < |kept| && kept[k] == t;
    assert |kept| > 5;
    assert 5 <= k;
    forall u | u in next ensures OrderOr(u, 0) <= OrderOr(t, 0) {
      var i :| 0 <= i < |next| && next[i] == u;
      assert kept[i] == u;
      assert !LexLt(QueueKey(kept[k]), QueueKey(kept[i]));
    }
  }

  /** The first five of an ordered queue are in ascending order. */
  lemma TakeAscending(kept: seq<Team>)
    requires Sorted(kept, QueueKey)
    requires forall u :: u in kept ==> HasOrder(u)
    ensures forall i, j :: 0 <= i < j < |Take(kept, 5)| ==> OrderOr(Take(kept, 5)[i], 0) <= OrderOr(Take(kept, 5)[j], 0)
  {
    var next := Take(kept, 5);
    forall i, j | 0 <= i < j < |next| ensures OrderOr(next[i], 0) <= OrderOr(next[j], 0) {
      assert next[i] == kept[i] && next[j] == kept[j];
      assert kept[i] in kept && kept[j] in kept;
      assert !LexLt(QueueKey(kept[j]), QueueKey(kept[i]));
    }
  }

  /** The next teams: the first five upcoming teams of the queue, all
      ordered and after the current team (any ordered team when nothing is
      current), in ascending order. Fewer than five are shown only when
      fewer are upcoming, and an upcoming team left out comes no earlier
      than any shown one. */
  lemma NextTeamsFacts(teams: seq<Team>, users: seq<User>, teamScores: seq<TeamScore>)
    ensures var next := NextTeams(teams, users, teamScores);
            var current := CurrentTeam(teams, users, teamScores);
            var upcoming := |Filter(teams, UpcomingFn(current))|;
            |next| == (if upcoming <= 5 then upcoming else 5)
            && (forall t :: t in next ==> t in teams && Upcoming(current, t))
            && (forall i, j :: 0 <= i < j < |next| ==> OrderOr(next[i], 0) <= OrderOr(next[j], 0))
            && (forall t :: t in teams && Upcoming(current, t) && t !in next ==>
                  |next| == 5 && forall u :: u in next ==> OrderOr(u, 0) <= OrderOr(t, 0))
  {
    var ordered := OrderedTeams(teams);
    var current := CurrentTeam(teams, users, teamScores);
    var kept := Filter(ordered, UpcomingFn(current));
    var next := NextTeams(teams, users, teamScores);
    SortByKeySortedPermutation(teams, QueueKey);
    FilterSorted(ordered, UpcomingFn(current), QueueKey);
    FilterPermutation(ordered, teams, UpcomingFn(current));
    assert |kept| == |multiset(kept)| == |Filter(teams, UpcomingFn(current))|;
    forall t | t in next ensures t in teams && Upcoming(current, t) {
      assert t in kept;
      assert t in multiset(ordered);
    }
    TakeAscending(kept);
    forall t | t in teams && Upcoming(current, t) && t !in next
      ensures |next| == 5 && forall u :: u in next ==> OrderOr(u, 0) <= OrderOr(t, 0)
    {
      assert t in multiset(teams);
      assert t in ordered;
      assert t in kept;
      TakeSkipped(kept, t);
    }
  }

  /** A list sorted by the descending key has non-increasing orders. */
  lemma DescendingOrder(done: seq<Team>)
    requires Sorted(done, DescendingKey)
    ensures forall i, j :: 0 <= i < j < |done| ==> OrderOr(done[i], 0) >= OrderOr(done[j], 0)
  {
    forall i, j | 0 <= i < j < |done| ensures OrderOr(done[i], 0) >= OrderOr(done[j], 0) {
      assert !LexLt(DescendingKey(done[j]), DescendingKey(done[i]));
    }
  }

  /** The completed teams: exactly the teams judged by all juries, each as
      often as it occurs in the list, highest order first; the current team
      is never among them. */
  lemma CompletedTeamsFacts(teams: seq<Team>, users: seq<User>, teamScores: seq<TeamScore>)
    ensures var done := CompletedTeams(teams, users, teamScores);
            (forall t :: multiset(done)[t] == if Done(t, users, teamScores) then multiset(teams)[t] else 0)
            && (forall t :: t in done ==> t in teams && Done(t, users, teamScores))
            && (forall i, j :: 0 <= i < j < |done| ==> OrderOr(done[i], 0) >= OrderOr(done[j], 0))
            && (CurrentTeam(teams, users, teamScores).Some? ==> CurrentTeam(teams, users, teamScores).value !in done)
  {
    var ordered := OrderedTeams(teams);
    var kept := Filter(ordered, DoneFn(users, teamScores));
    var done := CompletedTeams(teams, users, teamScores);
    SortByKeySortedPermutation(teams, QueueKey);
    SortByKeySortedPermutation(kept, DescendingKey);
    forall t ensures multiset(done)[t] == if Done(t, users, teamScores) then multiset(teams)[t] else 0 {
      FilterCount(ordered, DoneFn(users, teamScores), t);
    }
    forall t | t in done ensures t in teams && Done(t, users, teamScores) {
      assert t in multiset(kept);
      assert t in kept;
      assert t in multiset(ordered);
    }
    DescendingOrder(done);
  }

  /** With no jury user nothing is pending: no team is current, and every
      ordered team counts as completed. */
  lemma NoJuries(teams: seq<Team>, users: seq<User>, teamScores: seq<TeamScore>)
    requires JuryUsers(users) == []
    ensures CurrentTeam(teams, users, teamScores).None?
    ensures forall t :: t in teams && HasOrder(t) ==> t in CompletedTeams(teams, users, teamScores)
  {
    var ordered := OrderedTeams(teams);
    var kept := Filter(ordered, DoneFn(users, teamScores));
    SortByKeySortedPermutation(teams, QueueKey);
    SortByKeySortedPermutation(kept, DescendingKey);
    forall t | t in teams && HasOrder(t) ensures t in CompletedTeams(teams, users, teamScores) {
      assert t in multiset(teams);
      assert t in ordered;
      assert t in kept;
      assert t in multiset(kept);
    }
  }
}
