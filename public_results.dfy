/** The older client's public results page: the list of finished events,
    one event's ranking, the podium labels and the last-to-first reveal. */
module PublicResults {
  import opened Util
  import opened ListOps
  import opened Sorting
  import opened ClientTypes
  import opened Calculations

  // ---------------------------------------------------------------------
  // Which page is shown

  predicate IsCompleted(e: Event) {
    e.status == Completed
  }

  /** `events.filter(e => e.status === 'completed')`. */
  function CompletedEvents(events: seq<Event>): (r: seq<Event>)
    ensures forall e :: e in r <==> e in events && e.status == Completed
  {
    Filter(events, IsCompleted)
  }

  function TeamOf(id: string): Team -> bool {
    (t: Team) => t.event == id
  }

  function ScoreOf(id: string): TeamScore -> bool {
    (s: TeamScore) => s.event == id
  }

  /** A jury counts for an event when it belongs to it or to no event. */
  predicate JuryFor(u: User, id: string) {
    u.role == JuryRole && (u.event == Some(id) || !TruthyStr(u.event))
  }

  function JuryForFn(id: string): User -> bool {
    (u: User) => JuryFor(u, id)
  }

  function AsJury(u: User): Jury {
    Jury(u.id, u.username)
  }

  /** `users.filter(u => u.role === 'jury' && (u.eventId === eventId || !u.eventId))`. */
  function EventJuries(users: seq<User>, id: string): (r: seq<Jury>)
    ensures forall j :: j in r <==> exists u :: u in users && JuryFor(u, id) && j == AsJury(u)
  {
    var kept := Filter(users, JuryForFn(id));
    var r := Map(kept, AsJury);
    assert forall j :: j in r ==> exists u :: u in kept && j == AsJury(u) by {
      forall j | j in r ensures exists u :: u in kept && j == AsJury(u) {
        var i :| 0 <= i < |r| && r[i] == j;
        assert kept[i] in kept;
      }
    }
    assert forall u :: u in kept ==> AsJury(u) in r by {
      forall u | u in kept ensures AsJury(u) in r {
        var i :| 0 <= i < |kept| && kept[i] == u;
        assert r[i] == AsJury(u);
      }
    }
    r
  }

  /** `calculateResults(eventTeams, eventScores, juries)`. */
  function EventResults(teams: seq<Team>, teamScores: seq<TeamScore>, users: seq<User>, id: string): seq<LegacyResult> {
    LegacyRanked(Filter(teams, TeamOf(id)), Filter(teamScores, ScoreOf(id)), EventJuries(users, id))
  }

  datatype Page =
    | CompletedList(events: seq<Event>)
    | EventNotFound
    | NotYetAvailable(eventName: string)
    | Ranking(eventName: string, results: seq<LegacyResult>)

  /** The page for the route parameter `eventId`. */
  function PageFor(eventId: Option<string>, events: seq<Event>, teams: seq<Team>,
                   teamScores: seq<TeamScore>, users: seq<User>): (p: Page)
    ensures p.CompletedList? <==> !TruthyStr(eventId)
    ensures p.CompletedList? ==> forall e :: e in p.events <==> e in events && e.status == Completed
    ensures p.EventNotFound? <==> TruthyStr(eventId) && forall e :: e in events ==> e.id != eventId.value
    ensures p.NotYetAvailable? ==> TruthyStr(eventId) && forall t :: t in teams ==> t.event != eventId.value
    ensures p.Ranking? ==>
              TruthyStr(eventId) && (exists t :: t in teams && t.event == eventId.value)
              && p.results == EventResults(teams, teamScores, users, eventId.value)
  {
    if !TruthyStr(eventId) then CompletedList(CompletedEvents(events))
    else
      var id := eventId.value;
      var i := FindIndex(events, (e: Event) => e.id == id);
      if i == -1 then EventNotFound
      else
        var eventTeams := Filter(teams, TeamOf(id));
        if |eventTeams| == 0 then
          assert eventTeams == [];
          NotYetAvailable(events[i].name)
        else
          assert eventTeams[0] in eventTeams;
          Ranking(events[i].name, EventResults(teams, teamScores, users, id))
  }

  /** Teams and score sheets of other events, wherever they are appended,
      do not change an event's ranking. */
  lemma OtherEventsIgnored(teams: seq<Team>, teamScores: seq<TeamScore>, users: seq<User>, id: string,
                           moreTeams: seq<Team>, moreScores: seq<TeamScore>)
    requires forall i :: 0 <= i < |moreTeams| ==> moreTeams[i].event != id
    requires forall i :: 0 <= i < |moreScores| ==> moreScores[i].event != id
    ensures EventResults(teams + moreTeams, teamScores + moreScores, users, id)
         == EventResults(teams, teamScores, users, id)
  {
    FilterAppend(teams, moreTeams, TeamOf(id));
    FilterKeepsNone(moreTeams, TeamOf(id));
    FilterAppend(teamScores, moreScores, ScoreOf(id));
    FilterKeepsNone(moreScores, ScoreOf(id));
    assert Filter(teams + moreTeams, TeamOf(id)) == Filter(teams, TeamOf(id));
    assert Filter(teamScores + moreScores, ScoreOf(id)) == Filter(teamScores, ScoreOf(id));
  }

  /** Every line of an event's ranking is one of that event's teams. */
  lemma ResultsBelongToEvent(teams: seq<Team>, teamScores: seq<TeamScore>, users: seq<User>, id: string, r: LegacyResult)
    requires r in EventResults(teams, teamScores, users, id)
    ensures exists t :: t in teams && t.event == id && r.teamId == t.id && r.teamName == t.name
  {
    var ts := Filter(teams, TeamOf(id));
    var ss := Filter(teamScores, ScoreOf(id));
    var js := EventJuries(users, id);
    LegacyRankedPermutation(ts, ss, js);
    assert r in multiset(LegacyRanked(ts, ss, js));
    var all := LegacyResults(ts, ss, js);
    assert r in all;
    var i :| 0 <= i < |all| && all[i] == r;
    assert ts[i] in ts;
  }

  // ---------------------------------------------------------------------
  // getRankDisplay

  datatype RankDisplay = RankDisplay(emoji: string, title: string, color: string)

  /** The label of a rank beyond the podium: `${rank + 1}ème Place`. */
  function PlaceLabel(rank: nat): string {
    NatToString(rank + 1) + "ème Place"
  }

  /** `getRankDisplay(rank)` for `total` results. */
  function GetRankDisplay(rank: nat, total: nat): (r: RankDisplay)
    ensures rank == 0 ==> r.title == "1ère Place - GAGNANT" && r.color == "#FFD700"
    ensures rank == 1 ==> r.title == "2ème Place" && r.color == "#C0C0C0"
    ensures rank == 2 ==> r.title == "3ème Place" && r.color == "#CD7F32"
    ensures rank == 3 && total >= 4 <==> r.title == "4ème Place - Coup de Cœur"
    ensures rank >= 3 && !(rank == 3 && total >= 4) ==>
              r.title == PlaceLabel(rank) && r.emoji == "" && r.color == "#818cf8"
  {
    if rank == 0 then RankDisplay("🥇", "1ère Place - GAGNANT", "#FFD700")
    else if rank == 1 then RankDisplay("🥈", "2ème Place", "#C0C0C0")
    else if rank == 2 then RankDisplay("🥉", "3ème Place", "#CD7F32")
    else if total >= 4 && rank == 3 then RankDisplay("❤️", "4ème Place - Coup de Cœur", "#ec4899")
    else
      assert PlaceLabel(rank) != "4ème Place - Coup de Cœur" by {
        var s := PlaceLabel(rank);
        if |s| == |"4ème Place - Coup de Cœur"| {
          assert s[|s| - 1] == 'e';
        }
      }
      RankDisplay("", PlaceLabel(rank), "#818cf8")
  }

  /** The number written before the first 'è' of a text that starts with
      that number and then an 'è'. */
  lemma NumberBeforeGrave(num: string, t: string)
    requires 'è' !in num && |num| < |t| && t[..|num|] == num && t[|num|] == 'è'
    ensures Before(t, 'è') == num
  {
    assert t == num + ['è'] + t[|num| + 1..];
    BeforeConcat(num, 'è', t[|num| + 1..]);
  }

  // The podium and favourite labels, one at a time: each starts with its
  // place number.

  lemma WinnerLabelNumber(rank: nat, total: nat)
    requires rank == 0
    ensures Before(GetRankDisplay(rank, total).title, 'è') == NatToString(rank + 1)
  {
    assert NatToString(rank + 1) == NatToString(1) == "1";
    NumberBeforeGrave("1", GetRankDisplay(rank, total).title);
  }

  lemma SecondLabelNumber(rank: nat, total: nat)
    requires rank == 1
    ensures Before(GetRankDisplay(rank, total).title, 'è') == NatToString(rank + 1)
  {
    assert NatToString(rank + 1) == NatToString(2) == "2";
    NumberBeforeGrave("2", GetRankDisplay(rank, total).title);
  }

  lemma ThirdLabelNumber(rank: nat, total: nat)
    requires rank == 2
    ensures Before(GetRankDisplay(rank, total).title, 'è') == NatToString(rank + 1)
  {
    assert NatToString(rank + 1) == NatToString(3) == "3";
    NumberBeforeGrave("3", GetRankDisplay(rank, total).title);
  }

  lemma FavouriteLabelNumber(rank: nat, total: nat)
    requires rank == 3 && total >= 4
    ensures Before(GetRankDisplay(rank, total).title, 'è') == NatToString(rank + 1)
  {
    assert NatToString(rank + 1) == NatToString(4) == "4";
    NumberBeforeGrave("4", GetRankDisplay(rank, total).title);
  }

  lemma PlainLabelNumber(rank: nat, total: nat)
    requires rank >= 3 && !(rank == 3 && total >= 4)
    ensures Before(GetRankDisplay(rank, total).title, 'è') == NatToString(rank + 1)
  {
    var num := NatToString(rank + 1);
    var t := GetRankDisplay(rank, total).title;
    assert t == num + "ème Place";
    assert t[..|num|] == num;
    NumberBeforeGrave(num, t);
  }

  /** Every label starts with its place number, written before the first
      'è'. */
  lemma RankNumberInLabel(rank: nat, total: nat)
    ensures Before(GetRankDisplay(rank, total).title, 'è') == NatToString(rank + 1)
  {
    if rank == 0 {
      WinnerLabelNumber(rank, total);
    } else if rank == 1 {
      SecondLabelNumber(rank, total);
    } else if rank == 2 {
      ThirdLabelNumber(rank, total);
    } else if rank == 3 && total >= 4 {
      FavouriteLabelNumber(rank, total);
    } else {
      PlainLabelNumber(rank, total);
    }
  }

  /** Two ranks never share a label. */
  lemma RankLabelsDistinct(a: nat, b: nat, total: nat)
    requires a != b
    ensures GetRankDisplay(a, total).title != GetRankDisplay(b, total).title
  {
    assert NatToString(a + 1) != NatToString(b + 1) by {
      if NatToString(a + 1) == NatToString(b + 1) {
        NatToStringInjective(a + 1, b + 1);
      }
    }
    RankNumberInLabel(a, total);
    RankNumberInLabel(b, total);
  }

  // ---------------------------------------------------------------------
  // The reveal

  /** `handleRevealNext` on the counter: one more while below the count. */
  function NextRevealed(revealed: nat, count: nat): (r: nat)
    ensures revealed <= count ==> r <= count
    ensures r == revealed + 1 <==> revealed < count
    ensures r != revealed + 1 ==> r == revealed
  {
    if revealed < count then revealed + 1 else revealed
  }

  /** The counter after `k` clicks from the start. */
  function RevealedAfter(k: nat, count: nat): nat {
    if k == 0 then 0 else NextRevealed(RevealedAfter(k - 1, count), count)
  }

  /** `k` clicks reveal `k` results, never more than there are. */
  lemma {:induction false} RevealedAfterClicks(k: nat, count: nat)
    ensures RevealedAfter(k, count) == if k <= count then k else count
  {
    if k > 0 {
      RevealedAfterClicks(k - 1, count);
    }
  }

  /** The page's reveal state. */
  class Reveal {
    var revealed: nat
    var showFullList: bool

    constructor()
      ensures revealed == 0 && !showFullList
    {
      revealed := 0;
      showFullList := false;
    }

    /** `handleRevealNext` with `results.length` results. */
    method HandleRevealNext(count: nat)
      modifies this
      ensures revealed == NextRevealed(old(revealed), count)
      ensures showFullList == old(showFullList)
    {
      if revealed < count {
        revealed := revealed + 1;
      }
    }

    /** `handleShowFullList`. */
    method HandleShowFullList()
      modifies this
      ensures showFullList && revealed == old(revealed)
    {
      showFullList := true;
    }

    /** The full list's "back to the animated view" button. */
    method BackToAnimated()
      modifies this
      ensures !showFullList && revealed == old(revealed)
    {
      showFullList := false;
    }
  }

  /** `displayOrder`: the ranks from last to first. */
  function DisplayOrder(n: nat): (r: seq<nat>)
    ensures |r| == n
    ensures forall i :: 0 <= i < n ==> r[i] + i + 1 == n
  {
    if n == 0 then [] else [n - 1] + DisplayOrder(n - 1)
  }

  /** Every rank is shown once, and the first `revealed` entries are the
      `revealed` lowest places. */
  lemma DisplayOrderFacts(n: nat, revealed: nat)
    requires revealed <= n
    ensures forall k :: 0 <= k < n ==> k in DisplayOrder(n)
    ensures forall i, j :: 0 <= i < j < n ==> DisplayOrder(n)[i] != DisplayOrder(n)[j]
    ensures forall k :: k in DisplayOrder(n)[..revealed] <==> n - revealed <= k < n
  {
    var d := DisplayOrder(n);
    forall k | 0 <= k < n ensures k in d {
      assert d[n - 1 - k] == k;
    }
    forall k | n - revealed <= k < n ensures k in d[..revealed] {
      assert d[..revealed][n - 1 - k] == k;
    }
  }

  /** The result on display after `revealed` clicks: rank `n - revealed`. */
  function CurrentReveal(results: seq<LegacyResult>, revealed: nat): (r: Option<(nat, LegacyResult)>)
    ensures r.Some? <==> 0 < revealed <= |results|
    ensures r.Some? ==> r.value.0 == |results| - revealed && r.value.1 == results[r.value.0]
  {
    var n := |results|;
    if 0 < revealed <= n then
      var rank := DisplayOrder(n)[revealed - 1];
      Some((rank, results[rank]))
    else None
  }

  /** The last click shows the winner. */
  lemma LastRevealIsWinner(results: seq<LegacyResult>)
    requires |results| > 0
    ensures CurrentReveal(results, |results|) == Some((0, results[0]))
    ensures GetRankDisplay(CurrentReveal(results, |results|).value.0, |results|).title == "1ère Place - GAGNANT"
  {
  }
}
