/** The two clients' data contexts. The older one keeps every list of every
    event in one `AppData` value in local storage and exposes the current
    event's slice; the newer one keeps the current event's lists as the
    server returned them. Each context is an object whose methods apply a
    pure reducer to its state; what the server answers, and the ids and
    timestamps the older client draws from the clock, are parameters. */
module DataStores {
  import opened Util
  import opened ListOps
  import opened ClientTypes

  // ---------------------------------------------------------------------
  // Older client: one AppData value

  datatype AppData = AppData(
    users: seq<User>,
    events: seq<Event>,
    teams: seq<Team>,
    criteria: seq<Criterion>,
    teamScores: seq<TeamScore>)

  /** The starting event: the default event when it is present, otherwise
      the first event, and none without events. */
  function InitialEvent(events: seq<Event>): (r: Option<string>)
    ensures r.None? <==> |events| == 0
    ensures r.Some? ==> exists e :: e in events && e.id == r.value
    ensures (exists e :: e in events && e.id == DefaultEventId) ==> r == Some(DefaultEventId)
    ensures |events| > 0 && (forall e :: e in events ==> e.id != DefaultEventId) ==> r == Some(events[0].id)
  {
    if |events| == 0 then None
    else
      var i := FindIndex(events, (e: Event) => e.id == DefaultEventId);
      if i >= 0 then
        assert events[i] in events;
        Some(DefaultEventId)
      else Some(events[0].id)
  }

  /** `deleteEvent`: the event goes, and with it every user, team,
      criterion and sheet filed under it; nothing else is removed. */
  function DeleteEventData(d: AppData, id: string): (r: AppData)
    ensures forall e :: e in r.events <==> e in d.events && e.id != id
    ensures forall u :: u in r.users <==> u in d.users && u.event != Some(id)
    ensures forall t :: t in r.teams <==> t in d.teams && t.event != id
    ensures forall c :: c in r.criteria <==> c in d.criteria && c.event != id
    ensures forall s :: s in r.teamScores <==> s in d.teamScores && s.event != id
  {
    AppData(
      Filter(d.users, (u: User) => u.event != Some(id)),
      Filter(d.events, (e: Event) => e.id != id),
      Filter(d.teams, (t: Team) => t.event != id),
      Filter(d.criteria, (c: Criterion) => c.event != id),
      Filter(d.teamScores, (s: TeamScore) => s.event != id))
  }

  /** After deleting the current event the first remaining event becomes
      current, or none; deleting another event keeps the current one. */
  function CurrentAfterDelete(current: Option<string>, events: seq<Event>, id: string): (r: Option<string>)
    ensures current != Some(id) ==> r == current
    ensures current == Some(id) ==> (r.None? <==> forall e :: e in events ==> e.id == id)
    ensures current == Some(id) && r.Some? ==> r.value != id && exists e :: e in events && e.id == r.value
  {
    if current == Some(id) then
      var remaining := Filter(events, (e: Event) => e.id != id);
      if |remaining| > 0 then
        assert remaining[0] in remaining;
        Some(remaining[0].id)
      else None
    else current
  }

  /** `deleteTeam`: the team and every sheet about it go, nothing else. */
  function DeleteTeamData(d: AppData, id: string): (r: AppData)
    ensures r.users == d.users && r.events == d.events && r.criteria == d.criteria
    ensures forall t :: t in r.teams <==> t in d.teams && t.id != id
    ensures forall s :: s in r.teamScores <==> s in d.teamScores && s.team != id
  {
    d.(teams := Filter(d.teams, (t: Team) => t.id != id),
       teamScores := Filter(d.teamScores, (s: TeamScore) => s.team != id))
  }

  /** `deleteUser`: only the user goes; the sheets of that jury stay. */
  function DeleteUserData(d: AppData, id: string): (r: AppData)
    ensures r.teamScores == d.teamScores && r.teams == d.teams && r.events == d.events
    ensures r.criteria == d.criteria
    ensures forall u :: u in r.users <==> u in d.users && u.id != id
  {
    d.(users := Filter(d.users, (u: User) => u.id != id))
  }

  /** `deleteCriterion`: only the criterion goes; score entries keyed by it stay. */
  function DeleteCriterionData(d: AppData, id: string): (r: AppData)
    ensures r.teamScores == d.teamScores && r.teams == d.teams && r.events == d.events
    ensures r.users == d.users
    ensures forall c :: c in r.criteria <==> c in d.criteria && c.id != id
  {
    d.(criteria := Filter(d.criteria, (c: Criterion) => c.id != id))
  }

  /** `saveTeamScore`: replace the sheet of the same jury and team in
      place, or append the sheet. */
  function SaveScoreData(d: AppData, score: TeamScore): (r: AppData)
    ensures r.users == d.users && r.events == d.events && r.teams == d.teams && r.criteria == d.criteria
  {
    d.(teamScores := SaveByPair(d.teamScores, score))
  }

  function SaveByPair(teamScores: seq<TeamScore>, score: TeamScore): seq<TeamScore> {
    Upsert(teamScores, (s: TeamScore) => s.jury == score.jury && s.team == score.team, score)
  }

  /** Saving keeps one sheet per jury and team, makes the saved sheet the
      one `getTeamScore` finds, and leaves every other pair's sheets as
      they were. */
  lemma SaveByPairFacts(teamScores: seq<TeamScore>, score: TeamScore)
    requires OneSheetPerPair(teamScores)
    ensures OneSheetPerPair(SaveByPair(teamScores, score))
    ensures FindScore(SaveByPair(teamScores, score), score.jury, score.team) == Some(score)
    ensures forall s: TeamScore :: (s.jury != score.jury || s.team != score.team) ==>
              (s in SaveByPair(teamScores, score) <==> s in teamScores)
    ensures |teamScores| <= |SaveByPair(teamScores, score)| <= |teamScores| + 1
  {
    var p := (s: TeamScore) => s.jury == score.jury && s.team == score.team;
    var r := SaveByPair(teamScores, score);
    var i := FindIndex(teamScores, p);
    if i >= 0 {
      assert r == teamScores[i := score];
      forall a, b | 0 <= a < b < |r|
        ensures !(r[a].jury == r[b].jury && r[a].team == r[b].team)
      {
        if a != i && b != i {
          assert r[a] == teamScores[a] && r[b] == teamScores[b];
        } else if a == i {
          assert r[b] == teamScores[b];
        } else {
          assert r[a] == teamScores[a];
        }
      }
      forall s: TeamScore | s.jury != score.jury || s.team != score.team
        ensures s in r <==> s in teamScores
      {
        if s in teamScores {
          var j :| 0 <= j < |teamScores| && teamScores[j] == s;
          assert j != i;
          assert r[j] == s;
        }
        if s in r {
          var j :| 0 <= j < |r| && r[j] == s;
          assert j != i;
          assert teamScores[j] == s;
        }
      }
      FindFirstOfPair(r, i, score);
    } else {
      assert r == teamScores + [score];
      forall a, b | 0 <= a < b < |r|
        ensures !(r[a].jury == r[b].jury && r[a].team == r[b].team)
      {
        if b == |teamScores| {
          assert !p(teamScores[a]);
        }
      }
      forall j | 0 <= j < |teamScores| ensures !(r[j].jury == score.jury && r[j].team == score.team) {
        assert !p(teamScores[j]);
      }
      FindFirstOfPair(r, |teamScores|, score);
    }
  }

  /** `find` returns the sheet at the first index of its pair. */
  lemma FindFirstOfPair(r: seq<TeamScore>, i: nat, score: TeamScore)
    requires i < |r| && r[i] == score
    requires forall j :: 0 <= j < i ==> !(r[j].jury == score.jury && r[j].team == score.team)
    ensures FindScore(r, score.jury, score.team) == Some(score)
    decreases i
  {
    if i > 0 {
      FindFirstOfPair(r[1..], i - 1, score);
    }
  }

  /** The older context's users: every admin, and with a current event the
      users filed under it. */
  function UsersView(d: AppData, current: Option<string>): (r: seq<User>)
    ensures forall u :: u in r <==> u in d.users && (u.role == AdminRole || (TruthyStr(current) && u.event == current))
  {
    if TruthyStr(current) then Filter(d.users, (u: User) => u.role == AdminRole || u.event == current)
    else Filter(d.users, (u: User) => u.role == AdminRole)
  }

  /** The current event's teams; none without a current event. */
  function TeamsView(d: AppData, current: Option<string>): (r: seq<Team>)
    ensures !TruthyStr(current) ==> r == []
    ensures TruthyStr(current) ==> forall t :: t in r <==> t in d.teams && t.event == current.value
  {
    if TruthyStr(current) then Filter(d.teams, (t: Team) => t.event == current.value) else []
  }

  function CriteriaView(d: AppData, current: Option<string>): (r: seq<Criterion>)
    ensures !TruthyStr(current) ==> r == []
    ensures TruthyStr(current) ==> forall c :: c in r <==> c in d.criteria && c.event == current.value
  {
    if TruthyStr(current) then Filter(d.criteria, (c: Criterion) => c.event == current.value) else []
  }

  function ScoresView(d: AppData, current: Option<string>): (r: seq<TeamScore>)
    ensures !TruthyStr(current) ==> r == []
    ensures TruthyStr(current) ==> forall s :: s in r <==> s in d.teamScores && s.event == current.value
  {
    if TruthyStr(current) then Filter(d.teamScores, (s: TeamScore) => s.event == current.value) else []
  }

  /** Deleting an event empties every view of it. */
  lemma DeletedEventViewsEmpty(d: AppData, id: string)
    requires id != ""
    ensures TeamsView(DeleteEventData(d, id), Some(id)) == []
    ensures CriteriaView(DeleteEventData(d, id), Some(id)) == []
    ensures ScoresView(DeleteEventData(d, id), Some(id)) == []
    ensures forall u :: u in UsersView(DeleteEventData(d, id), Some(id)) ==> u.role == AdminRole
  {
    var r := DeleteEventData(d, id);
    forall i | 0 <= i < |r.teams| ensures r.teams[i].event != id {
      assert r.teams[i] in r.teams;
    }
    FilterKeepsNone(r.teams, (t: Team) => t.event == id);
    forall i | 0 <= i < |r.criteria| ensures r.criteria[i].event != id {
      assert r.criteria[i] in r.criteria;
    }
    FilterKeepsNone(r.criteria, (c: Criterion) => c.event == id);
    forall i | 0 <= i < |r.teamScores| ensures r.teamScores[i].event != id {
      assert r.teamScores[i] in r.teamScores;
    }
    FilterKeepsNone(r.teamScores, (s: TeamScore) => s.event == id);
  }

  /** The older data context. */
  class LegacyDataStore {
    var data: AppData
    var currentEventId: Option<string>

    constructor (loaded: AppData)
      ensures data == loaded && currentEventId == InitialEvent(loaded.events)
    {
      data := loaded;
      currentEventId := InitialEvent(loaded.events);
    }

    method SetCurrentEvent(id: string)
      modifies this
      ensures currentEventId == Some(id) && data == old(data)
    {
      currentEventId := Some(id);
    }

    /** `addEvent` with the generated id and creation time. */
    method AddEvent(event: Event, id: string, createdAt: string) returns (created: Event)
      modifies this
      ensures created == event.(id := id, createdAt := createdAt)
      ensures data == old(data).(events := old(data).events + [created])
      ensures currentEventId == old(currentEventId)
    {
      created := event.(id := id, createdAt := createdAt);
      data := data.(events := data.events + [created]);
    }

    /** `updateEvent`: `patch` is the `{ ...e, ...updates }` merge. */
    method UpdateEvent(id: string, patch: Event -> Event)
      modifies this
      ensures data == old(data).(events := MapWhere(old(data).events, (e: Event) => e.id == id, patch))
      ensures currentEventId == old(currentEventId)
    {
      data := data.(events := MapWhere(data.events, (e: Event) => e.id == id, patch));
    }

    method DeleteEvent(id: string)
      modifies this
      ensures data == DeleteEventData(old(data), id)
      ensures currentEventId == CurrentAfterDelete(old(currentEventId), old(data).events, id)
    {
      var before := data.events;
      data := DeleteEventData(data, id);
      currentEventId := CurrentAfterDelete(currentEventId, before, id);
    }

    method AddUser(user: User, id: string) returns (created: User)
      modifies this
      ensures created == user.(id := id)
      ensures data == old(data).(users := old(data).users + [created])
      ensures currentEventId == old(currentEventId)
    {
      created := user.(id := id);
      data := data.(users := data.users + [created]);
    }

    method DeleteUser(id: string)
      modifies this
      ensures data == DeleteUserData(old(data), id) && currentEventId == old(currentEventId)
    {
      data := DeleteUserData(data, id);
    }

    method AddTeam(team: Team, id: string) returns (created: Team)
      modifies this
      ensures created == team.(id := id)
      ensures data == old(data).(teams := old(data).teams + [created])
      ensures currentEventId == old(currentEventId)
    {
      created := team.(id := id);
      data := data.(teams := data.teams + [created]);
    }

    method UpdateTeam(id: string, patch: Team -> Team)
      modifies this
      ensures data == old(data).(teams := MapWhere(old(data).teams, (t: Team) => t.id == id, patch))
      ensures currentEventId == old(currentEventId)
    {
      data := data.(teams := MapWhere(data.teams, (t: Team) => t.id == id, patch));
    }

    method DeleteTeam(id: string)
      modifies this
      ensures data == DeleteTeamData(old(data), id) && currentEventId == old(currentEventId)
    {
      data := DeleteTeamData(data, id);
    }

    method AddCriterion(criterion: Criterion, id: string) returns (created: Criterion)
      modifies this
      ensures created == criterion.(id := id)
      ensures data == old(data).(criteria := old(data).criteria + [created])
      ensures currentEventId == old(currentEventId)
    {
      created := criterion.(id := id);
      data := data.(criteria := data.criteria + [created]);
    }

    method UpdateCriterion(id: string, patch: Criterion -> Criterion)
      modifies this
      ensures data == old(data).(criteria := MapWhere(old(data).criteria, (c: Criterion) => c.id == id, patch))
      ensures currentEventId == old(currentEventId)
    {
      data := data.(criteria := MapWhere(data.criteria, (c: Criterion) => c.id == id, patch));
    }

    method DeleteCriterion(id: string)
      modifies this
      ensures data == DeleteCriterionData(old(data), id) && currentEventId == old(currentEventId)
    {
      data := DeleteCriterionData(data, id);
    }

    /** Saving keeps the one-sheet-per-pair invariant of the store. */
    method SaveTeamScore(score: TeamScore)
      modifies this
      ensures data == SaveScoreData(old(data), score) && currentEventId == old(currentEventId)
      ensures OneSheetPerPair(old(data).teamScores) ==> OneSheetPerPair(data.teamScores)
      ensures OneSheetPerPair(old(data).teamScores) ==> GetTeamScore(score.jury, score.team) == Some(score)
    {
      if OneSheetPerPair(data.teamScores) {
        SaveByPairFacts(data.teamScores, score);
      }
      data := SaveScoreData(data, score);
    }

    /** `getTeamScore` searches every event's sheets, not only the current one's. */
    function GetTeamScore(juryId: string, teamId: string): (r: Option<TeamScore>)
      reads this
      ensures r.Some? ==> r.value in data.teamScores && r.value.jury == juryId && r.value.team == teamId
      ensures r.None? <==> forall s :: s in data.teamScores ==> !(s.jury == juryId && s.team == teamId)
    {
      FindScore(data.teamScores, juryId, teamId)
    }
  }

  // ---------------------------------------------------------------------
  // Newer client: the current event's lists as the server sent them

  /** The event the newer context picks when none is selected: the first
      one that is the default event or whose name mentions 2025, otherwise
      the first one. */
  predicate Preferred(e: Event) {
    e.id == DefaultEventId || Contains(e.name, "2025")
  }

  function ChooseEvent(events: seq<Event>): (r: string)
    requires |events| > 0
    ensures exists e :: e in events && e.id == r
    ensures forall i :: (0 <= i < |events| && Preferred(events[i])
                         && forall j :: 0 <= j < i ==> !Preferred(events[j])) ==> r == events[i].id
    ensures (forall e :: e in events ==> !Preferred(e)) ==> r == events[0].id
  {
    var i := FindIndex(events, Preferred);
    if i >= 0 then
      assert events[i] in events;
      events[i].id
    else events[0].id
  }

  /** `saveTeamScore`: the sheet the server returned replaces the sheet
      with the same id in place, or is appended. */
  function SaveById(teamScores: seq<TeamScore>, saved: TeamScore): seq<TeamScore> {
    Upsert(teamScores, (s: TeamScore) => s.id == saved.id, saved)
  }

  predicate DistinctScoreIds(teamScores: seq<TeamScore>) {
    forall i, j :: 0 <= i < j < |teamScores| ==> teamScores[i].id != teamScores[j].id
  }

  /** Saving keeps ids distinct, grows the list by at most one, puts the
      saved sheet in, and keeps every sheet with another id. */
  lemma SaveByIdFacts(teamScores: seq<TeamScore>, saved: TeamScore)
    requires DistinctScoreIds(teamScores)
    ensures DistinctScoreIds(SaveById(teamScores, saved))
    ensures saved in SaveById(teamScores, saved)
    ensures |teamScores| <= |SaveById(teamScores, saved)| <= |teamScores| + 1
    ensures forall s: TeamScore :: s.id != saved.id ==> (s in SaveById(teamScores, saved) <==> s in teamScores)
  {
    var p := (s: TeamScore) => s.id == saved.id;
    var r := SaveById(teamScores, saved);
    var i := FindIndex(teamScores, p);
    if i >= 0 {
      assert r == teamScores[i := saved];
      assert r[i] == saved;
      forall a, b | 0 <= a < b < |r| ensures r[a].id != r[b].id {
        if a != i && b != i {
          assert r[a] == teamScores[a] && r[b] == teamScores[b];
        } else if a == i {
          assert r[b] == teamScores[b];
        } else {
          assert r[a] == teamScores[a];
        }
      }
      forall s: TeamScore | s.id != saved.id ensures s in r <==> s in teamScores {
        if s in teamScores {
          var j :| 0 <= j < |teamScores| && teamScores[j] == s;
          assert r[j] == s;
        }
        if s in r {
          var j :| 0 <= j < |r| && r[j] == s;
          assert teamScores[j] == s;
        }
      }
    } else {
      assert r == teamScores + [saved];
      assert r[|teamScores|] == saved;
      forall a, b | 0 <= a < b < |r| ensures r[a].id != r[b].id {
        if b == |teamScores| {
          assert !p(teamScores[a]);
        }
      }
    }
  }

  /** The newer data context. */
  class DataStore {
    var events: seq<Event>
    var currentEventId: Option<string>
    var users: seq<User>
    var teams: seq<Team>
    var criteria: seq<Criterion>
    var teamScores: seq<TeamScore>

    /** Empty lists, and the event id remembered by the session, if any. */
    constructor (sessionEventId: Option<string>)
      ensures currentEventId == sessionEventId
      ensures events == [] && users == [] && teams == [] && criteria == [] && teamScores == []
    {
      currentEventId := sessionEventId;
      events, users, teams, criteria, teamScores := [], [], [], [], [];
    }

    /** The events arrive; an event is chosen only when none is selected. */
    method EventsLoaded(loaded: seq<Event>)
      modifies this
      ensures events == loaded
      ensures |loaded| > 0 && !TruthyStr(old(currentEventId)) ==> currentEventId == Some(ChooseEvent(loaded))
      ensures !(|loaded| > 0 && !TruthyStr(old(currentEventId))) ==> currentEventId == old(currentEventId)
      ensures users == old(users) && teams == old(teams) && criteria == old(criteria)
      ensures teamScores == old(teamScores)
    {
      events := loaded;
      if |loaded| > 0 && !TruthyStr(currentEventId) {
        currentEventId := Some(ChooseEvent(loaded));
      }
    }

    /** The current event's lists arrive. */
    method EventDataLoaded(u: seq<User>, t: seq<Team>, c: seq<Criterion>, s: seq<TeamScore>)
      modifies this
      ensures users == u && teams == t && criteria == c && teamScores == s
      ensures events == old(events) && currentEventId == old(currentEventId)
    {
      users, teams, criteria, teamScores := u, t, c, s;
    }

    method SetCurrentEvent(id: Option<string>)
      modifies this
      ensures currentEventId == id
      ensures events == old(events) && users == old(users) && teams == old(teams)
      ensures criteria == old(criteria) && teamScores == old(teamScores)
    {
      currentEventId := id;
    }

    method AddEvent(created: Event)
      modifies this
      ensures events == old(events) + [created] && currentEventId == old(currentEventId)
      ensures users == old(users) && teams == old(teams) && criteria == old(criteria)
      ensures teamScores == old(teamScores)
    {
      events := events + [created];
    }

    /** `updateEvent`: the returned event replaces the one with that id. */
    method UpdateEvent(id: string, returned: Event)
      modifies this
      ensures events == MapWhere(old(events), (e: Event) => e.id == id, (_: Event) => returned)
      ensures currentEventId == old(currentEventId)
      ensures users == old(users) && teams == old(teams) && criteria == old(criteria)
      ensures teamScores == old(teamScores)
    {
      events := MapWhere(events, (e: Event) => e.id == id, (_: Event) => returned);
    }

    /** `deleteEvent`: only the event list changes; a deleted current event
        leaves no event selected. */
    method DeleteEvent(id: string)
      modifies this
      ensures events == Filter(old(events), (e: Event) => e.id != id)
      ensures currentEventId == if old(currentEventId) == Some(id) then None else old(currentEventId)
      ensures users == old(users) && teams == old(teams) && criteria == old(criteria)
      ensures teamScores == old(teamScores)
    {
      events := Filter(events, (e: Event) => e.id != id);
      if currentEventId == Some(id) {
        currentEventId := None;
      }
    }

    method AddUser(created: User)
      modifies this
      ensures users == old(users) + [created]
      ensures events == old(events) && currentEventId == old(currentEventId)
      ensures teams == old(teams) && criteria == old(criteria) && teamScores == old(teamScores)
    {
      users := users + [created];
    }

    method UpdateUser(id: string, returned: User)
      modifies this
      ensures users == MapWhere(old(users), (u: User) => u.id == id, (_: User) => returned)
      ensures events == old(events) && currentEventId == old(currentEventId)
      ensures teams == old(teams) && criteria == old(criteria) && teamScores == old(teamScores)
    {
      users := MapWhere(users, (u: User) => u.id == id, (_: User) => returned);
    }

    method DeleteUser(id: string)
      modifies this
      ensures users == Filter(old(users), (u: User) => u.id != id)
      ensures events == old(events) && currentEventId == old(currentEventId)
      ensures teams == old(teams) && criteria == old(criteria) && teamScores == old(teamScores)
    {
      users := Filter(users, (u: User) => u.id != id);
    }

    method AddTeam(created: Team)
      modifies this
      ensures teams == old(teams) + [created]
      ensures events == old(events) && currentEventId == old(currentEventId)
      ensures users == old(users) && criteria == old(criteria) && teamScores == old(teamScores)
    {
      teams := teams + [created];
    }

    /** `bulkAddTeams`: nothing without a current event, else the created
        teams are appended in the order returned. */
    method BulkAddTeams(created: seq<Team>)
      modifies this
      ensures teams == if TruthyStr(old(currentEventId)) then old(teams) + created else old(teams)
      ensures events == old(events) && currentEventId == old(currentEventId)
      ensures users == old(users) && criteria == old(criteria) && teamScores == old(teamScores)
    {
      if !TruthyStr(currentEventId) {
        return;
      }
      teams := teams + created;
    }

    method UpdateTeam(id: string, returned: Team)
      modifies this
      ensures teams == MapWhere(old(teams), (t: Team) => t.id == id, (_: Team) => returned)
      ensures events == old(events) && currentEventId == old(currentEventId)
      ensures users == old(users) && criteria == old(criteria) && teamScores == old(teamScores)
    {
      teams := MapWhere(teams, (t: Team) => t.id == id, (_: Team) => returned);
    }

    /** `deleteTeam` drops the team only; the server removes its sheets,
        the local list keeps them until the next load. */
    method DeleteTeam(id: string)
      modifies this
      ensures teams == Filter(old(teams), (t: Team) => t.id != id)
      ensures events == old(events) && currentEventId == old(currentEventId)
      ensures users == old(users) && criteria == old(criteria) && teamScores == old(teamScores)
    {
      teams := Filter(teams, (t: Team) => t.id != id);
    }

    /** `deleteAllTeams`: nothing without a current event, else both the
        teams and the sheets are emptied. */
    method DeleteAllTeams()
      modifies this
      ensures TruthyStr(old(currentEventId)) ==> teams == [] && teamScores == []
      ensures !TruthyStr(old(currentEventId)) ==> teams == old(teams) && teamScores == old(teamScores)
      ensures events == old(events) && currentEventId == old(currentEventId)
      ensures users == old(users) && criteria == old(criteria)
    {
      if !TruthyStr(currentEventId) {
        return;
      }
      teams := [];
      teamScores := [];
    }

    method AddCriterion(created: Criterion)
      modifies this
      ensures criteria == old(criteria) + [created]
      ensures events == old(events) && currentEventId == old(currentEventId)
      ensures users == old(users) && teams == old(teams) && teamScores == old(teamScores)
    {
      criteria := criteria + [created];
    }

    method UpdateCriterion(id: string, returned: Criterion)
      modifies this
      ensures criteria == MapWhere(old(criteria), (c: Criterion) => c.id == id, (_: Criterion) => returned)
      ensures events == old(events) && currentEventId == old(currentEventId)
      ensures users == old(users) && teams == old(teams) && teamScores == old(teamScores)
    {
      criteria := MapWhere(criteria, (c: Criterion) => c.id == id, (_: Criterion) => returned);
    }

    method DeleteCriterion(id: string)
      modifies this
      ensures criteria == Filter(old(criteria), (c: Criterion) => c.id != id)
      ensures events == old(events) && currentEventId == old(currentEventId)
      ensures users == old(users) && teams == old(teams) && teamScores == old(teamScores)
    {
      criteria := Filter(criteria, (c: Criterion) => c.id != id);
    }

    /** `saveTeamScore` with the sheet the server returned. */
    method SaveTeamScore(saved: TeamScore)
      modifies this
      ensures teamScores == SaveById(old(teamScores), saved)
      ensures DistinctScoreIds(old(teamScores)) ==> DistinctScoreIds(teamScores) && saved in teamScores
      ensures events == old(events) && currentEventId == old(currentEventId)
      ensures users == old(users) && teams == old(teams) && criteria == old(criteria)
    {
      if DistinctScoreIds(teamScores) {
        SaveByIdFacts(teamScores, saved);
      }
      teamScores := SaveById(teamScores, saved);
    }

    function GetTeamScore(juryId: string, teamId: string): (r: Option<TeamScore>)
      reads this
      ensures r.Some? ==> r.value in teamScores && r.value.jury == juryId && r.value.team == teamId
      ensures r.None? <==> forall s :: s in teamScores ==> !(s.jury == juryId && s.team == teamId)
    {
      FindScore(teamScores, juryId, teamId)
    }
  }
}
