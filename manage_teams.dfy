/** The team-management screens of both clients: the platform e-mail and
    platform name derived from a team's name and position, the index each
    new, edited or imported team is given, the passage-order draw, and the
    per-team scoring progress. */
module ManageTeams {
  import opened Util
  import opened ListOps
  import opened ClientTypes
  import opened Randomizer
  import opened ExcelImport

  // ---------------------------------------------------------------------
  // Platform name and e-mail

  /** `teamName.replace(/\s+/g, '_') + '_Team' + (index + 1)`. */
  function PlatformName(teamName: string, index: int): string {
    ReplaceWhitespaceRuns(teamName) + "_Team" + IntToString(index + 1)
  }

  /** `generatePlatformEmail`: '' unless the base address is non-empty
      and holds an '@'; otherwise the base's local part, a '+' tag made of
      the platform name, and the base's domain (the text between the
      first and the second '@'). */
  function PlatformEmail(baseEmail: string, teamName: string, index: int): (r: string)
    ensures r == "" <==> baseEmail == "" || '@' !in baseEmail
  {
    if baseEmail == "" || '@' !in baseEmail then ""
    else
      var local := Before(baseEmail, '@');
      var domain := Before(After(baseEmail, '@'), '@');
      local + "+" + PlatformName(teamName, index) + "@" + domain
  }

  lemma {:induction false} TrimStartKeepsOut(s: string, c: char)
    requires c !in s
    ensures c !in TrimStart(s)
    decreases |s|
  {
    if s != [] && IsWhitespace(s[0]) {
      TrimStartKeepsOut(s[1..], c);
    }
  }

  /** Rewriting white space only introduces underscores. */
  lemma {:induction false} ReplaceKeepsOut(s: string, c: char)
    requires c !in s && c != '_'
    ensures c !in ReplaceWhitespaceRuns(s)
    decreases |s|
  {
    if s != [] {
      if IsWhitespace(s[0]) {
        TrimStartKeepsOut(s[1..], c);
        ReplaceKeepsOut(TrimStart(s[1..]), c);
      } else {
        ReplaceKeepsOut(s[1..], c);
      }
    }
  }

  lemma NoAtInPlatformName(teamName: string, index: int)
    requires '@' !in teamName && index >= -1
    ensures '@' !in PlatformName(teamName, index)
  {
    ReplaceKeepsOut(teamName, '@');
    var d := IntToString(index + 1);
    assert forall i :: 0 <= i < |d| ==> IsDigit(d[i]);
  }

  /** The generated address splits back, at its '@', into the base's local
      part tagged with the platform name, and the base's domain: mail to it
      reaches the same mailbox. */
  lemma PlatformEmailSplits(baseEmail: string, teamName: string, index: int)
    requires '@' in baseEmail && '@' !in teamName && index >= -1
    ensures var r := PlatformEmail(baseEmail, teamName, index);
            Before(r, '@') == Before(baseEmail, '@') + "+" + PlatformName(teamName, index)
            && After(r, '@') == Before(After(baseEmail, '@'), '@')
  {
    var local := Before(baseEmail, '@');
    var domain := Before(After(baseEmail, '@'), '@');
    var tag := local + "+" + PlatformName(teamName, index);
    NoAtInPlatformName(teamName, index);
    assert '@' !in tag;
    assert PlatformEmail(baseEmail, teamName, index) == tag + ['@'] + domain;
    BeforeConcat(tag, '@', domain);
  }

  /** Equal texts with the same prefix and the same endings have equal
      middles. */
  lemma MiddleEqual(a: string, x: string, y: string, b: string, c: string)
    requires a + x + b + c == a + y + b + c
    ensures x == y
  {
    assert |x| == |y|;
    forall i | 0 <= i < |x| ensures x[i] == y[i] {
      assert (a + x + b + c)[|a| + i] == x[i];
      assert (a + y + b + c)[|a| + i] == y[i];
    }
  }

  /** Two positions never share a platform name. */
  lemma PlatformNameDistinct(teamName: string, i: int, j: int)
    requires -1 <= i && -1 <= j && i != j
    ensures PlatformName(teamName, i) != PlatformName(teamName, j)
  {
    if PlatformName(teamName, i) == PlatformName(teamName, j) {
      var p := ReplaceWhitespaceRuns(teamName) + "_Team";
      MiddleEqual(p, IntToString(i + 1), IntToString(j + 1), "", "");
      NatToStringInjective(i + 1, j + 1);
    }
  }

  /** Two positions never share a generated address. */
  lemma PlatformEmailDistinct(baseEmail: string, teamName: string, i: int, j: int)
    requires '@' in baseEmail && -1 <= i && -1 <= j && i != j
    ensures PlatformEmail(baseEmail, teamName, i) != PlatformEmail(baseEmail, teamName, j)
  {
    if PlatformEmail(baseEmail, teamName, i) == PlatformEmail(baseEmail, teamName, j) {
      var local := Before(baseEmail, '@');
      var domain := Before(After(baseEmail, '@'), '@');
      MiddleEqual(local + "+", PlatformName(teamName, i), PlatformName(teamName, j), "@", domain);
      PlatformNameDistinct(teamName, i, j);
    }
  }

  // ---------------------------------------------------------------------
  // handleSubmit

  /** The fields a submitted or imported team is written with. A team that
      is added is marked as never logged in; the older client also records
      whether it was entered by hand or imported. */
  datatype TeamFields = TeamFields(name: string, email: Option<string>, generatedEmail: Option<string>, event: string,
                                   hasLoggedIn: Option<bool>, importedFrom: Option<Origin>)

  /** The data call `handleSubmit` makes. */
  datatype TeamWrite = NoWrite | UpdateTeam(id: string, fields: TeamFields) | AddTeam(fields: TeamFields)

  /** The index a submitted team is named after: the edited team's position
      (-1 when it is gone), or the end of the list for a new team. */
  function SubmitIndex(teams: seq<Team>, editingId: Option<string>): (i: int)
    ensures !TruthyStr(editingId) ==> i == |teams|
    ensures TruthyStr(editingId) ==> -1 <= i < |teams|
    ensures TruthyStr(editingId) && i >= 0 ==>
              teams[i].id == editingId.value && forall k :: 0 <= k < i ==> teams[k].id != editingId.value
    ensures TruthyStr(editingId) && i == -1 ==> forall k :: 0 <= k < |teams| ==> teams[k].id != editingId.value
  {
    if TruthyStr(editingId) then FindIndex(teams, (t: Team) => t.id == editingId.value) else |teams|
  }

  /** `handleSubmit` of both clients: nothing without a name or an event;
      otherwise the edited team is updated or a new one added, the
      generated address built from the team's index, and left out when no
      e-mail was entered. A new team is marked as never logged in and
      tagged with `origin`: `Manual` in the older client, nothing in the
      newer one. */
  function HandleSubmit(teams: seq<Team>, editingId: Option<string>, name: string, email: string,
                        currentEventId: Option<string>, origin: Option<Origin>): (w: TeamWrite)
    ensures w.NoWrite? <==> name == "" || !TruthyStr(currentEventId)
    ensures w.UpdateTeam? <==> !w.NoWrite? && TruthyStr(editingId)
    ensures w.UpdateTeam? ==> w.id == editingId.value
    ensures !w.NoWrite? ==>
              w.fields.name == name && w.fields.event == currentEventId.value
              && (w.fields.email.None? <==> email == "")
              && (w.fields.generatedEmail.None? <==> email == "")
    ensures w.AddTeam? ==> w.fields.hasLoggedIn == Some(false) && w.fields.importedFrom == origin
    ensures w.UpdateTeam? ==> w.fields.hasLoggedIn.None? && w.fields.importedFrom.None?
  {
    if name == "" || !TruthyStr(currentEventId) then NoWrite
    else
      var index := SubmitIndex(teams, editingId);
      var generated := if email != "" then Some(PlatformEmail(email, name, index)) else None;
      var fields := TeamFields(name, if email != "" then Some(email) else None, generated, currentEventId.value, None, None);
      if TruthyStr(editingId) then UpdateTeam(editingId.value, fields)
      else AddTeam(fields.(hasLoggedIn := Some(false), importedFrom := origin))
  }

  /** The tag of a submitted team's generated address is the platform name
      the team's card shows: the card at the end of the list for a new team,
      the card at its own position for an edited one. */
  lemma SubmitTagMatchesCard(teams: seq<Team>, editingId: Option<string>, name: string, email: string,
                             currentEventId: Option<string>, origin: Option<Origin>)
    requires name != "" && TruthyStr(currentEventId) && '@' in email && '@' !in name
    ensures var w := HandleSubmit(teams, editingId, name, email, currentEventId, origin);
            var position := SubmitIndex(teams, editingId);
            w.fields.generatedEmail.Some?
            && Before(w.fields.generatedEmail.value, '@') == Before(email, '@') + "+" + PlatformName(name, position)
            && (w.AddTeam? ==> position == |teams|)
            && (w.UpdateTeam? && position >= 0 ==> teams[position].id == w.id)
  {
    PlatformEmailSplits(email, name, SubmitIndex(teams, editingId));
  }

  // ---------------------------------------------------------------------
  // handleImport

  /** The newer import: the address is the item's e-mail, else its
      description; the index continues after the existing teams. */
  function ImportFields(item: TeamEntry, index: int, event: string): (f: TeamFields)
    ensures f.email == OrStr(item.email, item.description)
    ensures f.generatedEmail.None? <==> !TruthyStr(f.email)
    ensures f.hasLoggedIn == Some(false) && f.importedFrom.None?
  {
    var teamEmail := OrStr(item.email, item.description);
    var generated := if TruthyStr(teamEmail) then Some(PlatformEmail(teamEmail.value, item.name, index)) else None;
    TeamFields(item.name, teamEmail, generated, event, Some(false), None)
  }

  /** `handleImport` of the newer client: one added team per imported
      entry, the i-th named after position `teams.length + i`; nothing
      without an event. */
  method HandleImport(teamCount: nat, imported: seq<TeamEntry>, currentEventId: Option<string>)
    returns (added: seq<TeamFields>)
    ensures !TruthyStr(currentEventId) ==> added == []
    ensures TruthyStr(currentEventId) ==> |added| == |imported|
    ensures TruthyStr(currentEventId) ==>
              forall i :: 0 <= i < |imported| ==> added[i] == ImportFields(imported[i], teamCount + i, currentEventId.value)
  {
    added := [];
    if !TruthyStr(currentEventId) {
      return;
    }
    var idx := 0;
    while idx < |imported|
      invariant 0 <= idx <= |imported|
      invariant |added| == idx
      invariant forall i :: 0 <= i < idx ==> added[i] == ImportFields(imported[i], teamCount + i, currentEventId.value)
    {
      ghost var prev := added;
      added := added + [ImportFields(imported[idx], teamCount + idx, currentEventId.value)];
      forall i | 0 <= i < idx + 1 ensures added[i] == ImportFields(imported[i], teamCount + i, currentEventId.value) {
        if i < idx { assert added[i] == prev[i]; }
      }
      idx := idx + 1;
    }
  }

  /** Two imported teams with the same name and address still get
      different generated addresses, and neither collides with the address
      an existing team of that name was given at its own position. */
  lemma ImportedEmailsDistinct(item: TeamEntry, teamCount: nat, i: nat, j: nat, k: nat, event: string)
    requires i != j && k < teamCount
    requires var e := OrStr(item.email, item.description); e.Some? && '@' in e.value
    ensures ImportFields(item, teamCount + i, event).generatedEmail != ImportFields(item, teamCount + j, event).generatedEmail
    ensures ImportFields(item, teamCount + i, event).generatedEmail != ImportFields(item, k, event).generatedEmail
  {
    var e := OrStr(item.email, item.description).value;
    assert TruthyStr(Some(e));
    assert ImportFields(item, teamCount + i, event).generatedEmail == Some(PlatformEmail(e, item.name, teamCount + i));
    assert ImportFields(item, teamCount + j, event).generatedEmail == Some(PlatformEmail(e, item.name, teamCount + j));
    assert ImportFields(item, k, event).generatedEmail == Some(PlatformEmail(e, item.name, k));
    PlatformEmailDistinct(e, item.name, teamCount + i, teamCount + j);
    PlatformEmailDistinct(e, item.name, teamCount + i, k);
  }

  /** The older import: the description doubles as the address. */
  function LegacyImportFields(item: LegacyTeamEntry, index: int, event: string): (f: TeamFields)
    ensures f.email == item.description
    ensures f.generatedEmail.None? <==> !TruthyStr(item.description)
    ensures f.hasLoggedIn == Some(false) && f.importedFrom == Some(Excel)
  {
    var generated := if TruthyStr(item.description) then Some(PlatformEmail(item.description.value, item.name, index)) else None;
    TeamFields(item.name, item.description, generated, event, Some(false), Some(Excel))
  }

  /** `handleImport` of the older client. */
  method LegacyHandleImport(teamCount: nat, imported: seq<LegacyTeamEntry>, currentEventId: Option<string>)
    returns (added: seq<TeamFields>)
    ensures !TruthyStr(currentEventId) ==> added == []
    ensures TruthyStr(currentEventId) ==> |added| == |imported|
    ensures TruthyStr(currentEventId) ==>
              forall i :: 0 <= i < |imported| ==> added[i] == LegacyImportFields(imported[i], teamCount + i, currentEventId.value)
  {
    added := [];
    if !TruthyStr(currentEventId) {
      return;
    }
    var idx := 0;
    while idx < |imported|
      invariant 0 <= idx <= |imported|
      invariant |added| == idx
      invariant forall i :: 0 <= i < idx ==> added[i] == LegacyImportFields(imported[i], teamCount + i, currentEventId.value)
    {
      ghost var prev := added;
      added := added + [LegacyImportFields(imported[idx], teamCount + idx, currentEventId.value)];
      forall i | 0 <= i < idx + 1 ensures added[i] == LegacyImportFields(imported[i], teamCount + i, currentEventId.value) {
        if i < idx { assert added[i] == prev[i]; }
      }
      idx := idx + 1;
    }
  }

  // ---------------------------------------------------------------------
  // handleRandomize

  /** One `updateTeam(id, {order, time})` call. */
  datatype OrderWrite = OrderWrite(id: string, order: Option<int>, time: Option<string>)

  /** `handleRandomize` of the newer client: the draw starts at '08h00'
      with 8-minute slots, but the update sends the snake_case fields the
      shuffler never sets, so every team is written back with the order and
      time it already had, in shuffled order. */
  method HandleRandomize(teams: seq<Team>, draws: seq<nat>) returns (writes: seq<OrderWrite>)
    requires ValidDraws(|teams|, draws)
    ensures |writes| == |teams|
    ensures exists s: seq<Team> :: |s| == |teams| && multiset(s) == multiset(teams)
              && forall i :: 0 <= i < |s| ==> writes[i] == OrderWrite(s[i].id, s[i].apiPassageOrder, s[i].apiPassageTime)
  {
    var ordered := AssignPassageOrder(teams, Some("08h00"), 8, draws);
    ghost var s: seq<Team> :| |s| == |teams| && multiset(s) == multiset(teams)
                              && forall i :: 0 <= i < |s| ==> ordered[i] == Stamp(s[i], i, Some("08h00"), 8);
    writes := SendApiFields(ordered);
    assert forall i :: 0 <= i < |s| ==> writes[i] == OrderWrite(s[i].id, s[i].apiPassageOrder, s[i].apiPassageTime) by {
      forall i | 0 <= i < |s|
        ensures writes[i] == OrderWrite(s[i].id, s[i].apiPassageOrder, s[i].apiPassageTime)
      {
        assert ordered[i] == Stamp(s[i], i, Some("08h00"), 8);
      }
    }
  }

  /** The `for (const team of ordered)` loop of the newer page: one update
      per team, in order, carrying the team's snake_case order and time. */
  method SendApiFields(ordered: seq<Team>) returns (writes: seq<OrderWrite>)
    ensures |writes| == |ordered|
    ensures forall k :: 0 <= k < |writes| ==>
              writes[k] == OrderWrite(ordered[k].id, ordered[k].apiPassageOrder, ordered[k].apiPassageTime)
  {
    writes := [];
    var i := 0;
    while i < |ordered|
      invariant 0 <= i <= |ordered|
      invariant |writes| == i
      invariant forall k :: 0 <= k < i ==> writes[k] == OrderWrite(ordered[k].id, ordered[k].apiPassageOrder, ordered[k].apiPassageTime)
    {
      var team := ordered[i];
      writes := writes + [OrderWrite(team.id, team.apiPassageOrder, team.apiPassageTime)];
      i := i + 1;
    }
  }

  /** The `forEach` loop of the older page: one update per team, in order,
      carrying the order and time the shuffler set. */
  method SendStampedFields(ordered: seq<Team>) returns (writes: seq<OrderWrite>)
    ensures |writes| == |ordered|
    ensures forall k :: 0 <= k < |writes| ==>
              writes[k] == OrderWrite(ordered[k].id, ordered[k].passageOrder, ordered[k].passageTime)
  {
    writes := [];
    var i := 0;
    while i < |ordered|
      invariant 0 <= i <= |ordered|
      invariant |writes| == i
      invariant forall k :: 0 <= k < i ==> writes[k] == OrderWrite(ordered[k].id, ordered[k].passageOrder, ordered[k].passageTime)
    {
      var team := ordered[i];
      writes := writes + [OrderWrite(team.id, team.passageOrder, team.passageTime)];
      i := i + 1;
    }
  }

  /** The draw and its writes of the shuffler's own fields: the i-th write
      gives a shuffled team order i + 1 and the slot i × interval minutes
      after the start. */
  method StampedWrites(teams: seq<Team>, startTime: string, interval: int, draws: seq<nat>)
    returns (writes: seq<OrderWrite>)
    requires ValidDraws(|teams|, draws) && startTime != ""
    ensures |writes| == |teams|
    ensures exists s: seq<Team> :: |s| == |teams| && multiset(s) == multiset(teams)
              && forall i :: 0 <= i < |s| ==> writes[i].id == s[i].id
    ensures forall i :: 0 <= i < |writes| ==>
              writes[i].order == Some(i + 1) && writes[i].time == Some(CalculateTimeSlot(startTime, i * interval))
  {
    var ordered := AssignPassageOrder(teams, Some(startTime), interval, draws);
    writes := SendStampedFields(ordered);
    assert TruthyStr(Some(startTime));
    forall i | 0 <= i < |writes|
      ensures writes[i].id == ordered[i].id
      ensures writes[i].order == Some(i + 1) && writes[i].time == Some(CalculateTimeSlot(startTime, i * interval))
    {
      assert writes[i] == OrderWrite(ordered[i].id, ordered[i].passageOrder, ordered[i].passageTime);
    }
    WritesFollowDraw(teams, ordered, Some(startTime), interval, writes);
  }

  /** Writes that follow a stamped draw team by team name the teams of a
      permutation of the input. */
  lemma WritesFollowDraw(teams: seq<Team>, ordered: seq<Team>, startTime: Option<string>, interval: int,
                         writes: seq<OrderWrite>)
    requires |writes| == |ordered| == |teams|
    requires exists s: seq<Team> :: |s| == |teams| && multiset(s) == multiset(teams)
               && forall i :: 0 <= i < |s| ==> ordered[i] == Stamp(s[i], i, startTime, interval)
    requires forall k :: 0 <= k < |writes| ==> writes[k].id == ordered[k].id
    ensures exists s: seq<Team> :: |s| == |teams| && multiset(s) == multiset(teams)
              && forall i :: 0 <= i < |s| ==> writes[i].id == s[i].id
  {
    var s: seq<Team> :| |s| == |teams| && multiset(s) == multiset(teams)
                        && forall i :: 0 <= i < |s| ==> ordered[i] == Stamp(s[i], i, startTime, interval);
    assert forall k :: 0 <= k < |writes| ==> writes[k].id == s[k].id;
  }

  /** `handleRandomize` of the older client: the draw starts at '09h00'
      with 15-minute slots, written to the fields the shuffler sets. */
  method LegacyHandleRandomize(teams: seq<Team>, draws: seq<nat>) returns (writes: seq<OrderWrite>)
    requires ValidDraws(|teams|, draws)
    ensures |writes| == |teams|
    ensures exists s: seq<Team> :: |s| == |teams| && multiset(s) == multiset(teams)
              && forall i :: 0 <= i < |s| ==> writes[i].id == s[i].id
    ensures forall i :: 0 <= i < |writes| ==>
              writes[i].order == Some(i + 1) && writes[i].time == Some(CalculateTimeSlot("09h00", i * 15))
  {
    writes := StampedWrites(teams, "09h00", 15, draws);
  }

  /** `handleClearOrder` of both clients: one write per team, in list
      order, clearing its order and its time. */
  method HandleClearOrder(teams: seq<Team>) returns (writes: seq<OrderWrite>)
    ensures |writes| == |teams|
    ensures forall i :: 0 <= i < |writes| ==> writes[i] == OrderWrite(teams[i].id, None, None)
  {
    var cleared := ClearPassageOrder(teams);
    writes := [];
    var i := 0;
    while i < |cleared|
      invariant 0 <= i <= |cleared|
      invariant |writes| == i
      invariant forall k :: 0 <= k < i ==> writes[k] == OrderWrite(teams[k].id, None, None)
    {
      writes := writes + [OrderWrite(cleared[i].id, None, None)];
      i := i + 1;
    }
  }

  // ---------------------------------------------------------------------
  // getTeamProgress

  predicate IsJuryUser(u: User) {
    u.role == JuryRole
  }

  /** `users.filter(u => u.role === 'jury')`. */
  function JuryUsers(users: seq<User>): (r: seq<User>)
    ensures |r| <= |users|
    ensures forall u :: u in r <==> u in users && IsJuryUser(u)
  {
    Filter(users, IsJuryUser)
  }

  /** `teamScores.filter(ts => ts.team === teamId && ts.locked).length`. */
  function LockedForTeam(teamId: string, teamScores: seq<TeamScore>): nat
    decreases |teamScores|
  {
    if teamScores == [] then 0
    else (if teamScores[0].team == teamId && teamScores[0].locked then 1 else 0) + LockedForTeam(teamId, teamScores[1..])
  }

  datatype TeamProgress = TeamProgress(scored: nat, total: nat)

  /** `getTeamProgress`: nothing to count without juries; otherwise the
      team's locked records against the number of jury users. */
  function GetTeamProgress(teamId: string, users: seq<User>, teamScores: seq<TeamScore>): (p: TeamProgress)
    ensures p.total == |JuryUsers(users)|
    ensures p.total == 0 ==> p.scored == 0
    ensures p.total > 0 ==> p.scored == LockedForTeam(teamId, teamScores)
  {
    var juries := JuryUsers(users);
    if |juries| == 0 then TeamProgress(0, 0)
    else TeamProgress(LockedForTeam(teamId, teamScores), |juries|)
  }

  /** The card's percentage: `Math.round(scored / total × 100)`, 0 without juries. */
  function ProgressPercentage(p: TeamProgress): (r: int)
    ensures p.total == 0 ==> r == 0
    ensures p.total > 0 ==> 2 * p.total * r <= 200 * p.scored + p.total < 2 * p.total * r + 2 * p.total
  {
    if p.total > 0 then RoundHalfUp(p.scored * 100, p.total) else 0
  }

  /** The juries holding a locked record for the team. */
  function LockedJuries(teamId: string, teamScores: seq<TeamScore>): set<string> {
    set s | s in teamScores && s.team == teamId && s.locked :: s.jury
  }

  lemma {:induction false} LockedJuriesCount(teamId: string, teamScores: seq<TeamScore>)
    ensures |LockedJuries(teamId, teamScores)| <= LockedForTeam(teamId, teamScores)
    decreases |teamScores|
  {
    if teamScores != [] {
      var s0, rest := teamScores[0], teamScores[1..];
      LockedJuriesCount(teamId, rest);
      assert teamScores == [s0] + rest;
      if s0.team == teamId && s0.locked {
        assert LockedJuries(teamId, teamScores) == LockedJuries(teamId, rest) + {s0.jury};
      } else {
        assert LockedJuries(teamId, teamScores) == LockedJuries(teamId, rest);
      }
    }
  }

  function UserIds(users: seq<User>): set<string> {
    set u | u in users :: u.id
  }

  predicate DistinctUserIds(users: seq<User>) {
    forall i, j :: 0 <= i < j < |users| ==> users[i].id != users[j].id
  }

  lemma {:induction false} UserIdsCard(users: seq<User>)
    requires DistinctUserIds(users)
    ensures |UserIds(users)| == |users|
    decreases |users|
  {
    if users != [] {
      var rest := users[1..];
      UserIdsCard(rest);
      assert users == [users[0]] + rest;
      assert UserIds(users) == UserIds(rest) + {users[0].id};
      assert users[0].id !in UserIds(rest);
    }
  }

  lemma DistinctJuryUsers(users: seq<User>)
    requires DistinctUserIds(users)
    ensures DistinctUserIds(JuryUsers(users))
  {
    FilterPairwise(users, IsJuryUser, (x: User, y: User) => x.id != y.id);
  }

  /** Once every jury user has locked a record for the team, the team's
      card shows at least 100 %. */
  lemma TeamFullyScored(teamId: string, users: seq<User>, teamScores: seq<TeamScore>)
    requires DistinctUserIds(users) && |JuryUsers(users)| > 0
    requires forall u :: u in JuryUsers(users) ==>
               exists s :: s in teamScores && s.jury == u.id && s.team == teamId && s.locked
    ensures var p := GetTeamProgress(teamId, users, teamScores);
            p.scored >= p.total && ProgressPercentage(p) >= 100
  {
    var juries := JuryUsers(users);
    DistinctJuryUsers(users);
    UserIdsCard(juries);
    assert UserIds(juries) <= LockedJuries(teamId, teamScores);
    SubsetCard(UserIds(juries), LockedJuries(teamId, teamScores));
    LockedJuriesCount(teamId, teamScores);
    var p := GetTeamProgress(teamId, users, teamScores);
    var r := ProgressPercentage(p);
    if r < 100 {
      MulLeft(r, 99, 2 * p.total);
      assert false;
    }
  }

  /** The percentage stays within [0, 100] while no more records are
      locked than there are juries. */
  lemma TeamProgressBounds(teamId: string, users: seq<User>, teamScores: seq<TeamScore>)
    requires LockedForTeam(teamId, teamScores) <= |JuryUsers(users)|
    ensures 0 <= ProgressPercentage(GetTeamProgress(teamId, users, teamScores)) <= 100
  {
    var p := GetTeamProgress(teamId, users, teamScores);
    if p.total > 0 {
      PercentageBounds(p.scored, p.total);
    }
  }
}
