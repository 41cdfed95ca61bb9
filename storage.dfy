/** `migrateData` of both clients: data stored before events existed is
    moved into the default event. The migration sees a stored record only
    through its two optional event fields (`eventId` in the older format,
    `event` in the newer) and leaves the rest of the record alone, so the
    record body is a type parameter. */
module Storage {
  import opened Util
  import opened ListOps
  import opened ClientTypes

  /** A stored record: the fields the migration does not touch, and the
      two event fields, each possibly absent. */
  datatype Stored<T> = Stored(rest: T, event: Option<string>, eventId: Option<string>)

  /** The user fields the migration reads. */
  datatype Account = Account(id: string, username: string, password: string, role: ClientRole)

  /** The parsed local-storage value; any list may be missing. */
  datatype StoredData<T, C, S> = StoredData(
    users: Option<seq<Stored<Account>>>,
    events: Option<seq<Event>>,
    teams: Option<seq<Stored<T>>>,
    criteria: Option<seq<Stored<C>>>,
    teamScores: Option<seq<Stored<S>>>)

  const LegacyAdminPassword: string := "admin123"
  const AdminPassword: string := "admin_RISE@"

  function DefaultAdmin(password: string): Stored<Account> {
    Stored(Account("admin-1", "admin", password, AdminRole), None, None)
  }

  /** The default event, dated with the clock reading `now`. */
  function DefaultEvent(now: string): Event {
    Event(DefaultEventId, "JuryHack 2025", now, Ongoing, Some("Événement par défaut"), now)
  }

  /** `!data.events || data.events.length === 0`. */
  predicate NeedsMigration<T, C, S>(d: StoredData<T, C, S>) {
    d.events.None? || |d.events.value| == 0
  }

  // ---------------------------------------------------------------------
  // Older client: the event goes in `eventId`

  /** `eventId: record.eventId || DEFAULT_EVENT_ID`. */
  function LegacyTag<T>(r: Stored<T>): Stored<T> {
    r.(eventId := OrStr(r.eventId, Some(DefaultEventId)))
  }

  /** A jury without an event is filed under the default event. */
  function LegacyUserTag(u: Stored<Account>): Stored<Account> {
    u.(eventId := if u.rest.role == JuryRole && !TruthyStr(u.eventId) then Some(DefaultEventId) else u.eventId)
  }

  function MigrateLegacy<T, C, S>(d: StoredData<T, C, S>, now: string): (r: StoredData<T, C, S>)
    ensures !NeedsMigration(d) ==> r == d
    ensures !NeedsMigration(r)
    ensures NeedsMigration(d) ==> r.events == Some([DefaultEvent(now)])
    ensures NeedsMigration(d) ==> r.teams.Some? && Tagged(d.teams.GetOr([]), r.teams.value)
    ensures NeedsMigration(d) ==> r.criteria.Some? && Tagged(d.criteria.GetOr([]), r.criteria.value)
    ensures NeedsMigration(d) ==> r.teamScores.Some? && Tagged(d.teamScores.GetOr([]), r.teamScores.value)
    ensures NeedsMigration(d) && d.users.None? ==> r.users == Some([DefaultAdmin(LegacyAdminPassword)])
    ensures NeedsMigration(d) ==> r.users.Some? && |r.users.value| == |d.users.GetOr([DefaultAdmin(LegacyAdminPassword)])|
    ensures NeedsMigration(d) ==> forall i :: 0 <= i < |r.users.value| ==>
              var before := d.users.GetOr([DefaultAdmin(LegacyAdminPassword)])[i];
              var after := r.users.value[i];
              after.rest == before.rest && after.event == before.event
              && (after.rest.role == JuryRole ==> TruthyStr(after.eventId))
              && (after.rest.role != JuryRole || TruthyStr(before.eventId) ==> after.eventId == before.eventId)
  {
    if NeedsMigration(d) then
      var users := Map(d.users.GetOr([DefaultAdmin(LegacyAdminPassword)]), LegacyUserTag);
      assert d.users.None? ==> users == [DefaultAdmin(LegacyAdminPassword)] by {
        if d.users.None? {
          assert users[0] == LegacyUserTag(DefaultAdmin(LegacyAdminPassword)) == DefaultAdmin(LegacyAdminPassword);
        }
      }
      StoredData(
        Some(users),
        Some([DefaultEvent(now)]),
        Some(Map(d.teams.GetOr([]), LegacyTag)),
        Some(Map(d.criteria.GetOr([]), LegacyTag)),
        Some(Map(d.teamScores.GetOr([]), LegacyTag)))
    else d
  }

  /** The list keeps its length and order, every record keeps its other
      fields, and every record now carries an event id: its own when it had
      one, the default one otherwise. */
  ghost predicate Tagged<T>(before: seq<Stored<T>>, after: seq<Stored<T>>) {
    |after| == |before|
    && forall i :: 0 <= i < |before| ==>
         after[i].rest == before[i].rest && after[i].event == before[i].event
         && TruthyStr(after[i].eventId)
         && (TruthyStr(before[i].eventId) ==> after[i].eventId == before[i].eventId)
         && (!TruthyStr(before[i].eventId) ==> after[i].eventId == Some(DefaultEventId))
  }

  /** A second migration changes nothing, whatever the clock says. */
  lemma MigrateLegacyIdempotent<T, C, S>(d: StoredData<T, C, S>, now: string, later: string)
    ensures MigrateLegacy(MigrateLegacy(d, now), later) == MigrateLegacy(d, now)
  {
  }

  // ---------------------------------------------------------------------
  // Newer client: the event goes in `event`

  /** `event: record.event || record.eventId || DEFAULT_EVENT_ID`. */
  function Tag<T>(r: Stored<T>): Stored<T> {
    r.(event := OrStr(r.event, OrStr(r.eventId, Some(DefaultEventId))))
  }

  /** `event: user.event || user.eventId || (jury ? DEFAULT_EVENT_ID : undefined)`. */
  function UserTag(u: Stored<Account>): Stored<Account> {
    u.(event := OrStr(u.event, OrStr(u.eventId, if u.rest.role == JuryRole then Some(DefaultEventId) else None)))
  }

  /** The event a record ends up in: its `event`, else its `eventId`, else the default. */
  ghost predicate Filed<T>(before: seq<Stored<T>>, after: seq<Stored<T>>) {
    |after| == |before|
    && forall i :: 0 <= i < |before| ==>
         after[i].rest == before[i].rest && after[i].eventId == before[i].eventId
         && TruthyStr(after[i].event)
         && (TruthyStr(before[i].event) ==> after[i].event == before[i].event)
         && (!TruthyStr(before[i].event) && TruthyStr(before[i].eventId) ==> after[i].event == before[i].eventId)
         && (!TruthyStr(before[i].event) && !TruthyStr(before[i].eventId) ==> after[i].event == Some(DefaultEventId))
  }

  function Migrate<T, C, S>(d: StoredData<T, C, S>, now: string): (r: StoredData<T, C, S>)
    ensures !NeedsMigration(d) ==> r == d
    ensures !NeedsMigration(r)
    ensures NeedsMigration(d) ==> r.events == Some([DefaultEvent(now)])
    ensures NeedsMigration(d) ==> r.teams.Some? && Filed(d.teams.GetOr([]), r.teams.value)
    ensures NeedsMigration(d) ==> r.criteria.Some? && Filed(d.criteria.GetOr([]), r.criteria.value)
    ensures NeedsMigration(d) ==> r.teamScores.Some? && Filed(d.teamScores.GetOr([]), r.teamScores.value)
    ensures NeedsMigration(d) && d.users.None? ==> r.users == Some([DefaultAdmin(AdminPassword)])
    ensures NeedsMigration(d) ==> r.users.Some? && |r.users.value| == |d.users.GetOr([DefaultAdmin(AdminPassword)])|
    ensures NeedsMigration(d) ==> forall i :: 0 <= i < |r.users.value| ==>
              var before := d.users.GetOr([DefaultAdmin(AdminPassword)])[i];
              var after := r.users.value[i];
              after.rest == before.rest && after.eventId == before.eventId
              && (after.rest.role == JuryRole ==> TruthyStr(after.event))
              && (TruthyStr(before.event) ==> after.event == before.event)
              && (!TruthyStr(before.event) && !TruthyStr(before.eventId) && after.rest.role != JuryRole
                  ==> after.event.None?)
  {
    if NeedsMigration(d) then
      var users := Map(d.users.GetOr([DefaultAdmin(AdminPassword)]), UserTag);
      assert d.users.None? ==> users == [DefaultAdmin(AdminPassword)] by {
        if d.users.None? {
          assert users[0] == UserTag(DefaultAdmin(AdminPassword)) == DefaultAdmin(AdminPassword);
        }
      }
      StoredData(
        Some(users),
        Some([DefaultEvent(now)]),
        Some(Map(d.teams.GetOr([]), Tag)),
        Some(Map(d.criteria.GetOr([]), Tag)),
        Some(Map(d.teamScores.GetOr([]), Tag)))
    else d
  }

  lemma MigrateIdempotent<T, C, S>(d: StoredData<T, C, S>, now: string, later: string)
    ensures Migrate(Migrate(d, now), later) == Migrate(d, now)
  {
  }
}
