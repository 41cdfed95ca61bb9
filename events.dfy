/** The events pages of both clients: the automatic end of an event once
    every team is scored, the list order by status, and the event form. */
module Events {
  import opened Util
  import opened ListOps
  import opened Sorting
  import opened ClientTypes
  import opened Calculations
  import opened ManageTeams

  // ---------------------------------------------------------------------
  // EventDashboard: ongoing -> completed

  /** `events.find(e => e.id === currentEventId)`. */
  function FindEvent(events: seq<Event>, id: Option<string>): (r: Option<Event>)
    ensures r.Some? ==> id.Some? && r.value in events && r.value.id == id.value
    ensures r.None? ==> id.None? || forall e :: e in events ==> e.id != id.value
  {
    if id.None? then None
    else
      var i := FindIndex(events, (e: Event) => e.id == id.value);
      if i == -1 then None else Some(events[i])
  }

  /** The jury users as the scoring functions see them. */
  function AsJuries(users: seq<User>): (r: seq<Jury>)
    ensures |r| == |JuryUsers(users)|
  {
    Map(JuryUsers(users), (u: User) => Jury(u.id, u.username))
  }

  /** The dashboard's effect: the id of the event to mark completed, when
      the current event exists, is ongoing, has at least one team and one
      jury, and every team holds a locked record from every jury. */
  function AutoTransition(events: seq<Event>, currentEventId: Option<string>, users: seq<User>,
                          teams: seq<Team>, teamScores: seq<TeamScore>): (r: Option<string>)
    ensures r.Some? <==>
              FindEvent(events, currentEventId).Some? && FindEvent(events, currentEventId).value.status == Ongoing
              && |teams| > 0 && |JuryUsers(users)| > 0 && AllTeamsScored(teams, AsJuries(users), teamScores)
    ensures r.Some? ==> r == currentEventId
  {
    var current := FindEvent(events, currentEventId);
    var juries := AsJuries(users);
    if current.Some? && AllTeamsScored(teams, juries, teamScores) && current.value.status == Ongoing
       && |teams| > 0 && |juries| > 0
    then Some(current.value.id)
    else None
  }

  /** `updateEvent(id, { status: 'completed' })`: only the status changes. */
  function MarkCompleted(e: Event): (r: Event)
    ensures r.status == Completed
    ensures r.(status := e.status) == e
  {
    e.(status := Completed)
  }

  /** The rule fires at most once: applied to the event list it leaves the
      event completed, after which it does not fire again; an upcoming or
      completed event is never touched. */
  lemma AutoTransitionOnce(events: seq<Event>, currentEventId: Option<string>, users: seq<User>,
                           teams: seq<Team>, teamScores: seq<TeamScore>)
    ensures FindEvent(events, currentEventId).Some? && FindEvent(events, currentEventId).value.status != Ongoing
            ==> AutoTransition(events, currentEventId, users, teams, teamScores).None?
    ensures var r := AutoTransition(events, currentEventId, users, teams, teamScores);
            var after := MapWhere(events, (e: Event) => e.id == r.GetOr(""), MarkCompleted);
            r.Some? ==> AutoTransition(after, currentEventId, users, teams, teamScores).None?
  {
    var r := AutoTransition(events, currentEventId, users, teams, teamScores);
    if r.Some? {
      var hit := (e: Event) => e.id == r.value;
      var after := MapWhere(events, hit, MarkCompleted);
      var f := FindEvent(after, currentEventId);
      if f.Some? {
        var k :| 0 <= k < |after| && after[k] == f.value;
        assert hit(events[k]);
      }
    }
  }

  /** Completion as the dashboard decides it implies full progress for
      every jury. */
  lemma CompletedMeansFullProgress(events: seq<Event>, currentEventId: Option<string>, users: seq<User>,
                                   teams: seq<Team>, teamScores: seq<TeamScore>, j: nat)
    requires AutoTransition(events, currentEventId, users, teams, teamScores).Some?
    requires DistinctTeamIds(teams) && j < |AsJuries(users)|
    ensures GetJuryProgress(AsJuries(users)[j].id, teams, teamScores).percentage >= 100
  {
    AllScoredMeansFullProgress(teams, AsJuries(users), teamScores, j);
  }

  // ---------------------------------------------------------------------
  // EventsList: order by status

  /** `{ ongoing: 0, upcoming: 1, completed: 2 }`. */
  function StatusRank(s: Status): nat {
    match s
    case Ongoing => 0
    case Upcoming => 1
    case Completed => 2
  }

  function StatusKey(e: Event): seq<real> {
    [StatusRank(e.status) as real]
  }

  /** `sortedEvents`, a sorted copy. */
  function SortedEvents(events: seq<Event>): seq<Event> {
    SortByKey(events, StatusKey)
  }

  /** Every event once; ongoing events first, then upcoming, then
      completed; events of one status in their list order. */
  lemma SortedEventsFacts(events: seq<Event>, status: Status)
    ensures multiset(SortedEvents(events)) == multiset(events)
    ensures forall i, j :: 0 <= i < j < |SortedEvents(events)| ==>
              StatusRank(SortedEvents(events)[i].status) <= StatusRank(SortedEvents(events)[j].status)
    ensures WithKey(SortedEvents(events), StatusKey, [StatusRank(status) as real])
            == WithKey(events, StatusKey, [StatusRank(status) as real])
  {
    SortByKeySortedPermutation(events, StatusKey);
    SortByKeyStable(events, StatusKey, [StatusRank(status) as real]);
    var s := SortedEvents(events);
    forall i, j | 0 <= i < j < |s| ensures StatusRank(s[i].status) <= StatusRank(s[j].status) {
      assert !LexLt(StatusKey(s[j]), StatusKey(s[i]));
    }
  }

  // ---------------------------------------------------------------------
  // The event form

  /** The call `handleSubmit` makes. The older client stamps a new event
      with its creation time. */
  datatype EventWrite =
    | NoEventWrite
    | UpdateEvent(id: string, name: string, date: string, description: string, status: Status)
    | AddEvent(name: string, date: string, description: string, status: Status, createdAt: Option<string>)

  /** `event.date.split('T')[0]`: the calendar date of an ISO time stamp. */
  function DatePart(date: string): (r: string)
    ensures 'T' !in r && r <= date
  {
    Before(date, 'T')
  }

  /** The date part of `day + 'T' + time` is `day`, and taking it twice
      changes nothing. */
  lemma DatePartOfStamp(day: string, time: string)
    requires 'T' !in day
    ensures DatePart(day + "T" + time) == day
    ensures DatePart(DatePart(day + "T" + time)) == day
  {
    BeforeConcat(day, 'T', time);
    var r := Before(day, 'T');
    assert |r| == |day|;
  }

  /** The modal's form state. */
  class EventForm {
    var name: string
    var date: string
    var description: string
    var status: Status
    var editingId: Option<string>
    var isModalOpen: bool

    constructor()
      ensures name == "" && date == "" && description == "" && status == Upcoming
      ensures editingId.None? && !isModalOpen
    {
      name, date, description := "", "", "";
      status := Upcoming;
      editingId := None;
      isModalOpen := false;
    }

    /** `resetForm`. */
    method ResetForm()
      modifies this
      ensures name == "" && date == "" && description == "" && status == Upcoming
      ensures editingId.None? && !isModalOpen
    {
      name, date, description := "", "", "";
      status := Upcoming;
      editingId := None;
      isModalOpen := false;
    }

    /** `handleEdit`: the event's fields, its date cut at the first 'T'. */
    method HandleEdit(e: Event)
      modifies this
      ensures name == e.name && date == DatePart(e.date) && description == e.description.GetOr("")
      ensures status == e.status && editingId == Some(e.id) && isModalOpen
    {
      name := e.name;
      date := DatePart(e.date);
      description := e.description.GetOr("");
      status := e.status;
      editingId := Some(e.id);
      isModalOpen := true;
    }

    /** `handleSubmit`'s call: nothing unless a name and a date are filled
        in; `createdAt` is the older client's time stamp, `None` for the
        newer client. */
    function Submit(createdAt: Option<string>): (w: EventWrite)
      reads this
      ensures w.NoEventWrite? <==> name == "" || date == ""
      ensures w.UpdateEvent? <==> !w.NoEventWrite? && TruthyStr(editingId)
      ensures w.UpdateEvent? ==> w.id == editingId.value
      ensures !w.NoEventWrite? ==>
                w.name == name && w.date == date && w.description == description && w.status == status
      ensures w.AddEvent? ==> w.createdAt == createdAt
    {
      if name == "" || date == "" then NoEventWrite
      else if TruthyStr(editingId) then UpdateEvent(editingId.value, name, date, description, status)
      else AddEvent(name, date, description, status, createdAt)
    }

    /** `handleSubmit`: the write, then a reset form; an incomplete form
        stays as it is. */
    method HandleSubmit(createdAt: Option<string>) returns (w: EventWrite)
      modifies this
      ensures w == old(Submit(createdAt))
      ensures w.NoEventWrite? ==> unchanged(this)
      ensures !w.NoEventWrite? ==>
                name == "" && date == "" && description == "" && status == Upcoming && editingId.None? && !isModalOpen
    {
      w := Submit(createdAt);
      if !w.NoEventWrite? {
        ResetForm();
      }
    }
  }

  /** Editing an event and saving it untouched writes the event back with
      its own id, name, status and description, and the date part of its
      date. */
  method EditThenSave(e: Event) returns (w: EventWrite)
    requires e.name != "" && e.id != "" && DatePart(e.date) != ""
    ensures w == UpdateEvent(e.id, e.name, DatePart(e.date), e.description.GetOr(""), e.status)
  {
    var form := new EventForm();
    form.HandleEdit(e);
    w := form.HandleSubmit(None);
  }
}
