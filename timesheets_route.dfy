/** The timesheet handlers, src/app/api/timesheets/route.ts: the listing,
    the creation of a weekly row with its total, the selective update that
    recomputes the total when the hours change, and the deletion. */
module TimesheetsRoute {
  import opened Wrappers
  import opened Http
  import opened Docs
  import opened Seqs
  import opened Calendar
  import opened LumaListings
  import opened LumaStore
  import opened Joins

  /** The sum of the seven days of a week, as the `reduce` of lines 66 and
      106 computes it. */
  function DayTotal(h: DayHours): (t: real)
    ensures t == h.mon + h.tue + h.wed + h.thu + h.fri + h.sat + h.sun
  {
    WeekTotalIsSum(h);
    WeekTotal(h)
  }

  // ------------------------------------------------------------------ GET

  const DefaultLimit := 100

  /** A row as the listing reports it, with its project or null. */
  datatype TimesheetRow = TimesheetRow(
    id: string, userId: string, projectId: string, activity: string, notes: Option<string>,
    billable: bool, weekNumber: int, year: int, hours: DayHours, total: real, status: string,
    project: Option<ProjectDoc>)

  function Row(e: TimeEntryDoc, projects: seq<ProjectDoc>): (r: TimesheetRow)
    ensures r.id == e.id && r.userId == e.userId && r.projectId == e.projectId
    ensures r.activity == e.activity && r.notes == e.notes && r.billable == e.billable
    ensures r.weekNumber == e.weekNumber && r.year == e.year
    ensures r.hours == e.hours && r.total == e.total && r.status == e.status
    ensures r.project.None? <==> forall i :: 0 <= i < |projects| ==> projects[i].id != e.projectId
    ensures r.project.Some? ==> r.project.value in projects && r.project.value.id == e.projectId
    ensures r.project.Some? ==> exists i :: 0 <= i < |projects| && projects[i] == r.project.value &&
                                            forall j :: i < j < |projects| ==> projects[j].id != e.projectId
  {
    TimesheetRow(e.id, e.userId, e.projectId, e.activity, e.notes, e.billable, e.weekNumber,
                 e.year, e.hours, e.total, e.status, ProjectById(projects, e.projectId))
  }

  /** The `GET` handler (lines 4-41): `found` is the timesheet collection
      and `projects` the project listing; `weekNumber` and `year` are the
      parsed query values. The newest matching rows come first and at most
      `limit` (100 when absent) are returned. */
  function GetTimesheetRows(found: seq<TimeEntryDoc>, projects: seq<ProjectDoc>, userId: Option<string>,
                            weekNumber: Option<int>, year: Option<int>, limit: Option<int>): (rows: seq<TimesheetRow>)
    ensures var listed := GetTimeEntries(found, TimeEntryFilter(userId, None, weekNumber, year));
            var n := limit.GetOr(DefaultLimit);
            (n >= 0 ==> |rows| == if n < |listed| then n else |listed|) &&
            (n < 0 ==> |rows| == if |listed| + n > 0 then |listed| + n else 0) &&
            forall i :: 0 <= i < |rows| ==> rows[i] == Row(listed[i], projects)
  {
    var listed := GetTimeEntries(found, TimeEntryFilter(userId, None, weekNumber, year));
    MapSeq(Slice(listed, limit.GetOr(DefaultLimit)), (e: TimeEntryDoc) => Row(e, projects))
  }

  /** Without a parameter nothing is filtered out: the listing holds every
      row of the collection. */
  lemma UnfilteredListsAll(found: seq<TimeEntryDoc>)
    ensures multiset(GetTimeEntries(found, NoTimeEntryFilter)) == multiset(found)
  {
    FilterAll(found, (e: TimeEntryDoc) => MatchesTimeEntry(NoTimeEntryFilter, e));
  }

  // ----------------------------------------------------------------- POST

  /** The body of a `POST`: `billable` and `hours` may be left out. */
  datatype TimesheetBody = TimesheetBody(
    userId: string, projectId: string, activity: string, notes: Option<string>,
    billable: Option<bool>, weekNumber: int, year: int, hours: Option<DayHours>)

  /** `te_${Date.now()}`. */
  function TimeEntryId(now: int): string {
    "te_" + IntToString(now)
  }

  /** The `POST` handler (lines 51-85): a draft row, billable unless told
      otherwise, whose total is the sum of its days; no hours means a week
      of zeros and a total of zero. */
  method PostTimesheet(store: DocStore, body: TimesheetBody, now: int) returns (entry: TimeEntryDoc)
    requires store.Valid()
    modifies store
    ensures store.Valid()
    ensures entry.id == TimeEntryId(now) && entry.status == "draft"
    ensures entry.userId == body.userId && entry.projectId == body.projectId && entry.activity == body.activity
    ensures entry.notes == body.notes && entry.weekNumber == body.weekNumber && entry.year == body.year
    ensures entry.billable == body.billable.GetOr(true)
    ensures entry.hours == body.hours.GetOr(NoHours)
    ensures entry.total == DayTotal(entry.hours)
    ensures body.hours.None? ==> entry.total == 0.0
    ensures entry.createdAt == now && entry.updatedAt == now
    ensures store.db == old(store.db).(timeEntries := old(store.db.timeEntries)[entry.id := entry])
  {
    var hours := body.hours.GetOr(NoHours);
    var total := DayTotal(hours);
    entry := store.CreateTimeEntry(TimeEntryDoc(TimeEntryId(now), body.userId, body.projectId, body.activity,
                                                body.notes, body.billable.GetOr(true), body.weekNumber,
                                                body.year, hours, total, "draft", 0, 0), now);
  }

  // ------------------------------------------------------------------ PUT

  /** The body of a `PUT`: every field may be left out. */
  datatype TimesheetEdit = TimesheetEdit(
    id: Option<string>, activity: Option<string>, notes: Option<string>,
    hours: Option<DayHours>, status: Option<string>)

  /** The update built at lines 100-107: the fields given, and with the
      hours their total. */
  function EditPatch(edit: TimesheetEdit): TimeEntryPatch {
    NoTimeEntryChange.(
      activity := if edit.activity.Some? then Set(edit.activity.value) else Keep,
      notes := if edit.notes.Some? then Set(edit.notes) else Keep,
      status := if edit.status.Some? then Set(edit.status.value) else Keep,
      hours := if edit.hours.Some? then Set(edit.hours.value) else Keep,
      total := if edit.hours.Some? then Set(DayTotal(edit.hours.value)) else Keep)
  }

  /** The row an edit leaves: the given fields replaced, the total the sum
      of the new hours when hours were given and the old total otherwise,
      every other field kept. */
  function Edited(e: TimeEntryDoc, edit: TimesheetEdit, now: int): (r: TimeEntryDoc)
    ensures r.id == e.id && r.userId == e.userId && r.projectId == e.projectId && r.billable == e.billable
    ensures r.weekNumber == e.weekNumber && r.year == e.year && r.createdAt == e.createdAt
    ensures r.updatedAt == now
    ensures r.activity == edit.activity.GetOr(e.activity)
    ensures r.notes == if edit.notes.Some? then edit.notes else e.notes
    ensures r.status == edit.status.GetOr(e.status)
    ensures r.hours == edit.hours.GetOr(e.hours)
    ensures edit.hours.Some? ==> r.total == DayTotal(r.hours)
    ensures edit.hours.None? ==> r.total == e.total
  {
    MergeTimeEntry(e, EditPatch(edit), now)
  }

  /** A row whose total is the sum of its days keeps that after any edit. */
  lemma EditKeepsTotal(e: TimeEntryDoc, edit: TimesheetEdit, now: int)
    requires e.total == DayTotal(e.hours)
    ensures var r := Edited(e, edit, now); r.total == DayTotal(r.hours)
  {
  }

  /** The `PUT` handler (lines 95-119): 404 with nothing written when the
      id is missing or unknown, otherwise the edited row is written. */
  method PutTimesheet(store: DocStore, edit: TimesheetEdit, now: int) returns (reply: Reply<()>)
    requires store.Valid()
    modifies store
    ensures store.Valid()
    ensures edit.id.None? || edit.id.value !in old(store.db.timeEntries) ==>
              reply == Fail(404, "Entry not found") && store.db == old(store.db)
    ensures edit.id.Some? && edit.id.value in old(store.db.timeEntries) ==>
              reply == Ok(()) &&
              store.db == old(store.db).(timeEntries := old(store.db.timeEntries)[edit.id.value :=
                            Edited(old(store.db.timeEntries)[edit.id.value], edit, now)])
  {
    if edit.id.None? {
      return Fail(404, "Entry not found");
    }
    var entry := store.UpdateTimeEntry(edit.id.value, EditPatch(edit), now);
    if entry.None? {
      return Fail(404, "Entry not found");
    }
    reply := Ok(());
  }

  // --------------------------------------------------------------- DELETE

  /** The `DELETE` handler (lines 128-142): 400 with nothing deleted for a
      missing or empty id, otherwise the row is gone and nothing else
      changes. */
  method DeleteTimesheet(store: DocStore, id: Option<string>) returns (reply: Reply<()>)
    requires store.Valid()
    modifies store
    ensures store.Valid()
    ensures !Truthy(id) ==> reply == Fail(400, "ID is required") && store.db == old(store.db)
    ensures Truthy(id) ==>
              reply == Ok(()) &&
              store.db == old(store.db).(timeEntries := old(store.db.timeEntries) - {id.value})
  {
    if !Truthy(id) {
      return Fail(400, "ID is required");
    }
    KeyedDrop(store.db, TimeEntries, {id.value});
    store.DeleteDoc(TimeEntries, id.value);
    reply := Ok(());
  }
}
