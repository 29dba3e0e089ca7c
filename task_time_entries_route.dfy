/** The task-time-entry handlers, src/app/api/task-time-entries/route.ts:
    the creation with its week and year, the update of hours, description
    and billing flag, and the deletion. Each change of an entry is followed
    by the recomputation of its task's hours inside the store. */
module TaskTimeEntriesRoute {
  import opened Wrappers
  import opened Http
  import opened Docs
  import opened Calendar
  import opened LumaStore

  // ----------------------------------------------------------------- POST

  /** The body of a `POST`: `hours`, `description` and `billable` may be
      left out. */
  datatype EntryBody = EntryBody(
    taskId: string, userId: string, projectId: string, hours: Option<real>,
    date: CalendarDate, description: Option<string>, billable: Option<bool>)

  /** `tte_${Date.now()}`. */
  function EntryId(now: int): string {
    "tte_" + IntToString(now)
  }

  /** The `POST` handler (lines 38-64): the week number of the Sunday-based
      formula and the year of the date, billable unless told otherwise; the
      entry's task then carries the hours of its entries. */
  method PostEntry(store: DocStore, body: EntryBody, now: int) returns (entry: TaskTimeEntryDoc)
    requires store.Valid()
    modifies store
    ensures store.Valid()
    ensures entry == TaskTimeEntryDoc(EntryId(now), body.taskId, body.userId, body.projectId, body.hours,
                                      body.date, body.description, body.billable.GetOr(true),
                                      SundayWeekNumber(body.date), body.date.year, now)
    ensures 1 <= entry.weekNumber <= 54
    ensures store.db.taskTimeEntries == old(store.db.taskTimeEntries)[entry.id := entry]
    ensures store.db == old(store.db).(
              tasks := Recomputed(old(store.db.tasks), store.db.taskTimeEntries, body.taskId, now),
              taskTimeEntries := store.db.taskTimeEntries)
    ensures old(HoursConsistent(store.db.tasks, store.db.taskTimeEntries)) &&
            entry.id !in old(store.db.taskTimeEntries) ==>
              HoursConsistent(store.db.tasks, store.db.taskTimeEntries)
  {
    var weekNumber := SundayWeekNumber(body.date);
    var year := body.date.year;
    var id := EntryId(now);
    entry := store.CreateTaskTimeEntry(TaskTimeEntryDoc(id, body.taskId, body.userId, body.projectId,
                                                        body.hours, body.date, body.description,
                                                        body.billable.GetOr(true), weekNumber, year, 0), now);
  }

  // ------------------------------------------------------------------ PUT

  /** The body of a `PUT`: every field may be left out. */
  datatype EntryEdit = EntryEdit(id: Option<string>, hours: Option<real>, description: Option<string>,
                                 billable: Option<bool>)

  /** The update of lines 86-89: only the hours, the description and the
      billing flag, each when given. */
  function EditPatch(edit: EntryEdit): TaskTimeEntryPatch {
    TaskTimeEntryPatch(Keep, Keep, Keep,
                       if edit.hours.Some? then Set(edit.hours) else Keep, Keep,
                       if edit.description.Some? then Set(edit.description) else Keep,
                       if edit.billable.Some? then Set(edit.billable.value) else Keep,
                       Keep, Keep)
  }

  /** The entry an edit leaves: the task, the user, the project, the date
      and the week never change through this handler. */
  function Edited(e: TaskTimeEntryDoc, edit: EntryEdit): (r: TaskTimeEntryDoc)
    ensures r.id == e.id && r.taskId == e.taskId && r.userId == e.userId && r.projectId == e.projectId
    ensures r.date == e.date && r.weekNumber == e.weekNumber && r.year == e.year && r.createdAt == e.createdAt
    ensures r.hours == if edit.hours.Some? then edit.hours else e.hours
    ensures r.description == if edit.description.Some? then edit.description else e.description
    ensures r.billable == edit.billable.GetOr(e.billable)
  {
    MergeTaskTimeEntry(e, EditPatch(edit))
  }

  /** The `PUT` handler (lines 74-100): 400 for a missing or empty id, 404
      for an unknown one, both with nothing written; otherwise the edited
      entry is written and returned, and its task's hours recomputed. */
  method PutEntry(store: DocStore, edit: EntryEdit, now: int) returns (reply: Reply<TaskTimeEntryDoc>)
    requires store.Valid()
    modifies store
    ensures store.Valid()
    ensures !Truthy(edit.id) ==> reply == Fail(400, "ID is required") && store.db == old(store.db)
    ensures Truthy(edit.id) && edit.id.value !in old(store.db.taskTimeEntries) ==>
              reply == Fail(404, "Entry not found") && store.db == old(store.db)
    ensures Truthy(edit.id) && edit.id.value in old(store.db.taskTimeEntries) ==>
              var e := old(store.db.taskTimeEntries)[edit.id.value];
              reply == Ok(Edited(e, edit)) &&
              store.db.taskTimeEntries == old(store.db.taskTimeEntries)[edit.id.value := reply.data] &&
              store.db == old(store.db).(
                tasks := Recomputed(old(store.db.tasks), store.db.taskTimeEntries, e.taskId, now),
                taskTimeEntries := store.db.taskTimeEntries)
    ensures old(HoursConsistent(store.db.tasks, store.db.taskTimeEntries)) ==>
              HoursConsistent(store.db.tasks, store.db.taskTimeEntries)
  {
    if !Truthy(edit.id) {
      return Fail(400, "ID is required");
    }
    var entry := store.UpdateTaskTimeEntry(edit.id.value, EditPatch(edit), now);
    if entry.None? {
      return Fail(404, "Entry not found");
    }
    reply := Ok(entry.value);
  }

  // --------------------------------------------------------------- DELETE

  /** The `DELETE` handler (lines 110-125): 400 with nothing deleted for a
      missing or empty id; otherwise the store's deletion with its
      recomputation, which does nothing for an unknown id. */
  method DeleteEntry(store: DocStore, id: Option<string>, now: int) returns (reply: Reply<()>)
    requires store.Valid()
    modifies store
    ensures store.Valid()
    ensures !Truthy(id) ==> reply == Fail(400, "ID is required") && store.db == old(store.db)
    ensures Truthy(id) && id.value !in old(store.db.taskTimeEntries) ==>
              reply == Ok(()) && store.db == old(store.db)
    ensures Truthy(id) && id.value in old(store.db.taskTimeEntries) ==>
              reply == Ok(()) &&
              store.db.taskTimeEntries == old(store.db.taskTimeEntries) - {id.value} &&
              store.db == old(store.db).(
                tasks := Recomputed(old(store.db.tasks), store.db.taskTimeEntries,
                                    old(store.db.taskTimeEntries)[id.value].taskId, now),
                taskTimeEntries := store.db.taskTimeEntries)
    ensures old(HoursConsistent(store.db.tasks, store.db.taskTimeEntries)) ==>
              HoursConsistent(store.db.tasks, store.db.taskTimeEntries)
  {
    if !Truthy(id) {
      return Fail(400, "ID is required");
    }
    store.DeleteTaskTimeEntry(id.value, now);
    reply := Ok(());
  }
}
