/** The documents of the eight collections of src/lib/luma-docs.ts, and the
    typed partial updates that model `{ ...existing, ...updates }`.

    Optional fields (`field?: T`) are `Option<T>`; numbers are `real` when they
    hold hours or money and `int` for week numbers, years and timestamps (the
    epoch milliseconds of `Date.now()`). Date strings of tasks and task-time
    entries are calendar dates. */
module Docs {
  import opened Wrappers
  import opened Calendar
  import Seqs

  /** A number is truthy exactly when it is present and not zero. */
  predicate TruthyInt(x: Option<int>) {
    x.Some? && x.value != 0
  }

  predicate TruthyReal(x: Option<real>) {
    x.Some? && x.value != 0.0
  }

  /** `x || 0` for an optional number of hours or money. */
  function OrZero(x: Option<real>): (r: real)
    ensures x.Some? ==> r == x.value
    ensures x.None? ==> r == 0.0
  {
    x.GetOr(0.0)
  }

  // ---------------------------------------------------------------- users

  datatype UserDoc = UserDoc(
    id: string, name: string, email: string, role: string,
    avatar: Option<string>, password: Option<string>, isActive: bool,
    createdAt: int, updatedAt: Option<int>)

  /** The argument of `createUser`: a user without timestamps, whose
      `isActive` may be left out. */
  datatype NewUser = NewUser(
    id: string, name: string, email: string, role: string,
    avatar: Option<string>, password: Option<string>, isActive: Option<bool>)

  datatype UserPatch = UserPatch(
    name: Update<string>, email: Update<string>, role: Update<string>,
    avatar: Update<Option<string>>, password: Update<Option<string>>,
    isActive: Update<bool>)

  const NoUserChange := UserPatch(Keep, Keep, Keep, Keep, Keep, Keep)

  /** `{ ...existing, ...updates, updatedAt: now }` (src/lib/luma-docs.ts:59-63). */
  function MergeUser(e: UserDoc, u: UserPatch, now: int): (r: UserDoc)
    ensures r.id == e.id && r.createdAt == e.createdAt && r.updatedAt == Some(now)
    ensures u == NoUserChange ==> r == e.(updatedAt := Some(now))
    ensures u.name.Set? ==> r.name == u.name.value
    ensures u.name.Keep? ==> r.name == e.name
    ensures u.email.Set? ==> r.email == u.email.value
    ensures u.email.Keep? ==> r.email == e.email
    ensures u.role.Set? ==> r.role == u.role.value
    ensures u.role.Keep? ==> r.role == e.role
    ensures u.avatar.Set? ==> r.avatar == u.avatar.value
    ensures u.avatar.Keep? ==> r.avatar == e.avatar
    ensures u.password.Set? ==> r.password == u.password.value
    ensures u.password.Keep? ==> r.password == e.password
    ensures u.isActive.Set? ==> r.isActive == u.isActive.value
    ensures u.isActive.Keep? ==> r.isActive == e.isActive
  {
    e.(name := u.name.Apply(e.name), email := u.email.Apply(e.email),
       role := u.role.Apply(e.role), avatar := u.avatar.Apply(e.avatar),
       password := u.password.Apply(e.password),
       isActive := u.isActive.Apply(e.isActive), updatedAt := Some(now))
  }

  // ------------------------------------------------------------- projects

  datatype ProjectDoc = ProjectDoc(
    id: string, name: string, code: string,
    client: Option<string>, description: Option<string>,
    billable: bool, status: string,
    startDate: Option<string>, endDate: Option<string>,
    budget: Option<real>, budgetHours: Option<real>,
    actualCost: Option<real>, actualHours: Option<real>,
    hourlyRate: Option<real>, currency: Option<string>,
    profit: Option<real>, profitMargin: Option<real>,
    baselineStart: Option<string>, baselineEnd: Option<string>,
    baselineBudget: Option<real>, progress: Option<real>,
    createdAt: int, updatedAt: Option<int>)

  datatype ProjectPatch = ProjectPatch(
    name: Update<string>, code: Update<string>,
    client: Update<Option<string>>, description: Update<Option<string>>,
    billable: Update<bool>, status: Update<string>,
    startDate: Update<Option<string>>, endDate: Update<Option<string>>,
    budget: Update<Option<real>>, budgetHours: Update<Option<real>>,
    actualCost: Update<Option<real>>, actualHours: Update<Option<real>>,
    hourlyRate: Update<Option<real>>, currency: Update<Option<string>>,
    profit: Update<Option<real>>, profitMargin: Update<Option<real>>,
    baselineStart: Update<Option<string>>, baselineEnd: Update<Option<string>>,
    baselineBudget: Update<Option<real>>, progress: Update<Option<real>>)

  const NoProjectChange := ProjectPatch(Keep, Keep, Keep, Keep, Keep, Keep, Keep,
    Keep, Keep, Keep, Keep, Keep, Keep, Keep, Keep, Keep, Keep, Keep, Keep, Keep)

  /** `{ ...existing, ...updates, updatedAt: now }` (src/lib/luma-docs.ts:131-135). */
  function MergeProject(e: ProjectDoc, u: ProjectPatch, now: int): (r: ProjectDoc)
    ensures r.id == e.id && r.createdAt == e.createdAt && r.updatedAt == Some(now)
    ensures u == NoProjectChange ==> r == e.(updatedAt := Some(now))
    ensures u.actualHours.Set? ==> r.actualHours == u.actualHours.value
    ensures u.actualCost.Set? ==> r.actualCost == u.actualCost.value
    ensures u.profit.Set? ==> r.profit == u.profit.value
    ensures u.profitMargin.Set? ==> r.profitMargin == u.profitMargin.value
    ensures Took(u.name, e.name, r.name) && Took(u.code, e.code, r.code)
    ensures Took(u.client, e.client, r.client) && Took(u.description, e.description, r.description)
    ensures Took(u.billable, e.billable, r.billable) && Took(u.status, e.status, r.status)
    ensures Took(u.startDate, e.startDate, r.startDate) && Took(u.endDate, e.endDate, r.endDate)
    ensures Took(u.budget, e.budget, r.budget) && Took(u.budgetHours, e.budgetHours, r.budgetHours)
    ensures Took(u.actualCost, e.actualCost, r.actualCost) && Took(u.actualHours, e.actualHours, r.actualHours)
    ensures Took(u.hourlyRate, e.hourlyRate, r.hourlyRate) && Took(u.currency, e.currency, r.currency)
    ensures Took(u.profit, e.profit, r.profit) && Took(u.profitMargin, e.profitMargin, r.profitMargin)
    ensures Took(u.baselineStart, e.baselineStart, r.baselineStart) && Took(u.baselineEnd, e.baselineEnd, r.baselineEnd)
    ensures Took(u.baselineBudget, e.baselineBudget, r.baselineBudget) && Took(u.progress, e.progress, r.progress)
  {
    e.(name := u.name.Apply(e.name), code := u.code.Apply(e.code),
       client := u.client.Apply(e.client),
       description := u.description.Apply(e.description),
       billable := u.billable.Apply(e.billable), status := u.status.Apply(e.status),
       startDate := u.startDate.Apply(e.startDate), endDate := u.endDate.Apply(e.endDate),
       budget := u.budget.Apply(e.budget), budgetHours := u.budgetHours.Apply(e.budgetHours),
       actualCost := u.actualCost.Apply(e.actualCost),
       actualHours := u.actualHours.Apply(e.actualHours),
       hourlyRate := u.hourlyRate.Apply(e.hourlyRate), currency := u.currency.Apply(e.currency),
       profit := u.profit.Apply(e.profit), profitMargin := u.profitMargin.Apply(e.profitMargin),
       baselineStart := u.baselineStart.Apply(e.baselineStart),
       baselineEnd := u.baselineEnd.Apply(e.baselineEnd),
       baselineBudget := u.baselineBudget.Apply(e.baselineBudget),
       progress := u.progress.Apply(e.progress), updatedAt := Some(now))
  }

  // ---------------------------------------------------------------- tasks

  datatype TaskDoc = TaskDoc(
    id: string, projectId: string, parentId: Option<string>, name: string,
    description: Option<string>, assigneeId: Option<string>,
    startDate: CalendarDate, endDate: CalendarDate,
    estimatedHours: real, actualHours: real, progress: real,
    priority: string, status: string, dependencies: seq<string>,
    isEpic: Option<bool>, isMilestone: Option<bool>,
    createdAt: int, updatedAt: int)

  datatype TaskPatch = TaskPatch(
    projectId: Update<string>, parentId: Update<Option<string>>, name: Update<string>,
    description: Update<Option<string>>, assigneeId: Update<Option<string>>,
    startDate: Update<CalendarDate>, endDate: Update<CalendarDate>,
    estimatedHours: Update<real>, actualHours: Update<real>, progress: Update<real>,
    priority: Update<string>, status: Update<string>, dependencies: Update<seq<string>>,
    isEpic: Update<Option<bool>>, isMilestone: Update<Option<bool>>)

  const NoTaskChange := TaskPatch(Keep, Keep, Keep, Keep, Keep, Keep, Keep, Keep,
    Keep, Keep, Keep, Keep, Keep, Keep, Keep)

  /** The update `{ actualHours: totalHours }` written after every change of a
      task-time entry (src/lib/luma-docs.ts:329, 345, 360). */
  function HoursPatch(hours: real): TaskPatch {
    NoTaskChange.(actualHours := Set(hours))
  }

  /** `{ ...existing, ...updates, updatedAt: now }` (src/lib/luma-docs.ts:266-270). */
  function MergeTask(e: TaskDoc, u: TaskPatch, now: int): (r: TaskDoc)
    ensures r.id == e.id && r.createdAt == e.createdAt && r.updatedAt == now
    ensures u == NoTaskChange ==> r == e.(updatedAt := now)
    ensures u == HoursPatch(r.actualHours) ==> r == e.(actualHours := r.actualHours, updatedAt := now)
    ensures u.actualHours.Set? ==> r.actualHours == u.actualHours.value
    ensures Took(u.projectId, e.projectId, r.projectId) && Took(u.parentId, e.parentId, r.parentId)
    ensures Took(u.name, e.name, r.name) && Took(u.description, e.description, r.description)
    ensures Took(u.assigneeId, e.assigneeId, r.assigneeId) && Took(u.startDate, e.startDate, r.startDate)
    ensures Took(u.endDate, e.endDate, r.endDate) && Took(u.estimatedHours, e.estimatedHours, r.estimatedHours)
    ensures Took(u.actualHours, e.actualHours, r.actualHours) && Took(u.progress, e.progress, r.progress)
    ensures Took(u.priority, e.priority, r.priority) && Took(u.status, e.status, r.status)
    ensures Took(u.dependencies, e.dependencies, r.dependencies) && Took(u.isEpic, e.isEpic, r.isEpic)
    ensures Took(u.isMilestone, e.isMilestone, r.isMilestone)
  {
    e.(projectId := u.projectId.Apply(e.projectId), parentId := u.parentId.Apply(e.parentId),
       name := u.name.Apply(e.name), description := u.description.Apply(e.description),
       assigneeId := u.assigneeId.Apply(e.assigneeId),
       startDate := u.startDate.Apply(e.startDate), endDate := u.endDate.Apply(e.endDate),
       estimatedHours := u.estimatedHours.Apply(e.estimatedHours),
       actualHours := u.actualHours.Apply(e.actualHours), progress := u.progress.Apply(e.progress),
       priority := u.priority.Apply(e.priority), status := u.status.Apply(e.status),
       dependencies := u.dependencies.Apply(e.dependencies),
       isEpic := u.isEpic.Apply(e.isEpic), isMilestone := u.isMilestone.Apply(e.isMilestone),
       updatedAt := now)
  }

  // --------------------------------------------------- task-time entries

  datatype TaskTimeEntryDoc = TaskTimeEntryDoc(
    id: string, taskId: string, userId: string, projectId: string,
    hours: Option<real>, date: CalendarDate, description: Option<string>,
    billable: bool, weekNumber: int, year: int, createdAt: int)

  /** `e.hours || 0`, as the project costs read an entry's hours
      (src/app/api/projects/route.ts:21). The reductions of
      src/lib/luma-docs.ts add `e.hours` without a fallback, so there a
      missing value gives `NaN`, which this model does not represent. */
  function EntryHours(e: TaskTimeEntryDoc): real {
    OrZero(e.hours)
  }

  datatype TaskTimeEntryPatch = TaskTimeEntryPatch(
    taskId: Update<string>, userId: Update<string>, projectId: Update<string>,
    hours: Update<Option<real>>, date: Update<CalendarDate>,
    description: Update<Option<string>>, billable: Update<bool>,
    weekNumber: Update<int>, year: Update<int>)

  /** `{ ...existing, ...updates }`, with no timestamp (src/lib/luma-docs.ts:339). */
  function MergeTaskTimeEntry(e: TaskTimeEntryDoc, u: TaskTimeEntryPatch): (r: TaskTimeEntryDoc)
    ensures r.id == e.id && r.createdAt == e.createdAt
    ensures u.taskId.Keep? ==> r.taskId == e.taskId
    ensures u.hours.Set? ==> r.hours == u.hours.value
    ensures u == TaskTimeEntryPatch(Keep, Keep, Keep, Keep, Keep, Keep, Keep, Keep, Keep) ==> r == e
    ensures Took(u.taskId, e.taskId, r.taskId) && Took(u.userId, e.userId, r.userId)
    ensures Took(u.projectId, e.projectId, r.projectId) && Took(u.hours, e.hours, r.hours)
    ensures Took(u.date, e.date, r.date) && Took(u.description, e.description, r.description)
    ensures Took(u.billable, e.billable, r.billable) && Took(u.weekNumber, e.weekNumber, r.weekNumber)
    ensures Took(u.year, e.year, r.year)
  {
    e.(taskId := u.taskId.Apply(e.taskId), userId := u.userId.Apply(e.userId),
       projectId := u.projectId.Apply(e.projectId), hours := u.hours.Apply(e.hours),
       date := u.date.Apply(e.date), description := u.description.Apply(e.description),
       billable := u.billable.Apply(e.billable), weekNumber := u.weekNumber.Apply(e.weekNumber),
       year := u.year.Apply(e.year))
  }

  // ------------------------------------------------------------ resources

  datatype ResourceDoc = ResourceDoc(
    id: string, userId: string, capacity: real, skills: Option<seq<string>>,
    hourlyRate: Option<real>, monthlySalary: Option<real>, currency: string,
    createdAt: int, updatedAt: Option<int>)

  /** The argument of `createResource`: a resource without timestamps. */
  datatype NewResource = NewResource(
    id: string, userId: string, capacity: real, skills: Option<seq<string>>,
    hourlyRate: Option<real>, monthlySalary: Option<real>, currency: Option<string>)

  datatype ResourcePatch = ResourcePatch(
    userId: Update<string>, capacity: Update<real>, skills: Update<Option<seq<string>>>,
    hourlyRate: Update<Option<real>>, monthlySalary: Update<Option<real>>,
    currency: Update<string>)

  /** `{ ...existing, ...updates, updatedAt: now }` (src/lib/luma-docs.ts:408-412). */
  function MergeResource(e: ResourceDoc, u: ResourcePatch, now: int): (r: ResourceDoc)
    ensures r.id == e.id && r.createdAt == e.createdAt && r.updatedAt == Some(now)
    ensures u == ResourcePatch(Keep, Keep, Keep, Keep, Keep, Keep) ==> r == e.(updatedAt := Some(now))
    ensures u.hourlyRate.Set? ==> r.hourlyRate == u.hourlyRate.value
    ensures Took(u.userId, e.userId, r.userId) && Took(u.capacity, e.capacity, r.capacity)
    ensures Took(u.skills, e.skills, r.skills) && Took(u.hourlyRate, e.hourlyRate, r.hourlyRate)
    ensures Took(u.monthlySalary, e.monthlySalary, r.monthlySalary) && Took(u.currency, e.currency, r.currency)
  {
    e.(userId := u.userId.Apply(e.userId), capacity := u.capacity.Apply(e.capacity),
       skills := u.skills.Apply(e.skills), hourlyRate := u.hourlyRate.Apply(e.hourlyRate),
       monthlySalary := u.monthlySalary.Apply(e.monthlySalary),
       currency := u.currency.Apply(e.currency), updatedAt := Some(now))
  }

  // ---------------------------------------------------------- allocations

  datatype AllocationDoc = AllocationDoc(
    id: string, resourceId: string, projectId: string,
    weekNumber: int, year: int, allocatedHours: real, createdAt: int)

  // ------------------------------------------------------------ approvals

  datatype ApprovalDoc = ApprovalDoc(
    id: string, userId: string, approverId: Option<string>,
    weekNumber: int, year: int, totalHours: real, status: string,
    comments: Option<string>, submittedAt: Option<int>, reviewedAt: Option<int>,
    createdAt: int)

  datatype ApprovalPatch = ApprovalPatch(
    userId: Update<string>, approverId: Update<Option<string>>,
    weekNumber: Update<int>, year: Update<int>, totalHours: Update<real>,
    status: Update<string>, comments: Update<Option<string>>,
    submittedAt: Update<Option<int>>, reviewedAt: Update<Option<int>>)

  /** `{ ...existing, ...updates }`, with no timestamp of its own
      (src/lib/luma-docs.ts:482). */
  function MergeApproval(e: ApprovalDoc, u: ApprovalPatch): (r: ApprovalDoc)
    ensures r.id == e.id && r.createdAt == e.createdAt
    ensures u.userId.Keep? && u.weekNumber.Keep? && u.year.Keep? ==>
              r.userId == e.userId && r.weekNumber == e.weekNumber && r.year == e.year
    ensures u.status.Set? ==> r.status == u.status.value
    ensures u.approverId.Keep? ==> r.approverId == e.approverId
    ensures u.comments.Keep? ==> r.comments == e.comments
    ensures Took(u.userId, e.userId, r.userId) && Took(u.approverId, e.approverId, r.approverId)
    ensures Took(u.weekNumber, e.weekNumber, r.weekNumber) && Took(u.year, e.year, r.year)
    ensures Took(u.totalHours, e.totalHours, r.totalHours) && Took(u.status, e.status, r.status)
    ensures Took(u.comments, e.comments, r.comments) && Took(u.submittedAt, e.submittedAt, r.submittedAt)
    ensures Took(u.reviewedAt, e.reviewedAt, r.reviewedAt)
  {
    e.(userId := u.userId.Apply(e.userId), approverId := u.approverId.Apply(e.approverId),
       weekNumber := u.weekNumber.Apply(e.weekNumber), year := u.year.Apply(e.year),
       totalHours := u.totalHours.Apply(e.totalHours), status := u.status.Apply(e.status),
       comments := u.comments.Apply(e.comments), submittedAt := u.submittedAt.Apply(e.submittedAt),
       reviewedAt := u.reviewedAt.Apply(e.reviewedAt))
  }

  // ----------------------------------------------- time entries (timesheet)

  /** The hours of the seven days of one week, Monday first. */
  datatype DayHours = DayHours(mon: real, tue: real, wed: real, thu: real,
                               fri: real, sat: real, sun: real)

  const NoHours := DayHours(0.0, 0.0, 0.0, 0.0, 0.0, 0.0, 0.0)

  /** The days of a week, in the order of the fields of `DayHours`. */
  function Days(h: DayHours): (s: seq<real>)
    ensures |s| == 7
  {
    [h.mon, h.tue, h.wed, h.thu, h.fri, h.sat, h.sun]
  }

  /** `Object.values(hours).reduce((a, b) => a + b, 0)`
      (src/app/api/timesheets/route.ts:66, 106): a left fold over the days. */
  function WeekTotal(h: DayHours): real {
    FoldAdd(0.0, Days(h))
  }

  function FoldAdd(acc: real, s: seq<real>): real
    decreases s
  {
    if s == [] then acc else FoldAdd(acc + s[0], s[1..])
  }

  /** A left fold from `acc` adds the sum of the sequence to `acc`. */
  lemma {:induction false} FoldAddIsSum(acc: real, s: seq<real>)
    ensures FoldAdd(acc, s) == acc + Seqs.Sum(s, (x: real) => x)
    decreases s
  {
    if s != [] {
      FoldAddIsSum(acc + s[0], s[1..]);
    }
  }

  /** The fold adds the days up: the total is the sum of the seven fields. */
  lemma WeekTotalIsSum(h: DayHours)
    ensures WeekTotal(h) == h.mon + h.tue + h.wed + h.thu + h.fri + h.sat + h.sun
  {
    var d := Days(h);
    var id := (x: real) => x;
    FoldAddIsSum(0.0, d);
    assert Seqs.Sum(d, id) == h.mon + Seqs.Sum(d[1..], id);
    assert Seqs.Sum(d[1..], id) == h.tue + Seqs.Sum(d[2..], id);
    assert Seqs.Sum(d[2..], id) == h.wed + Seqs.Sum(d[3..], id);
    assert Seqs.Sum(d[3..], id) == h.thu + Seqs.Sum(d[4..], id);
    assert Seqs.Sum(d[4..], id) == h.fri + Seqs.Sum(d[5..], id);
    assert Seqs.Sum(d[5..], id) == h.sat + Seqs.Sum(d[6..], id);
    assert Seqs.Sum(d[6..], id) == h.sun + Seqs.Sum(d[7..], id);
  }

  datatype TimeEntryDoc = TimeEntryDoc(
    id: string, userId: string, projectId: string, activity: string,
    notes: Option<string>, billable: bool, weekNumber: int, year: int,
    hours: DayHours, total: real, status: string, createdAt: int, updatedAt: int)

  datatype TimeEntryPatch = TimeEntryPatch(
    userId: Update<string>, projectId: Update<string>, activity: Update<string>,
    notes: Update<Option<string>>, billable: Update<bool>,
    weekNumber: Update<int>, year: Update<int>,
    hours: Update<DayHours>, total: Update<real>, status: Update<string>)

  const NoTimeEntryChange := TimeEntryPatch(Keep, Keep, Keep, Keep, Keep, Keep, Keep,
    Keep, Keep, Keep)

  /** The update `{ status }` that the approval handlers send. */
  function StatusPatch(status: string): TimeEntryPatch {
    NoTimeEntryChange.(status := Set(status))
  }

  /** `{ ...existing, ...updates, updatedAt: now }` (src/lib/luma-docs.ts:536). */
  function MergeTimeEntry(e: TimeEntryDoc, u: TimeEntryPatch, now: int): (r: TimeEntryDoc)
    ensures r.id == e.id && r.createdAt == e.createdAt && r.updatedAt == now
    ensures u == NoTimeEntryChange ==> r == e.(updatedAt := now)
    ensures u == StatusPatch(r.status) ==> r == e.(status := r.status, updatedAt := now)
    ensures u.hours.Keep? && u.total.Keep? ==> r.hours == e.hours && r.total == e.total
    ensures Took(u.userId, e.userId, r.userId) && Took(u.projectId, e.projectId, r.projectId)
    ensures Took(u.activity, e.activity, r.activity) && Took(u.notes, e.notes, r.notes)
    ensures Took(u.billable, e.billable, r.billable) && Took(u.weekNumber, e.weekNumber, r.weekNumber)
    ensures Took(u.year, e.year, r.year) && Took(u.hours, e.hours, r.hours)
    ensures Took(u.total, e.total, r.total) && Took(u.status, e.status, r.status)
  {
    e.(userId := u.userId.Apply(e.userId), projectId := u.projectId.Apply(e.projectId),
       activity := u.activity.Apply(e.activity), notes := u.notes.Apply(e.notes),
       billable := u.billable.Apply(e.billable), weekNumber := u.weekNumber.Apply(e.weekNumber),
       year := u.year.Apply(e.year), hours := u.hours.Apply(e.hours),
       total := u.total.Apply(e.total), status := u.status.Apply(e.status),
       updatedAt := now)
  }
}
