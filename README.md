# TimeOS in Dafny

TimeOS is a time-tracking and project-costing web application. Its server
keeps eight collections of JSON documents in a remote document store:
users, projects, tasks, task-time entries, weekly timesheet rows, resources,
allocations and approvals. Thin HTTP handlers read and write those
collections and derive figures from them.

This project models the logic of that server and proves properties about it:

- **Document-store functions** (`src/lib/luma-docs.ts`): filtered and sorted
  listings, merge-style updates that give `null` for an unknown id, the
  recomputation of a task's booked hours after every task-time-entry change,
  the cascading task deletion, the in-place task-hierarchy builder,
  authentication, project costing and clearing the store.
- **API handlers**: the weekly-hours report, projects, resources,
  timesheets, task-time entries, approvals, tasks, allocations, login and
  the default-password back-fill.
- **Week arithmetic** (`src/lib/utils.ts`): ISO 8601 week numbering, plus
  the Sunday-based week formula of the task-time-entry handler.
- **Role and permission table** (`src/hooks/usePermissions.ts`) and the
  permission gate built on it.

## How the model is built

- **The store.** The remote store is a class, `LumaStore.DocStore`.
  - Its one field holds eight maps, one per collection, from document id to
    document.
  - Every write is a method. Its `modifies` clause names the store. Its
    `ensures` clause states the whole new contents as an update of the old
    contents.
  - `Valid()` says that every document sits under its own id.
- **Reads.** A read of a collection is a *listing*: a sequence of
  (id, document) pairs. A listing holds each stored document exactly once,
  in an order the store chooses.
  - Each handler that reads takes such a listing as a parameter.
  - Lemmas connect what is computed from the listing to the stored maps,
    whatever order the listing has.
- **Loops over a listing** are methods with loop invariants. Examples:
  - the back-fill of passwords;
  - marking a week's timesheet rows;
  - deleting a task's entries;
  - costing a project.

  Each loop is proved equal to an order-free specification function over
  the maps.
- **The task hierarchy** is built in place over fresh `TaskNode` objects,
  as the source does.
- **Ambient inputs are parameters.** The clock (`now`), the date `today`,
  and the locale's name collation (`nameRank`) are passed in.
- **Numbers.** Hours and money are `real`. `Math.round(x)` is `Floor(x + 0.5)`.
- **Missing values.** An absent JSON field is `None`. A JavaScript
  truthiness test on a string or number is the predicate `Truthy`.

## Model

| member | source | states |
|---|---|---|
| Calendar.WeekNumber | src/lib/utils.ts:5-11 | the week number is between 1 and 53 |
| Calendar.IsoWeekRule | src/lib/utils.ts:5-11 | the week number is the ISO 8601 week of the date: weeks run Monday to Sunday, a week belongs to the year of its Thursday, and week 1 holds that year's first Thursday |
| Calendar.SameWeekSameNumber | src/lib/utils.ts:5-11 | all seven days of one Monday-to-Sunday week get the same number |
| Calendar.NewYearInPreviousYearsWeek | src/lib/utils.ts:5-11 | a 1 January on Friday, Saturday or Sunday is in the previous year's last week, numbered 52 or 53 |
| Calendar.FirstThursdayIsWeekOne | src/lib/utils.ts:5-11 | the year's first Thursday is in week 1 |
| Calendar.Weekday | src/lib/utils.ts:7 | the UTC weekday is 0 (Sunday) to 6 |
| Calendar.IsoWeekday | src/lib/utils.ts:7 | `getUTCDay() \|\| 7` is 1 to 7 and agrees with the weekday modulo 7 |
| Calendar.ShiftDays | src/lib/utils.ts:8 | moving a date by n days moves its day number by exactly n, across year ends |
| Calendar.CeilDiv | src/lib/utils.ts:10 | `Math.ceil(a / b)` is the least q with a <= q * b |
| Calendar.WeekThursday | src/lib/utils.ts:6-9 | the result is a Thursday at most three days from the date |
| Calendar.FirstThursday | src/lib/utils.ts:9-10 | the first Thursday of a year is one of its first seven days, and it is a Thursday |
| Calendar.YearStartMonotone | src/lib/utils.ts:6-10 | a later year starts after the whole of an earlier one, so day numbers keep date order |
| Calendar.OrdinalInjective | src/lib/utils.ts:6-10 | distinct dates have distinct day numbers |
| Calendar.FormatWeekDisplay | src/lib/utils.ts:23-25 | the display starts with "Semana " and is longer than that prefix and " del " together |
| Calendar.FormatWeekDisplayReadsBack | src/lib/utils.ts:23-25 | reading the display back gives exactly the week number and the year, negative ones included |
| Calendar.ReadDisplayParts | src/lib/utils.ts:24 | `Semana <w> del <y>` with two integer texts reads back as the integers they denote |
| Calendar.IntToStringReadsBack | src/lib/utils.ts:24 | the decimal text of an integer is an integer text that denotes it |
| Calendar.IntToString | src/lib/utils.ts:24 | a template literal writes an integer in decimal, with a minus sign when it is negative |
| Calendar.NatToStringValue | src/lib/utils.ts:24 | the decimal digits written for n denote n |
| Calendar.SundayWeekNumber | src/app/api/task-time-entries/route.ts:44-47 | the Sunday-based week number is between 1 and 54 |
| Calendar.NewYearIsSundayWeekOne | src/app/api/task-time-entries/route.ts:44-47 | 1 January is always in week 1 of that formula |
| Calendar.SundayWeekStep | src/app/api/task-time-entries/route.ts:44-47 | from one day to the next the number grows by one exactly when the next day is a Sunday |
| Docs.OrZero | src/app/api/resources/route.ts:24 | `x \|\| 0` is the value when present and 0 otherwise |
| Docs.MergeUser | src/lib/luma-docs.ts:59-63 | the merged user keeps its id and creation time, is stamped `now`, and each of name, email, role, avatar, password and active flag is the supplied value when one is given and the stored one otherwise |
| Docs.MergeProject | src/lib/luma-docs.ts:131-135 | the merged project keeps its id and creation time and is stamped `now`; each of the twenty patch fields (name, code, client, description, billable, status, dates, budgets, cost and hours, rate, currency, profit and margin, baselines, progress) is the supplied value when one is given and the stored one otherwise |
| Docs.MergeTask | src/lib/luma-docs.ts:266-270 | the merged task keeps its id and creation time and is stamped `now`; each patch field (project, parent, name, description, assignee, dates, estimated and actual hours, progress, priority, status, dependencies, epic and milestone flags) is the supplied value when one is given and the stored one otherwise; an hours-only patch changes nothing else |
| Docs.MergeTaskTimeEntry | src/lib/luma-docs.ts:339 | the merged entry keeps its id and creation time; each of task, user, project, hours, date, description, billable flag, week and year is the supplied value when one is given and the stored one otherwise; there is no timestamp |
| Docs.MergeResource | src/lib/luma-docs.ts:408-412 | the merged resource keeps its id and creation time and is stamped `now`; each of user, capacity, skills, hourly rate, monthly salary and currency is the supplied value when one is given and the stored one otherwise |
| Docs.MergeApproval | src/lib/luma-docs.ts:482 | the merged approval keeps its id and creation time; each of user, approver, week, year, total hours, status, comments and the submission and review times is the supplied value when one is given and the stored one otherwise; there is no timestamp |
| Docs.MergeTimeEntry | src/lib/luma-docs.ts:536 | the merged row keeps its id and creation time and is stamped `now`; each of user, project, activity, notes, billable flag, week, year, day hours, total and status is the supplied value when one is given and the stored one otherwise |
| Docs.WeekTotalIsSum | src/app/api/timesheets/route.ts:66 | the fold over the seven day fields is their sum |
| Joins.UserById | src/app/api/allocations/route.ts:26 | `new Map(users).get(id)` is none exactly when no user has the id, else the last user with it |
| Joins.ProjectById | src/app/api/allocations/route.ts:27 | the same for projects |
| Joins.ResourceById | src/app/api/allocations/route.ts:28 | the same for resources |
| Joins.TaskById | src/app/api/tasks/route.ts:30 | the same for tasks |
| LumaListings.AllCollectionsListed | src/lib/luma-docs.ts:4-13 | there are eight collections, each listed once under a distinct name |
| LumaListings.GetUsers | src/lib/luma-docs.ts:28-31 | the users listed are the stored ones, sorted by name |
| LumaListings.LowerChar | src/lib/luma-docs.ts:38-41 | lowering leaves no capital ASCII letter and changes nothing else |
| LumaListings.LowerIdempotent | src/lib/luma-docs.ts:38-41 | lowering twice is lowering once |
| LumaListings.GetUserByEmail | src/lib/luma-docs.ts:38-41 | none exactly when no address matches case-insensitively, else the first match in store order |
| LumaListings.AuthenticateUser | src/lib/luma-docs.ts:69-77 | a user is returned exactly when the first address match is active and its stored password is absent, empty or equal to the one given |
| LumaListings.FilterTasks | src/lib/luma-docs.ts:204-222 | the kept tasks are exactly the fetched ones every given criterion accepts, and no filter keeps all of them in order |
| LumaListings.GetAllTasksFlat | src/lib/luma-docs.ts:241-244 | every task, earliest start date first |
| LumaListings.GetTaskTimeEntries | src/lib/luma-docs.ts:306-317 | exactly the entries every truthy criterion accepts, each as often as stored, latest date first |
| LumaListings.ListedHours | src/lib/luma-docs.ts:327-328 | the hours added up over the listing are the hours of exactly the stored entries the filter keeps |
| LumaListings.ListedWeighted | src/lib/luma-docs.ts:153-162 | any per-entry amount added up over the listing equals the order-free sum over the stored entries the filter keeps |
| LumaListings.GetResourceByUserId | src/lib/luma-docs.ts:387-390 | none exactly when no resource belongs to the user, else the first listed resource of that user |
| LumaListings.GetAllocations | src/lib/luma-docs.ts:428-438 | exactly the allocations the truthy criteria accept, latest year and then latest week first |
| LumaListings.GetApprovals | src/lib/luma-docs.ts:461-469 | exactly the approvals the truthy criteria accept, newest first |
| LumaListings.GetTimeEntries | src/lib/luma-docs.ts:512-522 | exactly the timesheet rows the truthy criteria accept, newest first |
| LumaStore.Drop | src/lib/luma-docs.ts:541-543 | deleting ids from one collection removes exactly those keys and leaves the other collections alone |
| LumaStore.DropTwice | src/lib/luma-docs.ts:284-288 | two rounds of deletions in one collection delete their union |
| LumaStore.KeyedDrop | src/lib/luma-docs.ts:541-543 | deleting keeps every remaining document under its own id |
| LumaStore.NoKeysIsEmpty | src/lib/luma-docs.ts:563-574 | contents in which no collection holds an id are the empty store |
| LumaStore.HoursAfterCreate | src/lib/luma-docs.ts:319-332 | after creating an entry under a fresh id and recomputing its task, every task's hours still equal the sum of its entries' hours |
| LumaStore.HoursAfterUpdate | src/lib/luma-docs.ts:334-348 | the same after an update that keeps the entry's task |
| LumaStore.HoursAfterDelete | src/lib/luma-docs.ts:350-362 | the same after a deletion |
| LumaStore.HoursForOther | src/lib/luma-docs.ts:327-328 | an entry of another task adds nothing to a task's hours |
| LumaStore.MatchesByTask | src/lib/luma-docs.ts:283 | the `{ taskId }` filter keeps exactly the entries booked on the task |
| LumaStore.EntryOfTasksMatches | src/lib/luma-docs.ts:283 | the entries of a set of tasks are those one of the tasks' `{ taskId }` listings keeps |
| LumaStore.EntriesOutsideTwice | src/lib/luma-docs.ts:283-286 | removing the entries of two task sets in turn removes those of their union |
| LumaStore.ListedEntryKeys | src/lib/luma-docs.ts:306-317 | a stored entry is listed exactly when the filter keeps it |
| LumaStore.ListedEntryIds | src/lib/luma-docs.ts:283-286 | deleting the ids listed for a task removes exactly that task's entries |
| LumaStore.EntriesListed | src/lib/luma-docs.ts:307 | a listing holds exactly the stored entries |
| LumaStore.CascadeStep | src/lib/luma-docs.ts:277-280 | one recursive call on a child removes, together with the earlier calls, everything below those children and their entries |
| LumaStore.CascadeEnd | src/lib/luma-docs.ts:282-288 | then removing the task and its entries leaves the store without its subtree and the entries booked on it |
| LumaStore.KeyedCascade | src/lib/luma-docs.ts:275-289 | the cascade only deletes, so what remains stays keyed |
| LumaStore.KeyedWithout | src/lib/luma-docs.ts:275-289 | deleting tasks and entries keeps the rest under their ids |
| LumaStore.CostAtRate | src/lib/luma-docs.ts:158-160 | an entry of a user with a resource costs its hours at that resource's rate |
| LumaStore.ResourceFound | src/lib/luma-docs.ts:157-159 | the lookup over a listing finds nothing exactly when the user has no resource, and otherwise a stored resource of the user |
| LumaStore.RateListed | src/lib/luma-docs.ts:157-160 | with one resource per user, the rate found is the user's rate |
| LumaStore.CostPatch | src/lib/luma-docs.ts:164-176 | hours and cost are written; against a non-zero budget the profit is budget minus cost and the margin is profit over budget in percent; otherwise both are written as undefined |
| LumaStore.DocStore.CreateUser | src/lib/luma-docs.ts:43-53 | the user is stored as given, active unless told otherwise, with both timestamps `now`; nothing else changes |
| LumaStore.DocStore.UpdateUser | src/lib/luma-docs.ts:55-66 | an unknown id gives null and changes nothing; otherwise the merged user replaces the stored one and nothing else changes |
| LumaStore.DocStore.CreateProject | src/lib/luma-docs.ts:116-125 | the project is stored with both timestamps `now`; nothing else changes |
| LumaStore.DocStore.UpdateProject | src/lib/luma-docs.ts:127-138 | null and no change for an unknown id, else the merged project replaces the stored one |
| LumaStore.DocStore.CreateTask | src/lib/luma-docs.ts:251-260 | the task is stored with both timestamps `now`; nothing else changes |
| LumaStore.DocStore.UpdateTask | src/lib/luma-docs.ts:262-273 | null and no change for an unknown id, else the merged task replaces the stored one |
| LumaStore.DocStore.RecomputeTaskHours | src/lib/luma-docs.ts:326-329 | the task's hours become the sum of its entries' hours; nothing else changes |
| LumaStore.DocStore.CreateTaskTimeEntry | src/lib/luma-docs.ts:319-332 | the entry is stored, its task's hours are recomputed, and a store whose task hours were consistent stays so |
| LumaStore.DocStore.UpdateTaskTimeEntry | src/lib/luma-docs.ts:334-348 | null and no change for an unknown id; otherwise the merged entry is stored and the hours of the task it had before are recomputed |
| LumaStore.DocStore.DeleteTaskTimeEntry | src/lib/luma-docs.ts:350-362 | no change for an unknown id; otherwise the entry is removed, its task's hours are recomputed and consistency is kept |
| LumaStore.DocStore.CreateResource | src/lib/luma-docs.ts:392-402 | the resource is stored with currency USD when none or empty is given and both timestamps `now` |
| LumaStore.DocStore.UpdateResource | src/lib/luma-docs.ts:404-415 | null and no change for an unknown id, else the merged resource replaces the stored one |
| LumaStore.DocStore.CreateAllocation | src/lib/luma-docs.ts:440-444 | the allocation is stored stamped `now`; nothing else changes |
| LumaStore.DocStore.PutAllocation | src/app/api/allocations/route.ts:105-106 | the allocation is written under its own id; nothing else changes |
| LumaStore.DocStore.CreateApproval | src/lib/luma-docs.ts:471-475 | the approval is stored stamped `now`; nothing else changes |
| LumaStore.DocStore.UpdateApproval | src/lib/luma-docs.ts:477-485 | null and no change for an unknown id, else the merged approval replaces the stored one |
| LumaStore.DocStore.CreateTimeEntry | src/lib/luma-docs.ts:524-529 | the timesheet row is stored with both timestamps `now` |
| LumaStore.DocStore.UpdateTimeEntry | src/lib/luma-docs.ts:531-539 | null and no change for an unknown id, else the merged row replaces the stored one |
| LumaStore.DocStore.DeleteDoc | src/lib/luma-docs.ts:541-543 | the document is gone, whether or not it was stored, and nothing else changes |
| LumaStore.DocStore.ClearCollection | src/lib/luma-docs.ts:566-571 | deleting every listed id empties the collection and leaves the others alone |
| LumaStore.DocStore.ClearAllData | src/lib/luma-docs.ts:563-574 | afterwards every collection is empty (of collections within the listing cap noted under "Left out") |
| LumaStore.DocStore.EntryCostOf | src/lib/luma-docs.ts:156-161 | an entry costs nothing when its user has no resource, and its hours at the user's rate under one resource per user |
| LumaStore.DocStore.SumEntryCosts | src/lib/luma-docs.ts:150-162 | the loop adds up the entries' hours and, under one resource per user, their costs |
| LumaStore.DocStore.CalculateProjectCosts | src/lib/luma-docs.ts:141-179 | the totals are the hours and costs of exactly the project's stored entries; a stored project gets them with profit and margin against its budget, and an unknown one changes nothing |
| LumaStore.DocStore.DeleteListedEntries | src/lib/luma-docs.ts:284-286 | every listed entry is removed and nothing else changes |
| LumaStore.DocStore.ListSubtasks | src/lib/luma-docs.ts:277 | `getTasks({ parentId: id })` gives exactly the stored children of the task |
| LumaStore.DocStore.DeleteChild | src/lib/luma-docs.ts:278-280 | one recursive call removes its child's subtree and entries on top of what earlier calls removed |
| LumaStore.DocStore.DeleteOwnEntries | src/lib/luma-docs.ts:282-288 | the task's entries and then the task are removed; nothing else changes |
| LumaStore.DocStore.DeleteTask | src/lib/luma-docs.ts:275-289 | on acyclic links, exactly the task's subtree and every entry booked on it are removed; nothing else changes |
| TaskTree.DescendsThroughChild | src/lib/luma-docs.ts:277-280 | a task strictly below another lies below one of its children, and conversely |
| TaskTree.NotBelowChild | src/lib/luma-docs.ts:277-280 | with acyclic links a task never lies below its own child |
| TaskTree.BelowChildren | src/lib/luma-docs.ts:277-288 | below the children lies exactly the subtree minus the task itself |
| TaskTree.StepBelow | src/lib/luma-docs.ts:278-280 | a child's subtree, after the earlier children are gone, adds exactly what lies below that child |
| TaskTree.SubtreeShrinks | src/lib/luma-docs.ts:279 | the recursive call removes strictly less than its caller, so the cascade ends |
| TaskTree.DescendsDepth | src/lib/luma-docs.ts:275-289 | an ancestor lies strictly higher in the ranking that acyclic links admit |
| TaskTree.DescendsTransitive | src/lib/luma-docs.ts:275-289 | an ancestor of an ancestor is an ancestor |
| TaskTree.DescendsInLarger | src/lib/luma-docs.ts:275-289 | ancestry in a store that only lost tasks was ancestry before |
| TaskTree.DescendsInSmaller | src/lib/luma-docs.ts:275-289 | removing a downward-closed set of tasks keeps the remaining ancestry and acyclicity |
| TaskTree.AcyclicShrinks | src/lib/luma-docs.ts:275-289 | a store that only lost tasks stays acyclic |
| TaskTree.BelowIsClosed | src/lib/luma-docs.ts:275-289 | what lies below a set of tasks is closed downwards |
| TaskTree.TasksListed | src/lib/luma-docs.ts:205-206 | a task listing holds exactly the stored tasks |
| TaskTree.AllRoots | src/lib/luma-docs.ts:228-235 | when no task finds its parent among the listed ones, every task is a root |
| TaskTree.ChildrenAreRoots | src/lib/luma-docs.ts:216-235 | the listed children of a task find no parent among themselves, so all are roots |
| TaskTree.ChildFilterMembers | src/lib/luma-docs.ts:216-221 | the `{ parentId: id }` filter keeps exactly the stored children |
| TaskTree.ChildrenListed | src/lib/luma-docs.ts:204-239 | `getTasks({ parentId: id })` returns exactly the stored children |
| TaskTree.ChildIds | src/lib/luma-docs.ts:277 | its ids are exactly the ids of the stored children |
| TaskTree.ListedAreChildren | src/lib/luma-docs.ts:277 | every id it returns is a stored child |
| TaskTree.ChildrenAreListed | src/lib/luma-docs.ts:277 | every stored child is among the ids it returns |
| TaskHierarchy.LastWithId | src/lib/luma-docs.ts:225 | the map lookup finds the last task with the id, none exactly when no task has it |
| TaskHierarchy.ParentIndex | src/lib/luma-docs.ts:229 | a task goes under the task its truthy parent id names, and is a root exactly when the id is empty or names no listed task |
| TaskHierarchy.ChildIndicesMember | src/lib/luma-docs.ts:229-232 | a task is pushed onto a task's subtasks exactly when its parent id names that task |
| TaskHierarchy.RootIndicesMember | src/lib/luma-docs.ts:233-234 | a task is pushed onto the roots exactly when it finds no parent |
| TaskHierarchy.ChildIndicesIncreasing | src/lib/luma-docs.ts:228-236 | subtasks keep the fetched order and hold no task twice |
| TaskHierarchy.RootIndicesIncreasing | src/lib/luma-docs.ts:228-236 | the roots keep the fetched order and hold no task twice |
| TaskHierarchy.Roots | src/lib/luma-docs.ts:226-236 | the roots are the parentless tasks, in fetched order |
| TaskHierarchy.TaskNode.constructor | src/lib/luma-docs.ts:231 | a new node holds its document and no subtasks |
| TaskHierarchy.CreateNodes | src/lib/luma-docs.ts:206 | one fresh, distinct node per fetched task, without subtasks |
| TaskHierarchy.PushSubtask | src/lib/luma-docs.ts:230-232 | after the push, each node's subtasks are the tasks so far whose parent it is |
| TaskHierarchy.AttachOne | src/lib/luma-docs.ts:229-235 | after one step, subtasks and roots hold exactly the tasks so far that belong there |
| TaskHierarchy.AttachNodes | src/lib/luma-docs.ts:228-236 | each node's subtasks are the nodes whose parent it is, in order, and the roots are the parentless nodes |
| TaskHierarchy.BuildHierarchy | src/lib/luma-docs.ts:224-236 | the fresh nodes are linked into that tree |
| TaskHierarchy.GetTasksRoots | src/lib/luma-docs.ts:204-239 | the returned roots are the filtered parentless tasks, earliest start date first |
| TaskHierarchy.GetTasks | src/lib/luma-docs.ts:204-239 | the in-place build returns those roots sorted, over nodes linked as the hierarchy says |
| Sorting.Sort | src/lib/luma-docs.ts:437 | a permutation of the input, ordered by the key |
| Sorting.InsertStable | src/lib/luma-docs.ts:238 | inserting into a sorted list puts the new element after those with the same key |
| Sorting.SortStable | src/lib/luma-docs.ts:238 | the sort is stable: the elements sharing a key keep their input order |
| EmployeeHours.Round | src/app/api/reports/employee-hours/route.ts:85 | `Math.round` is the nearest integer, a half rounded up |
| EmployeeHours.Classify | src/app/api/reports/employee-hours/route.ts:60-75 | exactly one status holds on each band of totals: red at 0, orange below 30 (negative included), yellow below 40, green at 40, blue above |
| EmployeeHours.Completion | src/app/api/reports/employee-hours/route.ts:85 | the percentage is the total over 40 hours rounded, not capped |
| EmployeeHours.CompletionExamples | src/app/api/reports/employee-hours/route.ts:85 | 60 hours are 150 percent, 20 hours 50, 40 hours 100 and none 0 |
| EmployeeHours.AverageDaily | src/app/api/reports/employee-hours/route.ts:82 | the daily average over five days, rounded to the cent |
| EmployeeHours.UserEntries | src/app/api/reports/employee-hours/route.ts:29 | exactly the rows of the user |
| EmployeeHours.AddUpEntries | src/app/api/reports/employee-hours/route.ts:31-53 | each day's hours are the sum of that day over the rows, and the total is the sum of the stored totals, not of the days |
| EmployeeHours.FormatEmployee | src/app/api/reports/employee-hours/route.ts:27-87 | one user's row holds those sums, the status, the percentage and the average |
| EmployeeHours.NoEntriesNoHours | src/app/api/reports/employee-hours/route.ts:31-40 | a user without rows gets zero every day, status red and 0 percent |
| EmployeeHours.SelectUsers | src/app/api/reports/employee-hours/route.ts:17-20 | with a user id only users with that id are kept, otherwise everybody |
| EmployeeHours.FormatEmployees | src/app/api/reports/employee-hours/route.ts:27 | one row per selected user, in order |
| EmployeeHours.CountsPartition | src/app/api/reports/employee-hours/route.ts:90-96 | the five status counts add up to the number of rows |
| EmployeeHours.Summarize | src/app/api/reports/employee-hours/route.ts:90-99 | each status count is the number of rows with that status, so the counts partition the employees; the hours are the sum of the rows' hours, and the rounded average is given when there are rows |
| EmployeeHours.CountIsMultiplicity | src/app/api/reports/employee-hours/route.ts:92-96 | the rows with a status are counted once each: the count is the multiplicity of the status among the rows' statuses |
| EmployeeHours.EmployeeHoursReport | src/app/api/reports/employee-hours/route.ts:4-109 | week and year default to 8 and 2026; one row per selected user over that week's rows; the summary of those rows |
| EmployeeHours.ReportedUsers | src/app/api/reports/employee-hours/route.ts:17-27 | with a user id only that user appears; without one every listed user appears once, in order |
| EmployeeHours.SameCount | src/app/api/reports/employee-hours/route.ts:13 | the user's rows of the week occur as often in the store's answer as in the collection |
| EmployeeHours.OnlyThatWeek | src/app/api/reports/employee-hours/route.ts:13 | the user's hours count exactly the user's rows of that week and year, whatever the listing order |
| ProjectsRoute.RateOr50 | src/app/api/projects/route.ts:26 | a missing or zero rate falls back to 50 |
| ProjectsRoute.ProjectEntries | src/app/api/projects/route.ts:20 | exactly the entries of the project |
| ProjectsRoute.ActualCost | src/app/api/projects/route.ts:24-28 | the cost is the sum of each entry's hours at its user's rate |
| ProjectsRoute.NoRatesCostFifty | src/app/api/projects/route.ts:14 | with the rate table empty, as it always is, the cost is 50 times the hours |
| ProjectsRoute.Revenue | src/app/api/projects/route.ts:31 | billable projects earn their hours at their rate, or 100 when it is missing or zero; others earn nothing |
| ProjectsRoute.ProfitMargin | src/app/api/projects/route.ts:33 | the margin is profit over a positive revenue in percent, else 0 |
| ProjectsRoute.WithCosts | src/app/api/projects/route.ts:18-42 | the loop over the entries yields the project with its costs, the cost at 50 per hour |
| ProjectsRoute.NonBillableLoses | src/app/api/projects/route.ts:31-33 | a non-billable project's profit is minus its cost and its margin 0 |
| ProjectsRoute.CostedKeepsFields | src/app/api/projects/route.ts:35-41 | the project with costs keeps every field but the hours, cost, profit and margin |
| ProjectsRoute.CostedHours | src/app/api/projects/route.ts:20-32 | the hours are those of the project's own entries, the cost 50 per hour, the profit revenue less cost |
| ProjectsRoute.CostedMargin | src/app/api/projects/route.ts:33 | with a positive revenue, the margin is the profit in percent of it |
| ProjectsRoute.GetProjects | src/app/api/projects/route.ts:4-48 | the projects as listed, or the same projects in the same order with their costs |
| ProjectsRoute.PutProject | src/app/api/projects/route.ts:76-95 | 404 with nothing written for an unknown id, otherwise the merged project |
| ResourcesRoute.ProjectName | src/app/api/resources/route.ts:17 | the name of the last project with the id, as the map keeps the last entry for a key; none exactly when there is none |
| ResourcesRoute.UserEntries | src/app/api/resources/route.ts:23 | exactly the entries of the user |
| ResourcesRoute.ProjectIds | src/app/api/resources/route.ts:26 | each project id of the entries, once |
| ResourcesRoute.ProjectIdsOrder | src/app/api/resources/route.ts:26 | the ids come in the order of their first occurrence |
| ResourcesRoute.Names | src/app/api/resources/route.ts:27 | `.filter(Boolean)` keeps exactly the non-empty names found |
| ResourcesRoute.ProjectNames | src/app/api/resources/route.ts:26-27 | exactly the non-empty names of the projects the entries were booked on |
| ResourcesRoute.NamesAppend | src/app/api/resources/route.ts:27 | `.filter(Boolean)` over two parts is the filter of each part, in order |
| ResourcesRoute.NamesOrder | src/app/api/resources/route.ts:27 | two non-empty names found at different places are both kept, in the order found, even when they are equal |
| ResourcesRoute.ProjectNamesOrder | src/app/api/resources/route.ts:26-27 | the names come in the order of their project ids' first occurrence, one per distinct id, so two projects sharing a name give it twice |
| ResourcesRoute.NameLookedUp | src/app/api/resources/route.ts:26-27 | a name is looked up exactly when some entry's project has it |
| ResourcesRoute.UserProjectName | src/app/api/resources/route.ts:23-27 | a resource's project names are those of its user's entries |
| ResourcesRoute.UserName | src/app/api/resources/route.ts:32 | the user's name, or "Unknown" without a user or when the user's name is empty |
| ResourcesRoute.WithCosts | src/app/api/resources/route.ts:21-40 | the hours the user booked, their cost at the resource's rate, the last user with the id's name, and the project names of the user's entries, ordered as ProjectNamesOrder states |
| ResourcesRoute.Summarize | src/app/api/resources/route.ts:45-51 | the plain row: no skills is an empty list, and the user is the last stored user with the resource's user id, none exactly when there is none |
| ResourcesRoute.GetResources | src/app/api/resources/route.ts:4-53 | one row per resource in listing order, with costs exactly when asked |
| ResourcesRoute.PostResource | src/app/api/resources/route.ts:63-72 | capacity 40, no skills, rate 0 and currency USD when left out; the monthly salary as given; both time stamps `now`; only that resource is added |
| TimesheetsRoute.DayTotal | src/app/api/timesheets/route.ts:66 | the total is the sum of the seven days |
| TimesheetsRoute.Row | src/app/api/timesheets/route.ts:26-38 | a row keeps every stored field (user, project, activity, notes, billable, week, year, hours, total, status) and carries the last project with its project id, none exactly when there is none |
| TimesheetsRoute.GetTimesheetRows | src/app/api/timesheets/route.ts:4-41 | the newest matching rows first; as many as the limit (100 by default) allows, or, for a negative limit, all but that many from the end |
| TimesheetsRoute.UnfilteredListsAll | src/app/api/timesheets/route.ts:12-18 | without parameters every row is listed |
| TimesheetsRoute.PostTimesheet | src/app/api/timesheets/route.ts:51-85 | a draft row, billable unless told otherwise, whose total is the sum of its days |
| TimesheetsRoute.Edited | src/app/api/timesheets/route.ts:100-107 | only supplied fields change; new hours bring a new total; `updatedAt` is `now` |
| TimesheetsRoute.EditKeepsTotal | src/app/api/timesheets/route.ts:100-107 | a row whose total is the sum of its days keeps that after any edit |
| TimesheetsRoute.PutTimesheet | src/app/api/timesheets/route.ts:95-119 | 404 with nothing written for a missing or unknown id, else the edited row |
| TimesheetsRoute.DeleteTimesheet | src/app/api/timesheets/route.ts:128-142 | 400 with nothing deleted for a missing or empty id, else the row is gone |
| TaskTimeEntriesRoute.PostEntry | src/app/api/task-time-entries/route.ts:38-64 | the entry carries the Sunday-based week and the date's year, is billable unless told otherwise, and its task's hours are recomputed |
| TaskTimeEntriesRoute.Edited | src/app/api/task-time-entries/route.ts:86-89 | only hours, description and billable can change |
| TaskTimeEntriesRoute.PutEntry | src/app/api/task-time-entries/route.ts:74-100 | 400 for a missing id, 404 for an unknown one, else the edited entry with its task's hours recomputed |
| TaskTimeEntriesRoute.DeleteEntry | src/app/api/task-time-entries/route.ts:110-125 | 400 for a missing id, else the store's deletion with recomputation |
| ApprovalsRoute.Marked | src/app/api/approvals/route.ts:69-71 | exactly the selected rows get the status and a fresh time stamp |
| ApprovalsRoute.ListedIds | src/app/api/approvals/route.ts:68-70 | a stored row is listed exactly when the filter selects it |
| ApprovalsRoute.SameSelection | src/app/api/approvals/route.ts:69-71 | updating rows by id is updating the selected rows when both pick the same stored rows |
| ApprovalsRoute.ListedMarked | src/app/api/approvals/route.ts:68-71 | updating the listed rows is updating the selected rows |
| ApprovalsRoute.MarkEntries | src/app/api/approvals/route.ts:69-71 | one status update per listed row |
| ApprovalsRoute.MarkWeek | src/app/api/approvals/route.ts:110-118 | listing then updating marks exactly the week's rows |
| ApprovalsRoute.OtherWeeksUntouched | src/app/api/approvals/route.ts:68-71 | rows of another user, week or year keep every field |
| ApprovalsRoute.WeekRowsMarked | src/app/api/approvals/route.ts:68-71 | the week's rows get the status, whatever they had |
| ApprovalsRoute.PostApproval | src/app/api/approvals/route.ts:49-76 | a pending approval submitted now, and every row of the user's week set to pending |
| ApprovalsRoute.Reviewed | src/app/api/approvals/route.ts:92-97 | the review writes the status sent and the review time and keeps the rest |
| ApprovalsRoute.ReviewOverrides | src/app/api/approvals/route.ts:92-97 | a second review overrides the first |
| ApprovalsRoute.PutApproval | src/app/api/approvals/route.ts:86-121 | 404 with nothing written for an unknown approval; else the review, and for approved or rejected the week's rows carry that status |
| ApprovalsRoute.Row | src/app/api/approvals/route.ts:25-36 | every stored field of the approval (approver, week, year, hours, status, comments, submission and review times) with the last user with its user id, none exactly when there is none |
| ApprovalsRoute.GetApprovalRows | src/app/api/approvals/route.ts:4-39 | the newest matching approvals; as many as the limit (100 by default) allows, or, for a negative limit, all but that many from the end |
| TasksRoute.ProjectNameOr | src/app/api/tasks/route.ts:36 | the project's name, or empty when none has the id |
| TasksRoute.UserNameOr | src/app/api/tasks/route.ts:37 | the assignee's name, or empty when none has the id |
| TasksRoute.Enrich | src/app/api/tasks/route.ts:60-64 | a project name only with a project id and an assignee name only with an assignee; each is the name of the last project or user with the id, empty when there is none |
| TasksRoute.QueryFilter | src/app/api/tasks/route.ts:43-48 | non-empty project and assignee ids filter; a parent id always does, the text `null` meaning no parent |
| TasksRoute.HierarchyFilter | src/app/api/tasks/route.ts:51-52 | the filter reaches `getTasks` only with a parent id |
| TasksRoute.FlatTasks | src/app/api/tasks/route.ts:53-57 | every task accepted by the non-empty project and assignee ids, earliest start first |
| TasksRoute.NonEmpty | src/app/api/tasks/route.ts:97-100 | `x \|\| undefined` drops an empty id |
| TasksRoute.GetTasksHandler | src/app/api/tasks/route.ts:14-66 | 404 for an unknown id, the single enriched task for a known one, else the flat listing or the hierarchy, enriched; in the hierarchy each reply item carries as subtasks the nodes of exactly the filtered tasks whose parent it is |
| TasksRoute.EnrichedHierarchy | src/app/api/tasks/route.ts:51-64 | the enriched roots, one node per filtered task, each node's subtasks the nodes of its children |
| TasksRoute.EnrichNodes | src/app/api/tasks/route.ts:60-64 | each node enriched with its own document and subtasks |
| TasksRoute.RootsAmongNodes | src/app/api/tasks/route.ts:51-64 | each enriched root is the enrichment of one of the linked nodes, with that node's subtasks |
| TasksRoute.PostTask | src/app/api/tasks/route.ts:73-113 | the defaults: no hours, no progress, priority medium, status todo, start today |
| TasksRoute.PutTask | src/app/api/tasks/route.ts:123-144 | 400 for a missing id, 404 for an unknown one, else the merged task |
| TasksRoute.DeleteTaskHandler | src/app/api/tasks/route.ts:154-168 | 400 for a missing id, else the task's subtree and every entry booked on it are gone |
| AllocationsRoute.Row | src/app/api/allocations/route.ts:30-44 | the allocation's fields, the last resource with its resource id together with that resource's user, and the last project with its project id, each null when unknown |
| AllocationsRoute.GetAllocationRows | src/app/api/allocations/route.ts:5-55 | one row per matching allocation, latest year and week first |
| AllocationsRoute.EmptyQueryListsAll | src/app/api/allocations/route.ts:13-20 | a query whose every field is falsy (absent, empty, or 0) lists every allocation, each as often as it is stored |
| AllocationsRoute.PostAllocation | src/app/api/allocations/route.ts:57-80 | the allocation as given, stamped now |
| AllocationsRoute.PutAllocationHours | src/app/api/allocations/route.ts:82-116 | 400 without hours, 404 for a missing or unknown id, else only the hours change |
| AllocationsRoute.DeleteAllocation | src/app/api/allocations/route.ts:118-140 | 400 for a missing id, else the allocation is gone |
| LoginRoute.WithoutPassword | src/app/api/auth/login/route.ts:26 | every field of the user but the password |
| LoginRoute.OnlyPasswordDropped | src/app/api/auth/login/route.ts:26 | putting the password back gives the stored user |
| LoginRoute.PasswordNotReported | src/app/api/auth/login/route.ts:26 | the reply does not depend on the password |
| LoginRoute.Login | src/app/api/auth/login/route.ts:4-39 | 400 without both credentials, 401 when authentication fails, and otherwise exactly the authenticated user without the password |
| LoginRoute.MissingCredentialsIgnoreStore | src/app/api/auth/login/route.ts:9-14 | the 400 reply does not depend on the store |
| LoginRoute.RightPasswordLogsIn | src/app/api/auth/login/route.ts:16-31 | an active first match with the right password logs in |
| LoginRoute.NoStoredPasswordLogsIn | src/lib/luma-docs.ts:69-77 | an active first match with no stored password logs in with any non-empty password |
| CheckUsersRoute.DefaultPassword | src/app/api/check-users/route.ts:15-24 | the table's password, or password123; never empty |
| CheckUsersRoute.BackFilled | src/app/api/check-users/route.ts:23-30 | users without a password get their default, become active and are stamped now; the others are unchanged |
| CheckUsersRoute.BackFillIdempotent | src/app/api/check-users/route.ts:9-30 | a second back-fill changes nothing |
| CheckUsersRoute.FillPasswords | src/app/api/check-users/route.ts:23-30 | one user update per listed user |
| CheckUsersRoute.ListedLacking | src/app/api/check-users/route.ts:6-9 | a stored user is selected exactly when it has no password |
| CheckUsersRoute.SameUsers | src/app/api/check-users/route.ts:9-30 | updating the selected users is the back-fill |
| CheckUsersRoute.LackingCounted | src/app/api/check-users/route.ts:34 | the count in the message is the number of stored users without a password |
| CheckUsersRoute.StoredIsListed | src/app/api/check-users/route.ts:6-9 | a stored user without a password is selected |
| CheckUsersRoute.LackingIsStored | src/app/api/check-users/route.ts:6-9 | a selected user is the stored user under its id |
| CheckUsersRoute.ReportedMarks | src/app/api/check-users/route.ts:11-35 | some user is updated exactly when one lacks a password, and the report names exactly those |
| CheckUsersRoute.ReportedStates | src/app/api/check-users/route.ts:39-44 | with none lacking, one state per stored user: every stored user is reported, every report is a stored user's state, and each has a password |
| CheckUsersRoute.StatesStored | src/app/api/check-users/route.ts:39-44 | each reported state is that of the stored user under its id |
| CheckUsersRoute.StatesCover | src/app/api/check-users/route.ts:39-44 | each stored user's state is reported |
| CheckUsersRoute.UserListed | src/app/api/check-users/route.ts:39 | every stored user is in the listing `getUsers` returns |
| CheckUsersRoute.CheckUsers | src/app/api/check-users/route.ts:4-52 | with users lacking a password exactly those are back-filled, counted and named; otherwise nothing is written, the count is the number of stored users, and the report holds exactly their states, each with a password |
| Permissions.RoleEntry | src/hooks/usePermissions.ts:24-53 | the table has entries exactly for admin, manager and member |
| Permissions.RoleOf | src/hooks/usePermissions.ts:58 | the user's role, or member without one; never empty |
| Permissions.PermissionsOf | src/hooks/usePermissions.ts:59 | the role's entry, or the member's list for a role the table does not name |
| Permissions.HasAnyPermission | src/hooks/usePermissions.ts:65-67 | true exactly when one of the permissions is held; false for none |
| Permissions.HasAllPermissions | src/hooks/usePermissions.ts:69-71 | true exactly when all are held; true for none |
| Permissions.UsePermissions | src/hooks/usePermissions.ts:55-83 | the role, its permissions, and flags that test the role itself |
| Permissions.NoRoleIsMember | src/hooks/usePermissions.ts:58-59 | nobody signed in acts as a member |
| Permissions.UnknownRoleHasNoFlag | src/hooks/usePermissions.ts:58-80 | an unknown role gets member permissions but no flag |
| Permissions.MemberWithinManager | src/hooks/usePermissions.ts:35-52 | what a member may do, a manager may do |
| Permissions.ManagerWithinAdmin | src/hooks/usePermissions.ts:25-44 | what a manager may do, an admin may do |
| Permissions.AdminHoldsAll | src/hooks/usePermissions.ts:6-34 | an admin holds every permission |
| Permissions.ApprovalIsForLeads | src/hooks/usePermissions.ts:25-52 | only admins and managers approve timesheets and manage approvals |
| Permissions.AllCheckInherited | src/hooks/usePermissions.ts:69-71 | checks a member passes, a manager and an admin pass |
| Permissions.PermissionGate | src/hooks/usePermissions.ts:92-98 | the children when the permission is held, else the fallback |
| Permissions.AnyPermissionGate | src/hooks/usePermissions.ts:107-113 | the children when any permission is held, so never for an empty list |
| Permissions.AdminPassesGate | src/hooks/usePermissions.ts:92-98 | an admin always passes a gate |
| Permissions.MemberStopsAtApproval | src/hooks/usePermissions.ts:92-98 | a member gets the fallback at the approval gate |

## Left out

- The remote store's HTTP calls and their failures (`src/lib/luma.ts`) are not modelled. The store is the in-memory `DocStore`, and the `500` replies of the handlers' `catch` blocks are left out.
- `findDocs` truncates a listing at the limit its caller passes: 1000 documents in every listing of src/lib/luma-docs.ts, 10000 in `clearAllData` (line 567). The model lists whole collections, so each listing, and LumaStore.DocStore.ClearAllData's "every collection is empty", holds as stated only for collections within that limit; a larger collection is listed, or cleared, only in part by the source.
- Each handler reads the clock once, as the parameter `now`, where the source calls `Date.now()` or `new Date()` several times.
- `Promise.all` reads are taken one after another, with every listing read before any write, as the handlers do.
- `parseInt` and `parseFloat` of query strings are not modelled. The handlers take the parsed numbers, and a `NaN` from a malformed string is not represented.
- Floating-point rounding is not modelled. Hours and money are exact reals.
- `localeCompare` is abstracted as a caller-supplied ranking of names (`nameRank`).
- `toLowerCase` is modelled on ASCII letters only.
- Dates are day-accurate calendar dates. A task `POST` whose date is a non-empty string that is not a date stores that string in the source (`startDate || today`, src/app/api/tasks/route.ts:101-102); the model takes every date as a calendar date. Times of day, time zones and the host's local time are left out. For the task-time-entry week, the model uses the UTC calendar date where the source uses the host's local `getDay`/`getFullYear`.
- JSON bodies with extra keys or `null` values are not modelled. Each body is a datatype with the fields the handler reads, and an absent field is `None`.
- `console.log` and `console.error` output is not modelled.
- React rendering is left out. A gate's outcome is `Some(children)`, or the fallback (`None` for `null`).
- `rolePermissions[role]` for a role named like an `Object.prototype` member (such as `constructor`) is modelled as a missing entry. The same holds for `resourceRates[entry.userId] || 50` (ProjectsRoute.RateOr50, src/app/api/projects/route.ts:26) and `defaultPasswords[user.id] || 'password123'` (CheckUsersRoute.DefaultPassword, src/app/api/check-users/route.ts:24): a user id such as `constructor` finds a function there in the source, and the model falls back to the default.
- `getTaskById`, `getUserById` and `getResourceById` are modelled as key lookups on the store. The tasks handler's `getTaskById` is a lookup in the task listing.
- The task-time-entries `GET` handler only passes its query to `getTaskTimeEntries`, which is modelled. The handler itself has no member.
- The `users`, `init`, `reset` and `seed` routes are not part of this model. The same goes for `initializeDocumentStore` and the seed data.
- The projects `POST` handler is not part of this model.
- The page components and the remaining hooks and contexts are not part of this model.
- LumaStore.DocStore.DeleteTask: the task links must be acyclic, given as a ranking `depth` that falls from a task to its parent. That also excludes a task that is its own parent. For such a task the source does terminate: `getTasks({ parentId: id })` nests every child under the task itself, so no subtask is deleted. Only the task and its entries go, and its children keep a dangling parent id. The model does not describe that case. Only a cycle through two or more tasks makes the source recurse without end.
- TasksRoute.DeleteTaskHandler: the task links must be acyclic, as for `DeleteTask`. A self-parent task is excluded too, although the source deletes just that task and its entries.
- LumaStore.DocStore.CalculateProjectCosts: the total cost is stated only when each user has at most one resource. With several resources, the source prices an entry at whichever resource `find` meets first in listing order. The model then states only the hours, and that entries of users without a resource cost nothing.
- LumaStore.DocStore.EntryCostOf: same restriction as `CalculateProjectCosts`.
- CheckUsersRoute.CheckUsers: the order of the reported users follows `getUsers`. The contract states exactly which users are reported and how many, but not their order.
- AllocationsRoute.EmptyQueryListsAll: states the listing as a multiset, not its order.
- LumaStore.DocStore.UpdateTaskTimeEntry: when an update moves an entry to another task, only the old task's hours are recomputed, as in the source. The new task's hours go stale, and no consistency lemma covers that case.
- EmployeeHours.Summarize: the average over no employees, `NaN` in the source, is `None`.
- LumaStore.DocStore.RecomputeTaskHours, LumaStore.DocStore.CreateTaskTimeEntry, LumaStore.DocStore.UpdateTaskTimeEntry, LumaStore.DocStore.DeleteTaskTimeEntry, LumaStore.DocStore.CalculateProjectCosts, LumaListings.ListedHours: an entry without `hours` counts as 0. In the source the reductions add `undefined`, so the sum becomes `NaN`. The same happens in the project costs for a resource without `hourlyRate`. The model does not represent `NaN`.
- TaskHierarchy.CreateNodes: each node starts without subtasks. A stored task document that already holds a `subtasks` array keeps it in the source, and the children are pushed after those stored items. The model leaves such stored arrays out.
- ProjectsRoute.PutProject: the source forwards `{ id, ...updates }` of the raw body (src/app/api/projects/route.ts:79-81), so a body carrying `createdAt` or any other field overwrites the stored one; the model's patch has only the project's editable fields.
- TasksRoute.PutTask: likewise the raw body is forwarded (src/app/api/tasks/route.ts:126-135), so a body carrying `createdAt` or a `subtasks` array is stored as given; the model's patch has only the task's editable fields.
- ApprovalsRoute.Review: the status is always a string. A `PUT` body without a status makes the source write `status: undefined` into the approval (src/app/api/approvals/route.ts:92-95); the model does not represent that case.
- Docs.MergeApproval: the patch has no `id` or `createdAt` field. `updateApproval` accepts a `Partial<ApprovalDoc>`, which could carry them, but its only caller, the approvals `PUT` handler, never sets them.
