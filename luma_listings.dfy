/** The read side of src/lib/luma-docs.ts: the collections, the listings
    with their filters and sort orders, the e-mail lookup and
    `authenticateUser`.

    A listing receives the documents that the store's `findDocs` returned,
    in the store's own order; what it does with them does not depend on
    that order except where a `find` picks the first match. */
module LumaListings {
  import opened Wrappers
  import opened Calendar
  import opened Docs
  import opened Seqs
  import opened Sorting

  /** The eight collections of `COLLECTIONS` (src/lib/luma-docs.ts:4-13). */
  datatype Collection =
    | Users | Projects | Tasks | TimeEntries | TaskTimeEntries
    | Resources | Allocations | Approvals

  /** The store name of a collection. */
  function CollectionName(c: Collection): string {
    match c
    case Users => "users"
    case Projects => "projects"
    case Tasks => "tasks"
    case TimeEntries => "time_entries"
    case TaskTimeEntries => "task_time_entries"
    case Resources => "resources"
    case Allocations => "allocations"
    case Approvals => "approvals"
  }

  /** `Object.values(COLLECTIONS)`, in declaration order. */
  const AllCollections: seq<Collection> :=
    [Users, Projects, Tasks, TimeEntries, TaskTimeEntries, Resources, Allocations, Approvals]

  /** Every collection is listed once and the names tell them apart. */
  lemma AllCollectionsListed()
    ensures forall c: Collection :: c in AllCollections
    ensures |AllCollections| == 8
    ensures forall i, j :: 0 <= i < j < |AllCollections| ==>
              CollectionName(AllCollections[i]) != CollectionName(AllCollections[j])
  {
    forall c: Collection ensures c in AllCollections {
      var k := match c
        case Users => 0 case Projects => 1 case Tasks => 2 case TimeEntries => 3
        case TaskTimeEntries => 4 case Resources => 5 case Allocations => 6 case Approvals => 7;
      assert AllCollections[k] == c;
    }
  }

  // ---------------------------------------------------------------- users

  /** `getUsers`/`getProjects` sort by `name.localeCompare`; the locale's
      collation is abstracted as a ranking of names. */
  function GetUsers(found: seq<UserDoc>, nameRank: string -> int): (r: seq<UserDoc>)
    ensures multiset(r) == multiset(found)
    ensures forall i, j :: 0 <= i < j < |r| ==> nameRank(r[i].name) <= nameRank(r[j].name)
  {
    Sort(found, (u: UserDoc) => (nameRank(u.name), 0))
  }

  /** `String.prototype.toLowerCase` on the ASCII letters. */
  function LowerChar(c: char): (r: char)
    ensures !('A' <= r <= 'Z')
    ensures 'a' <= c <= 'z' || !('A' <= c <= 'Z') ==> r == c
  {
    if 'A' <= c <= 'Z' then (c as int + 32) as char else c
  }

  function Lower(s: string): (r: string)
    ensures |r| == |s|
    ensures forall i :: 0 <= i < |s| ==> r[i] == LowerChar(s[i])
  {
    seq(|s|, i requires 0 <= i < |s| => LowerChar(s[i]))
  }

  /** Lowering twice is lowering once, so comparing lowered addresses is an
      equivalence: an address always matches itself lowered. */
  lemma LowerIdempotent(s: string)
    ensures Lower(Lower(s)) == Lower(s)
  {
  }

  /** The case-insensitive comparison of `getUserByEmail`. */
  predicate SameEmail(a: string, b: string) {
    Lower(a) == Lower(b)
  }

  /** `getUserByEmail` (src/lib/luma-docs.ts:38-41): the first user, in store
      order, whose address matches case-insensitively. */
  function GetUserByEmail(found: seq<UserDoc>, email: string): (r: Option<UserDoc>)
    ensures r.None? <==> forall i :: 0 <= i < |found| ==> !SameEmail(found[i].email, email)
    ensures r.Some? ==> exists i :: (0 <= i < |found| && found[i] == r.value &&
              SameEmail(found[i].email, email) &&
              forall j :: 0 <= j < i ==> !SameEmail(found[j].email, email))
  {
    FindFirst(found, (u: UserDoc) => SameEmail(u.email, email))
  }

  /** A stored password lets the user in when it is missing or empty, or
      equal to the one given (src/lib/luma-docs.ts:74). */
  predicate PasswordAccepts(stored: Option<string>, given: string) {
    !Truthy(stored) || stored.value == given
  }

  /** `authenticateUser` (src/lib/luma-docs.ts:69-77). */
  function AuthenticateUser(found: seq<UserDoc>, email: string, password: string): (r: Option<UserDoc>)
    ensures r.Some? <==> exists i :: (0 <= i < |found| && SameEmail(found[i].email, email) &&
              (forall j :: 0 <= j < i ==> !SameEmail(found[j].email, email)) &&
              found[i].isActive && PasswordAccepts(found[i].password, password))
    ensures r.Some? ==> r == GetUserByEmail(found, email) && r.value.isActive
  {
    var user := GetUserByEmail(found, email);
    if user.None? || !user.value.isActive then None
    else if Truthy(user.value.password) && user.value.password.value != password then None
    else user
  }

  // ---------------------------------------------------------------- tasks

  /** The optional filter of `getTasks`; `parentId` is absent (`None`),
      `null` (`Some(None)`) or an id (`Some(Some(id))`). */
  datatype TaskFilter = TaskFilter(projectId: Option<string>, assigneeId: Option<string>,
                                   parentId: Option<Option<string>>)

  const NoTaskFilter := TaskFilter(None, None, None)

  /** The three filters of src/lib/luma-docs.ts:208-220, one after the other:
      a falsy project or assignee id is ignored, a `null` parent selects the
      tasks with no (or an empty) parent. */
  predicate MatchesTask(f: TaskFilter, t: TaskDoc) {
    && (Truthy(f.projectId) ==> t.projectId == f.projectId.value)
    && (Truthy(f.assigneeId) ==> t.assigneeId == f.assigneeId)
    && (f.parentId.Some? ==>
          if f.parentId.value.None? then !Truthy(t.parentId) else t.parentId == f.parentId.value)
  }

  function FilterTasks(found: seq<TaskDoc>, f: TaskFilter): (r: seq<TaskDoc>)
    ensures forall t :: t in r <==> t in found && MatchesTask(f, t)
    ensures f == NoTaskFilter ==> r == found
  {
    var p := (t: TaskDoc) => MatchesTask(f, t);
    var r := Filter(found, p);
    assert f == NoTaskFilter ==> r == found by {
      if f == NoTaskFilter {
        FilterAll(found, p);
      }
    }
    r
  }

  /** `new Date(startDate).getTime()`, the key of the ascending task sorts. */
  function StartKey(t: TaskDoc): SortKey {
    (Ordinal(t.startDate), 0)
  }

  /** `getAllTasksFlat` (src/lib/luma-docs.ts:241-244). */
  function GetAllTasksFlat(found: seq<TaskDoc>): (r: seq<TaskDoc>)
    ensures multiset(r) == multiset(found)
    ensures forall i, j :: 0 <= i < j < |r| ==> Ordinal(r[i].startDate) <= Ordinal(r[j].startDate)
  {
    Sort(found, StartKey)
  }

  // ---------------------------------------------------- task-time entries

  datatype TaskEntryFilter = TaskEntryFilter(
    taskId: Option<string>, userId: Option<string>, projectId: Option<string>,
    weekNumber: Option<int>, year: Option<int>)

  const NoTaskEntryFilter := TaskEntryFilter(None, None, None, None, None)

  /** `{ taskId }`, the filter of the hours recomputation and of `deleteTask`. */
  function ByTask(taskId: string): TaskEntryFilter {
    NoTaskEntryFilter.(taskId := Some(taskId))
  }

  /** The conjunction of src/lib/luma-docs.ts:310-314: each supplied, truthy
      field must match; a falsy one (an empty id, week 0, year 0) is ignored. */
  predicate MatchesTaskEntry(f: TaskEntryFilter, e: TaskTimeEntryDoc) {
    && (Truthy(f.taskId) ==> e.taskId == f.taskId.value)
    && (Truthy(f.userId) ==> e.userId == f.userId.value)
    && (Truthy(f.projectId) ==> e.projectId == f.projectId.value)
    && (TruthyInt(f.weekNumber) ==> e.weekNumber == f.weekNumber.value)
    && (TruthyInt(f.year) ==> e.year == f.year.value)
  }

  /** `getTaskTimeEntries` (src/lib/luma-docs.ts:306-317): the matching
      entries, latest date first. */
  function GetTaskTimeEntries(found: seq<TaskTimeEntryDoc>, f: TaskEntryFilter): (r: seq<TaskTimeEntryDoc>)
    ensures multiset(r) == multiset(Filter(found, (e: TaskTimeEntryDoc) => MatchesTaskEntry(f, e)))
    ensures forall e :: e in r <==> e in found && MatchesTaskEntry(f, e)
    ensures forall i, j :: 0 <= i < j < |r| ==> Ordinal(r[i].date) >= Ordinal(r[j].date)
  {
    var matching := Filter(found, (e: TaskTimeEntryDoc) => MatchesTaskEntry(f, e));
    var r := Sort(matching, (e: TaskTimeEntryDoc) => (-Ordinal(e.date), 0));
    assert forall e :: e in r <==> e in matching by {
      forall e ensures e in r <==> e in matching {
        SortMembers(matching, (e: TaskTimeEntryDoc) => (-Ordinal(e.date), 0), e);
      }
    }
    r
  }

  /** `{ projectId }`, the filter of `calculateProjectCosts`. */
  function ByProject(projectId: string): TaskEntryFilter {
    NoTaskEntryFilter.(projectId := Some(projectId))
  }

  /** A quantity `w` of each entry the filter keeps, zero for the others. */
  function Weighted(f: TaskEntryFilter, w: TaskTimeEntryDoc -> real): TaskTimeEntryDoc -> real {
    (e: TaskTimeEntryDoc) => if MatchesTaskEntry(f, e) then w(e) else 0.0
  }

  /** The hours added up over a filter: `e.hours` of each entry the filter
      keeps. The source adds a missing value as `undefined`, making the sum
      `NaN`; here it counts as zero. */
  function HoursMatching(f: TaskEntryFilter): TaskTimeEntryDoc -> real {
    Weighted(f, EntryHours)
  }

  /** The hours of one task, as the `{ taskId }` recomputation adds them. */
  function HoursFor(taskId: string): TaskTimeEntryDoc -> real {
    HoursMatching(ByTask(taskId))
  }

  /** A loop over the fetched, filtered entries that adds `w` of each adds
      it for exactly the entries the filter keeps, each once: it equals the
      order-free sum over the whole collection. */
  lemma {:induction false} ListedWeighted(m: map<string, TaskTimeEntryDoc>, found: seq<(string, TaskTimeEntryDoc)>,
                                          f: TaskEntryFilter, w: TaskTimeEntryDoc -> real)
    requires Lists(m, found)
    ensures Sum(GetTaskTimeEntries(DocsOf(found), f), w) == SumValues(m, Weighted(f, w))
  {
    var docs := DocsOf(found);
    var p := (e: TaskTimeEntryDoc) => MatchesTaskEntry(f, e);
    SumPermutation(GetTaskTimeEntries(docs, f), Filter(docs, p), w);
    SumFilterZero(docs, p, w, Weighted(f, w));
    SumListing(m, found, Weighted(f, w));
  }

  /** The reductions of src/lib/luma-docs.ts:327-328 and 156-157 add the
      hours of exactly the entries the filter keeps. */
  lemma ListedHours(m: map<string, TaskTimeEntryDoc>, found: seq<(string, TaskTimeEntryDoc)>, f: TaskEntryFilter)
    requires Lists(m, found)
    ensures Sum(GetTaskTimeEntries(DocsOf(found), f), EntryHours) == SumValues(m, HoursMatching(f))
  {
    ListedWeighted(m, found, f, EntryHours);
  }

  // ------------------------------------------------------------ resources

  /** `getResourceByUserId` (src/lib/luma-docs.ts:387-390). */
  function GetResourceByUserId(found: seq<ResourceDoc>, userId: string): (r: Option<ResourceDoc>)
    ensures r.None? <==> forall i :: 0 <= i < |found| ==> found[i].userId != userId
    ensures r.Some? ==> exists i :: (0 <= i < |found| && found[i] == r.value && r.value.userId == userId &&
              forall j :: 0 <= j < i ==> found[j].userId != userId)
  {
    FindFirst(found, (res: ResourceDoc) => res.userId == userId)
  }

  // ---------------------------------------------------------- allocations

  datatype AllocationFilter = AllocationFilter(
    resourceId: Option<string>, projectId: Option<string>,
    weekNumber: Option<int>, year: Option<int>)

  const NoAllocationFilter := AllocationFilter(None, None, None, None)

  predicate MatchesAllocation(f: AllocationFilter, a: AllocationDoc) {
    && (Truthy(f.resourceId) ==> a.resourceId == f.resourceId.value)
    && (Truthy(f.projectId) ==> a.projectId == f.projectId.value)
    && (TruthyInt(f.weekNumber) ==> a.weekNumber == f.weekNumber.value)
    && (TruthyInt(f.year) ==> a.year == f.year.value)
  }

  /** `getAllocations` (src/lib/luma-docs.ts:428-438): latest year first,
      then latest week first. */
  function GetAllocations(found: seq<AllocationDoc>, f: AllocationFilter): (r: seq<AllocationDoc>)
    ensures multiset(r) == multiset(Filter(found, (a: AllocationDoc) => MatchesAllocation(f, a)))
    ensures forall a :: a in r <==> a in found && MatchesAllocation(f, a)
    ensures forall i, j :: 0 <= i < j < |r| ==>
              r[i].year > r[j].year || (r[i].year == r[j].year && r[i].weekNumber >= r[j].weekNumber)
  {
    var matching := Filter(found, (a: AllocationDoc) => MatchesAllocation(f, a));
    var key := (a: AllocationDoc) => (-a.year, -a.weekNumber);
    var r := Sort(matching, key);
    assert forall a :: a in r <==> a in matching by {
      forall a ensures a in r <==> a in matching {
        SortMembers(matching, key, a);
      }
    }
    assert forall i, j :: 0 <= i < j < |r| ==> !Before(key(r[j]), key(r[i]));
    r
  }

  // ------------------------------------------------------------ approvals

  predicate MatchesApproval(status: Option<string>, userId: Option<string>, a: ApprovalDoc) {
    && (Truthy(status) ==> a.status == status.value)
    && (Truthy(userId) ==> a.userId == userId.value)
  }

  /** `getApprovals` (src/lib/luma-docs.ts:461-469): newest first. */
  function GetApprovals(found: seq<ApprovalDoc>, status: Option<string>, userId: Option<string>): (r: seq<ApprovalDoc>)
    ensures multiset(r) == multiset(Filter(found, (a: ApprovalDoc) => MatchesApproval(status, userId, a)))
    ensures forall a :: a in r <==> a in found && MatchesApproval(status, userId, a)
    ensures forall i, j :: 0 <= i < j < |r| ==> r[i].createdAt >= r[j].createdAt
  {
    var matching := Filter(found, (a: ApprovalDoc) => MatchesApproval(status, userId, a));
    var r := Sort(matching, (a: ApprovalDoc) => (-a.createdAt, 0));
    assert forall a :: a in r <==> a in matching by {
      forall a ensures a in r <==> a in matching {
        SortMembers(matching, (a: ApprovalDoc) => (-a.createdAt, 0), a);
      }
    }
    r
  }

  // --------------------------------------------------------- time entries

  datatype TimeEntryFilter = TimeEntryFilter(
    userId: Option<string>, projectId: Option<string>,
    weekNumber: Option<int>, year: Option<int>)

  const NoTimeEntryFilter := TimeEntryFilter(None, None, None, None)

  predicate MatchesTimeEntry(f: TimeEntryFilter, e: TimeEntryDoc) {
    && (Truthy(f.userId) ==> e.userId == f.userId.value)
    && (Truthy(f.projectId) ==> e.projectId == f.projectId.value)
    && (TruthyInt(f.weekNumber) ==> e.weekNumber == f.weekNumber.value)
    && (TruthyInt(f.year) ==> e.year == f.year.value)
  }

  /** `getTimeEntries` (src/lib/luma-docs.ts:512-522): newest first. */
  function GetTimeEntries(found: seq<TimeEntryDoc>, f: TimeEntryFilter): (r: seq<TimeEntryDoc>)
    ensures multiset(r) == multiset(Filter(found, (e: TimeEntryDoc) => MatchesTimeEntry(f, e)))
    ensures forall e :: e in r <==> e in found && MatchesTimeEntry(f, e)
    ensures forall i, j :: 0 <= i < j < |r| ==> r[i].createdAt >= r[j].createdAt
  {
    var matching := Filter(found, (e: TimeEntryDoc) => MatchesTimeEntry(f, e));
    var r := Sort(matching, (e: TimeEntryDoc) => (-e.createdAt, 0));
    assert forall e :: e in r <==> e in matching by {
      forall e ensures e in r <==> e in matching {
        SortMembers(matching, (e: TimeEntryDoc) => (-e.createdAt, 0), e);
      }
    }
    r
  }
}
