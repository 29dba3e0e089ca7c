/** The resources handler, src/app/api/resources/route.ts: the listing with
    the hours and cost each resource's user booked and the projects they
    booked them on, the plain listing, and the creation defaults. */
module ResourcesRoute {
  import opened Wrappers
  import opened Docs
  import opened Seqs
  import opened Calendar
  import opened LumaStore
  import opened Joins

  /** `new Map(projects.map(p => [p.id, p.name])).get(id)` (line 17): a
      later project with the same id overwrites an earlier one in the map,
      so the name is that of the last project with the id. */
  function ProjectName(projects: seq<ProjectDoc>, id: string): (r: Option<string>)
    ensures r.None? <==> forall i :: 0 <= i < |projects| ==> projects[i].id != id
    ensures r.Some? ==> exists p :: p in projects && p.id == id && p.name == r.value
    ensures r.Some? ==> exists i :: 0 <= i < |projects| && projects[i].id == id &&
                                    projects[i].name == r.value &&
                                    forall j :: i < j < |projects| ==> projects[j].id != id
  {
    var p := FindLast(projects, (p: ProjectDoc) => p.id == id);
    if p.Some? then Some(p.value.name) else None
  }

  /** The entries booked by a user (line 23). */
  function UserEntries(timeEntries: seq<TaskTimeEntryDoc>, userId: string): (r: seq<TaskTimeEntryDoc>)
    ensures forall e :: e in r <==> e in timeEntries && e.userId == userId
  {
    Filter(timeEntries, (e: TaskTimeEntryDoc) => e.userId == userId)
  }

  function EntryProject(e: TaskTimeEntryDoc): string {
    e.projectId
  }

  function LookUpName(projects: seq<ProjectDoc>): string -> Option<string> {
    (pid: string) => ProjectName(projects, pid)
  }

  /** `.filter(Boolean)` on the looked-up names: drops the ids without a
      project and the empty names. */
  function Names(found: seq<Option<string>>): (r: seq<string>)
    ensures forall n :: n in r <==> n != "" && Some(n) in found
  {
    if found == [] then []
    else
      var rest := Names(found[1..]);
      assert forall x :: x in found <==> x == found[0] || x in found[1..];
      if Truthy(found[0]) then [found[0].value] + rest else rest
  }

  /** `[...new Set(resourceEntries.map(e => e.projectId))]` (line 26): each
      project id of the entries once, in the order of first occurrence. */
  function ProjectIds(entries: seq<TaskTimeEntryDoc>): (r: seq<string>)
    ensures forall id :: id in r <==> exists e :: e in entries && e.projectId == id
    ensures forall i, j :: 0 <= i < j < |r| ==> r[i] != r[j]
  {
    var ids := MapSeq(entries, EntryProject);
    assert forall id :: id in ids <==> exists e :: e in entries && e.projectId == id by {
      forall id ensures id in ids <==> exists e :: e in entries && e.projectId == id {
        if e :| e in entries && e.projectId == id {
          var k :| 0 <= k < |entries| && entries[k] == e;
          assert ids[k] == id;
        }
      }
    }
    Distinct(ids)
  }

  /** `new Set` keeps first occurrences in order: of two entries whose
      projects first occur at `i` and `j > i`, the project of `i` is listed
      before that of `j`. */
  lemma ProjectIdsOrder(entries: seq<TaskTimeEntryDoc>, i: nat, j: nat)
    requires i < j < |entries|
    requires forall k :: 0 <= k < i ==> entries[k].projectId != entries[i].projectId
    requires forall k :: 0 <= k < j ==> entries[k].projectId != entries[j].projectId
    ensures exists a, b :: 0 <= a < b < |ProjectIds(entries)| &&
              ProjectIds(entries)[a] == entries[i].projectId && ProjectIds(entries)[b] == entries[j].projectId
  {
    var ids := MapSeq(entries, EntryProject);
    assert ProjectIds(entries) == Distinct(ids);
    DistinctOrder(ids, i, j);
  }

  /** Line 27: the names of the projects of those ids, skipping unknown ids
      and empty names. */
  function ProjectNames(entries: seq<TaskTimeEntryDoc>, projects: seq<ProjectDoc>): (r: seq<string>)
    ensures forall n :: n in r <==> (n != "" && exists e :: e in entries && ProjectName(projects, e.projectId) == Some(n))
  {
    var looked := MapSeq(ProjectIds(entries), LookUpName(projects));
    var r := Names(looked);
    forall n ensures Some(n) in looked <==> exists e :: e in entries && ProjectName(projects, e.projectId) == Some(n) {
      NameLookedUp(entries, projects, n);
    }
    r
  }

  /** `.filter(Boolean)` keeps the order of what it keeps. */
  lemma {:induction false} NamesAppend(a: seq<Option<string>>, b: seq<Option<string>>)
    ensures Names(a + b) == Names(a) + Names(b)
  {
    if a == [] {
      assert a + b == b;
    } else {
      assert (a + b)[0] == a[0];
      assert (a + b)[1..] == a[1..] + b;
      NamesAppend(a[1..], b);
    }
  }

  /** Of two non-empty names found at `x < y`, the one at `x` is listed
      first, even when the two names are equal. */
  lemma NamesOrder(found: seq<Option<string>>, x: nat, y: nat)
    requires x < y < |found| && Truthy(found[x]) && Truthy(found[y])
    ensures exists a, b :: 0 <= a < b < |Names(found)| &&
              Names(found)[a] == found[x].value && Names(found)[b] == found[y].value
  {
    var front, middle, back := found[..x], found[x + 1..y], found[y + 1..];
    assert found == front + ([found[x]] + (middle + ([found[y]] + back)));
    assert Names([found[x]]) == [found[x].value] by { assert [found[x]][1..] == []; }
    assert Names([found[y]]) == [found[y].value] by { assert [found[y]][1..] == []; }
    NamesAppend([found[y]], back);
    NamesAppend(middle, [found[y]] + back);
    NamesAppend([found[x]], middle + ([found[y]] + back));
    NamesAppend(front, [found[x]] + (middle + ([found[y]] + back)));
    var a := |Names(front)|;
    var b := a + 1 + |Names(middle)|;
    assert Names(found)[a] == found[x].value && Names(found)[b] == found[y].value;
  }

  /** The names come in the order in which their project ids first occur
      among the entries, one per distinct id: two projects first booked at
      `i < j` give two listed names, the one of `i` first, even when the
      two projects share a name. */
  lemma ProjectNamesOrder(entries: seq<TaskTimeEntryDoc>, projects: seq<ProjectDoc>, i: nat, j: nat,
                          first: string, second: string)
    requires i < j < |entries|
    requires forall k :: 0 <= k < i ==> entries[k].projectId != entries[i].projectId
    requires forall k :: 0 <= k < j ==> entries[k].projectId != entries[j].projectId
    requires ProjectName(projects, entries[i].projectId) == Some(first) && first != ""
    requires ProjectName(projects, entries[j].projectId) == Some(second) && second != ""
    ensures exists a, b :: 0 <= a < b < |ProjectNames(entries, projects)| &&
              ProjectNames(entries, projects)[a] == first && ProjectNames(entries, projects)[b] == second
  {
    var ids := ProjectIds(entries);
    var looked := MapSeq(ids, LookUpName(projects));
    assert ProjectNames(entries, projects) == Names(looked);
    ProjectIdsOrder(entries, i, j);
    var x, y :| 0 <= x < y < |ids| && ids[x] == entries[i].projectId && ids[y] == entries[j].projectId;
    assert looked[x] == Some(first) && looked[y] == Some(second);
    NamesOrder(looked, x, y);
  }

  /** A name is looked up for the ids exactly when some entry's project has
      it. */
  lemma NameLookedUp(entries: seq<TaskTimeEntryDoc>, projects: seq<ProjectDoc>, n: string)
    ensures Some(n) in MapSeq(ProjectIds(entries), LookUpName(projects)) <==>
            exists e :: e in entries && ProjectName(projects, e.projectId) == Some(n)
  {
    var ids := ProjectIds(entries);
    var looked := MapSeq(ids, LookUpName(projects));
    if Some(n) in looked {
      var j :| 0 <= j < |looked| && looked[j] == Some(n);
      assert ids[j] in ids;
    }
    if e :| e in entries && ProjectName(projects, e.projectId) == Some(n) {
      assert e.projectId in ids;
      var j :| 0 <= j < |ids| && ids[j] == e.projectId;
      assert looked[j] == Some(n);
    }
  }

  /** The projects of a user's entries are those of the entries carrying
      the user's id. */
  lemma UserProjectName(timeEntries: seq<TaskTimeEntryDoc>, userId: string, projects: seq<ProjectDoc>, n: string)
    ensures n in ProjectNames(UserEntries(timeEntries, userId), projects) <==> (n != "" &&
              exists e :: e in timeEntries && e.userId == userId && ProjectName(projects, e.projectId) == Some(n))
  {
    var mine := UserEntries(timeEntries, userId);
    if e :| e in timeEntries && e.userId == userId && ProjectName(projects, e.projectId) == Some(n) {
      assert e in mine;
    }
  }

  /** `totalHours * (r.hourlyRate || 0)` (line 25). */
  function Cost(hours: real, rate: real): real {
    hours * rate
  }

  /** A resource as the listing with costs reports it. */
  datatype ResourceWithCosts = ResourceWithCosts(
    id: string, userId: string, userName: string, hourlyRate: real,
    monthlySalary: Option<real>, currency: string, totalHours: real,
    totalCost: real, projects: seq<string>)

  /** `user?.name || 'Unknown'` (line 32). */
  function UserName(user: Option<UserDoc>): (n: string)
    ensures user.None? ==> n == "Unknown"
    ensures user.Some? && user.value.name != "" ==> n == user.value.name
    ensures user.Some? && user.value.name == "" ==> n == "Unknown"
  {
    if user.Some? && user.value.name != "" then user.value.name else "Unknown"
  }

  /** Lines 21-40 for one resource: the hours its user booked (a missing
      number of hours counting as zero), their cost at the resource's rate
      (zero when it has none) and the projects booked on. */
  function WithCosts(r: ResourceDoc, users: seq<UserDoc>, timeEntries: seq<TaskTimeEntryDoc>,
                     projects: seq<ProjectDoc>): (c: ResourceWithCosts)
    ensures c.id == r.id && c.userId == r.userId && c.monthlySalary == r.monthlySalary && c.currency == r.currency
    ensures c.userName == UserName(UserById(users, r.userId))
    ensures c.hourlyRate == OrZero(r.hourlyRate)
    ensures c.totalHours == Sum(UserEntries(timeEntries, r.userId), EntryHours)
    ensures c.totalCost == Cost(c.totalHours, c.hourlyRate)
    ensures forall n :: n in c.projects <==> (n != "" &&
              exists e :: e in timeEntries && e.userId == r.userId && ProjectName(projects, e.projectId) == Some(n))
    ensures c.projects == ProjectNames(UserEntries(timeEntries, r.userId), projects)
  {
    var resourceEntries := UserEntries(timeEntries, r.userId);
    var totalHours := Sum(resourceEntries, EntryHours);
    forall n ensures n in ProjectNames(resourceEntries, projects) <==> (n != "" &&
                       exists e :: e in timeEntries && e.userId == r.userId && ProjectName(projects, e.projectId) == Some(n)) {
      UserProjectName(timeEntries, r.userId, projects, n);
    }
    var rate := OrZero(r.hourlyRate);
    var totalCost := Cost(totalHours, rate);
    var c := ResourceWithCosts(r.id, r.userId, UserName(UserById(users, r.userId)), rate,
                               r.monthlySalary, r.currency, totalHours, totalCost,
                               ProjectNames(resourceEntries, projects));
    assert c.totalHours == totalHours && c.hourlyRate == rate && c.totalCost == totalCost;
    c
  }

  /** A resource as the plain listing reports it (lines 45-51). */
  datatype ResourceSummary = ResourceSummary(
    id: string, userId: string, capacity: real, skills: seq<string>, user: Option<UserDoc>)

  /** `userMap.get(r.userId) || null`: the last user with the resource's
      user id, as the map keeps the last entry for a key. */
  function Summarize(r: ResourceDoc, users: seq<UserDoc>): (s: ResourceSummary)
    ensures s.id == r.id && s.userId == r.userId && s.capacity == r.capacity
    ensures r.skills.None? ==> s.skills == []
    ensures r.skills.Some? ==> s.skills == r.skills.value
    ensures s.user.None? <==> forall i :: 0 <= i < |users| ==> users[i].id != r.userId
    ensures s.user.Some? ==> exists i :: 0 <= i < |users| && users[i] == s.user.value && users[i].id == r.userId &&
                                         forall j :: i < j < |users| ==> users[j].id != r.userId
  {
    ResourceSummary(r.id, r.userId, r.capacity, r.skills.GetOr([]), UserById(users, r.userId))
  }

  datatype Listing = Costs(withCosts: seq<ResourceWithCosts>) | Plain(plain: seq<ResourceSummary>)

  /** The `GET` handler: the four listings are read first; each resource
      gives one row, in listing order. */
  function GetResources(resources: seq<ResourceDoc>, users: seq<UserDoc>,
                        timeEntries: seq<TaskTimeEntryDoc>, projects: seq<ProjectDoc>, withCosts: bool): (r: Listing)
    ensures withCosts <==> r.Costs?
    ensures r.Costs? ==> (|r.withCosts| == |resources| &&
              forall i :: 0 <= i < |resources| ==> r.withCosts[i] == WithCosts(resources[i], users, timeEntries, projects))
    ensures r.Plain? ==> (|r.plain| == |resources| &&
              forall i :: 0 <= i < |resources| ==> r.plain[i] == Summarize(resources[i], users))
  {
    if withCosts then Costs(MapSeq(resources, (res: ResourceDoc) => WithCosts(res, users, timeEntries, projects)))
    else Plain(MapSeq(resources, (res: ResourceDoc) => Summarize(res, users)))
  }

  /** The body of a `POST`: fields left out are absent. */
  datatype ResourceBody = ResourceBody(
    userId: string, capacity: Option<real>, skills: Option<seq<string>>,
    hourlyRate: Option<real>, monthlySalary: Option<real>, currency: Option<string>)

  /** `resource_${Date.now()}`. */
  function ResourceId(now: int): string {
    "resource_" + IntToString(now)
  }

  /** The `POST` handler (lines 63-72): capacity 40, no skills, rate 0 and
      currency USD when left out. */
  method PostResource(store: DocStore, body: ResourceBody, now: int) returns (doc: ResourceDoc)
    requires store.Valid()
    modifies store
    ensures store.Valid()
    ensures doc.id == ResourceId(now) && doc.userId == body.userId
    ensures doc.capacity == body.capacity.GetOr(40.0)
    ensures doc.skills == Some(body.skills.GetOr([]))
    ensures doc.hourlyRate == Some(body.hourlyRate.GetOr(0.0))
    ensures doc.currency == if body.currency.None? || body.currency == Some("") then "USD" else body.currency.value
    ensures doc.monthlySalary == body.monthlySalary
    ensures doc.createdAt == now && doc.updatedAt == Some(now)
    ensures store.db == old(store.db).(resources := old(store.db.resources)[doc.id := doc])
  {
    var id := ResourceId(now);
    doc := store.CreateResource(NewResource(id, body.userId, body.capacity.GetOr(40.0), Some(body.skills.GetOr([])),
                                            Some(body.hourlyRate.GetOr(0.0)), body.monthlySalary,
                                            Some(body.currency.GetOr("USD"))), now);
  }
}
