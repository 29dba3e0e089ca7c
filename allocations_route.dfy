/** The allocation handlers, src/app/api/allocations/route.ts: the listing
    joined with each allocation's resource, user and project, the creation,
    the change of the booked hours and the deletion. */
module AllocationsRoute {
  import opened Wrappers
  import opened Http
  import opened Docs
  import opened Calendar
  import opened Seqs
  import opened LumaListings
  import opened LumaStore
  import opened Joins

  // ------------------------------------------------------------------ GET

  /** The query of a `GET`: `weekNumber` and `year` are the integers the
      query strings parse to. Falsy values filter nothing, so an empty
      query lists every allocation. */
  function QueryFilter(resourceId: Option<string>, projectId: Option<string>,
                       weekNumber: Option<int>, year: Option<int>): AllocationFilter {
    AllocationFilter(resourceId, projectId, weekNumber, year)
  }

  /** The resource of a row: its id and its user, or null. */
  datatype ResourceRef = ResourceRef(id: string, user: Option<UserDoc>)

  datatype AllocationRow = AllocationRow(
    id: string, resourceId: string, projectId: string, weekNumber: int, year: int,
    allocatedHours: real, resource: Option<ResourceRef>, project: Option<ProjectDoc>)

  /** Lines 30-44 for one allocation: its own fields, its resource (null
      when no listed resource has the id) with that resource's user (null
      when no listed user has the resource's user id), and its project
      (null when unknown). */
  function Row(a: AllocationDoc, resources: seq<ResourceDoc>, users: seq<UserDoc>,
               projects: seq<ProjectDoc>): (r: AllocationRow)
    ensures r.id == a.id && r.resourceId == a.resourceId && r.projectId == a.projectId
    ensures r.weekNumber == a.weekNumber && r.year == a.year && r.allocatedHours == a.allocatedHours
    ensures r.resource.None? <==> forall i :: 0 <= i < |resources| ==> resources[i].id != a.resourceId
    ensures r.resource.Some? ==>
              r.resource.value.id == a.resourceId &&
              exists x :: x in resources && x.id == a.resourceId &&
                (r.resource.value.user.None? <==> forall i :: 0 <= i < |users| ==> users[i].id != x.userId) &&
                (r.resource.value.user.Some? ==> r.resource.value.user.value in users &&
                                                 r.resource.value.user.value.id == x.userId)
    ensures r.project.None? <==> forall i :: 0 <= i < |projects| ==> projects[i].id != a.projectId
    ensures r.project.Some? ==> r.project.value in projects && r.project.value.id == a.projectId
    ensures r.project.Some? ==> exists i :: 0 <= i < |projects| && projects[i] == r.project.value &&
                                            forall j :: i < j < |projects| ==> projects[j].id != a.projectId
    ensures r.resource.Some? ==>
              exists i :: 0 <= i < |resources| && resources[i].id == a.resourceId &&
                (forall j :: i < j < |resources| ==> resources[j].id != a.resourceId) &&
                r.resource.value.user == UserById(users, resources[i].userId)
  {
    var resource := ResourceById(resources, a.resourceId);
    var ref := if resource.Some? then Some(ResourceRef(resource.value.id, UserById(users, resource.value.userId)))
               else None;
    AllocationRow(a.id, a.resourceId, a.projectId, a.weekNumber, a.year, a.allocatedHours,
                  ref, ProjectById(projects, a.projectId))
  }

  /** The `GET` handler (lines 5-55): `found` is the allocation collection;
      one row per listed allocation, in the listing's order (latest year,
      then latest week, first). */
  function GetAllocationRows(found: seq<AllocationDoc>, resources: seq<ResourceDoc>, users: seq<UserDoc>,
                             projects: seq<ProjectDoc>, resourceId: Option<string>, projectId: Option<string>,
                             weekNumber: Option<int>, year: Option<int>): (rows: seq<AllocationRow>)
    ensures var listed := GetAllocations(found, QueryFilter(resourceId, projectId, weekNumber, year));
            |rows| == |listed| &&
            forall i :: 0 <= i < |rows| ==> rows[i] == Row(listed[i], resources, users, projects)
    ensures forall i, j :: 0 <= i < j < |rows| ==>
              rows[i].year > rows[j].year || (rows[i].year == rows[j].year && rows[i].weekNumber >= rows[j].weekNumber)
  {
    var listed := GetAllocations(found, QueryFilter(resourceId, projectId, weekNumber, year));
    seq(|listed|, i requires 0 <= i < |listed| => Row(listed[i], resources, users, projects))
  }

  /** A query without a truthy parameter lists every allocation, each as
      often as it is stored. */
  lemma EmptyQueryListsAll(found: seq<AllocationDoc>, resourceId: Option<string>, projectId: Option<string>,
                           weekNumber: Option<int>, year: Option<int>)
    requires !Truthy(resourceId) && !Truthy(projectId) && !TruthyInt(weekNumber) && !TruthyInt(year)
    ensures multiset(GetAllocations(found, QueryFilter(resourceId, projectId, weekNumber, year))) == multiset(found)
  {
    var f := QueryFilter(resourceId, projectId, weekNumber, year);
    FilterAll(found, (a: AllocationDoc) => MatchesAllocation(f, a));
  }

  // ----------------------------------------------------------------- POST

  /** The body of a `POST`. */
  datatype AllocationBody = AllocationBody(
    resourceId: string, projectId: string, weekNumber: int, year: int, allocatedHours: real)

  /** `allocation_${Date.now()}`. */
  function AllocationId(now: int): string {
    "allocation_" + IntToString(now)
  }

  /** The `POST` handler (lines 57-80): the allocation as given, whatever
      the resource's capacity, stamped with its creation time. */
  method PostAllocation(store: DocStore, body: AllocationBody, now: int) returns (doc: AllocationDoc)
    requires store.Valid()
    modifies store
    ensures store.Valid()
    ensures doc == AllocationDoc(AllocationId(now), body.resourceId, body.projectId, body.weekNumber,
                                 body.year, body.allocatedHours, now)
    ensures store.db == old(store.db).(allocations := old(store.db.allocations)[doc.id := doc])
  {
    doc := store.CreateAllocation(AllocationDoc(AllocationId(now), body.resourceId, body.projectId,
                                                body.weekNumber, body.year, body.allocatedHours, 0), now);
  }

  // ------------------------------------------------------------------ PUT

  /** The body of a `PUT`: both fields may be left out. */
  datatype HoursEdit = HoursEdit(id: Option<string>, allocatedHours: Option<real>)

  /** The `PUT` handler (lines 82-116): 400 without hours and 404 for a
      missing or unknown id, both with nothing written; otherwise the
      allocation is written back with the new hours and every other field
      as it was. The allocation is found in the full listing by its id,
      which is its store key. */
  method PutAllocationHours(store: DocStore, edit: HoursEdit) returns (reply: Reply<()>)
    requires store.Valid()
    modifies store
    ensures store.Valid()
    ensures edit.allocatedHours.None? ==>
              reply == Fail(400, "allocatedHours is required") && store.db == old(store.db)
    ensures edit.allocatedHours.Some? && (edit.id.None? || edit.id.value !in old(store.db.allocations)) ==>
              reply == Fail(404, "Allocation not found") && store.db == old(store.db)
    ensures edit.allocatedHours.Some? && edit.id.Some? && edit.id.value in old(store.db.allocations) ==>
              reply == Ok(()) &&
              store.db == old(store.db).(allocations := old(store.db.allocations)[edit.id.value :=
                            old(store.db.allocations)[edit.id.value].(allocatedHours := edit.allocatedHours.value)])
  {
    if edit.allocatedHours.None? {
      return Fail(400, "allocatedHours is required");
    }
    if edit.id.None? || edit.id.value !in store.db.allocations {
      return Fail(404, "Allocation not found");
    }
    var existing := store.db.allocations[edit.id.value];
    store.PutAllocation(existing.(allocatedHours := edit.allocatedHours.value));
    reply := Ok(());
  }

  // --------------------------------------------------------------- DELETE

  /** The `DELETE` handler (lines 118-140): 400 with nothing deleted for a
      missing or empty id; otherwise the allocation is gone, whether or not
      it was stored, and nothing else changes. */
  method DeleteAllocation(store: DocStore, id: Option<string>) returns (reply: Reply<()>)
    requires store.Valid()
    modifies store
    ensures store.Valid()
    ensures !Truthy(id) ==> reply == Fail(400, "ID is required") && store.db == old(store.db)
    ensures Truthy(id) ==>
              reply == Ok(()) &&
              store.db == old(store.db).(allocations := old(store.db.allocations) - {id.value})
  {
    if !Truthy(id) {
      return Fail(400, "ID is required");
    }
    KeyedDrop(store.db, Allocations, {id.value});
    store.DeleteDoc(Allocations, id.value);
    reply := Ok(());
  }
}
