/** The document store behind src/lib/luma-docs.ts and the operations of that
    file that change it.

    The store keeps one collection per name of `COLLECTIONS`, each a map from
    document id to document. `putDoc` replaces the document under an id,
    `deleteDoc` removes it, `getDoc` looks it up and `findDocs` lists every
    document of a collection in an order the store chooses (`Enumerate`).
    `Date.now()` is the parameter `now`. */
module LumaStore {
  import opened Wrappers
  import opened Docs
  import opened Seqs
  import opened LumaListings
  import opened TaskHierarchy
  import opened TaskTree

  /** The contents of the eight collections at one moment. */
  datatype Contents = Contents(
    users: map<string, UserDoc>, projects: map<string, ProjectDoc>,
    tasks: map<string, TaskDoc>, timeEntries: map<string, TimeEntryDoc>,
    taskTimeEntries: map<string, TaskTimeEntryDoc>, resources: map<string, ResourceDoc>,
    allocations: map<string, AllocationDoc>, approvals: map<string, ApprovalDoc>)
  {
    /** Every document is stored under its own id. */
    ghost predicate Keyed() {
      && (forall k :: k in users ==> users[k].id == k)
      && (forall k :: k in projects ==> projects[k].id == k)
      && (forall k :: k in tasks ==> tasks[k].id == k)
      && (forall k :: k in timeEntries ==> timeEntries[k].id == k)
      && (forall k :: k in taskTimeEntries ==> taskTimeEntries[k].id == k)
      && (forall k :: k in resources ==> resources[k].id == k)
      && (forall k :: k in allocations ==> allocations[k].id == k)
      && (forall k :: k in approvals ==> approvals[k].id == k)
    }

    /** The ids stored in one collection. */
    function Keys(c: Collection): set<string> {
      match c
      case Users => users.Keys
      case Projects => projects.Keys
      case Tasks => tasks.Keys
      case TimeEntries => timeEntries.Keys
      case TaskTimeEntries => taskTimeEntries.Keys
      case Resources => resources.Keys
      case Allocations => allocations.Keys
      case Approvals => approvals.Keys
    }

    /** The contents after the documents `ks` of collection `c` are deleted. */
    function Drop(c: Collection, ks: set<string>): (r: Contents)
      ensures r.Keys(c) == Keys(c) - ks
      ensures forall o :: o != c ==> r.Keys(o) == Keys(o)
    {
      match c
      case Users => this.(users := users - ks)
      case Projects => this.(projects := projects - ks)
      case Tasks => this.(tasks := tasks - ks)
      case TimeEntries => this.(timeEntries := timeEntries - ks)
      case TaskTimeEntries => this.(taskTimeEntries := taskTimeEntries - ks)
      case Resources => this.(resources := resources - ks)
      case Allocations => this.(allocations := allocations - ks)
      case Approvals => this.(approvals := approvals - ks)
    }
  }

  const EmptyContents := Contents(map[], map[], map[], map[], map[], map[], map[], map[])

  /** Two rounds of deletions in one collection delete their union. */
  lemma DropTwice(d: Contents, c: Collection, a: set<string>, b: set<string>)
    ensures d.Drop(c, a).Drop(c, b) == d.Drop(c, a + b)
  {
    match c
    case Users => assert d.users - a - b == d.users - (a + b);
    case Projects => assert d.projects - a - b == d.projects - (a + b);
    case Tasks => assert d.tasks - a - b == d.tasks - (a + b);
    case TimeEntries => assert d.timeEntries - a - b == d.timeEntries - (a + b);
    case TaskTimeEntries => assert d.taskTimeEntries - a - b == d.taskTimeEntries - (a + b);
    case Resources => assert d.resources - a - b == d.resources - (a + b);
    case Allocations => assert d.allocations - a - b == d.allocations - (a + b);
    case Approvals => assert d.approvals - a - b == d.approvals - (a + b);
  }

  /** Contents in which no collection holds an id are the empty store. */
  lemma NoKeysIsEmpty(d: Contents)
    requires forall c: Collection :: d.Keys(c) == {}
    ensures d == EmptyContents
  {
    assert d.Keys(Users) == {} && d.Keys(Projects) == {} && d.Keys(Tasks) == {};
    assert d.Keys(TimeEntries) == {} && d.Keys(TaskTimeEntries) == {};
    assert d.Keys(Resources) == {} && d.Keys(Allocations) == {} && d.Keys(Approvals) == {};
  }

  /** Deleting a set of documents keeps the others under their own ids. */
  lemma KeyedDrop(d: Contents, c: Collection, ks: set<string>)
    requires d.Keyed()
    ensures d.Drop(c, ks).Keyed()
  {
  }

  /** The hours a recomputation writes: the task named `taskId`, when it is
      stored, gets the sum of the hours of the entries `{ taskId }` selects. */
  ghost function Recomputed(T: map<string, TaskDoc>, E: map<string, TaskTimeEntryDoc>, taskId: string, now: int): map<string, TaskDoc> {
    if taskId in T then T[taskId := MergeTask(T[taskId], HoursPatch(SumValues(E, HoursFor(taskId))), now)] else T
  }

  /** Every stored task with a non-empty id carries, as `actualHours`, the
      hours of the task-time entries booked on it. */
  ghost predicate HoursConsistent(T: map<string, TaskDoc>, E: map<string, TaskTimeEntryDoc>) {
    forall t :: t in T && t != "" ==> T[t].actualHours == SumValues(E, HoursFor(t))
  }

  /** An entry booked on another task adds nothing to a task's hours. */
  lemma HoursForOther(t: string, e: TaskTimeEntryDoc)
    requires t != "" && e.taskId != t
    ensures HoursFor(t)(e) == 0.0
  {
    assert !MatchesTaskEntry(ByTask(t), e);
    assert HoursFor(t) == Weighted(ByTask(t), EntryHours);
  }

  /** `createTaskTimeEntry` under a fresh id keeps every task's hours. */
  lemma HoursAfterCreate(T: map<string, TaskDoc>, E: map<string, TaskTimeEntryDoc>, d: TaskTimeEntryDoc, now: int)
    requires HoursConsistent(T, E) && d.id !in E
    ensures HoursConsistent(Recomputed(T, E[d.id := d], d.taskId, now), E[d.id := d])
  {
    var E' := E[d.id := d];
    forall t | t in T && t != "" && t != d.taskId
      ensures SumValues(E', HoursFor(t)) == SumValues(E, HoursFor(t))
    {
      HoursForOther(t, d);
      SumValuesUpdate(E, HoursFor(t), d.id, d);
      assert E - {d.id} == E;
    }
  }

  /** `updateTaskTimeEntry` that keeps the entry's task keeps every task's
      hours. */
  lemma HoursAfterUpdate(T: map<string, TaskDoc>, E: map<string, TaskTimeEntryDoc>, d: TaskTimeEntryDoc, now: int)
    requires HoursConsistent(T, E) && d.id in E && E[d.id].taskId == d.taskId
    ensures HoursConsistent(Recomputed(T, E[d.id := d], d.taskId, now), E[d.id := d])
  {
    var E' := E[d.id := d];
    forall t | t in T && t != "" && t != d.taskId
      ensures SumValues(E', HoursFor(t)) == SumValues(E, HoursFor(t))
    {
      HoursForOther(t, d);
      HoursForOther(t, E[d.id]);
      SumValuesUpdate(E, HoursFor(t), d.id, d);
      SumValuesRemove(E, HoursFor(t), d.id);
    }
  }

  /** `deleteTaskTimeEntry` keeps every task's hours. */
  lemma HoursAfterDelete(T: map<string, TaskDoc>, E: map<string, TaskTimeEntryDoc>, k: string, now: int)
    requires HoursConsistent(T, E) && k in E
    ensures HoursConsistent(Recomputed(T, E - {k}, E[k].taskId, now), E - {k})
  {
    forall t | t in T && t != "" && t != E[k].taskId
      ensures SumValues(E - {k}, HoursFor(t)) == SumValues(E, HoursFor(t))
    {
      HoursForOther(t, E[k]);
      SumValuesRemove(E, HoursFor(t), k);
    }
  }

  /** The entries that the `{ taskId }` deletions of a cascade over the
      task ids `ids` remove: a falsy (empty) task id selects every entry. */
  predicate EntryOfTasks(ids: set<string>, e: TaskTimeEntryDoc) {
    "" in ids || e.taskId in ids
  }

  /** The entries of a set of tasks are exactly those that one of the
      tasks' `getTaskTimeEntries({ taskId })` lists. */
  lemma EntryOfTasksMatches(ids: set<string>, e: TaskTimeEntryDoc)
    ensures EntryOfTasks(ids, e) <==> exists x :: x in ids && MatchesTaskEntry(ByTask(x), e)
  {
    if "" in ids {
      assert MatchesTaskEntry(ByTask(""), e);
    } else if e.taskId in ids {
      assert MatchesTaskEntry(ByTask(e.taskId), e);
    }
  }

  /** The entries of `E` outside the cascade over the task ids `ids`. */
  ghost function EntriesOutside(E: map<string, TaskTimeEntryDoc>, ids: set<string>): map<string, TaskTimeEntryDoc> {
    map k | k in E && !EntryOfTasks(ids, E[k]) :: E[k]
  }

  /** Two cascades one after the other remove what one cascade over both
      sets of ids removes. */
  lemma EntriesOutsideTwice(E: map<string, TaskTimeEntryDoc>, A: set<string>, B: set<string>)
    ensures EntriesOutside(EntriesOutside(E, A), B) == EntriesOutside(E, A + B)
  {
  }

  /** One recursive call of the cascade, on a child `c`, made once the
      tasks below the children in `done` are gone: afterwards the tasks and
      entries below `done` and `c` are gone. */
  lemma CascadeStep(T: map<string, TaskDoc>, E: map<string, TaskTimeEntryDoc>, depth: string -> nat, done: set<string>, c: string)
    requires Acyclic(T, depth) && c in T
    ensures Acyclic(T - Below(T, depth, done), depth)
    ensures (T - Below(T, depth, done)) - Subtree(T - Below(T, depth, done), depth, c) == T - Below(T, depth, done + {c})
    ensures EntriesOutside(EntriesOutside(E, Below(T, depth, done)), Subtree(T - Below(T, depth, done), depth, c))
            == EntriesOutside(E, Below(T, depth, done + {c}))
  {
    StepBelow(T, depth, done, c);
    EntriesOutsideTwice(E, Below(T, depth, done), Subtree(T - Below(T, depth, done), depth, c));
  }

  /** The end of the cascade: once everything below the children of `id`
      is gone, removing `id` and its entries leaves the store without the
      subtree of `id` and without the entries booked on it. */
  lemma CascadeEnd(T: map<string, TaskDoc>, E: map<string, TaskTimeEntryDoc>, depth: string -> nat, id: string)
    requires Acyclic(T, depth)
    ensures (T - Below(T, depth, ChildrenOf(T, id))) - {id} == T - Subtree(T, depth, id)
    ensures EntriesOutside(EntriesOutside(E, Below(T, depth, ChildrenOf(T, id))), {id}) == EntriesOutside(E, Subtree(T, depth, id))
  {
    BelowChildren(T, depth, id);
    EntriesOutsideTwice(E, Subtree(T, depth, id) - {id}, {id});
    assert Subtree(T, depth, id) - {id} + {id} == Subtree(T, depth, id);
  }

  /** Deleting documents keeps every remaining one under its own id. */
  lemma KeyedWithout(c: Contents, ts: set<string>, es: set<string>)
    requires c.Keyed()
    ensures c.(tasks := c.tasks - ts, taskTimeEntries := c.taskTimeEntries - es).Keyed()
  {
  }

  /** The cascade only deletes documents, so the rest stay keyed. */
  lemma KeyedCascade(c: Contents, below: set<string>)
    requires c.Keyed()
    ensures c.(tasks := c.tasks - below, taskTimeEntries := EntriesOutside(c.taskTimeEntries, below)).Keyed()
  {
  }

  /** No two resources belong to the same user. */
  ghost predicate OneResourcePerUser(R: map<string, ResourceDoc>) {
    forall a, b :: a in R && b in R && R[a].userId == R[b].userId ==> a == b
  }

  /** Some resource belongs to the user. */
  ghost predicate HasResource(R: map<string, ResourceDoc>, userId: string) {
    exists k :: k in R && R[k].userId == userId
  }

  /** The hourly rate of a user's resource. A missing rate counts as zero
      here; in the source `entry.hours * resource.hourlyRate` is then
      `NaN`. */
  ghost function UserRate(R: map<string, ResourceDoc>, userId: string): real
    requires HasResource(R, userId)
  {
    var k :| k in R && R[k].userId == userId; OrZero(R[k].hourlyRate)
  }

  /** The cost `calculateProjectCosts` adds for one entry: its hours at its
      user's rate, and nothing for a user without a resource. */
  ghost function EntryCost(R: map<string, ResourceDoc>): TaskTimeEntryDoc -> real {
    (e: TaskTimeEntryDoc) => if HasResource(R, e.userId) then EntryHours(e) * UserRate(R, e.userId) else 0.0
  }

  /** An entry of a user with a resource costs its hours at that rate. */
  lemma CostAtRate(R: map<string, ResourceDoc>, e: TaskTimeEntryDoc, rate: real)
    requires HasResource(R, e.userId) && rate == UserRate(R, e.userId)
    ensures EntryCost(R)(e) == EntryHours(e) * rate
  {
  }

  /** The lookup of src/lib/luma-docs.ts:158-159 over a listing of the
      resources finds nothing exactly when the user has no resource, and
      otherwise finds a stored resource of the user. */
  lemma ResourceFound(R: map<string, ResourceDoc>, found: seq<(string, ResourceDoc)>, userId: string)
    requires Lists(R, found)
    ensures var r := GetResourceByUserId(DocsOf(found), userId);
      (r.None? <==> !HasResource(R, userId)) &&
      (r.Some? ==> exists k :: k in R && R[k] == r.value && r.value.userId == userId)
  {
    var docs := DocsOf(found);
    var r := GetResourceByUserId(docs, userId);
    if r.Some? {
      var i :| 0 <= i < |docs| && docs[i] == r.value;
      assert R[found[i].0] == r.value;
    }
    if k :| k in R && R[k].userId == userId {
      var i :| 0 <= i < |found| && found[i].0 == k;
      assert docs[i].userId == userId;
    }
  }

  /** With one resource per user, the resource found is the user's, so its
      rate is the user's rate. */
  lemma RateListed(R: map<string, ResourceDoc>, found: seq<(string, ResourceDoc)>, userId: string)
    requires Lists(R, found) && OneResourcePerUser(R)
    ensures var r := GetResourceByUserId(DocsOf(found), userId);
      r.Some? ==> HasResource(R, userId) && OrZero(r.value.hourlyRate) == UserRate(R, userId)
  {
    ResourceFound(R, found, userId);
  }

  /** The update `calculateProjectCosts` sends: the hours and cost, and,
      against a non-zero budget, the profit and the margin in percent;
      against a missing or zero budget both are written as `undefined`. */
  function CostPatch(budget: Option<real>, hours: real, cost: real): (u: ProjectPatch)
    ensures u.actualHours == Set(Some(hours)) && u.actualCost == Set(Some(cost))
    ensures TruthyReal(budget) ==>
              u.profit == Set(Some(budget.value - cost)) &&
              u.profitMargin.Set? && u.profitMargin.value.Some? &&
              u.profitMargin.value.value * budget.value == (budget.value - cost) * 100.0
    ensures !TruthyReal(budget) ==> u.profit == Set(None) && u.profitMargin == Set(None)
  {
    var profit: Option<real> := if TruthyReal(budget) then Some(budget.value - cost) else None;
    var margin: Option<real> := if TruthyReal(budget) then Some(profit.value / budget.value * 100.0) else None;
    NoProjectChange.(actualHours := Set(Some(hours)), actualCost := Set(Some(cost)),
                     profit := Set(profit), profitMargin := Set(margin))
  }

  /** The id of the task a hierarchy node holds. */
  function NodeId(n: TaskNode): string {
    n.doc.id
  }

  /** The ids of a list of entries. */
  function IdsOf(list: seq<TaskTimeEntryDoc>): set<string> {
    set e | e in list :: e.id
  }

  /** One more entry in a prefix adds its id. */
  lemma IdsOfStep(list: seq<TaskTimeEntryDoc>, i: nat)
    requires i < |list|
    ensures IdsOf(list[..i + 1]) == IdsOf(list[..i]) + {list[i].id}
  {
    assert list[..i + 1] == list[..i] + [list[i]];
  }

  /** Deleting one more listed entry removes one more id. */
  lemma RemoveOneMore(E: map<string, TaskTimeEntryDoc>, list: seq<TaskTimeEntryDoc>, i: nat)
    requires i < |list|
    ensures E - IdsOf(list[..i + 1]) == (E - IdsOf(list[..i])) - {list[i].id}
  {
    IdsOfStep(list, i);
  }

  /** A listing of a store whose entries sit under their own ids holds
      exactly the stored entries. */
  lemma EntriesListed(E: map<string, TaskTimeEntryDoc>, found: seq<(string, TaskTimeEntryDoc)>)
    requires (forall k :: k in E ==> E[k].id == k) && Lists(E, found)
    ensures forall e :: e in DocsOf(found) <==> e.id in E && E[e.id] == e
  {
    var docs := DocsOf(found);
    forall e ensures e in docs <==> e.id in E && E[e.id] == e {
      if e in docs {
        var n :| 0 <= n < |docs| && docs[n] == e;
        assert E[found[n].0] == e;
      }
      if e.id in E && E[e.id] == e {
        var n :| 0 <= n < |found| && found[n].0 == e.id;
        assert docs[n] == e;
      }
    }
  }

  /** A stored entry is listed by `getTaskTimeEntries(f)` exactly when the
      filter keeps it. */
  lemma ListedEntryKeys(E: map<string, TaskTimeEntryDoc>, found: seq<(string, TaskTimeEntryDoc)>, f: TaskEntryFilter)
    requires (forall k :: k in E ==> E[k].id == k) && Lists(E, found)
    ensures forall k :: k in E ==> (k in IdsOf(GetTaskTimeEntries(DocsOf(found), f)) <==> MatchesTaskEntry(f, E[k]))
  {
    var listed := GetTaskTimeEntries(DocsOf(found), f);
    EntriesListed(E, found);
    forall k | k in E ensures k in IdsOf(listed) <==> MatchesTaskEntry(f, E[k]) {
      if k in IdsOf(listed) {
        var e :| e in listed && e.id == k;
      }
      if MatchesTaskEntry(f, E[k]) {
        assert E[k] in listed;
      }
    }
  }

  /** The ids of the entries that `getTaskTimeEntries({ taskId })` lists are
      the stored ids of the entries of that task. */
  lemma ListedEntryIds(E: map<string, TaskTimeEntryDoc>, found: seq<(string, TaskTimeEntryDoc)>, taskId: string)
    requires (forall k :: k in E ==> E[k].id == k) && Lists(E, found)
    ensures E - IdsOf(GetTaskTimeEntries(DocsOf(found), ByTask(taskId))) == EntriesOutside(E, {taskId})
  {
    ListedEntryKeys(E, found, ByTask(taskId));
    var ids := IdsOf(GetTaskTimeEntries(DocsOf(found), ByTask(taskId)));
    var out := EntriesOutside(E, {taskId});
    forall k | k in E ensures k in ids <==> EntryOfTasks({taskId}, E[k]) {
      MatchesByTask(taskId, E[k]);
    }
    assert (E - ids).Keys == out.Keys;
    assert forall k :: k in out ==> (E - ids)[k] == out[k];
  }

  /** The `{ taskId }` filter keeps the entries booked on the task, or every
      entry when the id is empty. */
  lemma MatchesByTask(taskId: string, e: TaskTimeEntryDoc)
    ensures MatchesTaskEntry(ByTask(taskId), e) <==> EntryOfTasks({taskId}, e)
  {
  }

  class DocStore {
    var db: Contents

    /** Every document is stored under its own id, as every `putDoc` of the
        source writes it. */
    ghost predicate Valid()
      reads this
    {
      db.Keyed()
    }

    constructor ()
      ensures Valid() && db == EmptyContents
    {
      db := EmptyContents;
    }

    // ------------------------------------------------------------ users

    /** `createUser` (src/lib/luma-docs.ts:43-53). */
    method CreateUser(u: NewUser, now: int) returns (doc: UserDoc)
      requires Valid()
      modifies this
      ensures Valid()
      ensures doc == UserDoc(u.id, u.name, u.email, u.role, u.avatar, u.password,
                             u.isActive.GetOr(true), now, Some(now))
      ensures db == old(db).(users := old(db.users)[u.id := doc])
    {
      doc := UserDoc(u.id, u.name, u.email, u.role, u.avatar, u.password,
                     u.isActive.GetOr(true), now, Some(now));
      db := db.(users := db.users[u.id := doc]);
    }

    /** `updateUser` (src/lib/luma-docs.ts:55-66): `None` (`null`) and no
        change when the id is not stored. */
    method UpdateUser(id: string, u: UserPatch, now: int) returns (r: Option<UserDoc>)
      requires Valid()
      modifies this
      ensures Valid()
      ensures id !in old(db.users) ==> r.None? && db == old(db)
      ensures id in old(db.users) ==>
                r == Some(MergeUser(old(db.users)[id], u, now)) &&
                db == old(db).(users := old(db.users)[id := r.value])
    {
      if id !in db.users {
        return None;
      }
      var doc := MergeUser(db.users[id], u, now);
      db := db.(users := db.users[id := doc]);
      r := Some(doc);
    }

    // --------------------------------------------------------- projects

    /** `createProject` (src/lib/luma-docs.ts:116-125): the given fields with
        both timestamps set to `now`. */
    method CreateProject(p: ProjectDoc, now: int) returns (doc: ProjectDoc)
      requires Valid()
      modifies this
      ensures Valid()
      ensures doc == p.(createdAt := now, updatedAt := Some(now))
      ensures db == old(db).(projects := old(db.projects)[p.id := doc])
    {
      doc := p.(createdAt := now, updatedAt := Some(now));
      db := db.(projects := db.projects[p.id := doc]);
    }

    /** `updateProject` (src/lib/luma-docs.ts:127-138). */
    method UpdateProject(id: string, u: ProjectPatch, now: int) returns (r: Option<ProjectDoc>)
      requires Valid()
      modifies this
      ensures Valid()
      ensures id !in old(db.projects) ==> r.None? && db == old(db)
      ensures id in old(db.projects) ==>
                r == Some(MergeProject(old(db.projects)[id], u, now)) &&
                db == old(db).(projects := old(db.projects)[id := r.value])
    {
      if id !in db.projects {
        return None;
      }
      var doc := MergeProject(db.projects[id], u, now);
      db := db.(projects := db.projects[id := doc]);
      r := Some(doc);
    }

    // ------------------------------------------------------------ tasks

    /** `createTask` (src/lib/luma-docs.ts:251-260). */
    method CreateTask(t: TaskDoc, now: int) returns (doc: TaskDoc)
      requires Valid()
      modifies this
      ensures Valid()
      ensures doc == t.(createdAt := now, updatedAt := now)
      ensures db == old(db).(tasks := old(db.tasks)[t.id := doc])
    {
      doc := t.(createdAt := now, updatedAt := now);
      db := db.(tasks := db.tasks[t.id := doc]);
    }

    /** `updateTask` (src/lib/luma-docs.ts:262-273). */
    method UpdateTask(id: string, u: TaskPatch, now: int) returns (r: Option<TaskDoc>)
      requires Valid()
      modifies this
      ensures Valid()
      ensures id !in old(db.tasks) ==> r.None? && db == old(db)
      ensures id in old(db.tasks) ==>
                r == Some(MergeTask(old(db.tasks)[id], u, now)) &&
                db == old(db).(tasks := old(db.tasks)[id := r.value])
    {
      if id !in db.tasks {
        return None;
      }
      var doc := MergeTask(db.tasks[id], u, now);
      db := db.(tasks := db.tasks[id := doc]);
      r := Some(doc);
    }

    // ------------------------------------------------ task-time entries

    /** The recomputation that closes every change of a task-time entry
        (src/lib/luma-docs.ts:326-329): list the entries of the task, add
        their hours, write the sum as the task's `actualHours`. */
    method RecomputeTaskHours(taskId: string, now: int)
      requires Valid()
      modifies this
      ensures Valid()
      ensures db == old(db).(tasks := Recomputed(old(db.tasks), db.taskTimeEntries, taskId, now))
    {
      var found := Enumerate(db.taskTimeEntries);
      var taskEntries := GetTaskTimeEntries(DocsOf(found), ByTask(taskId));
      var totalHours := Sum(taskEntries, EntryHours);
      ListedHours(db.taskTimeEntries, found, ByTask(taskId));
      var _ := UpdateTask(taskId, HoursPatch(totalHours), now);
    }

    /** `createTaskTimeEntry` (src/lib/luma-docs.ts:319-332). */
    method CreateTaskTimeEntry(e: TaskTimeEntryDoc, now: int) returns (doc: TaskTimeEntryDoc)
      requires Valid()
      modifies this
      ensures Valid()
      ensures doc == e.(createdAt := now)
      ensures db.taskTimeEntries == old(db.taskTimeEntries)[e.id := doc]
      ensures db == old(db).(tasks := Recomputed(old(db.tasks), db.taskTimeEntries, e.taskId, now),
                                       taskTimeEntries := db.taskTimeEntries)
      ensures old(HoursConsistent(db.tasks, db.taskTimeEntries)) && e.id !in old(db.taskTimeEntries) ==>
                HoursConsistent(db.tasks, db.taskTimeEntries)
    {
      doc := e.(createdAt := now);
      db := db.(taskTimeEntries := db.taskTimeEntries[e.id := doc]);
      RecomputeTaskHours(e.taskId, now);
      if old(HoursConsistent(db.tasks, db.taskTimeEntries)) && e.id !in old(db.taskTimeEntries) {
        HoursAfterCreate(old(db.tasks), old(db.taskTimeEntries), doc, now);
      }
    }

    /** `updateTaskTimeEntry` (src/lib/luma-docs.ts:334-348): the hours are
        recomputed for the task the entry had before the update. */
    method UpdateTaskTimeEntry(id: string, u: TaskTimeEntryPatch, now: int) returns (r: Option<TaskTimeEntryDoc>)
      requires Valid()
      modifies this
      ensures Valid()
      ensures id !in old(db.taskTimeEntries) ==> r.None? && db == old(db)
      ensures id in old(db.taskTimeEntries) ==>
                r == Some(MergeTaskTimeEntry(old(db.taskTimeEntries)[id], u)) &&
                db.taskTimeEntries == old(db.taskTimeEntries)[id := r.value] &&
                db == old(db).(tasks := Recomputed(old(db.tasks), db.taskTimeEntries, old(db.taskTimeEntries)[id].taskId, now),
                                         taskTimeEntries := db.taskTimeEntries)
      ensures old(HoursConsistent(db.tasks, db.taskTimeEntries)) && u.taskId.Keep? ==> HoursConsistent(db.tasks, db.taskTimeEntries)
    {
      if id !in db.taskTimeEntries {
        return None;
      }
      var existing := db.taskTimeEntries[id];
      var doc := MergeTaskTimeEntry(existing, u);
      db := db.(taskTimeEntries := db.taskTimeEntries[id := doc]);
      RecomputeTaskHours(existing.taskId, now);
      r := Some(doc);
      if old(HoursConsistent(db.tasks, db.taskTimeEntries)) && u.taskId.Keep? {
        HoursAfterUpdate(old(db.tasks), old(db.taskTimeEntries), doc, now);
      }
    }

    /** `deleteTaskTimeEntry` (src/lib/luma-docs.ts:350-362): nothing happens
        when the id is not stored. */
    method DeleteTaskTimeEntry(id: string, now: int)
      requires Valid()
      modifies this
      ensures Valid()
      ensures id !in old(db.taskTimeEntries) ==> db == old(db)
      ensures id in old(db.taskTimeEntries) ==>
                db.taskTimeEntries == old(db.taskTimeEntries) - {id} &&
                db == old(db).(tasks := Recomputed(old(db.tasks), db.taskTimeEntries, old(db.taskTimeEntries)[id].taskId, now),
                                         taskTimeEntries := db.taskTimeEntries)
      ensures old(HoursConsistent(db.tasks, db.taskTimeEntries)) ==> HoursConsistent(db.tasks, db.taskTimeEntries)
    {
      if id in db.taskTimeEntries {
        var entry := db.taskTimeEntries[id];
        db := db.(taskTimeEntries := db.taskTimeEntries - {id});
        RecomputeTaskHours(entry.taskId, now);
        if old(HoursConsistent(db.tasks, db.taskTimeEntries)) {
          HoursAfterDelete(old(db.tasks), old(db.taskTimeEntries), id, now);
        }
      }
    }

    // -------------------------------------------------------- resources

    /** `createResource` (src/lib/luma-docs.ts:392-402): an empty or missing
        currency becomes `'USD'`. */
    method CreateResource(res: NewResource, now: int) returns (doc: ResourceDoc)
      requires Valid()
      modifies this
      ensures Valid()
      ensures doc.id == res.id && doc.userId == res.userId && doc.hourlyRate == res.hourlyRate
      ensures doc.capacity == res.capacity && doc.skills == res.skills && doc.monthlySalary == res.monthlySalary
      ensures doc.currency == if Truthy(res.currency) then res.currency.value else "USD"
      ensures doc.createdAt == now && doc.updatedAt == Some(now)
      ensures db == old(db).(resources := old(db.resources)[res.id := doc])
    {
      var currency := if Truthy(res.currency) then res.currency.value else "USD";
      doc := ResourceDoc(res.id, res.userId, res.capacity, res.skills, res.hourlyRate,
                         res.monthlySalary, currency, now, Some(now));
      db := db.(resources := db.resources[res.id := doc]);
    }

    /** `updateResource` (src/lib/luma-docs.ts:404-415). */
    method UpdateResource(id: string, u: ResourcePatch, now: int) returns (r: Option<ResourceDoc>)
      requires Valid()
      modifies this
      ensures Valid()
      ensures id !in old(db.resources) ==> r.None? && db == old(db)
      ensures id in old(db.resources) ==>
                r == Some(MergeResource(old(db.resources)[id], u, now)) &&
                db == old(db).(resources := old(db.resources)[id := r.value])
    {
      if id !in db.resources {
        return None;
      }
      var doc := MergeResource(db.resources[id], u, now);
      db := db.(resources := db.resources[id := doc]);
      r := Some(doc);
    }

    // ------------------------------------------------------ allocations

    /** `createAllocation` (src/lib/luma-docs.ts:440-444). */
    method CreateAllocation(a: AllocationDoc, now: int) returns (doc: AllocationDoc)
      requires Valid()
      modifies this
      ensures Valid()
      ensures doc == a.(createdAt := now)
      ensures db == old(db).(allocations := old(db.allocations)[a.id := doc])
    {
      doc := a.(createdAt := now);
      db := db.(allocations := db.allocations[a.id := doc]);
    }

    /** `luma.putDoc` on the allocation collection, under the document's
        own id, as the allocations handler writes an edited allocation. */
    method PutAllocation(doc: AllocationDoc)
      requires Valid()
      modifies this
      ensures Valid()
      ensures db == old(db).(allocations := old(db.allocations)[doc.id := doc])
    {
      db := db.(allocations := db.allocations[doc.id := doc]);
    }

    // -------------------------------------------------------- approvals

    /** `createApproval` (src/lib/luma-docs.ts:471-475). */
    method CreateApproval(a: ApprovalDoc, now: int) returns (doc: ApprovalDoc)
      requires Valid()
      modifies this
      ensures Valid()
      ensures doc == a.(createdAt := now)
      ensures db == old(db).(approvals := old(db.approvals)[a.id := doc])
    {
      doc := a.(createdAt := now);
      db := db.(approvals := db.approvals[a.id := doc]);
    }

    /** `updateApproval` (src/lib/luma-docs.ts:477-485): the approval is
        looked up by its store id among the listed documents; no timestamp
        is written. */
    method UpdateApproval(id: string, u: ApprovalPatch) returns (r: Option<ApprovalDoc>)
      requires Valid()
      modifies this
      ensures Valid()
      ensures id !in old(db.approvals) ==> r.None? && db == old(db)
      ensures id in old(db.approvals) ==>
                r == Some(MergeApproval(old(db.approvals)[id], u)) &&
                db == old(db).(approvals := old(db.approvals)[id := r.value])
    {
      if id !in db.approvals {
        return None;
      }
      var doc := MergeApproval(db.approvals[id], u);
      db := db.(approvals := db.approvals[id := doc]);
      r := Some(doc);
    }

    // ----------------------------------------------------- time entries

    /** `createTimeEntry` (src/lib/luma-docs.ts:524-529). */
    method CreateTimeEntry(e: TimeEntryDoc, now: int) returns (doc: TimeEntryDoc)
      requires Valid()
      modifies this
      ensures Valid()
      ensures doc == e.(createdAt := now, updatedAt := now)
      ensures db == old(db).(timeEntries := old(db.timeEntries)[e.id := doc])
    {
      doc := e.(createdAt := now, updatedAt := now);
      db := db.(timeEntries := db.timeEntries[e.id := doc]);
    }

    /** `updateTimeEntry` (src/lib/luma-docs.ts:531-539): looked up by store
        id among the listed documents; `updatedAt` is refreshed. */
    method UpdateTimeEntry(id: string, u: TimeEntryPatch, now: int) returns (r: Option<TimeEntryDoc>)
      requires Valid()
      modifies this
      ensures Valid()
      ensures id !in old(db.timeEntries) ==> r.None? && db == old(db)
      ensures id in old(db.timeEntries) ==>
                r == Some(MergeTimeEntry(old(db.timeEntries)[id], u, now)) &&
                db == old(db).(timeEntries := old(db.timeEntries)[id := r.value])
    {
      if id !in db.timeEntries {
        return None;
      }
      var doc := MergeTimeEntry(db.timeEntries[id], u, now);
      db := db.(timeEntries := db.timeEntries[id := doc]);
      r := Some(doc);
    }

    // ---------------------------------------------------------- deletion

    /** `luma.deleteDoc(collection, id)`: the document is gone, whether or
        not it was there, and nothing else changes. `deleteTimeEntry`
        (src/lib/luma-docs.ts:541-543) is this call on the time entries. */
    method DeleteDoc(c: Collection, id: string)
      modifies this
      ensures db == old(db).Drop(c, {id})
    {
      db := db.Drop(c, {id});
    }

    /** One collection of `clearAllData` (src/lib/luma-docs.ts:566-571):
        every listed id is deleted, which leaves the collection empty and
        the others as they were. */
    method ClearCollection(c: Collection)
      modifies this
      ensures db == old(db).Drop(c, old(db).Keys(c))
    {
      ghost var S0 := db;
      var ids := ListKeys(db.Keys(c));
      var i := 0;
      while i < |ids|
        invariant 0 <= i <= |ids|
        invariant db == S0.Drop(c, Elems(ids[..i]))
      {
        ElemsStep(ids, i);
        DropTwice(S0, c, Elems(ids[..i]), {ids[i]});
        DeleteDoc(c, ids[i]);
        i := i + 1;
      }
      assert ids[..i] == ids;
    }

    /** `clearAllData` (src/lib/luma-docs.ts:563-574): every collection of
        `COLLECTIONS` in turn. */
    method ClearAllData()
      modifies this
      ensures Valid() && db == EmptyContents
    {
      var i := 0;
      while i < |AllCollections|
        invariant 0 <= i <= |AllCollections|
        invariant forall j :: 0 <= j < i ==> db.Keys(AllCollections[j]) == {}
      {
        ClearCollection(AllCollections[i]);
        i := i + 1;
      }
      AllCollectionsListed();
      forall c: Collection ensures db.Keys(c) == {} {
        assert c in AllCollections;
        var j :| 0 <= j < |AllCollections| && AllCollections[j] == c;
      }
      NoKeysIsEmpty(db);
    }

    // ------------------------------------------------------ project costs

    /** One pass of the loop of `calculateProjectCosts`
        (src/lib/luma-docs.ts:158-162): the resources are listed afresh and
        the first one of the entry's user, if any, prices the hours. */
    method EntryCostOf(entry: TaskTimeEntryDoc) returns (cost: real)
      ensures OneResourcePerUser(db.resources) ==> cost == EntryCost(db.resources)(entry)
      ensures !HasResource(db.resources, entry.userId) ==> cost == 0.0
    {
      var resources := Enumerate(db.resources);
      var resource := GetResourceByUserId(DocsOf(resources), entry.userId);
      ResourceFound(db.resources, resources, entry.userId);
      cost := 0.0;
      if resource.Some? {
        var rate := OrZero(resource.value.hourlyRate);
        if OneResourcePerUser(db.resources) {
          RateListed(db.resources, resources, entry.userId);
          CostAtRate(db.resources, entry, rate);
        }
        cost := EntryHours(entry) * rate;
      } else {
        assert EntryCost(db.resources)(entry) == 0.0;
      }
    }

    /** `calculateProjectCosts` (src/lib/luma-docs.ts:141-179): the hours
        and the costed hours of the project's entries, the resource of each
        entry's user being looked up afresh for every entry; a stored
        project gets them, with profit and margin against its budget. */
    method CalculateProjectCosts(projectId: string, now: int) returns (totalHours: real, totalCost: real)
      requires Valid()
      modifies this
      ensures Valid()
      ensures totalHours == SumValues(old(db.taskTimeEntries), HoursMatching(ByProject(projectId)))
      ensures OneResourcePerUser(old(db.resources)) ==>
                totalCost == SumValues(old(db.taskTimeEntries), Weighted(ByProject(projectId), EntryCost(old(db.resources))))
      ensures projectId !in old(db.projects) ==> db == old(db)
      ensures projectId in old(db.projects) ==>
                db == old(db).(projects := old(db.projects)[projectId := MergeProject(old(db.projects)[projectId],
                                 CostPatch(old(db.projects)[projectId].budget, totalHours, totalCost), now)])
    {
      var found := Enumerate(db.taskTimeEntries);
      var timeEntries := GetTaskTimeEntries(DocsOf(found), ByProject(projectId));
      totalHours, totalCost := SumEntryCosts(timeEntries);
      ListedHours(db.taskTimeEntries, found, ByProject(projectId));
      ListedWeighted(db.taskTimeEntries, found, ByProject(projectId), EntryCost(db.resources));
      if projectId in db.projects {
        var project := db.projects[projectId];
        var _ := UpdateProject(projectId, CostPatch(project.budget, totalHours, totalCost), now);
      }
    }

    /** The loop of `calculateProjectCosts`: adds up the hours of the given
        entries and their cost at their users' current rates. */
    method SumEntryCosts(timeEntries: seq<TaskTimeEntryDoc>) returns (totalHours: real, totalCost: real)
      ensures totalHours == Sum(timeEntries, EntryHours)
      ensures OneResourcePerUser(db.resources) ==> totalCost == Sum(timeEntries, EntryCost(db.resources))
    {
      totalHours, totalCost := 0.0, 0.0;
      var i := 0;
      while i < |timeEntries|
        invariant 0 <= i <= |timeEntries|
        invariant totalHours == Sum(timeEntries[..i], EntryHours)
        invariant OneResourcePerUser(db.resources) ==> totalCost == Sum(timeEntries[..i], EntryCost(db.resources))
      {
        var entry := timeEntries[i];
        assert timeEntries[..i + 1] == timeEntries[..i] + [entry];
        SumSnoc(timeEntries[..i], entry, EntryHours);
        SumSnoc(timeEntries[..i], entry, EntryCost(db.resources));
        totalHours := totalHours + EntryHours(entry);
        var cost := EntryCostOf(entry);
        totalCost := totalCost + cost;
        i := i + 1;
      }
      assert timeEntries[..i] == timeEntries;
    }

    /** Deletes the listed entries, one `deleteDoc` each. */
    method DeleteListedEntries(list: seq<TaskTimeEntryDoc>)
      modifies this
      ensures db == old(db).(taskTimeEntries := old(db.taskTimeEntries) - IdsOf(list))
    {
      ghost var S0, E0 := db, db.taskTimeEntries;
      var i := 0;
      while i < |list|
        invariant 0 <= i <= |list|
        invariant db == S0.(taskTimeEntries := E0 - IdsOf(list[..i]))
      {
        ghost var before := db;
        DeleteDoc(TaskTimeEntries, list[i].id);
        assert db == before.(taskTimeEntries := before.taskTimeEntries - {list[i].id});
        RemoveOneMore(E0, list, i);
        i := i + 1;
      }
      assert list[..i] == list;
    }

    /** The subtasks of `id`, as the hierarchy listing with the filter
        `{parentId: id}` returns them: exactly the tasks whose parent is `id`. */
    method ListSubtasks(id: string, ghost depth: string -> nat) returns (subtasks: seq<TaskNode>)
      requires Valid() && Acyclic(db.tasks, depth)
      ensures Elems(MapSeq(subtasks, NodeId)) == ChildrenOf(db.tasks, id)
    {
      var found := Enumerate(db.tasks);
      ghost var nodes;
      subtasks, nodes := GetTasks(DocsOf(found), ChildFilter(id));
      ChildIds(db.tasks, depth, found, id);
      assert MapSeq(subtasks, NodeId) == MapSeq(MapSeq(subtasks, NodeDoc), TaskId);
    }

    /** One pass of the loop in `DeleteTask`: the cascade on the child `c`
        of `id`, made once everything below the children in `done` is gone. */
    method DeleteChild(id: string, c: string, ghost depth: string -> nat, ghost T0: map<string, TaskDoc>,
                       ghost E0: map<string, TaskTimeEntryDoc>, ghost S0: Contents, ghost done: set<string>)
      requires S0.Keyed() && S0.tasks == T0 && S0.taskTimeEntries == E0
      requires Acyclic(T0, depth) && c in ChildrenOf(T0, id)
      requires db == S0.(tasks := T0 - Below(T0, depth, done),
                              taskTimeEntries := EntriesOutside(E0, Below(T0, depth, done)))
      modifies this
      decreases Subtree(T0, depth, id), 0
      ensures db == S0.(tasks := T0 - Below(T0, depth, done + {c}),
                             taskTimeEntries := EntriesOutside(E0, Below(T0, depth, done + {c})))
    {
      KeyedCascade(S0, Below(T0, depth, done));
      CascadeStep(T0, E0, depth, done, c);
      SubtreeShrinks(T0, db.tasks, depth, id, c);
      DeleteTask(c, depth);
    }

    /** `deleteTask` (src/lib/luma-docs.ts:275-289): the children of the task
        first, each with its own subtree, then the entries of the task, then
        the task. The links must have no cycle (`depth`), or the source
        never returns. Together the calls remove the subtree of `id` and
        every entry booked on a task of it. */
    method DeleteTask(id: string, ghost depth: string -> nat)
      requires Valid() && Acyclic(db.tasks, depth)
      modifies this
      decreases Subtree(db.tasks, depth, id), 1
      ensures Valid()
      ensures db == old(db).(tasks := old(db.tasks) - old(Subtree(db.tasks, depth, id)),
                                       taskTimeEntries := EntriesOutside(old(db.taskTimeEntries), old(Subtree(db.tasks, depth, id))))
    {
      ghost var T0, E0, S0 := db.tasks, db.taskTimeEntries, db;
      var subtasks := ListSubtasks(id, depth);
      ghost var ids := MapSeq(subtasks, NodeId);
      ghost var done: set<string> := {};
      var i := 0;
      while i < |subtasks|
        invariant 0 <= i <= |subtasks|
        invariant done == Elems(ids[..i])
        invariant db == S0.(tasks := T0 - Below(T0, depth, done),
                            taskTimeEntries := EntriesOutside(E0, Below(T0, depth, done)))
      {
        var c := subtasks[i].doc.id;
        assert c == ids[i] && c in Elems(ids);
        ElemsStep(ids, i);
        DeleteChild(id, c, depth, T0, E0, S0, done);
        done := done + {c};
        i := i + 1;
      }
      assert ids[..i] == ids;
      CascadeEnd(T0, E0, depth, id);
      KeyedCascade(S0, Below(T0, depth, done));
      DeleteOwnEntries(id);
    }

    /** The end of `deleteTask`: the entries listed with `{taskId: id}` are
        deleted one by one, then the task itself. */
    method DeleteOwnEntries(id: string)
      requires Valid()
      modifies this
      ensures Valid()
      ensures db == old(db).(tasks := old(db.tasks) - {id},
                                       taskTimeEntries := EntriesOutside(old(db.taskTimeEntries), {id}))
    {
      var entryList := Enumerate(db.taskTimeEntries);
      var timeEntries := GetTaskTimeEntries(DocsOf(entryList), ByTask(id));
      ListedEntryIds(db.taskTimeEntries, entryList, id);
      KeyedWithout(db, {id}, IdsOf(timeEntries));
      DeleteListedEntries(timeEntries);
      DeleteDoc(Tasks, id);
    }

  }
}
