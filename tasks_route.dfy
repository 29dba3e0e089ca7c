/** The task handlers, src/app/api/tasks/route.ts: one task by id, the
    hierarchical and the flat listings with the project and assignee names
    added, the creation defaults, the update and the cascading delete. */
module TasksRoute {
  import opened Wrappers
  import opened Http
  import opened Docs
  import opened Seqs
  import opened Calendar
  import opened LumaListings
  import opened TaskHierarchy
  import opened TaskTree
  import opened LumaStore
  import opened Joins

  // ------------------------------------------------------------ enrichment

  /** A task as the handler reports it: the task, the subtasks the
      hierarchy builder attached to it (none on the flat listing), and the
      names of its project and assignee, absent when the task has none. */
  datatype EnrichedTask = EnrichedTask(task: TaskDoc, subtasks: seq<TaskNode>,
                                       project: Option<string>, assignee: Option<string>)

  function TaskOf(e: EnrichedTask): TaskDoc {
    e.task
  }

  /** `map.get(id)?.name || ''`: the name of the document with the id, or
      empty when there is none. */
  function ProjectNameOr(projects: seq<ProjectDoc>, id: string): (n: string)
    ensures ProjectById(projects, id).None? ==> n == ""
    ensures ProjectById(projects, id).Some? ==> n == ProjectById(projects, id).value.name
  {
    var p := ProjectById(projects, id);
    if p.Some? then p.value.name else ""
  }

  function UserNameOr(users: seq<UserDoc>, id: string): (n: string)
    ensures UserById(users, id).None? ==> n == ""
    ensures UserById(users, id).Some? ==> n == UserById(users, id).value.name
  {
    var u := UserById(users, id);
    if u.Some? then u.value.name else ""
  }

  /** Lines 34-38 and 60-64: a project name only for a task with a project
      id and an assignee name only for a task with an assignee, each empty
      when the id names nobody. */
  function Enrich(t: TaskDoc, subtasks: seq<TaskNode>, projects: seq<ProjectDoc>, users: seq<UserDoc>)
    : (r: EnrichedTask)
    ensures r.task == t && r.subtasks == subtasks
    ensures r.project.Some? <==> t.projectId != ""
    ensures r.assignee.Some? <==> Truthy(t.assigneeId)
    ensures r.project.Some? ==>
              (r.project.value == "" <== forall i :: 0 <= i < |projects| ==> projects[i].id != t.projectId)
    ensures r.assignee.Some? ==>
              (r.assignee.value == "" <== forall i :: 0 <= i < |users| ==> users[i].id != t.assigneeId.value)
    ensures r.project.Some? ==> forall p :: p in projects && p.id == t.projectId && p.name != "" ==>
              exists q :: q in projects && q.id == t.projectId && r.project.value == q.name
    ensures r.project.Some? ==> r.project.value == ProjectNameOr(projects, t.projectId)
    ensures r.assignee.Some? ==> r.assignee.value == UserNameOr(users, t.assigneeId.value)
  {
    EnrichedTask(t, subtasks,
                 if t.projectId != "" then Some(ProjectNameOr(projects, t.projectId)) else None,
                 if Truthy(t.assigneeId) then Some(UserNameOr(users, t.assigneeId.value)) else None)
  }

  // ------------------------------------------------------------------ GET

  /** The query of a `GET`: each parameter absent (`None`) or its text. */
  datatype TaskQuery = TaskQuery(id: Option<string>, projectId: Option<string>, assigneeId: Option<string>,
                                 parentId: Option<string>, includeHierarchy: bool)

  /** The filter built at lines 43-48: the non-empty project and assignee
      ids, and the parent id whenever the parameter is there, the text
      `null` standing for tasks without a parent. */
  function QueryFilter(q: TaskQuery): (f: TaskFilter)
    ensures f.projectId.Some? <==> Truthy(q.projectId)
    ensures f.projectId.Some? ==> f.projectId == q.projectId
    ensures f.assigneeId.Some? <==> Truthy(q.assigneeId)
    ensures f.assigneeId.Some? ==> f.assigneeId == q.assigneeId
    ensures f.parentId.None? <==> q.parentId.None?
    ensures q.parentId == Some("null") ==> f.parentId == Some(None)
    ensures q.parentId.Some? && q.parentId != Some("null") ==> f.parentId == Some(q.parentId)
  {
    TaskFilter(if Truthy(q.projectId) then q.projectId else None,
               if Truthy(q.assigneeId) then q.assigneeId else None,
               if q.parentId.None? then None
               else if q.parentId.value == "null" then Some(None)
               else Some(q.parentId))
  }

  /** Line 51: the hierarchy is built when asked for or when no filter
      field was set. */
  predicate UseHierarchy(q: TaskQuery) {
    q.includeHierarchy || QueryFilter(q) == NoTaskFilter
  }

  /** Line 52: the filter reaches `getTasks` only when it has a parent id,
      so without one the project and assignee ids are ignored. */
  function HierarchyFilter(q: TaskQuery): (f: TaskFilter)
    ensures q.parentId.None? ==> f == NoTaskFilter
    ensures q.parentId.Some? ==> f == QueryFilter(q)
  {
    if QueryFilter(q).parentId.Some? then QueryFilter(q) else NoTaskFilter
  }

  /** Lines 54-56: every task by start date, then the non-empty project and
      assignee ids as filters; the parent id plays no part. */
  function FlatTasks(found: seq<TaskDoc>, q: TaskQuery): (r: seq<TaskDoc>)
    ensures forall t :: t in r <==> (t in found &&
              (Truthy(q.projectId) ==> t.projectId == q.projectId.value) &&
              (Truthy(q.assigneeId) ==> t.assigneeId == q.assigneeId))
    ensures forall i, j :: 0 <= i < j < |r| ==> Ordinal(r[i].startDate) <= Ordinal(r[j].startDate)
  {
    var all := GetAllTasksFlat(found);
    var f := TaskFilter(QueryFilter(q).projectId, QueryFilter(q).assigneeId, None);
    var r := Filter(all, (t: TaskDoc) => MatchesTask(f, t));
    FilterAscending(all, StartOrdinal, (t: TaskDoc) => MatchesTask(f, t));
    SameMembers(all, found);
    r
  }

  function StartOrdinal(t: TaskDoc): int {
    Ordinal(t.startDate)
  }

  /** Two sequences with the same multiset hold the same values. */
  lemma SameMembers(a: seq<TaskDoc>, b: seq<TaskDoc>)
    requires multiset(a) == multiset(b)
    ensures forall t :: t in a <==> t in b
  {
    forall t ensures t in a <==> t in b {
      assert t in a <==> t in multiset(a);
      assert t in b <==> t in multiset(b);
    }
  }

  /** What a `GET` answers with: one task, or a listing. */
  datatype TasksData = One(one: EnrichedTask) | Many(many: seq<EnrichedTask>)

  /** The `GET` handler (lines 14-66): `found` is the task collection as
      listed, `projects` and `users` the listings used for the names. On
      the hierarchy, `nodes` are the task objects `getTasks` linked, one
      per filtered task; each root reported carries the subtasks of its
      node, which hold the nodes of its children in fetched order. */
  method GetTasksHandler(found: seq<TaskDoc>, projects: seq<ProjectDoc>, users: seq<UserDoc>, q: TaskQuery)
    returns (reply: Reply<TasksData>, ghost nodes: seq<TaskNode>)
    ensures Truthy(q.id) && TaskById(found, q.id.value).None? ==> reply == Fail(404, "Task not found")
    ensures Truthy(q.id) && TaskById(found, q.id.value).Some? ==>
              reply == Ok(One(Enrich(TaskById(found, q.id.value).value, [], projects, users)))
    ensures !Truthy(q.id) && UseHierarchy(q) ==>
              reply.Ok? && reply.data.Many? &&
              MapSeq(reply.data.many, TaskOf) == GetTasksRoots(found, HierarchyFilter(q)) &&
              var tasks := FilterTasks(found, HierarchyFilter(q));
              |nodes| == |tasks| &&
              (forall k :: 0 <= k < |nodes| ==>
                 nodes[k].doc == tasks[k] && nodes[k].subtasks == NodesAt(nodes, ChildIndices(tasks, k, |nodes|))) &&
              forall i :: 0 <= i < |reply.data.many| ==> reply.data.many[i] in EnrichNodes(nodes, projects, users)
    ensures !Truthy(q.id) && !UseHierarchy(q) ==>
              reply.Ok? && reply.data.Many? &&
              MapSeq(reply.data.many, TaskOf) == FlatTasks(found, q) &&
              forall i :: 0 <= i < |reply.data.many| ==>
                reply.data.many[i] == Enrich(reply.data.many[i].task, [], projects, users)
  {
    nodes := [];
    if Truthy(q.id) {
      var task := TaskById(found, q.id.value);
      if task.None? {
        return Fail(404, "Task not found"), nodes;
      }
      return Ok(One(Enrich(task.value, [], projects, users))), nodes;
    }
    var enriched: seq<EnrichedTask>;
    if UseHierarchy(q) {
      enriched, nodes := EnrichedHierarchy(found, projects, users, HierarchyFilter(q));
    } else {
      var tasks := FlatTasks(found, q);
      enriched := MapSeq(tasks, (t: TaskDoc) => Enrich(t, [], projects, users));
      assert MapSeq(enriched, TaskOf) == tasks;
    }
    reply := Ok(Many(enriched));
  }

  /** Lines 51-64: the roots `getTasks` builds, each with its project and
      assignee names and the subtasks of its node. */
  method EnrichedHierarchy(found: seq<TaskDoc>, projects: seq<ProjectDoc>, users: seq<UserDoc>, f: TaskFilter)
    returns (enriched: seq<EnrichedTask>, ghost nodes: seq<TaskNode>)
    ensures MapSeq(enriched, TaskOf) == GetTasksRoots(found, f)
    ensures var tasks := FilterTasks(found, f);
            |nodes| == |tasks| &&
            (forall k :: 0 <= k < |nodes| ==>
               nodes[k].doc == tasks[k] && nodes[k].subtasks == NodesAt(nodes, ChildIndices(tasks, k, |nodes|))) &&
            forall i :: 0 <= i < |enriched| ==> enriched[i] in EnrichNodes(nodes, projects, users)
  {
    var roots;
    roots, nodes := GetTasks(found, f);
    enriched := EnrichNodes(roots, projects, users);
    EnrichedDocs(roots, enriched, projects, users);
    RootsAmongNodes(nodes, roots, enriched, projects, users);
  }

  /** Each node enriched, with its own subtasks. */
  function EnrichNodes(roots: seq<TaskNode>, projects: seq<ProjectDoc>, users: seq<UserDoc>): (r: seq<EnrichedTask>)
    reads roots
    ensures |r| == |roots|
    ensures forall i :: 0 <= i < |r| ==> r[i] == Enrich(roots[i].doc, roots[i].subtasks, projects, users)
  {
    seq(|roots|, k requires 0 <= k < |roots| reads roots => Enrich(roots[k].doc, roots[k].subtasks, projects, users))
  }

  /** The enriched roots report the roots' documents. */
  lemma EnrichedDocs(roots: seq<TaskNode>, enriched: seq<EnrichedTask>, projects: seq<ProjectDoc>, users: seq<UserDoc>)
    requires |enriched| == |roots|
    requires forall i :: 0 <= i < |enriched| ==> enriched[i] == Enrich(roots[i].doc, roots[i].subtasks, projects, users)
    ensures MapSeq(enriched, TaskOf) == MapSeq(roots, NodeDoc)
  {
  }

  /** Each enriched root is the enrichment of one of the linked nodes. */
  lemma RootsAmongNodes(nodes: seq<TaskNode>, roots: seq<TaskNode>, enriched: seq<EnrichedTask>,
                        projects: seq<ProjectDoc>, users: seq<UserDoc>)
    requires forall i :: 0 <= i < |roots| ==> roots[i] in nodes
    requires |enriched| == |roots|
    requires forall i :: 0 <= i < |enriched| ==> enriched[i] == Enrich(roots[i].doc, roots[i].subtasks, projects, users)
    ensures forall i :: 0 <= i < |enriched| ==> enriched[i] in EnrichNodes(nodes, projects, users)
  {
    var all := EnrichNodes(nodes, projects, users);
    forall i | 0 <= i < |enriched| ensures enriched[i] in all {
      var k :| 0 <= k < |nodes| && nodes[k] == roots[i];
      assert all[k] == enriched[i];
    }
  }

  // ----------------------------------------------------------------- POST

  /** The body of a `POST`: the fields with defaults may be left out, and
      a missing or empty date is `None` (`startDate || today` then takes
      today's date). A date is a calendar date here; a date string that is
      not one is stored unchanged by the source and is not modelled. */
  datatype TaskBody = TaskBody(
    projectId: string, parentId: Option<string>, name: string, description: Option<string>,
    assigneeId: Option<string>, startDate: Option<CalendarDate>, endDate: Option<CalendarDate>,
    estimatedHours: Option<real>, priority: Option<string>, status: Option<string>,
    dependencies: Option<seq<string>>, isEpic: Option<bool>, isMilestone: Option<bool>)

  /** `task_${Date.now()}`. */
  function TaskId(now: int): string {
    "task_" + IntToString(now)
  }

  /** `x || undefined`: an empty id is no id. */
  function NonEmpty(x: Option<string>): (r: Option<string>)
    ensures r.Some? <==> Truthy(x)
    ensures r.Some? ==> r == x
  {
    if Truthy(x) then x else None
  }

  /** The `POST` handler (lines 73-113): no hours booked and no progress,
      0 estimated hours, priority `medium`, status `todo`, no dependencies,
      neither epic nor milestone unless given; an empty parent or assignee
      is none, and a missing date is `today`. */
  method PostTask(store: DocStore, body: TaskBody, today: CalendarDate, now: int) returns (task: TaskDoc)
    requires store.Valid()
    modifies store
    ensures store.Valid()
    ensures task.id == TaskId(now) && task.projectId == body.projectId && task.name == body.name
    ensures task.description == body.description
    ensures task.parentId == NonEmpty(body.parentId) && task.assigneeId == NonEmpty(body.assigneeId)
    ensures task.startDate == body.startDate.GetOr(today) && task.endDate == body.endDate.GetOr(today)
    ensures task.actualHours == 0.0 && task.progress == 0.0
    ensures task.estimatedHours == body.estimatedHours.GetOr(0.0)
    ensures task.priority == body.priority.GetOr("medium") && task.status == body.status.GetOr("todo")
    ensures task.dependencies == body.dependencies.GetOr([])
    ensures task.isEpic == Some(body.isEpic.GetOr(false)) && task.isMilestone == Some(body.isMilestone.GetOr(false))
    ensures task.createdAt == now && task.updatedAt == now
    ensures store.db == old(store.db).(tasks := old(store.db.tasks)[task.id := task])
  {
    var t := TaskDoc(TaskId(now), body.projectId, NonEmpty(body.parentId), body.name, body.description,
                     NonEmpty(body.assigneeId), body.startDate.GetOr(today), body.endDate.GetOr(today),
                     body.estimatedHours.GetOr(0.0), 0.0, 0.0, body.priority.GetOr("medium"),
                     body.status.GetOr("todo"), body.dependencies.GetOr([]),
                     Some(body.isEpic.GetOr(false)), Some(body.isMilestone.GetOr(false)), 0, 0);
    task := store.CreateTask(t, now);
  }

  // ------------------------------------------------------------------ PUT

  /** The `PUT` handler (lines 123-144): 400 for a missing or empty id, 404
      for an unknown one, both with nothing written; otherwise the merged
      task. */
  method PutTask(store: DocStore, id: Option<string>, updates: TaskPatch, now: int) returns (reply: Reply<TaskDoc>)
    requires store.Valid()
    modifies store
    ensures store.Valid()
    ensures !Truthy(id) ==> reply == Fail(400, "ID is required") && store.db == old(store.db)
    ensures Truthy(id) && id.value !in old(store.db.tasks) ==>
              reply == Fail(404, "Task not found") && store.db == old(store.db)
    ensures Truthy(id) && id.value in old(store.db.tasks) ==>
              reply == Ok(MergeTask(old(store.db.tasks)[id.value], updates, now)) &&
              store.db == old(store.db).(tasks := old(store.db.tasks)[id.value := reply.data])
  {
    if !Truthy(id) {
      return Fail(400, "ID is required");
    }
    var task := store.UpdateTask(id.value, updates, now);
    if task.None? {
      return Fail(404, "Task not found");
    }
    reply := Ok(task.value);
  }

  // --------------------------------------------------------------- DELETE

  /** The `DELETE` handler (lines 154-168): 400 with nothing deleted for a
      missing or empty id; otherwise the task, its descendants and every
      entry booked on them are gone. */
  method DeleteTaskHandler(store: DocStore, id: Option<string>, ghost depth: string -> nat) returns (reply: Reply<()>)
    requires store.Valid() && Acyclic(store.db.tasks, depth)
    modifies store
    ensures store.Valid()
    ensures !Truthy(id) ==> reply == Fail(400, "ID is required") && store.db == old(store.db)
    ensures Truthy(id) ==>
              var gone := old(Subtree(store.db.tasks, depth, id.value));
              reply == Ok(()) &&
              store.db == old(store.db).(tasks := old(store.db.tasks) - gone,
                                         taskTimeEntries := EntriesOutside(old(store.db.taskTimeEntries), gone))
  {
    if !Truthy(id) {
      return Fail(400, "ID is required");
    }
    store.DeleteTask(id.value, depth);
    reply := Ok(());
  }
}
