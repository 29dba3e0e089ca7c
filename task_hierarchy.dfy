/** The hierarchy that `getTasks` builds in place (src/lib/luma-docs.ts:222-238).

    Every fetched task object goes, in list order, either onto the
    `subtasks` of the object its `parentId` names (when that id is truthy and
    among the filtered tasks) or onto the list of roots; the roots are then
    sorted by start date. The objects are `TaskNode`s here; which node a
    task lands under is described first on indices, by pure functions. */
module TaskHierarchy {
  import opened Wrappers
  import opened Calendar
  import opened Docs
  import opened Seqs
  import opened Sorting
  import opened LumaListings

  /** `new Map(tasks.map(t => [t.id, t])).get(id)`: a later task with the
      same id replaces an earlier one, so the last one is found. */
  function LastWithId(tasks: seq<TaskDoc>, id: string): (r: Option<nat>)
    ensures r.None? <==> forall i :: 0 <= i < |tasks| ==> tasks[i].id != id
    ensures r.Some? ==>
              r.value < |tasks| && tasks[r.value].id == id && forall j :: r.value < j < |tasks| ==> tasks[j].id != id
    decreases |tasks|
  {
    if tasks == [] then None
    else if tasks[|tasks| - 1].id == id then Some(|tasks| - 1)
    else
      var r := LastWithId(tasks[..|tasks| - 1], id);
      assert forall i :: 0 <= i < |tasks| - 1 ==> tasks[..|tasks| - 1][i] == tasks[i];
      r
  }

  /** The index of the task whose `subtasks` receive task `j`, or `None`
      when task `j` becomes a root (src/lib/luma-docs.ts:229). */
  function ParentIndex(tasks: seq<TaskDoc>, j: nat): (r: Option<nat>)
    requires j < |tasks|
    ensures r.Some? ==>
              r.value < |tasks| && Truthy(tasks[j].parentId) && tasks[r.value].id == tasks[j].parentId.value
    ensures r.None? <==>
              (!Truthy(tasks[j].parentId) || forall i :: 0 <= i < |tasks| ==> tasks[i].id != tasks[j].parentId.value)
  {
    if Truthy(tasks[j].parentId) then LastWithId(tasks, tasks[j].parentId.value) else None
  }

  /** The indices below `n` of the tasks pushed onto the subtasks of task
      `k`, in push order. */
  function ChildIndices(tasks: seq<TaskDoc>, k: nat, n: nat): (r: seq<nat>)
    requires n <= |tasks|
    ensures forall i :: 0 <= i < |r| ==> r[i] < n
    decreases n
  {
    if n == 0 then []
    else ChildIndices(tasks, k, n - 1) + (if ParentIndex(tasks, n - 1) == Some(k) then [n - 1] else [])
  }

  /** The indices below `n` of the tasks pushed onto the roots, in order. */
  function RootIndices(tasks: seq<TaskDoc>, n: nat): (r: seq<nat>)
    requires n <= |tasks|
    ensures forall i :: 0 <= i < |r| ==> r[i] < n
    decreases n
  {
    if n == 0 then []
    else RootIndices(tasks, n - 1) + (if ParentIndex(tasks, n - 1).None? then [n - 1] else [])
  }

  lemma ChildIndicesStep(tasks: seq<TaskDoc>, k: nat, j: nat)
    requires j < |tasks|
    ensures ParentIndex(tasks, j) == Some(k) ==> ChildIndices(tasks, k, j + 1) == ChildIndices(tasks, k, j) + [j]
    ensures ParentIndex(tasks, j) != Some(k) ==> ChildIndices(tasks, k, j + 1) == ChildIndices(tasks, k, j)
  {
    assert ChildIndices(tasks, k, j) + [] == ChildIndices(tasks, k, j);
  }

  lemma RootIndicesStep(tasks: seq<TaskDoc>, j: nat)
    requires j < |tasks|
    ensures ParentIndex(tasks, j).None? ==> RootIndices(tasks, j + 1) == RootIndices(tasks, j) + [j]
    ensures ParentIndex(tasks, j).Some? ==> RootIndices(tasks, j + 1) == RootIndices(tasks, j)
  {
    assert RootIndices(tasks, j) + [] == RootIndices(tasks, j);
  }

  /** A task is pushed onto the subtasks of task `k` exactly when its
      parent id names task `k`. */
  lemma {:induction false} ChildIndicesMember(tasks: seq<TaskDoc>, k: nat, n: nat, j: nat)
    requires j < n <= |tasks|
    ensures j in ChildIndices(tasks, k, n) <==> ParentIndex(tasks, j) == Some(k)
    decreases n
  {
    if j < n - 1 {
      ChildIndicesMember(tasks, k, n - 1, j);
    }
  }

  /** A task is pushed onto the roots exactly when it finds no parent. */
  lemma {:induction false} RootIndicesMember(tasks: seq<TaskDoc>, n: nat, j: nat)
    requires j < n <= |tasks|
    ensures j in RootIndices(tasks, n) <==> ParentIndex(tasks, j).None?
    decreases n
  {
    if j < n - 1 {
      RootIndicesMember(tasks, n - 1, j);
    }
  }

  /** Subtasks keep the fetched order and hold no task twice. */
  lemma {:induction false} ChildIndicesIncreasing(tasks: seq<TaskDoc>, k: nat, n: nat)
    requires n <= |tasks|
    ensures forall a, b :: 0 <= a < b < |ChildIndices(tasks, k, n)| ==>
              ChildIndices(tasks, k, n)[a] < ChildIndices(tasks, k, n)[b]
    decreases n
  {
    if n > 0 {
      ChildIndicesIncreasing(tasks, k, n - 1);
      ChildIndicesStep(tasks, k, n - 1);
      if ParentIndex(tasks, n - 1) == Some(k) {
        var p := ChildIndices(tasks, k, n - 1);
        var r := p + [n - 1];
        forall a, b | 0 <= a < b < |r| ensures r[a] < r[b] {
          if b == |p| {
            assert r[a] == p[a];
          } else {
            assert r[a] == p[a] && r[b] == p[b];
          }
        }
      }
    }
  }

  /** The roots keep the fetched order and hold no task twice. */
  lemma {:induction false} RootIndicesIncreasing(tasks: seq<TaskDoc>, n: nat)
    requires n <= |tasks|
    ensures forall a, b :: 0 <= a < b < |RootIndices(tasks, n)| ==>
              RootIndices(tasks, n)[a] < RootIndices(tasks, n)[b]
    decreases n
  {
    if n > 0 {
      RootIndicesIncreasing(tasks, n - 1);
      RootIndicesStep(tasks, n - 1);
      if ParentIndex(tasks, n - 1).None? {
        var p := RootIndices(tasks, n - 1);
        var r := p + [n - 1];
        forall a, b | 0 <= a < b < |r| ensures r[a] < r[b] {
          if b == |p| {
            assert r[a] == p[a];
          } else {
            assert r[a] == p[a] && r[b] == p[b];
          }
        }
      }
    }
  }

  /** The tasks that end up as roots, in fetched order, before sorting. */
  function Roots(tasks: seq<TaskDoc>): (r: seq<TaskDoc>)
    ensures |r| == |RootIndices(tasks, |tasks|)|
    ensures forall i :: 0 <= i < |r| ==> r[i] == tasks[RootIndices(tasks, |tasks|)[i]]
  {
    var idx := RootIndices(tasks, |tasks|);
    seq(|idx|, i requires 0 <= i < |idx| => tasks[idx[i]])
  }

  /** The root tasks `getTasks` returns, as values: the filtered tasks that
      found no parent among themselves, earliest start date first. */
  function GetTasksRoots(found: seq<TaskDoc>, f: TaskFilter): (r: seq<TaskDoc>)
    ensures multiset(r) == multiset(Roots(FilterTasks(found, f)))
    ensures forall i, j :: 0 <= i < j < |r| ==> Ordinal(r[i].startDate) <= Ordinal(r[j].startDate)
  {
    Sort(Roots(FilterTasks(found, f)), StartKey)
  }

  /** A task object as `getTasks` handles it: its fields, and the
      `subtasks` array that the builder creates and pushes onto. */
  class TaskNode {
    const doc: TaskDoc
    var subtasks: seq<TaskNode>

    constructor (doc: TaskDoc)
      ensures this.doc == doc && subtasks == []
    {
      this.doc := doc;
      subtasks := [];
    }
  }

  /** The nodes at the given indices, in order. */
  function NodesAt(nodes: seq<TaskNode>, idx: seq<nat>): (r: seq<TaskNode>)
    requires forall i :: 0 <= i < |idx| ==> idx[i] < |nodes|
    ensures |r| == |idx| && forall i :: 0 <= i < |idx| ==> r[i] == nodes[idx[i]]
  {
    seq(|idx|, i requires 0 <= i < |idx| => nodes[idx[i]])
  }

  lemma NodesAtSnoc(nodes: seq<TaskNode>, idx: seq<nat>, j: nat)
    requires forall i :: 0 <= i < |idx| ==> idx[i] < |nodes|
    requires j < |nodes|
    ensures NodesAt(nodes, idx + [j]) == NodesAt(nodes, idx) + [nodes[j]]
  {
  }

  /** The task objects, one fresh node per fetched task. */
  method CreateNodes(tasks: seq<TaskDoc>) returns (nodes: seq<TaskNode>)
    ensures |nodes| == |tasks|
    ensures forall i :: 0 <= i < |nodes| ==> fresh(nodes[i]) && nodes[i].doc == tasks[i] && nodes[i].subtasks == []
    ensures forall i, j :: 0 <= i < j < |nodes| ==> nodes[i] != nodes[j]
  {
    nodes := [];
    while |nodes| < |tasks|
      invariant |nodes| <= |tasks|
      invariant forall i :: 0 <= i < |nodes| ==> fresh(nodes[i]) && nodes[i].doc == tasks[i] && nodes[i].subtasks == []
      invariant forall i, j :: 0 <= i < j < |nodes| ==> nodes[i] != nodes[j]
    {
      var node := new TaskNode(tasks[|nodes|]);
      nodes := nodes + [node];
    }
  }

  /** The first `j` tasks are pushed: each node's subtasks are the nodes of
      its children among them, in order. */
  ghost predicate Linked(tasks: seq<TaskDoc>, nodes: seq<TaskNode>, j: nat)
    requires j <= |tasks| == |nodes|
    reads nodes
  {
    forall k :: 0 <= k < |nodes| ==> nodes[k].subtasks == NodesAt(nodes, ChildIndices(tasks, k, j))
  }

  /** src/lib/luma-docs.ts:228-236: each node, in order, pushed onto the
      subtasks of the node its parent id names, or onto the roots. */
  method AttachNodes(tasks: seq<TaskDoc>, nodes: seq<TaskNode>) returns (roots: seq<TaskNode>)
    requires |nodes| == |tasks|
    requires forall i :: 0 <= i < |nodes| ==> nodes[i].subtasks == []
    requires forall i, j :: 0 <= i < j < |nodes| ==> nodes[i] != nodes[j]
    modifies nodes
    ensures forall k :: 0 <= k < |nodes| ==> nodes[k].subtasks == NodesAt(nodes, ChildIndices(tasks, k, |tasks|))
    ensures roots == NodesAt(nodes, RootIndices(tasks, |tasks|))
  {
    roots := [];
    var j := 0;
    NothingLinked(tasks, nodes);
    while j < |tasks|
      invariant 0 <= j <= |tasks|
      invariant Linked(tasks, nodes, j)
      invariant roots == NodesAt(nodes, RootIndices(tasks, j))
    {
      roots := AttachOne(tasks, nodes, j, roots);
      j := j + 1;
    }
    assert j == |tasks|;
    forall k | 0 <= k < |nodes| ensures nodes[k].subtasks == NodesAt(nodes, ChildIndices(tasks, k, j)) {
      LinkedAt(tasks, nodes, j, k);
    }
  }

  lemma LinkedAt(tasks: seq<TaskDoc>, nodes: seq<TaskNode>, j: nat, k: nat)
    requires j <= |tasks| == |nodes| && k < |nodes|
    requires Linked(tasks, nodes, j)
    ensures nodes[k].subtasks == NodesAt(nodes, ChildIndices(tasks, k, j))
  {
  }

  /** Before the first push, every node's subtasks are empty and so are
      the children among no tasks. */
  lemma NothingLinked(tasks: seq<TaskDoc>, nodes: seq<TaskNode>)
    requires |nodes| == |tasks|
    requires forall i :: 0 <= i < |nodes| ==> nodes[i].subtasks == []
    ensures Linked(tasks, nodes, 0)
    ensures NodesAt(nodes, RootIndices(tasks, 0)) == []
  {
    forall k | 0 <= k < |nodes| ensures nodes[k].subtasks == NodesAt(nodes, ChildIndices(tasks, k, 0)) {
      assert ChildIndices(tasks, k, 0) == [];
    }
  }

  /** One step of the `forEach`: task `j` goes under its parent or onto the
      roots. */
  method AttachOne(tasks: seq<TaskDoc>, nodes: seq<TaskNode>, j: nat, roots: seq<TaskNode>)
    returns (roots': seq<TaskNode>)
    requires j < |tasks| == |nodes|
    requires forall i, i' :: 0 <= i < i' < |nodes| ==> nodes[i] != nodes[i']
    requires Linked(tasks, nodes, j)
    requires roots == NodesAt(nodes, RootIndices(tasks, j))
    modifies nodes
    ensures Linked(tasks, nodes, j + 1)
    ensures roots' == NodesAt(nodes, RootIndices(tasks, j + 1))
  {
    var parent := ParentIndex(tasks, j);
    RootIndicesStep(tasks, j);
    if parent.Some? {
      PushSubtask(tasks, nodes, j, parent.value);
      roots' := roots;
    } else {
      roots' := roots + [nodes[j]];
      NodesAtSnoc(nodes, RootIndices(tasks, j), j);
      forall k | 0 <= k < |nodes|
        ensures ChildIndices(tasks, k, j + 1) == ChildIndices(tasks, k, j)
      {
        ChildIndicesStep(tasks, k, j);
      }
    }
  }

  /** `parent.subtasks.push(task)` for the task at index `j`, whose parent
      is the task at index `p`. */
  method PushSubtask(tasks: seq<TaskDoc>, nodes: seq<TaskNode>, j: nat, p: nat)
    requires j < |tasks| == |nodes| && ParentIndex(tasks, j) == Some(p)
    requires forall i, i' :: 0 <= i < i' < |nodes| ==> nodes[i] != nodes[i']
    requires forall k :: 0 <= k < |nodes| ==> nodes[k].subtasks == NodesAt(nodes, ChildIndices(tasks, k, j))
    modifies nodes[p]
    ensures forall k :: 0 <= k < |nodes| ==> nodes[k].subtasks == NodesAt(nodes, ChildIndices(tasks, k, j + 1))
  {
    nodes[p].subtasks := nodes[p].subtasks + [nodes[j]];
    forall k | 0 <= k < |nodes|
      ensures nodes[k].subtasks == NodesAt(nodes, ChildIndices(tasks, k, j + 1))
    {
      ChildIndicesStep(tasks, k, j);
      if k == p {
        NodesAtSnoc(nodes, ChildIndices(tasks, k, j), j);
      } else {
        assert nodes[k] != nodes[p];
      }
    }
  }

  /** src/lib/luma-docs.ts:222-236: the task objects, linked into a tree. */
  method BuildHierarchy(tasks: seq<TaskDoc>) returns (nodes: seq<TaskNode>, roots: seq<TaskNode>)
    ensures |nodes| == |tasks|
    ensures forall i :: 0 <= i < |nodes| ==> fresh(nodes[i]) && nodes[i].doc == tasks[i]
    ensures forall i, j :: 0 <= i < j < |nodes| ==> nodes[i] != nodes[j]
    ensures forall k :: 0 <= k < |nodes| ==> nodes[k].subtasks == NodesAt(nodes, ChildIndices(tasks, k, |tasks|))
    ensures roots == NodesAt(nodes, RootIndices(tasks, |tasks|))
  {
    nodes := CreateNodes(tasks);
    roots := AttachNodes(tasks, nodes);
  }

  /** The start date of a node's task, the key of the root sort. */
  function NodeStartKey(n: TaskNode): SortKey {
    StartKey(n.doc)
  }

  function NodeDoc(n: TaskNode): TaskDoc {
    n.doc
  }

  /** `getTasks` (src/lib/luma-docs.ts:204-239) over the fetched tasks:
      filter, build the hierarchy in place, sort the roots by start date. */
  method GetTasks(found: seq<TaskDoc>, f: TaskFilter) returns (sorted: seq<TaskNode>, ghost nodes: seq<TaskNode>)
    ensures MapSeq(sorted, NodeDoc) == GetTasksRoots(found, f)
    ensures |nodes| == |FilterTasks(found, f)|
    ensures forall i :: 0 <= i < |nodes| ==> fresh(nodes[i]) && nodes[i].doc == FilterTasks(found, f)[i]
    ensures forall k :: 0 <= k < |nodes| ==>
              nodes[k].subtasks == NodesAt(nodes, ChildIndices(FilterTasks(found, f), k, |nodes|))
    ensures forall i :: 0 <= i < |sorted| ==> sorted[i] in nodes
  {
    var tasks := FilterTasks(found, f);
    var roots;
    nodes, roots := BuildHierarchy(tasks);
    sorted := Sort(roots, NodeStartKey);
    RootNodesDocs(tasks, nodes, roots);
    SortMap(roots, NodeDoc, NodeStartKey, StartKey);
    SortedAmongNodes(nodes, roots, sorted);
  }

  /** The documents of the root nodes are the root tasks. */
  lemma RootNodesDocs(tasks: seq<TaskDoc>, nodes: seq<TaskNode>, roots: seq<TaskNode>)
    requires |nodes| == |tasks| && forall i :: 0 <= i < |nodes| ==> nodes[i].doc == tasks[i]
    requires roots == NodesAt(nodes, RootIndices(tasks, |tasks|))
    ensures MapSeq(roots, NodeDoc) == Roots(tasks)
  {
  }

  /** Sorting the roots picks nodes among the built ones. */
  lemma SortedAmongNodes(nodes: seq<TaskNode>, roots: seq<TaskNode>, sorted: seq<TaskNode>)
    requires forall i :: 0 <= i < |roots| ==> roots[i] in nodes
    requires multiset(sorted) == multiset(roots)
    ensures forall i :: 0 <= i < |sorted| ==> sorted[i] in nodes
  {
    forall i | 0 <= i < |sorted| ensures sorted[i] in nodes {
      assert sorted[i] in multiset(roots);
    }
  }
}
