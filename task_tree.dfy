/** The parent links of the stored tasks, as `deleteTask`
    (src/lib/luma-docs.ts:275-289) follows them.

    `deleteTask` recurses into every task whose `parentId` equals the id
    being deleted, so it only ends when the links have no cycle. The model
    states that as a ghost ranking `depth`: every task lies strictly deeper
    than the task its parent id names. Under it, `Descends(T, depth, t, a)`
    says that `a` is `t` or is reached from `t` by following parent ids
    through the stored tasks `T`. */
module TaskTree {
  import opened Wrappers
  import opened Docs
  import opened Seqs
  import opened LumaListings
  import opened TaskHierarchy

  /** No chain of parent ids returns to where it started. */
  ghost predicate Acyclic(T: map<string, TaskDoc>, depth: string -> nat) {
    forall t :: t in T && T[t].parentId.Some? ==> depth(T[t].parentId.value) < depth(t)
  }

  /** `a` is `t` or an ancestor of `t` through the stored tasks. */
  ghost predicate Descends(T: map<string, TaskDoc>, depth: string -> nat, t: string, a: string)
    requires Acyclic(T, depth)
    decreases depth(t)
  {
    t == a || (t in T && T[t].parentId.Some? && Descends(T, depth, T[t].parentId.value, a))
  }

  /** The ids `deleteTask(id)` removes: `id` itself and every stored task
      below it. */
  ghost function Subtree(T: map<string, TaskDoc>, depth: string -> nat, id: string): set<string>
    requires Acyclic(T, depth)
  {
    {id} + set t | t in T && Descends(T, depth, t, id)
  }

  /** The tasks whose parent id is `id`. */
  ghost function ChildrenOf(T: map<string, TaskDoc>, id: string): set<string> {
    set c | c in T && T[c].parentId == Some(id)
  }

  /** A store that only lost tasks keeps the ranking. */
  lemma AcyclicShrinks(T: map<string, TaskDoc>, T': map<string, TaskDoc>, depth: string -> nat)
    requires Acyclic(T, depth)
    requires forall t :: t in T' ==> t in T && T'[t] == T[t]
    ensures Acyclic(T', depth)
  {
  }

  /** An ancestor lies no deeper than its descendant, and strictly
      higher unless it is the task itself. */
  lemma {:induction false} DescendsDepth(T: map<string, TaskDoc>, depth: string -> nat, t: string, a: string)
    requires Acyclic(T, depth) && Descends(T, depth, t, a)
    ensures depth(a) <= depth(t)
    ensures t != a ==> depth(a) < depth(t)
    decreases depth(t)
  {
    if t != a {
      DescendsDepth(T, depth, T[t].parentId.value, a);
    }
  }

  /** An ancestor of an ancestor is an ancestor. */
  lemma {:induction false} DescendsTransitive(T: map<string, TaskDoc>, depth: string -> nat, t: string, c: string, a: string)
    requires Acyclic(T, depth)
    requires Descends(T, depth, t, c) && Descends(T, depth, c, a)
    ensures Descends(T, depth, t, a)
    decreases depth(t)
  {
    if t != c {
      DescendsTransitive(T, depth, T[t].parentId.value, c, a);
    }
  }

  /** A task strictly below `id` lies below one of the children of `id`,
      and conversely: the subtree is `id` plus its children's subtrees. */
  lemma {:induction false} DescendsThroughChild(T: map<string, TaskDoc>, depth: string -> nat, t: string, id: string)
    requires Acyclic(T, depth)
    requires t in T && t != id
    ensures Descends(T, depth, t, id) <==> exists c :: c in ChildrenOf(T, id) && Descends(T, depth, t, c)
    decreases depth(t)
  {
    if Descends(T, depth, t, id) {
      var p := T[t].parentId.value;
      if p == id {
        assert t in ChildrenOf(T, id);
      } else {
        assert Descends(T, depth, p, id);
        assert p in T;
        DescendsThroughChild(T, depth, p, id);
        var c :| c in ChildrenOf(T, id) && Descends(T, depth, p, c);
        assert Descends(T, depth, t, c);
      }
    }
    if exists c :: c in ChildrenOf(T, id) && Descends(T, depth, t, c) {
      var c :| c in ChildrenOf(T, id) && Descends(T, depth, t, c);
      assert Descends(T, depth, c, id) by {
        assert T[c].parentId == Some(id);
      }
      DescendsTransitive(T, depth, t, c, id);
    }
  }

  /** A task never lies below one of its own children. */
  lemma NotBelowChild(T: map<string, TaskDoc>, depth: string -> nat, id: string, c: string)
    requires Acyclic(T, depth) && c in ChildrenOf(T, id)
    ensures !Descends(T, depth, id, c)
  {
    if Descends(T, depth, id, c) {
      DescendsDepth(T, depth, id, c);
    }
  }

  /** Ancestry in a store that only lost tasks was ancestry before. */
  lemma {:induction false} DescendsInLarger(T: map<string, TaskDoc>, T': map<string, TaskDoc>, depth: string -> nat, t: string, a: string)
    requires Acyclic(T, depth) && Acyclic(T', depth)
    requires forall x :: x in T' ==> x in T && T'[x] == T[x]
    requires Descends(T', depth, t, a)
    ensures Descends(T, depth, t, a)
    decreases depth(t)
  {
    if t != a {
      DescendsInLarger(T, T', depth, T'[t].parentId.value, a);
    }
  }

  /** The removed tasks `G` are closed downwards: a task whose parent was
      removed was removed too. */
  ghost predicate ClosedBelow(T: map<string, TaskDoc>, G: set<string>) {
    forall x :: x in T && T[x].parentId.Some? && T[x].parentId.value in G ==> x in G
  }

  /** Removing a downward-closed set of tasks keeps every remaining
      ancestry chain. */
  lemma {:induction false} DescendsInSmaller(T: map<string, TaskDoc>, G: set<string>, depth: string -> nat, t: string, a: string)
    requires Acyclic(T, depth) && ClosedBelow(T, G)
    requires t in T && t !in G && Descends(T, depth, t, a)
    ensures Acyclic(T - G, depth)
    ensures Descends(T - G, depth, t, a)
    decreases depth(t)
  {
    var T' := T - G;
    AcyclicShrinks(T, T', depth);
    if t != a {
      var p := T[t].parentId.value;
      if p != a {
        DescendsInSmaller(T, G, depth, p, a);
      }
    }
  }

  /** The tasks removed by the recursive calls on the children in `cs`:
      every stored task below one of them. */
  ghost function Below(T: map<string, TaskDoc>, depth: string -> nat, cs: set<string>): set<string>
    requires Acyclic(T, depth)
  {
    set x | x in T && exists c :: c in cs && Descends(T, depth, x, c)
  }

  /** What lies below a set of tasks is closed downwards. */
  lemma BelowIsClosed(T: map<string, TaskDoc>, depth: string -> nat, cs: set<string>)
    requires Acyclic(T, depth)
    ensures ClosedBelow(T, Below(T, depth, cs))
  {
    forall x | x in T && T[x].parentId.Some? && T[x].parentId.value in Below(T, depth, cs)
      ensures x in Below(T, depth, cs)
    {
      var c :| c in cs && Descends(T, depth, T[x].parentId.value, c);
      assert Descends(T, depth, x, c);
    }
  }

  /** Below the children of `id` lies exactly the subtree of `id` without
      `id` itself. */
  lemma BelowChildren(T: map<string, TaskDoc>, depth: string -> nat, id: string)
    requires Acyclic(T, depth)
    ensures Below(T, depth, ChildrenOf(T, id)) == Subtree(T, depth, id) - {id}
  {
    forall x | x in T
      ensures x in Below(T, depth, ChildrenOf(T, id)) <==> x in Subtree(T, depth, id) - {id}
    {
      if x == id {
        forall c | c in ChildrenOf(T, id) ensures !Descends(T, depth, x, c) {
          NotBelowChild(T, depth, id, c);
        }
      } else {
        DescendsThroughChild(T, depth, x, id);
      }
    }
  }

  /** The recursive call on a child `c`, made once the tasks below the
      children in `done` are gone, removes `c`'s subtree in the original
      store: together they remove what lies below `done` and `c`. */
  lemma {:induction false} StepBelow(T: map<string, TaskDoc>, depth: string -> nat, done: set<string>, c: string)
    requires Acyclic(T, depth) && c in T
    ensures Acyclic(T - Below(T, depth, done), depth)
    ensures Below(T, depth, done) + Subtree(T - Below(T, depth, done), depth, c) == Below(T, depth, done + {c})
  {
    var B := Below(T, depth, done);
    var Ti := T - B;
    AcyclicShrinks(T, Ti, depth);
    BelowIsClosed(T, depth, done);
    forall x ensures x in B + Subtree(Ti, depth, c) <==> x in Below(T, depth, done + {c}) {
      if x in Subtree(Ti, depth, c) && x != c {
        DescendsInLarger(T, Ti, depth, x, c);
      }
      if x in T && x !in B && Descends(T, depth, x, c) {
        DescendsInSmaller(T, B, depth, x, c);
      }
      if x == c {
        assert Descends(T, depth, x, c);
      }
    }
  }

  /** The recursive call on a child removes less than the call that makes
      it: the cascade ends. */
  lemma SubtreeShrinks(T: map<string, TaskDoc>, Ti: map<string, TaskDoc>, depth: string -> nat, id: string, c: string)
    requires Acyclic(T, depth) && Acyclic(Ti, depth)
    requires forall x :: x in Ti ==> x in T && Ti[x] == T[x]
    requires c in ChildrenOf(T, id)
    ensures Subtree(Ti, depth, c) < Subtree(T, depth, id)
  {
    assert Descends(T, depth, c, id) by {
      assert T[c].parentId == Some(id);
    }
    forall x | x in Subtree(Ti, depth, c) ensures x in Subtree(T, depth, id) {
      if x != c {
        DescendsInLarger(T, Ti, depth, x, c);
        DescendsTransitive(T, depth, x, c, id);
      }
    }
    assert id !in Subtree(Ti, depth, c) by {
      if id in Ti && Descends(Ti, depth, id, c) {
        DescendsInLarger(T, Ti, depth, id, c);
        NotBelowChild(T, depth, id, c);
      }
    }
  }

  /** The filter `{ parentId: id }` of `deleteTask`. */
  function ChildFilter(id: string): TaskFilter {
    NoTaskFilter.(parentId := Some(Some(id)))
  }

  /** A listing of a store whose tasks sit under their own ids holds
      exactly the stored tasks. */
  lemma TasksListed(T: map<string, TaskDoc>, found: seq<(string, TaskDoc)>)
    requires (forall k :: k in T ==> T[k].id == k) && Lists(T, found)
    ensures forall d :: d in DocsOf(found) <==> d.id in T && T[d.id] == d
  {
    var docs := DocsOf(found);
    forall d ensures d in docs <==> d.id in T && T[d.id] == d {
      if d in docs {
        var n :| 0 <= n < |docs| && docs[n] == d;
        assert T[found[n].0] == d;
      }
      if d.id in T && T[d.id] == d {
        var n :| 0 <= n < |found| && found[n].0 == d.id;
        assert docs[n] == d;
      }
    }
  }

  /** When no task finds a parent, every task is a root. */
  lemma AllRoots(ts: seq<TaskDoc>)
    requires forall i :: 0 <= i < |ts| ==> ParentIndex(ts, i).None?
    ensures forall d :: d in Roots(ts) <==> d in ts
  {
    var idx := RootIndices(ts, |ts|);
    var roots := Roots(ts);
    forall d ensures d in roots <==> d in ts {
      if d in roots {
        var m :| 0 <= m < |roots| && roots[m] == d;
        assert d == ts[idx[m]];
      }
      if d in ts {
        var i :| 0 <= i < |ts| && ts[i] == d;
        RootIndicesMember(ts, |ts|, i);
        var m :| 0 <= m < |idx| && idx[m] == i;
        assert roots[m] == d;
      }
    }
  }

  /** No listed child of `id` finds its parent among the listed children:
      their parent `id` is not one of them, the links having no cycle. */
  lemma ChildrenAreRoots(T: map<string, TaskDoc>, depth: string -> nat, found: seq<(string, TaskDoc)>, id: string)
    requires Acyclic(T, depth) && (forall k :: k in T ==> T[k].id == k) && Lists(T, found)
    ensures var ts := FilterTasks(DocsOf(found), ChildFilter(id));
      forall d :: d in Roots(ts) <==> d in ts
  {
    var ts := FilterTasks(DocsOf(found), ChildFilter(id));
    TasksListed(T, found);
    forall i | 0 <= i < |ts| ensures ParentIndex(ts, i).None? {
      forall j | 0 <= j < |ts| ensures ts[j].id != id {
        assert ts[j] in ts;
        assert T[ts[j].id].parentId == Some(id);
      }
    }
    AllRoots(ts);
  }

  /** Over a store whose links have no cycle, `getTasks({ parentId: id })`
      returns exactly the stored children of `id`: none of them finds a
      parent among the others, so all of them are roots. */
  lemma ChildrenListed(T: map<string, TaskDoc>, depth: string -> nat, found: seq<(string, TaskDoc)>, id: string)
    requires Acyclic(T, depth) && (forall k :: k in T ==> T[k].id == k) && Lists(T, found)
    ensures forall d :: d in GetTasksRoots(DocsOf(found), ChildFilter(id)) <==> d.id in ChildrenOf(T, id) && T[d.id] == d
  {
    var docs := DocsOf(found);
    var ts := FilterTasks(docs, ChildFilter(id));
    ChildrenAreRoots(T, depth, found, id);
    ChildFilterMembers(T, found, id);
    var r := GetTasksRoots(docs, ChildFilter(id));
    forall d ensures d in r <==> d in ts {
      assert d in r <==> d in multiset(r);
      assert d in Roots(ts) <==> d in multiset(Roots(ts));
    }
  }

  /** The filter `{ parentId: id }` keeps exactly the stored children. */
  lemma ChildFilterMembers(T: map<string, TaskDoc>, found: seq<(string, TaskDoc)>, id: string)
    requires (forall k :: k in T ==> T[k].id == k) && Lists(T, found)
    ensures forall d :: d in FilterTasks(DocsOf(found), ChildFilter(id)) <==> d.id in ChildrenOf(T, id) && T[d.id] == d
  {
    TasksListed(T, found);
  }

  /** The id of a task. */
  function TaskId(d: TaskDoc): string {
    d.id
  }

  /** The ids the listing `getTasks({ parentId: id })` returns are exactly
      the stored children of `id`. */
  lemma ChildIds(T: map<string, TaskDoc>, depth: string -> nat, found: seq<(string, TaskDoc)>, id: string)
    requires Acyclic(T, depth) && (forall k :: k in T ==> T[k].id == k) && Lists(T, found)
    ensures Elems(MapSeq(GetTasksRoots(DocsOf(found), ChildFilter(id)), TaskId)) == ChildrenOf(T, id)
  {
    var ids := MapSeq(GetTasksRoots(DocsOf(found), ChildFilter(id)), TaskId);
    ListedAreChildren(T, depth, found, id);
    ChildrenAreListed(T, depth, found, id);
    assert Elems(ids) <= ChildrenOf(T, id) && ChildrenOf(T, id) <= Elems(ids);
  }

  /** Every id the listing returns is a stored child of `id`. */
  lemma ListedAreChildren(T: map<string, TaskDoc>, depth: string -> nat, found: seq<(string, TaskDoc)>, id: string)
    requires Acyclic(T, depth) && (forall k :: k in T ==> T[k].id == k) && Lists(T, found)
    ensures Elems(MapSeq(GetTasksRoots(DocsOf(found), ChildFilter(id)), TaskId)) <= ChildrenOf(T, id)
  {
    var r := GetTasksRoots(DocsOf(found), ChildFilter(id));
    var ids := MapSeq(r, TaskId);
    forall j | 0 <= j < |r| ensures ids[j] in ChildrenOf(T, id) {
      ChildrenListed(T, depth, found, id);
      assert r[j] in r;
    }
  }

  /** Every stored child of `id` is among the ids the listing returns. */
  lemma ChildrenAreListed(T: map<string, TaskDoc>, depth: string -> nat, found: seq<(string, TaskDoc)>, id: string)
    requires Acyclic(T, depth) && (forall k :: k in T ==> T[k].id == k) && Lists(T, found)
    ensures ChildrenOf(T, id) <= Elems(MapSeq(GetTasksRoots(DocsOf(found), ChildFilter(id)), TaskId))
  {
    var r := GetTasksRoots(DocsOf(found), ChildFilter(id));
    var ids := MapSeq(r, TaskId);
    ChildrenListed(T, depth, found, id);
    forall c | c in ChildrenOf(T, id) ensures c in Elems(ids) {
      assert T[c] in r;
      var j :| 0 <= j < |r| && r[j] == T[c];
      assert ids[j] == c;
    }
  }
}
