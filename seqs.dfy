/** Sequence and map helpers that stand for the array methods the handlers
    use (`filter`, `reduce`, `find`, `slice`, `new Set(...)`) and for the
    listing a document store returns. */
module Seqs {
  import opened Wrappers

  /** `s.filter(p)`. */
  function Filter<T>(s: seq<T>, p: T -> bool): (r: seq<T>)
    ensures |r| <= |s|
    ensures forall i :: 0 <= i < |r| ==> r[i] in s && p(r[i])
    ensures forall i :: 0 <= i < |s| && p(s[i]) ==> s[i] in r
  {
    if s == [] then [] else (if p(s[0]) then [s[0]] else []) + Filter(s[1..], p)
  }

  lemma {:induction false} FilterAppend<T>(a: seq<T>, b: seq<T>, p: T -> bool)
    ensures Filter(a + b, p) == Filter(a, p) + Filter(b, p)
  {
    if a == [] {
      assert a + b == b;
    } else {
      assert (a + b)[1..] == a[1..] + b;
      FilterAppend(a[1..], b, p);
    }
  }

  /** Filtering counts each value as often as the input holds it, or not at all. */
  lemma {:induction false} FilterMultiset<T>(s: seq<T>, p: T -> bool, x: T)
    ensures multiset(Filter(s, p))[x] == if p(x) then multiset(s)[x] else 0
  {
    if s != [] {
      FilterMultiset(s[1..], p, x);
      assert s == [s[0]] + s[1..];
    }
  }

  /** Filtering keeps an ascending order. */
  lemma {:induction false} FilterAscending<T>(s: seq<T>, key: T -> int, p: T -> bool)
    requires forall i, j :: 0 <= i < j < |s| ==> key(s[i]) <= key(s[j])
    ensures forall i, j :: 0 <= i < j < |Filter(s, p)| ==> key(Filter(s, p)[i]) <= key(Filter(s, p)[j])
  {
    if s != [] {
      var rest := Filter(s[1..], p);
      FilterAscending(s[1..], key, p);
      if p(s[0]) {
        forall t | t in rest ensures key(s[0]) <= key(t) {
          var k :| 0 <= k < |s[1..]| && s[1..][k] == t;
          assert s[k + 1] == t;
        }
        AscendingCons(s[0], rest, key);
      }
    }
  }

  /** A value no greater than any of an ascending sequence extends it. */
  lemma AscendingCons<T>(x: T, rest: seq<T>, key: T -> int)
    requires forall i, j :: 0 <= i < j < |rest| ==> key(rest[i]) <= key(rest[j])
    requires forall t :: t in rest ==> key(x) <= key(t)
    ensures forall i, j :: 0 <= i < j < |[x] + rest| ==> key(([x] + rest)[i]) <= key(([x] + rest)[j])
  {
    var r := [x] + rest;
    forall i, j | 0 <= i < j < |r| ensures key(r[i]) <= key(r[j]) {
      assert r[j] == rest[j - 1];
      if i > 0 {
        assert r[i] == rest[i - 1];
      }
    }
  }

  /** Filtering with a predicate that holds everywhere on `s` changes nothing. */
  lemma {:induction false} FilterAll<T>(s: seq<T>, p: T -> bool)
    requires forall i :: 0 <= i < |s| ==> p(s[i])
    ensures Filter(s, p) == s
  {
    if s != [] {
      FilterAll(s[1..], p);
    }
  }

  /** `s.reduce((sum, x) => sum + f(x), 0)` over exact reals. */
  function Sum<T>(s: seq<T>, f: T -> real): real
  {
    if s == [] then 0.0 else f(s[0]) + Sum(s[1..], f)
  }

  lemma {:induction false} SumAppend<T>(a: seq<T>, b: seq<T>, f: T -> real)
    ensures Sum(a + b, f) == Sum(a, f) + Sum(b, f)
  {
    if a == [] {
      assert a + b == b;
    } else {
      assert (a + b)[1..] == a[1..] + b;
      SumAppend(a[1..], b, f);
    }
  }

  /** Summing the last element last: the step of a left-to-right loop. */
  lemma SumSnoc<T>(s: seq<T>, x: T, f: T -> real)
    ensures Sum(s + [x], f) == Sum(s, f) + f(x)
  {
    SumAppend(s, [x], f);
  }

  /** Sums of pointwise-scaled terms: `sum c * f(x) == c * sum f(x)`. */
  lemma {:induction false} SumScale<T>(s: seq<T>, f: T -> real, g: T -> real, c: real)
    requires forall i :: 0 <= i < |s| ==> g(s[i]) == c * f(s[i])
    ensures Sum(s, g) == c * Sum(s, f)
  {
    if s != [] {
      SumScale(s[1..], f, g, c);
    }
  }

  /** Dropping terms that are zero does not change a sum. */
  lemma {:induction false} SumFilterZero<T>(s: seq<T>, p: T -> bool, f: T -> real, g: T -> real)
    requires forall i :: 0 <= i < |s| ==> g(s[i]) == if p(s[i]) then f(s[i]) else 0.0
    ensures Sum(s, g) == Sum(Filter(s, p), f)
  {
    if s != [] {
      SumFilterZero(s[1..], p, f, g);
      var head := if p(s[0]) then [s[0]] else [];
      assert Filter(s, p) == head + Filter(s[1..], p);
      SumAppend(head, Filter(s[1..], p), f);
      if p(s[0]) {
        assert Sum(head, f) == f(s[0]) + Sum(head[1..], f);
      }
    }
  }

  /** `s.find(p)`: the first element satisfying `p`. */
  function FindFirst<T>(s: seq<T>, p: T -> bool): (r: Option<T>)
    ensures r.None? <==> forall i :: 0 <= i < |s| ==> !p(s[i])
    ensures r.Some? ==> exists i :: 0 <= i < |s| && s[i] == r.value && p(s[i]) &&
                                    forall j :: 0 <= j < i ==> !p(s[j])
  {
    if s == [] then None
    else if p(s[0]) then Some(s[0])
    else
      var r := FindFirst(s[1..], p);
      assert r.Some? ==> exists i :: 1 <= i < |s| && s[i] == r.value && p(s[i]) &&
                                     forall j :: 0 <= j < i ==> !p(s[j]) by {
        if r.Some? {
          var i :| 0 <= i < |s[1..]| && s[1..][i] == r.value && p(s[1..][i]) &&
                   forall j :: 0 <= j < i ==> !p(s[1..][j]);
          assert forall j :: 1 <= j < i + 1 ==> s[j] == s[1..][j - 1];
        }
      }
      r
  }

  /** `new Map(s.map(x => [key(x), x])).get(k)`: a later entry overwrites an
      earlier one with the same key, so the last one wins. */
  function FindLast<T>(s: seq<T>, p: T -> bool): (r: Option<T>)
    ensures r.None? <==> forall i :: 0 <= i < |s| ==> !p(s[i])
    ensures r.Some? ==> exists i :: 0 <= i < |s| && s[i] == r.value && p(s[i]) &&
                                    forall j :: i < j < |s| ==> !p(s[j])
  {
    if s == [] then None
    else
      var r := FindLast(s[1..], p);
      assert forall j :: 0 < j < |s| ==> s[j] == s[1..][j - 1];
      if r.Some? then
        assert exists i :: 0 <= i < |s| && s[i] == r.value && p(s[i]) &&
                           forall j :: i < j < |s| ==> !p(s[j]) by {
          var i :| 0 <= i < |s[1..]| && s[1..][i] == r.value && p(s[1..][i]) &&
                   forall j :: i < j < |s[1..]| ==> !p(s[1..][j]);
          assert s[i + 1] == r.value;
        }
        r
      else if p(s[0]) then Some(s[0])
      else None
  }

  /** `[...new Set(s)]`: the distinct values in order of first occurrence. */
  function Distinct<T(==)>(s: seq<T>): (r: seq<T>)
    ensures forall i :: 0 <= i < |r| ==> r[i] in s
    ensures forall i :: 0 <= i < |s| ==> s[i] in r
    ensures forall i, j :: 0 <= i < j < |r| ==> r[i] != r[j]
    decreases |s|
  {
    if s == [] then []
    else
      var d := Distinct(s[..|s| - 1]);
      assert forall i :: 0 <= i < |s| - 1 ==> s[i] == s[..|s| - 1][i];
      if s[|s| - 1] in d then d else d + [s[|s| - 1]]
  }

  /** A value's first occurrence decides its place: `x` comes before `y` in
      the de-duplicated list exactly when it first occurs before `y` does. */
  lemma {:induction false} DistinctOrder<T>(s: seq<T>, i: nat, j: nat)
    requires i < j < |s|
    requires forall k :: 0 <= k < i ==> s[k] != s[i]
    requires forall k :: 0 <= k < j ==> s[k] != s[j]
    ensures exists a, b :: 0 <= a < b < |Distinct(s)| && Distinct(s)[a] == s[i] && Distinct(s)[b] == s[j]
    decreases |s|
  {
    var n := |s| - 1;
    var t := s[..n];
    var d := Distinct(t);
    assert forall k :: 0 <= k < n ==> t[k] == s[k];
    assert Distinct(s) == if s[n] in d then d else d + [s[n]];
    if j == n {
      assert s[j] !in t;
      assert s[j] !in d;
      assert s[i] == t[i];
      assert s[i] in d;
      var a :| 0 <= a < |d| && d[a] == s[i];
      assert Distinct(s)[a] == s[i] && Distinct(s)[|d|] == s[j];
    } else {
      DistinctOrder(t, i, j);
      var a, b :| 0 <= a < b < |d| && d[a] == t[i] && d[b] == t[j];
      assert Distinct(s)[a] == s[i] && Distinct(s)[b] == s[j];
    }
  }

  /** `s.slice(0, limit)` with JavaScript's rule for a negative end:
      counted back from the end of the array, never below zero. */
  function Slice<T>(s: seq<T>, limit: int): (r: seq<T>)
    ensures limit >= 0 ==> |r| == if limit < |s| then limit else |s|
    ensures limit < 0 ==> |r| == if |s| + limit > 0 then |s| + limit else 0
    ensures r <= s
  {
    var end := if limit >= 0 then limit else |s| + limit;
    if end <= 0 then [] else if end >= |s| then s else s[..end]
  }

  /** `found` lists every entry of the store map `m` exactly once, in
      whatever order the store returns them. */
  ghost predicate Lists<D>(m: map<string, D>, found: seq<(string, D)>) {
    && (forall i :: 0 <= i < |found| ==> found[i].0 in m && m[found[i].0] == found[i].1)
    && (forall i, j :: 0 <= i < j < |found| ==> found[i].0 != found[j].0)
    && (forall k :: k in m ==> exists i :: 0 <= i < |found| && found[i].0 == k)
  }

  /** The documents of a listing, without their store ids. */
  function DocsOf<D>(found: seq<(string, D)>): (r: seq<D>)
    ensures |r| == |found|
    ensures forall i :: 0 <= i < |r| ==> r[i] == found[i].1
  {
    seq(|found|, i requires 0 <= i < |found| => found[i].1)
  }

  /** The store's `find`: every document of a collection, each once, in an
      order the store chooses. */
  method Enumerate<D>(m: map<string, D>) returns (found: seq<(string, D)>)
    ensures Lists(m, found)
    ensures |found| == |m|
  {
    found := [];
    var rest := m.Keys;
    ghost var done: set<string> := {};
    while rest != {}
      invariant rest <= m.Keys && done == m.Keys - rest
      invariant ListsPart(m, done, found)
      invariant |found| + |rest| == |m.Keys|
      decreases rest
    {
      var k :| k in rest;
      ListsPartStep(m, done, found, k);
      found := found + [(k, m[k])];
      done := done + {k};
      rest := rest - {k};
    }
    assert done == m.Keys;
  }

  /** `found` lists exactly the documents of `m` whose ids are in `done`. */
  ghost predicate ListsPart<D>(m: map<string, D>, done: set<string>, found: seq<(string, D)>) {
    && (forall i :: 0 <= i < |found| ==> found[i].0 in done && found[i].0 in m && m[found[i].0] == found[i].1)
    && (forall i, j :: 0 <= i < j < |found| ==> found[i].0 != found[j].0)
    && (forall k :: k in done ==> exists i :: 0 <= i < |found| && found[i].0 == k)
  }

  /** Listing one more document of `m` keeps the listing exact. */
  lemma ListsPartStep<D>(m: map<string, D>, done: set<string>, found: seq<(string, D)>, k: string)
    requires ListsPart(m, done, found) && k in m && k !in done
    ensures ListsPart(m, done + {k}, found + [(k, m[k])])
  {
    var found' := found + [(k, m[k])];
    assert found'[|found|].0 == k;
    assert forall i :: 0 <= i < |found| ==> found'[i] == found[i];
    forall k' | k' in done + {k}
      ensures exists i :: 0 <= i < |found'| && found'[i].0 == k'
    {
      if k' != k {
        var i :| 0 <= i < |found| && found[i].0 == k';
        assert found'[i].0 == k';
      }
    }
  }

  /** The order-free sum of `f` over the documents of a store map. */
  ghost function SumValues<D>(m: map<string, D>, f: D -> real): real
    decreases |m|
  {
    if m == map[] then 0.0
    else
      var k :| k in m;
      assert |m - {k}| < |m| by { assert (m - {k}).Keys == m.Keys - {k}; }
      f(m[k]) + SumValues(m - {k}, f)
  }

  /** Any document can be taken out of the sum first. */
  lemma {:induction false} SumValuesRemove<D>(m: map<string, D>, f: D -> real, k: string)
    requires k in m
    ensures SumValues(m, f) == f(m[k]) + SumValues(m - {k}, f)
    decreases |m|
  {
    var j :| j in m && SumValues(m, f) == f(m[j]) + SumValues(m - {j}, f);
    if j != k {
      assert |m - {j}| < |m| by { assert (m - {j}).Keys == m.Keys - {j}; }
      SumValuesRemove(m - {j}, f, k);
      assert |m - {k}| < |m| by { assert (m - {k}).Keys == m.Keys - {k}; }
      SumValuesRemove(m - {k}, f, j);
      assert m - {j} - {k} == m - {k} - {j};
    }
  }

  lemma SumValuesEmpty<D>(m: map<string, D>, f: D -> real)
    requires m == map[]
    ensures SumValues(m, f) == 0.0
  {
  }

  /** Adding (or replacing) one document changes the sum by that document. */
  lemma SumValuesUpdate<D>(m: map<string, D>, f: D -> real, k: string, d: D)
    ensures SumValues(m[k := d], f) == f(d) + SumValues(m - {k}, f)
  {
    SumValuesRemove(m[k := d], f, k);
    assert m[k := d] - {k} == m - {k};
  }

  /** Dropping the first document of a listing lists the rest of the map. */
  lemma ListsTail<D>(m: map<string, D>, found: seq<(string, D)>)
    requires Lists(m, found) && found != []
    ensures Lists(m - {found[0].0}, found[1..])
  {
    var k := found[0].0;
    var rest, tail := m - {k}, found[1..];
    forall i | 0 <= i < |tail| ensures tail[i].0 in rest && rest[tail[i].0] == tail[i].1 {
      assert tail[i] == found[i + 1];
    }
    forall k' | k' in rest ensures exists i :: 0 <= i < |tail| && tail[i].0 == k' {
      var i :| 0 <= i < |found| && found[i].0 == k';
      assert tail[i - 1].0 == k';
    }
  }

  /** An empty listing lists an empty map. */
  lemma ListsEmpty<D>(m: map<string, D>, found: seq<(string, D)>)
    requires Lists(m, found) && found == []
    ensures m == map[]
  {
    assert forall k :: k in m ==> false;
    assert m.Keys == {};
  }

  lemma SumDocs<D>(found: seq<(string, D)>, f: D -> real)
    requires found != []
    ensures Sum(DocsOf(found), f) == f(found[0].1) + Sum(DocsOf(found[1..]), f)
  {
    assert DocsOf(found)[1..] == DocsOf(found[1..]);
  }

  /** Summing the documents of a listing of `m` sums every document of `m`
      once, whatever order the store returned them in. */
  lemma {:induction false} SumListing<D>(m: map<string, D>, found: seq<(string, D)>, f: D -> real)
    requires Lists(m, found)
    ensures Sum(DocsOf(found), f) == SumValues(m, f)
    decreases |found|
  {
    if found == [] {
      ListsEmpty(m, found);
    } else {
      var k, d := found[0].0, found[0].1;
      var docs, tail := DocsOf(found), DocsOf(found[1..]);
      assert m[k] == d;
      ListsTail(m, found);
      SumListing(m - {k}, found[1..], f);
      SumValuesRemove(m, f, k);
      SumDocs(found, f);
    }
  }

  /** Reordering the terms does not change a sum. */
  lemma {:induction false} SumPermutation<T>(a: seq<T>, b: seq<T>, f: T -> real)
    requires multiset(a) == multiset(b)
    ensures Sum(a, f) == Sum(b, f)
    decreases |a|
  {
    if a != [] {
      assert a[0] in multiset(b);
      var i :| 0 <= i < |b| && b[i] == a[0];
      var b' := b[..i] + b[i + 1..];
      assert b == b[..i] + [b[i]] + b[i + 1..];
      assert a == [a[0]] + a[1..];
      assert multiset(b) == multiset(b[..i]) + multiset{b[i]} + multiset(b[i + 1..]);
      assert multiset(a) == multiset{a[0]} + multiset(a[1..]);
      assert multiset(b') == multiset(b[..i]) + multiset(b[i + 1..]);
      assert multiset(b') == multiset(b) - multiset{b[i]};
      assert multiset(a[1..]) == multiset(a) - multiset{a[0]};
      SumPermutation(a[1..], b', f);
      SumAppend(b[..i], b[i + 1..], f);
      SumAppend(b[..i] + [b[i]], b[i + 1..], f);
      SumSnoc(b[..i], b[i], f);
    } else {
      assert |b| == |multiset(b)| == 0;
    }
  }

  /** `s.map(g)`. */
  function MapSeq<A, B>(s: seq<A>, g: A -> B): (r: seq<B>)
    ensures |r| == |s| && forall i :: 0 <= i < |s| ==> r[i] == g(s[i])
  {
    seq(|s|, i requires 0 <= i < |s| => g(s[i]))
  }

  /** The elements of a sequence, as a set. */
  ghost function Elems<T>(s: seq<T>): set<T> {
    set x | x in s
  }

  /** A prefix one longer adds one element. */
  lemma ElemsStep<T>(s: seq<T>, i: nat)
    requires i < |s|
    ensures Elems(s[..i + 1]) == Elems(s[..i]) + {s[i]}
  {
    assert s[..i + 1] == s[..i] + [s[i]];
  }

  /** The ids a store's `find` returns for one collection: each stored id
      once, in an order the store chooses. */
  method ListKeys(ks: set<string>) returns (ids: seq<string>)
    ensures Elems(ids) == ks
  {
    ids := [];
    var rest := ks;
    while rest != {}
      invariant rest <= ks
      invariant Elems(ids) == ks - rest
      decreases rest
    {
      var k :| k in rest;
      ElemsStep(ids + [k], |ids|);
      assert (ids + [k])[..|ids|] == ids && (ids + [k])[..|ids| + 1] == ids + [k];
      ids := ids + [k];
      rest := rest - {k};
    }
  }
}
