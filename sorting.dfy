/** `Array.prototype.sort` with a comparator, as the listings use it: a stable
    sort by a key. Every comparator of the model compares one number, or two
    numbers lexicographically (allocations: year, then week), so a key is a
    pair of integers; descending orders negate the key. */
module Sorting {
  import opened Seqs

  type SortKey = (int, int)

  /** `a` sorts strictly before `b`. */
  predicate Before(a: SortKey, b: SortKey) {
    a.0 < b.0 || (a.0 == b.0 && a.1 < b.1)
  }

  /** No element sorts strictly before one that precedes it. */
  predicate Sorted<T>(s: seq<T>, key: T -> SortKey) {
    forall i, j :: 0 <= i < j < |s| ==> !Before(key(s[j]), key(s[i]))
  }

  /** Putting in front an element that sorts after none of `s` keeps `s`
      sorted. */
  lemma PrependSorted<T>(x: T, s: seq<T>, key: T -> SortKey)
    requires Sorted(s, key)
    requires forall i :: 0 <= i < |s| ==> !Before(key(s[i]), key(x))
    ensures Sorted([x] + s, key)
  {
    var r := [x] + s;
    forall i, j | 0 <= i < j < |r| ensures !Before(key(r[j]), key(r[i])) {
      assert r[j] == s[j - 1];
      if i > 0 {
        assert r[i] == s[i - 1];
      }
    }
  }

  /** When `x` does not sort before the head of sorted `s`, the head stays
      in front of the rest with `x` inserted. */
  lemma HeadStaysFirst<T>(x: T, s: seq<T>, rest: seq<T>, key: T -> SortKey)
    requires s != [] && Sorted(s, key) && !Before(key(x), key(s[0]))
    requires Sorted(rest, key)
    requires multiset(rest) == multiset(s[1..]) + multiset{x}
    ensures Sorted([s[0]] + rest, key)
  {
    forall i | 0 <= i < |rest| ensures !Before(key(rest[i]), key(s[0])) {
      if rest[i] != x {
        assert rest[i] in multiset(rest);
        assert rest[i] in multiset(s[1..]);
        var k :| 0 <= k < |s[1..]| && s[1..][k] == rest[i];
        assert s[k + 1] == rest[i];
      }
    }
    PrependSorted(s[0], rest, key);
  }

  /** Inserts `x` after every element that does not sort after it. */
  function Insert<T>(x: T, s: seq<T>, key: T -> SortKey): (r: seq<T>)
    ensures multiset(r) == multiset(s) + multiset{x}
    ensures |r| == |s| + 1
    ensures Sorted(s, key) ==> Sorted(r, key)
  {
    if s == [] then [x]
    else if Before(key(x), key(s[0])) then
      assert Sorted(s, key) ==> Sorted([x] + s, key) by {
        if Sorted(s, key) {
          PrependSorted(x, s, key);
        }
      }
      assert s == [s[0]] + s[1..];
      [x] + s
    else
      var rest := Insert(x, s[1..], key);
      assert Sorted(s, key) ==> Sorted([s[0]] + rest, key) by {
        if Sorted(s, key) {
          assert Sorted(s[1..], key);
          HeadStaysFirst(x, s, rest, key);
        }
      }
      assert s == [s[0]] + s[1..];
      [s[0]] + rest
  }

  /** Insertion sort; later elements go after earlier ones with an equal
      key, so the sort is stable like `Array.prototype.sort` (SortStable). */
  function Sort<T>(s: seq<T>, key: T -> SortKey): (r: seq<T>)
    ensures multiset(r) == multiset(s)
    ensures |r| == |s|
    ensures Sorted(r, key)
  {
    if s == [] then []
    else
      assert s == s[..|s| - 1] + [s[|s| - 1]];
      Insert(s[|s| - 1], Sort(s[..|s| - 1], key), key)
  }

  /** Nothing in a sorted `t` has a key that sorts before the head's. */
  lemma NoneBeforeHead<T>(t: seq<T>, key: T -> SortKey, kv: SortKey, p: T -> bool)
    requires t != [] && Sorted(t, key) && Before(kv, key(t[0]))
    requires forall y :: p(y) == (key(y) == kv)
    ensures Filter(t, p) == []
  {
    forall j | 0 <= j < |t| ensures !p(t[j]) {
      if j > 0 {
        assert !Before(key(t[j]), key(t[0]));
      }
    }
  }

  /** Inserting into a sorted sequence puts `x` after every element with
      the same key. */
  lemma {:induction false} InsertStable<T>(x: T, t: seq<T>, key: T -> SortKey, kv: SortKey, p: T -> bool)
    requires Sorted(t, key)
    requires forall y :: p(y) == (key(y) == kv)
    ensures Filter(Insert(x, t, key), p) == Filter(t, p) + Filter([x], p)
    decreases |t|
  {
    if t == [] {
      assert Insert(x, t, key) == [x];
    } else if Before(key(x), key(t[0])) {
      assert Insert(x, t, key) == [x] + t;
      FilterAppend([x], t, p);
      if p(x) {
        NoneBeforeHead(t, key, kv, p);
      }
    } else {
      var rest := Insert(x, t[1..], key);
      assert Insert(x, t, key) == [t[0]] + rest;
      assert Sorted(t[1..], key);
      InsertStable(x, t[1..], key, kv, p);
      FilterAppend([t[0]], rest, p);
      assert t == [t[0]] + t[1..];
      FilterAppend([t[0]], t[1..], p);
    }
  }

  /** The sort is stable: the elements that share a key keep their order. */
  lemma {:induction false} SortStable<T>(s: seq<T>, key: T -> SortKey, kv: SortKey, p: T -> bool)
    requires forall y :: p(y) == (key(y) == kv)
    ensures Filter(Sort(s, key), p) == Filter(s, p)
    decreases |s|
  {
    if s != [] {
      var init := s[..|s| - 1];
      assert s == init + [s[|s| - 1]];
      SortStable(init, key, kv, p);
      InsertStable(s[|s| - 1], Sort(init, key), key, kv, p);
      FilterAppend(init, [s[|s| - 1]], p);
    }
  }

  /** Sorting keeps exactly the elements it was given. */
  lemma SortMembers<T>(s: seq<T>, key: T -> SortKey, x: T)
    ensures x in Sort(s, key) <==> x in s
  {
    var r := Sort(s, key);
    assert x in r <==> x in multiset(r);
    assert x in s <==> x in multiset(s);
  }

  /** Sorting objects by a key read from their fields and then taking those
      fields gives what sorting the fields themselves gives. */
  lemma {:induction false} InsertMap<A, B>(x: A, s: seq<A>, g: A -> B, k: A -> SortKey, key: B -> SortKey)
    requires forall a :: k(a) == key(g(a))
    ensures MapSeq(Insert(x, s, k), g) == Insert(g(x), MapSeq(s, g), key)
    decreases |s|
  {
    var ms := MapSeq(s, g);
    if s == [] {
      assert MapSeq([x], g) == [g(x)];
    } else if Before(k(x), k(s[0])) {
      assert ms[0] == g(s[0]);
      assert MapSeq([x] + s, g) == [g(x)] + ms;
    } else {
      assert ms[0] == g(s[0]);
      assert ms[1..] == MapSeq(s[1..], g);
      InsertMap(x, s[1..], g, k, key);
      assert MapSeq([s[0]] + Insert(x, s[1..], k), g) == [g(s[0])] + MapSeq(Insert(x, s[1..], k), g);
    }
  }

  lemma {:induction false} SortMap<A, B>(s: seq<A>, g: A -> B, k: A -> SortKey, key: B -> SortKey)
    requires forall a :: k(a) == key(g(a))
    ensures MapSeq(Sort(s, k), g) == Sort(MapSeq(s, g), key)
    decreases |s|
  {
    if s != [] {
      var init := s[..|s| - 1];
      SortMap(init, g, k, key);
      InsertMap(s[|s| - 1], Sort(init, k), g, k, key);
      assert MapSeq(s, g)[..|s| - 1] == MapSeq(init, g);
    }
  }
}
