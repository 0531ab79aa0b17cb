/** Facts about sequences that several checkers need. */
module Sequences {

  ghost predicate Distinct<T>(s: seq<T>) {
    forall i, j | 0 <= i < j < |s| :: s[i] != s[j]
  }

  function Elements<T>(s: seq<T>): set<T> {
    set x | x in s
  }

  lemma {:induction false} ElementsSize<T>(s: seq<T>)
    ensures |Elements(s)| <= |s|
    ensures |Elements(s)| == |s| <==> Distinct(s)
  {
    if s != [] {
      var n := |s| - 1;
      var init := s[..n];
      ElementsSize(init);
      assert Elements(s) == Elements(init) + {s[n]};
      if s[n] in init {
        var i :| 0 <= i < n && init[i] == s[n];
        assert s[i] == s[n];
        assert Elements(s) == Elements(init);
      } else {
        assert |Elements(s)| == |Elements(init)| + 1;
        assert Distinct(init) ==> Distinct(s);
        assert forall i, j | 0 <= i < j < n :: s[i] == init[i] && s[j] == init[j];
      }
    }
  }

  // ---- dictionaries built from lists ----

  function Self<T>(x: T): T {
    x
  }

  /** The dictionary of a list by key: of several items with one key the last stays. */
  function Index<T, K(==), V>(items: seq<T>, key: T -> K, value: T -> V): map<K, V> {
    if items == [] then map[]
    else Index(items[..|items| - 1], key, value)[key(items[|items| - 1]) := value(items[|items| - 1])]
  }

  method BuildIndex<T, K(==), V>(items: seq<T>, key: T -> K, value: T -> V) returns (m: map<K, V>)
    ensures m == Index(items, key, value)
  {
    m := map[];
    for i := 0 to |items|
      invariant m == Index(items[..i], key, value)
    {
      assert items[..i + 1][..i] == items[..i];
      m := m[key(items[i]) := value(items[i])];
    }
    assert items[..|items|] == items;
  }

  /** The keys of the dictionary are those of the items, and each value is that of some item with the key. */
  lemma {:induction false} IndexHolds<T, K, V>(items: seq<T>, key: T -> K, value: T -> V, k: K)
    ensures k in Index(items, key, value) <==> exists x :: x in items && key(x) == k
    ensures k in Index(items, key, value)
            ==> exists x :: x in items && key(x) == k && value(x) == Index(items, key, value)[k]
  {
    if items != [] {
      var n := |items| - 1;
      IndexHolds(items[..n], key, value, k);
      assert forall x :: x in items <==> x in items[..n] || x == items[n];
    }
  }

  /** Replacing an item by one of the same key touches no other key of the dictionary. */
  lemma {:induction false} IndexElsewhere<T, K, V>(items: seq<T>, key: T -> K, value: T -> V, p: nat, y: T)
    requires p < |items| && key(y) == key(items[p])
    ensures Index(items[p := y], key, value).Keys == Index(items, key, value).Keys
    ensures forall k | k in Index(items, key, value) && k != key(y) ::
              Index(items[p := y], key, value)[k] == Index(items, key, value)[k]
  {
    var n := |items| - 1;
    if p == n {
      assert items[p := y][..n] == items[..n];
    } else {
      assert items[p := y][..n] == items[..n][p := y];
      IndexElsewhere(items[..n], key, value, p, y);
    }
  }

  /** An item that a later one of the same key overwrites leaves no trace in the dictionary. */
  lemma {:induction false} IndexOverwritten<T, K, V>(items: seq<T>, key: T -> K, value: T -> V, p: nat, q: nat, y: T)
    requires p < q < |items| && key(y) == key(items[p]) == key(items[q])
    ensures Index(items[p := y], key, value) == Index(items, key, value)
  {
    var n := |items| - 1;
    assert items[p := y][..n] == items[..n][p := y];
    if q == n {
      IndexElsewhere(items[..n], key, value, p, y);
    } else {
      IndexOverwritten(items[..n], key, value, p, q, y);
    }
  }

  lemma IndexOfTwo<T, K, V>(a: T, b: T, key: T -> K, value: T -> V)
    ensures Index([a], key, value) == map[key(a) := value(a)]
    ensures Index([a, b], key, value) == map[key(a) := value(a)][key(b) := value(b)]
  {
    assert [a][..0] == [] && [a, b][..1] == [a];
    assert Index([a][..0], key, value) == map[];
    assert Index([a], key, value) == map[key(a) := value(a)];
  }

  /** The members of a set one by one, in some order. */
  method Listed<T(==)>(s: set<T>) returns (list: seq<T>)
    ensures Elements(list) == s && Distinct(list)
    ensures forall x :: x in list <==> x in s
  {
    list := [];
    var rest := s;
    while rest != {}
      invariant Elements(list) + rest == s && Elements(list) !! rest && Distinct(list)
      decreases |rest|
    {
      var x :| x in rest;
      assert Elements(list + [x]) == Elements(list) + {x};
      assert x !in Elements(list);
      list, rest := list + [x], rest - {x};
    }
    assert forall x :: x in list <==> x in Elements(list);
  }

  lemma SubsetOfSameSize<T>(a: set<T>, b: set<T>)
    requires a <= b && |b| <= |a|
    ensures a == b
  {
    assert b == a + (b - a);
    assert |b| == |a| + |b - a|;
    assert b - a == {};
  }

  lemma {:induction false} DistinctCounts<T>(s: seq<T>, x: T)
    requires Distinct(s)
    ensures multiset(s)[x] == if x in s then 1 else 0
  {
    if s != [] {
      var n := |s| - 1;
      assert s == s[..n] + [s[n]];
      DistinctCounts(s[..n], x);
    }
  }

  /** Pigeonhole: as many as wanted, and every wanted one among them, is a permutation. */
  lemma Pigeonhole<T>(wanted: seq<T>, seen: seq<T>)
    requires Distinct(wanted)
    ensures |seen| == |wanted| && Elements(wanted) <= Elements(seen)
            <==> multiset(seen) == multiset(wanted)
    ensures multiset(seen) == multiset(wanted) ==> Distinct(seen)
  {
    ElementsSize(wanted);
    ElementsSize(seen);
    if |seen| == |wanted| && Elements(wanted) <= Elements(seen) {
      SubsetOfSameSize(Elements(wanted), Elements(seen));
      forall x
        ensures multiset(seen)[x] == multiset(wanted)[x]
      {
        DistinctCounts(seen, x);
        DistinctCounts(wanted, x);
        assert x in seen <==> x in Elements(seen);
        assert x in wanted <==> x in Elements(wanted);
      }
    }
    if multiset(seen) == multiset(wanted) {
      assert |seen| == |multiset(seen)| == |multiset(wanted)| == |wanted|;
      forall x
        ensures x in Elements(seen) <==> x in Elements(wanted)
      {
        assert x in seen <==> x in multiset(seen);
        assert x in wanted <==> x in multiset(wanted);
      }
      assert Elements(seen) == Elements(wanted);
    }
  }

  // ---- interleavings ----

  /** The elements of w that belong to group g, in order. */
  function InGroup<G(==), T>(w: seq<T>, groupOf: T -> G, g: G): seq<T> {
    if w == [] then [] else (if groupOf(w[0]) == g then [w[0]] else []) + InGroup(w[1..], groupOf, g)
  }

  /** w uses up every part, each time taking the next element of one of them. */
  ghost predicate Interleaves<G, T>(w: seq<T>, parts: map<G, seq<T>>) {
    if w == [] then forall g | g in parts :: parts[g] == []
    else exists g :: g in parts && parts[g] != [] && parts[g][0] == w[0]
                     && Interleaves(w[1..], parts[g := parts[g][1..]])
  }

  /** Splitting a sequence by group gives parts it interleaves. */
  lemma {:induction false} SplitInterleaves<G, T>(w: seq<T>, parts: map<G, seq<T>>, groupOf: T -> G)
    requires forall x | x in w :: groupOf(x) in parts
    requires forall g | g in parts :: parts[g] == InGroup(w, groupOf, g)
    ensures Interleaves(w, parts)
  {
    if w != [] {
      var g := groupOf(w[0]);
      var rest := parts[g := parts[g][1..]];
      assert parts[g] == InGroup(w, groupOf, g);
      forall h | h in rest
        ensures rest[h] == InGroup(w[1..], groupOf, h)
      {
        assert parts[h] == InGroup(w, groupOf, h);
      }
      SplitInterleaves(w[1..], rest, groupOf);
    }
  }

  /** The part that the head of w comes from, and the parts without it. */
  lemma TakesFrom<G, T>(w: seq<T>, parts: map<G, seq<T>>) returns (g: G, rest: map<G, seq<T>>)
    requires w != [] && Interleaves(w, parts)
    ensures rest.Keys == parts.Keys && g in parts && parts[g] == [w[0]] + rest[g]
    ensures forall h | h in parts && h != g :: rest[h] == parts[h]
    ensures Interleaves(w[1..], rest)
  {
    g :| g in parts && parts[g] != [] && parts[g][0] == w[0]
         && Interleaves(w[1..], parts[g := parts[g][1..]]);
    rest := parts[g := parts[g][1..]];
  }

  /** Parts that stay in their groups still do without the head of one. */
  lemma RestStays<G, T>(x: T, parts: map<G, seq<T>>, rest: map<G, seq<T>>, groupOf: T -> G, g: G)
    requires rest.Keys == parts.Keys && g in parts && parts[g] == [x] + rest[g]
    requires forall h | h in parts && h != g :: rest[h] == parts[h]
    requires forall h, y | h in parts && y in parts[h] :: groupOf(y) == h
    ensures groupOf(x) == g
    ensures forall h, y | h in rest && y in rest[h] :: groupOf(y) == h
  {
    assert parts[g][0] in parts[g];
    forall h, y | h in rest && y in rest[h]
      ensures groupOf(y) == h
    {
      assert y in parts[h];
    }
  }

  /** Putting the head back in front of its own group, and of no other. */
  lemma HeadBack<G, T>(w: seq<T>, part: seq<T>, rest: seq<T>, groupOf: T -> G, g: G, h: G)
    requires w != [] && groupOf(w[0]) == g && rest == InGroup(w[1..], groupOf, h)
    requires part == if h == g then [w[0]] + rest else rest
    ensures part == InGroup(w, groupOf, h)
  {
  }

  /** An interleaving of parts that each stay in their group splits back into them. */
  lemma {:induction false} InterleavingSplits<G, T>(w: seq<T>, parts: map<G, seq<T>>, groupOf: T -> G)
    requires Interleaves(w, parts)
    requires forall g, x | g in parts && x in parts[g] :: groupOf(x) == g
    ensures forall x | x in w :: groupOf(x) in parts
    ensures forall g | g in parts :: parts[g] == InGroup(w, groupOf, g)
  {
    if w != [] {
      var g, rest := TakesFrom(w, parts);
      RestStays(w[0], parts, rest, groupOf, g);
      InterleavingSplits(w[1..], rest, groupOf);
      forall h | h in parts
        ensures parts[h] == InGroup(w, groupOf, h)
      {
        HeadBack(w, parts[h], rest[h], groupOf, g, h);
      }
    }
  }
}
