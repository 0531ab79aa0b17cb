/** The shared outbox: the enqueue loop of both probes, and the check of what came out at the other end. */
module Outbox {
  import opened Sequences
  import opened Sorting

  /** The elements at positions 0, 2, 4, ... */
  function Evens<T>(s: seq<T>): seq<T> {
    if s == [] then []
    else Evens(s[..|s| - 1]) + if (|s| - 1) % 2 == 0 then [s[|s| - 1]] else []
  }

  /** Enqueues one event per new id, the even ones under the ordering key. */
  method Enqueue(newIds: seq<string>) returns (ids: seq<string>, ordered: seq<string>)
    ensures ids == newIds && ordered == Evens(newIds)
  {
    ids, ordered := [], [];
    for i := 0 to |newIds|
      invariant ids == newIds[..i] && ordered == Evens(ids)
    {
      ids := ids + [newIds[i]];
      assert ids[..i] == newIds[..i];
      if i % 2 == 0 {
        ordered := ordered + [newIds[i]];
      }
    }
  }

  lemma {:induction false} EvensAt<T>(s: seq<T>, k: nat)
    requires 2 * k < |s|
    ensures |Evens(s)| == (|s| + 1) / 2 && Evens(s)[k] == s[2 * k]
  {
    var n := |s| - 1;
    if n > 0 {
      EvensSize(s[..n]);
      if 2 * k < n {
        EvensAt(s[..n], k);
      }
    }
  }

  lemma {:induction false} EvensSize<T>(s: seq<T>)
    ensures |Evens(s)| == (|s| + 1) / 2
  {
    if s != [] {
      EvensSize(s[..|s| - 1]);
    }
  }

  datatype Handled = Handled(id: string, tenantGuc: string)

  datatype Problem = WrongIds | OutOfOrder | WrongTenant

  function Seen(got: seq<Handled>): seq<string> {
    seq(|got|, i requires 0 <= i < |got| => got[i].id)
  }

  /** [i for i in seen if i in ordered] */
  function Restrict(seen: seq<string>, ordered: seq<string>): seq<string> {
    if seen == [] then []
    else Restrict(seen[..|seen| - 1], ordered) + if seen[|seen| - 1] in ordered then [seen[|seen| - 1]] else []
  }

  const TENANT := "acme"

  method CheckOutbox(ids: seq<string>, ordered: seq<string>, got: seq<Handled>) returns (problems: seq<Problem>)
    ensures WrongIds in problems <==> multiset(Seen(got)) != multiset(ids)
    ensures OutOfOrder in problems <==> Restrict(Seen(got), ordered) != ordered
    ensures WrongTenant in problems <==> exists g :: g in got && g.tenantGuc != "acme"
    ensures problems == [] <==> WrongIds !in problems && OutOfOrder !in problems && WrongTenant !in problems
  {
    problems := [];
    StringLeIsOrder();
    SortedEqual(StringLe, Seen(got), ids);
    if Sorted(StringLe, Seen(got)) != Sorted(StringLe, ids) {
      problems := problems + [WrongIds];
    }
    var kept := [];
    for i := 0 to |got|
      invariant kept == Restrict(Seen(got)[..i], ordered)
    {
      assert Seen(got)[..i + 1][..i] == Seen(got)[..i];
      if got[i].id in ordered {
        kept := kept + [got[i].id];
      }
    }
    assert Seen(got)[..|got|] == Seen(got);
    if kept != ordered {
      problems := problems + [OutOfOrder];
    }
    if exists g | g in got :: g.tenantGuc != TENANT {
      problems := problems + [WrongTenant];
    }
  }

  /** Ordered-key events appear in `seen` in their enqueue order. */
  ghost predicate KeepsOrder(seen: seq<string>, ordered: seq<string>) {
    forall i, j, p, q | 0 <= i < j < |seen| && 0 <= p < |ordered| && 0 <= q < |ordered|
                        && seen[i] == ordered[p] && seen[j] == ordered[q] :: p < q
  }

  lemma {:induction false} RestrictMembers(seen: seq<string>, ordered: seq<string>, x: string)
    ensures x in Restrict(seen, ordered) <==> x in seen && x in ordered
  {
    if seen != [] {
      var n := |seen| - 1;
      RestrictMembers(seen[..n], ordered, x);
      assert x in seen <==> x in seen[..n] || x == seen[n];
    }
  }

  /** Where the element at position i of seen ends up. */
  lemma {:induction false} RestrictPosition(seen: seq<string>, ordered: seq<string>, i: nat)
    requires i < |seen| && seen[i] in ordered
    ensures |Restrict(seen[..i], ordered)| < |Restrict(seen, ordered)|
    ensures Restrict(seen, ordered)[|Restrict(seen[..i], ordered)|] == seen[i]
  {
    var n := |seen| - 1;
    if i < n {
      assert seen[..n][..i] == seen[..i];
      RestrictPosition(seen[..n], ordered, i);
    }
  }

  /** Every kept element comes from a position of seen, later ones from later positions. */
  lemma {:induction false} RestrictSource(seen: seq<string>, ordered: seq<string>, a: nat, b: nat)
      returns (i: nat, j: nat)
    requires a < b < |Restrict(seen, ordered)|
    ensures i < j < |seen| && seen[i] == Restrict(seen, ordered)[a] && seen[j] == Restrict(seen, ordered)[b]
  {
    var n := |seen| - 1;
    var init := Restrict(seen[..n], ordered);
    if b < |init| {
      i, j := RestrictSource(seen[..n], ordered, a, b);
    } else {
      RestrictMembers(seen[..n], ordered, init[a]);
      i :| 0 <= i < n && seen[..n][i] == init[a];
      j := n;
    }
  }

  lemma {:induction false} RestrictDistinct(seen: seq<string>, ordered: seq<string>)
    requires Distinct(seen)
    ensures Distinct(Restrict(seen, ordered))
  {
    if seen != [] {
      var n := |seen| - 1;
      RestrictDistinct(seen[..n], ordered);
      RestrictMembers(seen[..n], ordered, seen[n]);
    }
  }

  lemma FirstSame(r: seq<string>, o: seq<string>)
    requires r != [] && (forall x :: x in r <==> x in o) && KeepsOrder(r, o) && Distinct(o)
    ensures o != [] && r[0] == o[0]
  {
    assert r[0] in o;
    var p :| 0 <= p < |o| && o[p] == r[0];
    assert o[0] in r;
    var b :| 0 <= b < |r| && r[b] == o[0];
    assert b > 0 ==> p < 0;
  }

  lemma TailMembers(s: seq<string>, x: string)
    requires s != [] && Distinct(s)
    ensures x in s[1..] <==> x in s && x != s[0]
  {
    if x in s && x != s[0] {
      var i :| 0 <= i < |s| && s[i] == x;
      assert s[1..][i - 1] == x;
    }
  }

  lemma TailKeepsOrder(r: seq<string>, o: seq<string>)
    requires r != [] && o != [] && KeepsOrder(r, o)
    ensures KeepsOrder(r[1..], o[1..])
  {
    forall i, j, u, v | 0 <= i < j < |r[1..]| && 0 <= u < |o[1..]| && 0 <= v < |o[1..]|
                        && r[1..][i] == o[1..][u] && r[1..][j] == o[1..][v]
      ensures u < v
    {
      assert r[i + 1] == o[u + 1] && r[j + 1] == o[v + 1];
    }
  }

  /** Two arrangements of the same distinct elements that never disagree on an order are equal. */
  lemma {:induction false} SameArrangement(r: seq<string>, o: seq<string>)
    requires Distinct(r) && Distinct(o) && (forall x :: x in r <==> x in o)
    requires KeepsOrder(r, o)
    ensures r == o
    decreases |r|
  {
    if r == [] {
      if o != [] {
        HasMember(o);
        assert false;
      }
    } else {
      FirstSame(r, o);
      forall x
        ensures x in r[1..] <==> x in o[1..]
      {
        TailMembers(r, x);
        TailMembers(o, x);
      }
      TailKeepsOrder(r, o);
      SameArrangement(r[1..], o[1..]);
      assert r == [r[0]] + r[1..] && o == [o[0]] + o[1..];
    }
  }

  lemma HasMember(o: seq<string>)
    requires o != []
    ensures exists x :: x in o
  {
    assert o[0] in o;
  }

  /** On distinct ids all of which arrived, the filter test is the order test, both ways. */
  lemma FilterIsOrder(seen: seq<string>, ordered: seq<string>)
    requires Distinct(seen) && Distinct(ordered) && forall x | x in ordered :: x in seen
    ensures Restrict(seen, ordered) == ordered <==> KeepsOrder(seen, ordered)
  {
    var r := Restrict(seen, ordered);
    if r == ordered {
      forall i, j, p, q | 0 <= i < j < |seen| && 0 <= p < |ordered| && 0 <= q < |ordered|
                          && seen[i] == ordered[p] && seen[j] == ordered[q]
        ensures p < q
      {
        RestrictPosition(seen, ordered, i);
        RestrictPosition(seen, ordered, j);
        assert seen[..j][..i] == seen[..i];
        RestrictPosition(seen[..j], ordered, i);
      }
    }
    if KeepsOrder(seen, ordered) {
      forall x
        ensures x in r <==> x in ordered
      {
        RestrictMembers(seen, ordered, x);
      }
      RestrictDistinct(seen, ordered);
      forall a, b, p, q | 0 <= a < b < |r| && 0 <= p < |ordered| && 0 <= q < |ordered|
                          && r[a] == ordered[p] && r[b] == ordered[q]
        ensures p < q
      {
        var i, j := RestrictSource(seen, ordered, a, b);
      }
      SameArrangement(r, ordered);
    }
  }

  lemma {:induction false} EvensFrom<T>(s: seq<T>, x: T)
    requires x in Evens(s)
    ensures x in s
  {
    var n := |s| - 1;
    if x in Evens(s[..n]) {
      EvensFrom(s[..n], x);
    }
  }

  lemma EvensDistinct(ids: seq<string>)
    requires Distinct(ids)
    ensures Distinct(Evens(ids))
  {
    EvensSize(ids);
    forall p, q | 0 <= p < q < |Evens(ids)|
      ensures Evens(ids)[p] != Evens(ids)[q]
    {
      EvensAt(ids, p);
      EvensAt(ids, q);
    }
  }

  /**
   For a document written by the enqueue loop with distinct ids, the two id checks pass exactly
   when every enqueued event was handled once and the ordered-key events in enqueue order.
   */
  lemma OutboxVerdict(ids: seq<string>, seen: seq<string>)
    requires Distinct(ids)
    ensures multiset(seen) == multiset(ids) && Restrict(seen, Evens(ids)) == Evens(ids)
            <==> multiset(seen) == multiset(ids) && KeepsOrder(seen, Evens(ids))
  {
    if multiset(seen) == multiset(ids) {
      Pigeonhole(ids, seen);
      EvensDistinct(ids);
      forall x | x in Evens(ids)
        ensures x in seen
      {
        EvensFrom(ids, x);
        assert x in multiset(ids);
        assert x in multiset(seen);
      }
      FilterIsOrder(seen, Evens(ids));
    }
  }
}
