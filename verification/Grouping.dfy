/**
 The effects table, grouped by (version, applied_by) with counts for the report, and expanded
 again by the checker's setdefault/extend loop into the authors of each version.
 */
module Grouping {
  import opened Runners
  import opened ExactlyOnce

  /** A line of the report: `count` rows of `version` were written by `who`. */
  datatype Counted = Counted(version: nat, who: string, count: nat)

  function Copies(who: string, count: nat): seq<string> {
    seq(count, _ => who)
  }

  function At(applied: map<nat, seq<string>>, v: nat): seq<string> {
    if v in applied then applied[v] else []
  }

  /** The dictionary the checker's loop builds. */
  function Expand(effects: seq<Counted>): map<nat, seq<string>> {
    if effects == [] then map[]
    else
      var before := Expand(effects[..|effects| - 1]);
      var e := effects[|effects| - 1];
      before[e.version := At(before, e.version) + Copies(e.who, e.count)]
  }

  method ExpandEffects(effects: seq<Counted>) returns (applied: map<nat, seq<string>>)
    ensures applied == Expand(effects)
  {
    applied := map[];
    var i := 0;
    while i < |effects|
      invariant 0 <= i <= |effects|
      invariant applied == Expand(effects[..i])
    {
      var e := effects[i];
      assert effects[..i + 1][..i] == effects[..i];
      if e.version !in applied {
        applied := applied[e.version := []];
      }
      applied := applied[e.version := applied[e.version] + Copies(e.who, e.count)];
      i := i + 1;
    }
    assert effects[..|effects|] == effects;
  }

  // ---- what GROUP BY reports ----

  /** How many rows of the table carry this version and author. */
  function PairCount(table: seq<Effect>, v: nat, who: string): nat {
    if table == [] then 0
    else PairCount(table[..|table| - 1], v, who) + if table[|table| - 1] == Effect(v, who) then 1 else 0
  }

  /** SELECT version, applied_by, count(*) ... GROUP BY version, applied_by. */
  ghost predicate Grouped(table: seq<Effect>, effects: seq<Counted>) {
    && (forall e | e in effects :: e.count == PairCount(table, e.version, e.who) > 0)
    && (forall p, q | 0 <= p < q < |effects| ::
          effects[p].version != effects[q].version || effects[p].who != effects[q].who)
    && (forall row | row in table :: exists e :: e in effects && e.version == row.version && e.who == row.who)
  }

  function ReportedCount(effects: seq<Counted>, v: nat, who: string): nat {
    if effects == [] then 0
    else
      var e := effects[|effects| - 1];
      ReportedCount(effects[..|effects| - 1], v, who) + if e.version == v && e.who == who then e.count else 0
  }

  lemma {:induction false} CopiesCount(who: string, count: nat, w: string)
    ensures multiset(Copies(who, count))[w] == if w == who then count else 0
    decreases count
  {
    if count > 0 {
      assert Copies(who, count) == Copies(who, count - 1) + [who];
      CopiesCount(who, count - 1, w);
    }
  }

  /** The expansion lists each author of a version as often as the report counts it. */
  lemma {:induction false} ExpandCounts(effects: seq<Counted>, v: nat, w: string)
    ensures multiset(At(Expand(effects), v))[w] == ReportedCount(effects, v, w)
  {
    if effects != [] {
      var e := effects[|effects| - 1];
      ExpandCounts(effects[..|effects| - 1], v, w);
      CopiesCount(e.who, e.count, w);
    }
  }

  lemma {:induction false} ReportedOnce(effects: seq<Counted>, j: nat)
    requires j < |effects|
    requires forall p, q | 0 <= p < q < |effects| ::
               effects[p].version != effects[q].version || effects[p].who != effects[q].who
    ensures ReportedCount(effects, effects[j].version, effects[j].who) == effects[j].count
  {
    var n := |effects| - 1;
    if j == n {
      ReportedNever(effects[..n], effects[j].version, effects[j].who);
    } else {
      ReportedOnce(effects[..n], j);
    }
  }

  lemma {:induction false} ReportedNever(effects: seq<Counted>, v: nat, w: string)
    requires forall p | 0 <= p < |effects| :: effects[p].version != v || effects[p].who != w
    ensures ReportedCount(effects, v, w) == 0
  {
    if effects != [] {
      ReportedNever(effects[..|effects| - 1], v, w);
    }
  }

  lemma {:induction false} PairOccurs(table: seq<Effect>, v: nat, w: string)
    requires PairCount(table, v, w) > 0
    ensures Effect(v, w) in table
  {
    var n := |table| - 1;
    if table[n] != Effect(v, w) {
      PairOccurs(table[..n], v, w);
    }
  }

  lemma GroupedCounts(table: seq<Effect>, effects: seq<Counted>, v: nat, w: string)
    requires Grouped(table, effects)
    ensures ReportedCount(effects, v, w) == PairCount(table, v, w)
  {
    if j: nat :| j < |effects| && effects[j].version == v && effects[j].who == w {
      ReportedOnce(effects, j);
      assert effects[j] in effects;
    } else {
      ReportedNever(effects, v, w);
      if PairCount(table, v, w) > 0 {
        PairOccurs(table, v, w);
      }
    }
  }

  /** The authors of version v, row by row. */
  function Authors(table: seq<Effect>, v: nat): seq<string> {
    if table == [] then []
    else
      var last := table[|table| - 1];
      Authors(table[..|table| - 1], v) + if last.version == v then [last.who] else []
  }

  lemma {:induction false} AuthorsCount(table: seq<Effect>, v: nat, w: string)
    ensures multiset(Authors(table, v))[w] == PairCount(table, v, w)
    ensures |Authors(table, v)| == Times(table, v)
  {
    if table != [] {
      AuthorsCount(table[..|table| - 1], v, w);
    }
  }

  /** Grouping and expanding again loses nothing but the order of the rows. */
  lemma ExpandRestores(table: seq<Effect>, effects: seq<Counted>, v: nat)
    requires Grouped(table, effects)
    ensures multiset(At(Expand(effects), v)) == multiset(Authors(table, v))
    ensures |At(Expand(effects), v)| == Times(table, v)
  {
    var a, b := multiset(At(Expand(effects), v)), multiset(Authors(table, v));
    forall w: string
      ensures a[w] == b[w]
    {
      ExpandCounts(effects, v, w);
      GroupedCounts(table, effects, v, w);
      AuthorsCount(table, v, w);
    }
    assert a == b;
    AuthorsCount(table, v, "");
    assert |At(Expand(effects), v)| == |a| == |b| == |Authors(table, v)|;
  }

  lemma {:induction false} ExpandKeys(effects: seq<Counted>, v: nat)
    ensures v in Expand(effects) <==> exists e :: e in effects && e.version == v
  {
    if effects != [] {
      var init := effects[..|effects| - 1];
      ExpandKeys(init, v);
      assert forall e :: e in effects <==> e in init || e == effects[|effects| - 1];
    }
  }

  lemma GroupedKeys(table: seq<Effect>, effects: seq<Counted>, v: nat)
    requires Grouped(table, effects)
    ensures v in Expand(effects) <==> Times(table, v) > 0
  {
    ExpandKeys(effects, v);
    ExpandRestores(table, effects, v);
    if Times(table, v) > 0 {
      assert v in Expand(effects);
    }
    if e :| e in effects && e.version == v {
      ExpandCounts(effects, v, e.who);
      GroupedCounts(table, effects, v, e.who);
      assert multiset(At(Expand(effects), v))[e.who] > 0;
      assert e.who in multiset(At(Expand(effects), v));
      assert e.who in At(Expand(effects), v);
    }
  }
}
