/**
 How the two metric probes read a gathered family: histogram bounds and the values of the
 enumerated labels.  Go walks the series, Python the flat samples; both loops are proved against one
 specification, and the exact condition for equal bounds is stated.
 */
module MetricExtraction {
  import opened Prelude
  import opened Sequences
  import opened Sorting

  /** One series as Go gathers it; `bounds` are its finite upper bounds ([] if it is no histogram). */
  datatype Series = Series(labels: map<string, string>, bounds: seq<real>)

  datatype Bound = Finite(value: real) | Infinite

  /** One sample as Python collects it: its labels without `le`, and `le` for a bucket sample. */
  datatype Sample = Sample(labels: map<string, string>, le: Option<Bound>)

  // ---- histogram bounds ----

  function FirstBounds(series: seq<Series>): seq<real> {
    if series == [] then []
    else if series[0].bounds != [] then series[0].bounds
    else FirstBounds(series[1..])
  }

  lemma {:induction false} FirstBoundsAppend(series: seq<Series>, s: Series)
    ensures FirstBounds(series + [s]) == if FirstBounds(series) == [] then s.bounds else FirstBounds(series)
  {
    if series == [] {
      assert FirstBounds([]) == [];
    } else {
      assert (series + [s])[0] == series[0] && (series + [s])[1..] == series[1..] + [s];
      FirstBoundsAppend(series[1..], s);
    }
  }

  /** Go: the bounds of the first series that has any. */
  method GoBuckets(series: seq<Series>) returns (buckets: seq<real>)
    ensures buckets == FirstBounds(series)
  {
    buckets := [];
    for i := 0 to |series|
      invariant buckets == FirstBounds(series[..i])
    {
      FirstBoundsAppend(series[..i], series[i]);
      assert series[..i + 1] == series[..i] + [series[i]];
      if |buckets| == 0 {
        var bounds := series[i].bounds;
        for j := 0 to |bounds|
          invariant buckets == bounds[..j]
        {
          buckets := buckets + [bounds[j]];
        }
      }
    }
    assert series[..|series|] == series;
  }

  predicate IsFinite(s: Sample) {
    s.le.Some? && s.le.value.Finite?
  }

  function SampledBounds(samples: seq<Sample>): set<real> {
    set s | s in samples && IsFinite(s) :: s.le.value.value
  }

  ghost predicate Increasing(s: seq<real>) {
    forall i, j | 0 <= i < j < |s| :: s[i] < s[j]
  }

  lemma SortedDistinct(s: seq<real>)
    requires Distinct(s)
    ensures Increasing(Sorted(RealLe, s)) && Elements(Sorted(RealLe, s)) == Elements(s)
  {
    var t := Sorted(RealLe, s);
    RealLeIsOrder();
    SortedOrdered(RealLe, s);
    SortedPermutes(RealLe, s);
    Pigeonhole(s, t);
    forall x
      ensures x in Elements(t) <==> x in Elements(s)
    {
      assert x in t <==> x in multiset(t);
      assert x in s <==> x in multiset(s);
    }
    assert forall i, j | 0 <= i < j < |t| :: RealLe(t[i], t[j]) && t[i] != t[j];
  }

  /** Python: every finite bound not met before, then sorted. */
  method PyBuckets(samples: seq<Sample>) returns (buckets: seq<real>)
    ensures Increasing(buckets) && Elements(buckets) == SampledBounds(samples)
  {
    var found := [];
    for i := 0 to |samples|
      invariant Distinct(found) && Elements(found) == SampledBounds(samples[..i])
    {
      var s := samples[i];
      assert samples[..i + 1] == samples[..i] + [s];
      assert SampledBounds(samples[..i + 1])
             == SampledBounds(samples[..i]) + if IsFinite(s) then {s.le.value.value} else {};
      if s.le.Some? && s.le.value.Finite? && s.le.value.value !in found {
        assert Elements(found + [s.le.value.value]) == Elements(found) + {s.le.value.value};
        found := found + [s.le.value.value];
      }
    }
    assert samples[..|samples|] == samples;
    SortedDistinct(found);
    buckets := Sorted(RealLe, found);
  }

  /** The samples of a family expose its series: the same labels, each bound, and no other bound. */
  ghost predicate Exposes(series: seq<Series>, samples: seq<Sample>) {
    && (forall s | s in series :: exists p :: p in samples && p.labels == s.labels)
    && (forall p | p in samples :: exists s :: s in series && s.labels == p.labels
                                               && (IsFinite(p) ==> p.le.value.value in s.bounds))
    && (forall s, b | s in series && b in s.bounds ::
          exists p :: p in samples && p.labels == s.labels && p.le == Some(Finite(b)))
  }

  function AllBounds(series: seq<Series>): set<real> {
    set s, b | s in series && b in s.bounds :: b
  }

  lemma SampledAreAll(series: seq<Series>, samples: seq<Sample>)
    requires Exposes(series, samples)
    ensures SampledBounds(samples) == AllBounds(series)
  {
    forall b
      ensures b in SampledBounds(samples) <==> b in AllBounds(series)
    {
      if b in AllBounds(series) {
        var s :| s in series && b in s.bounds;
        var p :| p in samples && p.labels == s.labels && p.le == Some(Finite(b));
        assert IsFinite(p) && p.le.value.value == b;
      }
      if b in SampledBounds(samples) {
        var p :| p in samples && IsFinite(p) && p.le.value.value == b;
        var s :| s in series && s.labels == p.labels && p.le.value.value in s.bounds;
      }
    }
  }

  lemma IncreasingUnique(a: seq<real>, b: seq<real>)
    requires Increasing(a) && Increasing(b) && Elements(a) == Elements(b)
    ensures a == b
  {
    RealLeIsOrder();
    ElementsSize(a);
    ElementsSize(b);
    Pigeonhole(a, b);
    OrderedUnique(RealLe, a, b);
  }

  lemma {:induction false} FirstBoundsFrom(series: seq<Series>)
    ensures forall b | b in FirstBounds(series) :: b in AllBounds(series)
  {
    if series != [] && series[0].bounds == [] {
      FirstBoundsFrom(series[1..]);
    }
  }

  /** Series i is the first with bounds; they are strictly increasing and cover those of every series. */
  ghost predicate FirstCovers(series: seq<Series>, i: nat) {
    && i < |series| && series[i].bounds != [] && (forall j | 0 <= j < i :: series[j].bounds == [])
    && Increasing(series[i].bounds)
    && forall s, b | s in series && b in s.bounds :: b in series[i].bounds
  }

  lemma {:induction false} FirstBoundsAt(series: seq<Series>) returns (i: nat)
    ensures i <= |series| && forall j | 0 <= j < i :: series[j].bounds == []
    ensures i < |series| ==> series[i].bounds != [] && FirstBounds(series) == series[i].bounds
    ensures i == |series| ==> FirstBounds(series) == []
  {
    if series == [] || series[0].bounds != [] {
      i := 0;
    } else {
      var k := FirstBoundsAt(series[1..]);
      i := k + 1;
      assert forall j | 0 < j < i :: series[j] == series[1..][j - 1];
    }
  }

  /** Being Python's list means having every bound. */
  lemma CoversAll(series: seq<Series>, first: seq<real>)
    requires forall b | b in first :: b in AllBounds(series)
    ensures Elements(first) == AllBounds(series) <==> forall s, b | s in series && b in s.bounds :: b in first
  {
    if Elements(first) == AllBounds(series) {
      forall s, b | s in series && b in s.bounds
        ensures b in first
      {
        assert b in AllBounds(series);
        assert b in Elements(first);
      }
    }
    if forall s, b | s in series && b in s.bounds :: b in first {
      forall b
        ensures b in Elements(first) <==> b in AllBounds(series)
      {
        if b in AllBounds(series) {
          var s :| s in series && b in s.bounds;
          assert b in first;
        }
        if b in Elements(first) {
          assert b in first;
        }
      }
      assert Elements(first) == AllBounds(series);
    }
  }

  /** A first list equals Python's exactly when it is increasing and has every bound. */
  lemma FirstIsPython(series: seq<Series>, samples: seq<Sample>, py: seq<real>)
    requires Exposes(series, samples)
    requires Increasing(py) && Elements(py) == SampledBounds(samples)
    ensures FirstBounds(series) == py
            <==> Increasing(FirstBounds(series))
                 && forall s, b | s in series && b in s.bounds :: b in FirstBounds(series)
  {
    SampledAreAll(series, samples);
    FirstBoundsFrom(series);
    var first := FirstBounds(series);
    CoversAll(series, first);
    if Increasing(first) && Elements(first) == AllBounds(series) {
      IncreasingUnique(first, py);
    }
  }

  /**
   The two probes report the same bounds for a family iff no series has any, or the first series
   that has some has them in strictly increasing order and has those of all others too.
   */
  lemma BucketsAgreeIff(series: seq<Series>, samples: seq<Sample>, py: seq<real>)
    requires Exposes(series, samples)
    requires Increasing(py) && Elements(py) == SampledBounds(samples)
    ensures FirstBounds(series) == py
            <==> (forall s | s in series :: s.bounds == []) || exists i :: FirstCovers(series, i)
  {
    FirstIsPython(series, samples, py);
    var i := FirstBoundsAt(series);
    if FirstBounds(series) == py {
      if i == |series| {
        forall s | s in series
          ensures s.bounds == []
        {
          var j :| 0 <= j < |series| && series[j] == s;
        }
      } else {
        assert FirstCovers(series, i);
      }
    }
    if k: nat :| FirstCovers(series, k) {
      assert i == k;
    } else if forall s | s in series :: s.bounds == [] {
      assert forall j | 0 <= j < |series| :: series[j] in series && series[j].bounds == [];
    }
  }

  /** Series that share one strictly increasing list, as those of one histogram do, always agree. */
  lemma SharedBoundsAgree(series: seq<Series>, samples: seq<Sample>, bounds: seq<real>, py: seq<real>)
    requires Exposes(series, samples) && series != []
    requires bounds != [] && Increasing(bounds) && forall s | s in series :: s.bounds == bounds
    requires Increasing(py) && Elements(py) == SampledBounds(samples)
    ensures FirstBounds(series) == py == bounds
  {
    assert series[0] in series;
    assert FirstCovers(series, 0);
    BucketsAgreeIff(series, samples, py);
  }

  /** Two series with one bound each, and different ones: Go reports the first, Python both. */
  lemma TwoListsDiffer(a: real, b: real) returns (series: seq<Series>, samples: seq<Sample>)
    requires a < b
    ensures Exposes(series, samples) && FirstBounds(series) == [a] && SampledBounds(samples) == {a, b}
  {
    var x, y := map["op" := "x"], map["op" := "y"];
    series := [Series(x, [a]), Series(y, [b])];
    samples := [Sample(x, Some(Finite(a))), Sample(y, Some(Finite(b)))];
    assert samples[0] in samples && samples[1] in samples && series[0] in series && series[1] in series;
    assert IsFinite(samples[0]) && IsFinite(samples[1]);
  }

  // ---- values of the enumerated labels ----

  const ENUMERATED: seq<string> := ["state", "outcome", "reason"]

  function SeriesLabels(series: seq<Series>): seq<map<string, string>> {
    seq(|series|, i requires 0 <= i < |series| => series[i].labels)
  }

  function SampleLabels(samples: seq<Sample>): seq<map<string, string>> {
    seq(|samples|, i requires 0 <= i < |samples| => samples[i].labels)
  }

  function Values(labelSets: seq<map<string, string>>, l: string): set<string> {
    set m | m in labelSets && l in m :: m[l]
  }

  function ValuesIn(observed: map<string, set<string>>, l: string): set<string> {
    if l in observed then observed[l] else {}
  }

  /** Exactly the enumerated labels that occur, each with the set of its values. */
  ghost predicate Collected(names: seq<string>, observed: map<string, set<string>>,
                            labelSets: seq<map<string, string>>)
  {
    && (forall l :: l in observed ==> observed[l] != {})
    && (forall l :: ValuesIn(observed, l) == if l in names then Values(labelSets, l) else {})
  }

  function Noted(observed: map<string, set<string>>, l: string, v: string): map<string, set<string>> {
    observed[l := ValuesIn(observed, l) + {v}]
  }

  function NotedIf(names: seq<string>, observed: map<string, set<string>>, l: string, v: string)
    : map<string, set<string>>
  {
    if l in names then Noted(observed, l, v) else observed
  }

  lemma ValuesAppend(sets: seq<map<string, string>>, m: map<string, string>, l: string)
    ensures Values(sets + [m], l) == Values(sets, l) + if l in m then {m[l]} else {}
  {
  }

  /** The values after looking at the labels in `done` of one more label set. */
  ghost predicate Partly(names: seq<string>, observed: map<string, set<string>>, before: seq<map<string, string>>,
                         m: map<string, string>, done: set<string>)
  {
    && (forall l :: l in observed ==> observed[l] != {})
    && (forall l :: ValuesIn(observed, l)
                    == if l in names
                       then Values(before, l) + (if l in done && l in m then {m[l]} else {}) else {})
  }

  lemma PartlyDone(names: seq<string>, observed: map<string, set<string>>, before: seq<map<string, string>>,
                   m: map<string, string>, done: set<string>)
    requires Partly(names, observed, before, m, done)
    requires forall l | l in names && l in m :: l in done
    ensures Collected(names, observed, before + [m])
  {
    forall l
      ensures ValuesIn(observed, l) == if l in names then Values(before + [m], l) else {}
    {
      ValuesAppend(before, m, l);
    }
  }

  /** Looking at one more label of m. */
  lemma PartlyMore(names: seq<string>, observed: map<string, set<string>>, before: seq<map<string, string>>,
                   m: map<string, string>, done: set<string>, l: string)
    requires Partly(names, observed, before, m, done) && l in m
    ensures Partly(names, NotedIf(names, observed, l, m[l]), before, m, done + {l})
  {
    var next := NotedIf(names, observed, l, m[l]);
    forall x
      ensures ValuesIn(next, x)
              == if x in names
                 then Values(before, x) + (if x in done + {l} && x in m then {m[x]} else {}) else {}
    {
      assert ValuesIn(next, x) == ValuesIn(observed, x) + if x == l && l in names then {m[l]} else {};
    }
  }

  /** One label of m, added to what was collected from the labels in `done`. */
  method NoteLabel(names: seq<string>, observed: map<string, set<string>>, ghost before: seq<map<string, string>>,
                   m: map<string, string>, ghost done: set<string>, l: string)
    returns (next: map<string, set<string>>)
    requires Partly(names, observed, before, m, done) && l in m
    ensures Partly(names, next, before, m, done + {l})
  {
    PartlyMore(names, observed, before, m, done, l);
    next := NotedIf(names, observed, l, m[l]);
  }

  lemma MoreElements(s: seq<string>, j: nat)
    requires j < |s|
    ensures Elements(s[..j + 1]) == Elements(s[..j]) + {s[j]} && s[j] in s
  {
    assert s[..j + 1] == s[..j] + [s[j]];
  }

  /** Go: for each series, each of its labels that is one of the enumerated. */
  method GoLabels(names: seq<string>, observed: map<string, set<string>>, ghost before: seq<map<string, string>>,
                  m: map<string, string>)
    returns (next: map<string, set<string>>)
    requires Collected(names, observed, before)
    ensures Collected(names, next, before + [m])
  {
    next := observed;
    var list := Listed(m.Keys);
    for j := 0 to |list|
      invariant Partly(names, next, before, m, Elements(list[..j]))
    {
      MoreElements(list, j);
      assert list[j] in Elements(list);
      next := NoteLabel(names, next, before, m, Elements(list[..j]), list[j]);
    }
    assert list[..|list|] == list;
    PartlyDone(names, next, before, m, Elements(list));
  }

  /** Python: for each sample, each enumerated label it has. */
  method PyLabels(names: seq<string>, observed: map<string, set<string>>, ghost before: seq<map<string, string>>,
                  m: map<string, string>)
    returns (next: map<string, set<string>>)
    requires Collected(names, observed, before)
    ensures Collected(names, next, before + [m])
  {
    next := observed;
    for j := 0 to |names|
      invariant Partly(names, next, before, m, Elements(names[..j]))
    {
      var l := names[j];
      MoreElements(names, j);
      if l in m {
        next := NoteLabel(names, next, before, m, Elements(names[..j]), l);
      }
    }
    PartlyDone(names, next, before, m, Elements(names[..|names|]));
  }

  /** The values of the labels "state", "outcome" and "reason", and of no other label. */
  lemma CollectedMeans(observed: map<string, set<string>>, labelSets: seq<map<string, string>>, l: string, v: string)
    requires Collected(ENUMERATED, observed, labelSets)
    ensures l in observed && v in observed[l]
            <==> (l == "state" || l == "outcome" || l == "reason") && exists m :: m in labelSets && l in m && m[l] == v
    ensures l in observed <==> (l == "state" || l == "outcome" || l == "reason") && exists m :: m in labelSets && l in m
  {
    assert ENUMERATED[0] == "state" && ENUMERATED[1] == "outcome" && ENUMERATED[2] == "reason";
    assert ValuesIn(observed, l) == if l in ENUMERATED then Values(labelSets, l) else {};
    if m :| m in labelSets && l in m {
      assert m[l] in Values(labelSets, l);
    }
    if l in observed {
      var x :| x in observed[l];
      assert x in Values(labelSets, l);
    }
  }

  method GoObserved(series: seq<Series>) returns (observed: map<string, set<string>>)
    ensures Collected(ENUMERATED, observed, SeriesLabels(series))
  {
    observed := map[];
    for i := 0 to |series|
      invariant Collected(ENUMERATED, observed, SeriesLabels(series)[..i])
    {
      observed := GoLabels(ENUMERATED, observed, SeriesLabels(series)[..i], series[i].labels);
      assert SeriesLabels(series)[..i + 1] == SeriesLabels(series)[..i] + [series[i].labels];
    }
    assert SeriesLabels(series)[..|series|] == SeriesLabels(series);
  }

  method PyObserved(samples: seq<Sample>) returns (observed: map<string, set<string>>)
    ensures Collected(ENUMERATED, observed, SampleLabels(samples))
  {
    observed := map[];
    for i := 0 to |samples|
      invariant Collected(ENUMERATED, observed, SampleLabels(samples)[..i])
    {
      observed := PyLabels(ENUMERATED, observed, SampleLabels(samples)[..i], samples[i].labels);
      assert SampleLabels(samples)[..i + 1] == SampleLabels(samples)[..i] + [samples[i].labels];
    }
    assert SampleLabels(samples)[..|samples|] == SampleLabels(samples);
  }

  lemma ExposedValues(series: seq<Series>, samples: seq<Sample>, l: string)
    requires Exposes(series, samples)
    ensures Values(SeriesLabels(series), l) == Values(SampleLabels(samples), l)
  {
    forall m
      ensures m in SeriesLabels(series) <==> m in SampleLabels(samples)
    {
      if m in SeriesLabels(series) {
        var i :| 0 <= i < |series| && SeriesLabels(series)[i] == m;
        var p :| p in samples && p.labels == series[i].labels;
        var j :| 0 <= j < |samples| && samples[j] == p;
        assert SampleLabels(samples)[j] == m;
      }
      if m in SampleLabels(samples) {
        var j :| 0 <= j < |samples| && SampleLabels(samples)[j] == m;
        var s :| s in series && s.labels == samples[j].labels;
        var i :| 0 <= i < |series| && series[i] == s;
        assert SeriesLabels(series)[i] == m;
      }
    }
  }

  /** Both probes observe the same values of the same labels of the same family. */
  lemma ObservedAgree(series: seq<Series>, samples: seq<Sample>,
                      go: map<string, set<string>>, py: map<string, set<string>>)
    requires Exposes(series, samples)
    requires Collected(ENUMERATED, go, SeriesLabels(series)) && Collected(ENUMERATED, py, SampleLabels(samples))
    ensures go == py
  {
    forall l
      ensures ValuesIn(go, l) == ValuesIn(py, l)
      ensures l in go <==> l in py
    {
      ExposedValues(series, samples, l);
      assert l in go <==> ValuesIn(go, l) != {};
      assert l in py <==> ValuesIn(py, l) != {};
    }
    forall l | l in go
      ensures go[l] == py[l]
    {
      assert ValuesIn(go, l) == ValuesIn(py, l);
    }
  }
}
