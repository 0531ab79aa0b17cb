/**
 The consumer probe: handler calls running concurrently, each appending its record under a mutex,
 the n-th append closing the channel the probe waits on.  A second close would panic.
 */
module Consumer {
  import opened Prelude
  import opened Sequences

  // ---- the critical section ----

  /**
   What recording r under the mutex does: it is appended, and the channel is closed, not having been
   closed before, exactly when that makes n records.
   */
  ghost predicate Collected<R>(n: int, before: seq<R>, wasClosed: bool, r: R, after: seq<R>, isClosed: bool) {
    && after == before + [r]
    && (isClosed <==> wasClosed || |after| == n)
    && (isClosed != wasClosed <==> |after| == n)
  }

  class Collector<R> {
    const n: int
    var got: seq<R>
    var closed: bool

    ghost predicate Valid()
      reads this
    {
      closed <==> 1 <= n <= |got|
    }

    constructor (n: int)
      ensures Valid() && this.n == n && got == [] && !closed
    {
      this.n := n;
      got := [];
      closed := false;
    }

    /** close(done): panics on a closed channel, so nobody may call it twice. */
    method Close()
      requires !closed
      modifies this`closed
      ensures closed
    {
      closed := true;
    }

    /** What a handler does while it owns the mutex. */
    method Collect(r: R)
      requires Valid()
      modifies this
      ensures Valid() && Collected(n, old(got), old(closed), r, got, closed)
    {
      got := got + [r];
      if |got| == n {
        Close();
      }
    }
  }

  // ---- every interleaving of handler calls ----

  datatype Phase = Preparing | Waiting | Locked | Appended | Checked | Returned(nil: bool)

  /** One handler call; `marshals` is false when its envelope cannot be encoded. */
  datatype Call = Call(marshals: bool, phase: Phase)

  datatype State = State(n: int, got: seq<nat>, closes: nat, mutex: Option<nat>, calls: seq<Call>)

  function At(s: State, i: nat, phase: Phase): State
    requires i < |s.calls|
  {
    s.(calls := s.calls[i := s.calls[i].(phase := phase)])
  }

  function Step(s: State, i: nat): State {
    if i >= |s.calls| then s
    else
      match s.calls[i].phase
      case Preparing => At(s, i, if s.calls[i].marshals then Waiting else Returned(false))
      case Waiting => if s.mutex.None? then At(s, i, Locked).(mutex := Some(i)) else s
      case Locked => At(s, i, Appended).(got := s.got + [i])
      case Appended => At(s, i, Checked).(closes := if |s.got| == s.n then s.closes + 1 else s.closes)
      case Checked => At(s, i, Returned(true)).(mutex := None)
      case Returned(_) => s
  }

  function Exec(s: State, schedule: seq<nat>): State
    decreases |schedule|
  {
    if schedule == [] then s else Exec(Step(s, schedule[0]), schedule[1..])
  }

  predicate Start(s: State) {
    && s.got == [] && s.closes == 0 && s.mutex == None
    && forall i | 0 <= i < |s.calls| :: s.calls[i].phase == Preparing
  }

  predicate Inside(p: Phase) {
    p.Locked? || p.Appended? || p.Checked?
  }

  predicate Recorded(p: Phase) {
    p.Appended? || p.Checked? || p == Returned(true)
  }

  /** How often done must have been closed: once the n-th append has been checked. */
  function Closings(s: State): nat {
    var pending := s.mutex.Some? && s.mutex.value < |s.calls| && s.calls[s.mutex.value].phase == Appended;
    if 1 <= s.n < |s.got| || (1 <= s.n == |s.got| && !pending) then 1 else 0
  }

  ghost predicate Inv(s: State) {
    && (forall i: nat | i < |s.calls| :: Inside(s.calls[i].phase) <==> s.mutex == Some(i))
    && (s.mutex.Some? ==> s.mutex.value < |s.calls|)
    && (forall i: nat :: i in s.got <==> i < |s.calls| && Recorded(s.calls[i].phase))
    && Distinct(s.got)
    && (forall i: nat | i < |s.calls| :: s.calls[i].phase == Appended ==> s.got != [] && s.got[|s.got| - 1] == i)
    && s.closes == Closings(s)
  }

  lemma StepInv(s: State, i: nat)
    requires Inv(s)
    ensures Inv(Step(s, i))
  {
    if i < |s.calls| && s.calls[i].phase.Locked? {
      assert Step(s, i).got == s.got + [i] && i !in s.got;
    }
  }

  lemma {:induction false} ExecInv(s: State, schedule: seq<nat>)
    requires Inv(s)
    ensures Inv(Exec(s, schedule))
    decreases |schedule|
  {
    if schedule != [] {
      StepInv(s, schedule[0]);
      ExecInv(Step(s, schedule[0]), schedule[1..]);
    }
  }

  /**
   In every interleaving: done is closed at most once, never for n <= 0, and whenever no call is in
   the critical section exactly when n records are there; each call that returned nil has exactly
   one record and no other call outside the critical section has any.
   */
  lemma ClosedAtMostOnce(s: State, schedule: seq<nat>)
    requires Start(s)
    ensures var t := Exec(s, schedule);
            && t.closes <= 1 && (t.closes == 1 ==> 1 <= t.n <= |t.got|)
            && (t.mutex.None? ==> (t.closes == 1 <==> 1 <= t.n <= |t.got|))
            && Distinct(t.got)
            && (t.mutex.None? ==> forall i: nat ::
                  i in t.got <==> i < |t.calls| && t.calls[i].phase == Returned(true))
  {
    ExecInv(s, schedule);
  }

  /** How many steps of call i the schedule has. */
  function Turns(schedule: seq<nat>, i: nat): nat {
    if schedule == [] then 0 else (if schedule[0] == i then 1 else 0) + Turns(schedule[1..], i)
  }

  /** After k steps of its critical section call i still owns the mutex, and nobody else has touched the records. */
  ghost predicate Midway(s: State, i: nat, k: nat, u: State) {
    && i < |s.calls| && k <= 2
    && Inv(u) && |u.calls| == |s.calls| && u.n == s.n && u.mutex == Some(i)
    && u.calls[i] == s.calls[i].(phase := if k == 0 then Locked else if k == 1 then Appended else Checked)
    && u.got == (if k == 0 then s.got else s.got + [i])
    && u.closes == s.closes + (if k == 2 && |u.got| == s.n then 1 else 0)
    && Untouched(s, i, u)
  }

  /** No other call has entered or left its critical section. */
  ghost predicate Untouched(s: State, i: nat, u: State) {
    && |u.calls| == |s.calls|
    && forall j | 0 <= j < |s.calls| && j != i ::
         && Inside(u.calls[j].phase) == Inside(s.calls[j].phase)
         && Recorded(u.calls[j].phase) == Recorded(s.calls[j].phase)
  }

  lemma {:induction false} MidwayHolds(s: State, i: nat, k: nat, u: State, schedule: seq<nat>)
    requires i < |s.calls| && k + Turns(schedule, i) <= 2 && Midway(s, i, k, u)
    ensures Midway(s, i, k + Turns(schedule, i), Exec(u, schedule))
    decreases |schedule|
  {
    if schedule != [] {
      var j := schedule[0];
      StepInv(u, j);
      MidwayHolds(s, i, if j == i then k + 1 else k, Step(u, j), schedule[1..]);
    }
  }

  /**
   The critical section of a call that owns the mutex is one Collect: whatever steps any other
   calls take among its three, the records and the channel change as Collector.Collect changes them.
   */
  lemma CriticalSection(s: State, i: nat, schedule: seq<nat>)
    requires Inv(s) && i < |s.calls| && s.calls[i].phase == Locked && Turns(schedule, i) == 2
    ensures var t := Step(Exec(s, schedule), i);
            && t.n == s.n && t.mutex == None && Untouched(s, i, t) && t.calls[i].phase == Returned(true)
            && Collected(s.n, s.got, s.closes > 0, i, t.got, t.closes > 0)
            && t.closes <= 1
  {
    assert Midway(s, i, 0, s);
    MidwayHolds(s, i, 0, s, schedule);
    var u := Exec(s, schedule);
    StepInv(u, i);
  }

  /** Where a call stands, given what it started as: only one whose envelope marshals gets past the encoding. */
  ghost predicate Progressed(start: Call, now: Call) {
    && now.marshals == start.marshals
    && (now.phase.Returned? ==> (now.phase.nil <==> start.marshals))
    && (now.phase.Waiting? || Inside(now.phase) ==> start.marshals)
  }

  lemma {:induction false} CallsProgress(s: State, u: State, schedule: seq<nat>)
    requires |u.calls| == |s.calls| && forall i | 0 <= i < |s.calls| :: Progressed(s.calls[i], u.calls[i])
    ensures |Exec(u, schedule).calls| == |s.calls|
    ensures forall i | 0 <= i < |s.calls| :: Progressed(s.calls[i], Exec(u, schedule).calls[i])
    decreases |schedule|
  {
    if schedule != [] {
      CallsProgress(s, Step(u, schedule[0]), schedule[1..]);
    }
  }

  /** A call returns nil exactly when its envelope could be encoded. */
  lemma ReturnsNilIffMarshals(s: State, schedule: seq<nat>)
    requires Start(s)
    ensures |Exec(s, schedule).calls| == |s.calls|
    ensures forall i | 0 <= i < |s.calls| :: var phase := Exec(s, schedule).calls[i].phase;
              phase.Returned? ==> (phase.nil <==> s.calls[i].marshals)
  {
    CallsProgress(s, s, schedule);
  }

  function Marshalling(calls: seq<Call>): set<nat> {
    set i | 0 <= i < |calls| && calls[i].marshals
  }

  /**
   When all calls have returned, in whatever order they ran: the records are those of exactly the
   calls whose envelope could be encoded, each once, and the channel is closed iff 1 <= n <= their number.
   */
  lemma AllReturned(s: State, schedule: seq<nat>)
    requires Start(s)
    requires forall i | 0 <= i < |Exec(s, schedule).calls| :: Exec(s, schedule).calls[i].phase.Returned?
    ensures var t := Exec(s, schedule);
            && Elements(t.got) == Marshalling(s.calls) && |t.got| == |Marshalling(s.calls)|
            && t.closes == (if 1 <= s.n <= |Marshalling(s.calls)| then 1 else 0)
  {
    var t := Exec(s, schedule);
    ExecInv(s, schedule);
    ReturnsNilIffMarshals(s, schedule);
    ExecKeepsN(s, schedule);
    forall i: nat
      ensures i in Elements(t.got) <==> i in Marshalling(s.calls)
    {
      assert i in t.got <==> i < |t.calls| && Recorded(t.calls[i].phase);
    }
    assert Elements(t.got) == Marshalling(s.calls);
    ElementsSize(t.got);
    assert t.mutex.None?;
  }

  lemma {:induction false} ExecKeepsN(s: State, schedule: seq<nat>)
    ensures Exec(s, schedule).n == s.n
    decreases |schedule|
  {
    if schedule != [] {
      ExecKeepsN(Step(s, schedule[0]), schedule[1..]);
    }
  }

  /** The close comes with the n-th record: by the call that appended it, while it is the last one. */
  lemma ClosedByNth(s: State, schedule: seq<nat>, i: nat)
    requires Start(s)
    ensures var t := Exec(s, schedule);
            Step(t, i).closes != t.closes ==>
              && t.closes == 0 && Step(t, i).closes == 1
              && 1 <= t.n == |t.got| && t.got[t.n - 1] == i
  {
    ExecInv(s, schedule);
  }

  // ---- the link index ----

  /** A finished span: its id and the trace ids it links to. */
  datatype Span = Span(id: nat, links: seq<string>)

  function AllLinks(spans: seq<Span>, id: nat): seq<string> {
    if spans == [] then []
    else AllLinks(spans[..|spans| - 1], id) + if spans[|spans| - 1].id == id then spans[|spans| - 1].links else []
  }

  function LastLinks(spans: seq<Span>, id: nat): seq<string> {
    if spans == [] then []
    else if spans[|spans| - 1].id == id then spans[|spans| - 1].links
    else LastLinks(spans[..|spans| - 1], id)
  }

  function Get(links: map<nat, seq<string>>, id: nat): seq<string> {
    if id in links then links[id] else []
  }

  /** The Go inner loop: each link of the span is appended to the list of the span's id. */
  method AddLinks(before: map<nat, seq<string>>, s: Span) returns (links: map<nat, seq<string>>)
    ensures forall id: nat :: Get(links, id) == Get(before, id) + if id == s.id then s.links else []
  {
    links := before;
    for j := 0 to |s.links|
      invariant forall id: nat | id != s.id :: Get(links, id) == Get(before, id)
      invariant Get(links, s.id) == Get(before, s.id) + s.links[..j]
    {
      assert s.links[..j + 1] == s.links[..j] + [s.links[j]];
      links := links[s.id := Get(links, s.id) + [s.links[j]]];
    }
    assert s.links[..|s.links|] == s.links;
  }

  /** The Go index over all finished spans. */
  method GoLinks(spans: seq<Span>) returns (links: map<nat, seq<string>>)
    ensures forall id: nat :: Get(links, id) == AllLinks(spans, id)
  {
    links := map[];
    for i := 0 to |spans|
      invariant forall id: nat :: Get(links, id) == AllLinks(spans[..i], id)
    {
      links := AddLinks(links, spans[i]);
      assert spans[..i + 1][..i] == spans[..i];
    }
    assert spans[..|spans|] == spans;
  }

  /** The Python index: a dictionary comprehension, where a later span replaces an earlier one. */
  method PyLinks(spans: seq<Span>) returns (links: map<nat, seq<string>>)
    ensures forall id: nat :: Get(links, id) == LastLinks(spans, id)
  {
    links := map[];
    for i := 0 to |spans|
      invariant forall id: nat :: Get(links, id) == LastLinks(spans[..i], id)
    {
      assert spans[..i + 1][..i] == spans[..i];
      links := links[spans[i].id := spans[i].links];
    }
    assert spans[..|spans|] == spans;
  }

  /** The links of `id` recorded before its last span. */
  function EarlierLinks(spans: seq<Span>, id: nat): seq<string> {
    if spans == [] then []
    else if spans[|spans| - 1].id == id then AllLinks(spans[..|spans| - 1], id)
    else EarlierLinks(spans[..|spans| - 1], id)
  }

  lemma {:induction false} AllIsEarlierAndLast(spans: seq<Span>, id: nat)
    ensures AllLinks(spans, id) == EarlierLinks(spans, id) + LastLinks(spans, id)
  {
    if spans != [] && spans[|spans| - 1].id != id {
      AllIsEarlierAndLast(spans[..|spans| - 1], id);
    }
  }

  lemma {:induction false} EarlierNone(spans: seq<Span>, id: nat)
    ensures EarlierLinks(spans, id) == []
            <==> forall p, q | 0 <= p < q < |spans| && spans[p].id == spans[q].id == id :: spans[p].links == []
  {
    if spans != [] {
      var n := |spans| - 1;
      var init := spans[..n];
      EarlierNone(init, id);
      if spans[n].id == id {
        AllNone(init, id);
      }
    }
  }

  lemma {:induction false} AllNone(spans: seq<Span>, id: nat)
    ensures AllLinks(spans, id) == [] <==> forall p | 0 <= p < |spans| && spans[p].id == id :: spans[p].links == []
  {
    if spans != [] {
      AllNone(spans[..|spans| - 1], id);
    }
  }

  /** The two indexes agree on an id exactly when none of its spans but the last has links. */
  lemma LinksAgreeIff(spans: seq<Span>, id: nat)
    ensures AllLinks(spans, id) == LastLinks(spans, id)
            <==> forall p, q | 0 <= p < q < |spans| && spans[p].id == spans[q].id == id :: spans[p].links == []
  {
    AllIsEarlierAndLast(spans, id);
    EarlierNone(spans, id);
  }

  /** A span that ended, with a link, before another of its id: Go keeps both links, Python the second. */
  lemma RepeatedSpanDiffers(id: nat, a: string, b: string)
    ensures AllLinks([Span(id, [a]), Span(id, [b])], id) == [a, b]
    ensures LastLinks([Span(id, [a]), Span(id, [b])], id) == [b]
  {
    var first, both := [Span(id, [a])], [Span(id, [a]), Span(id, [b])];
    assert first[..0] == [] && both[..1] == first;
    assert AllLinks(first, id) == [] + [a];
    assert AllLinks(both, id) == AllLinks(first, id) + [b];
  }

  lemma {:induction false} NoLinksOf(spans: seq<Span>, id: nat)
    requires forall s | s in spans :: s.id != id
    ensures AllLinks(spans, id) == []
  {
    if spans != [] {
      NoLinksOf(spans[..|spans| - 1], id);
    }
  }

  /** So they always agree on spans with distinct ids. */
  lemma {:induction false} DistinctSpansAgree(spans: seq<Span>, id: nat)
    requires forall p, q | 0 <= p < q < |spans| :: spans[p].id != spans[q].id
    ensures AllLinks(spans, id) == LastLinks(spans, id)
  {
    if spans != [] {
      var n := |spans| - 1;
      if spans[n].id == id {
        NoLinksOf(spans[..n], id);
      } else {
        DistinctSpansAgree(spans[..n], id);
      }
    }
  }
}
