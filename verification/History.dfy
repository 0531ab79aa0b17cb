/**
 Sequential histories: runs of either language one after the other on one database.  What a
 history leaves behind and reports is the fold of `Perform`, so handing any run to the other
 language changes nothing; and what `Perform` does is stated in closed form.
 */
module History {
  import opened Prelude
  import opened Runners
  import opened LockLine
  import opened Solo
  import opened Progress

  // ---- every completed sequential schedule is the fold ----

  datatype Replayed = Replayed(db: Db, results: seq<Result>)

  function Replay(n: nat, db: Db, rs: seq<Runner>): (h: Replayed)
    ensures |h.results| == |rs|
    decreases |rs|
  {
    if rs == [] then Replayed(db, [])
    else
      var p := Perform(n, rs[0], 0, db);
      var rest := Replay(n, p.db, rs[1..]);
      Replayed(rest.db, [p.result] + rest.results)
  }

  /** One after the other: no run steps after a later one has started. */
  predicate OneByOne(schedule: seq<nat>) {
    forall p, q | 0 <= p < q < |schedule| :: schedule[p] <= schedule[q]
  }

  /** Runs before i have ended, runs from i on have not started, and no lock is wanted. */
  ghost predicate Turn(s: State, i: nat) {
    && i <= |s.runners|
    && (forall j | 0 <= j < i :: s.runners[j].pc.Done?)
    && (forall j | i <= j < |s.runners| :: s.runners[j].pc == Idle && s.runners[j].did == 0)
    && (forall k :: Line(s, k) == [])
  }

  /** How many of the leading entries are i. */
  function Leading(schedule: seq<nat>, i: nat): (t: nat)
    ensures t <= |schedule|
    ensures schedule == Rep(t, i) + schedule[t..]
    ensures t < |schedule| ==> schedule[t] != i
  {
    if schedule == [] || schedule[0] != i then
      assert schedule == Rep(0, i) + schedule[0..];
      0
    else
      var t := Leading(schedule[1..], i);
      assert schedule == Rep(t + 1, i) + schedule[t + 1..];
      t + 1
  }

  lemma {:induction false} DoneStays(s: State, i: nat, t: nat)
    requires i < |s.runners| && s.runners[i].pc.Done?
    ensures Exec(s, Rep(t, i)) == s
  {
    if t > 0 {
      RepStep(s, i, t - 1);
      DoneStays(s, i, t - 1);
    }
  }

  lemma {:induction false} OthersKeep(s: State, schedule: seq<nat>, i: nat)
    requires i < |s.runners| && i !in schedule
    ensures i < |Exec(s, schedule).runners| && Exec(s, schedule).runners[i] == s.runners[i]
    decreases |schedule|
  {
    if schedule != [] {
      StepFrame(s, schedule[0]);
      OthersKeep(Step(s, schedule[0]), schedule[1..], i);
    }
  }

  /** A lone run that is done after some number of its own steps is where RunAlone says. */
  lemma SoloEnds(s: State, i: nat, t: nat)
    requires i < |s.runners| && s.runners[i].pc == Idle && Line(s, s.runners[i].key) == []
    requires i < |Exec(s, Rep(t, i)).runners| && Exec(s, Rep(t, i)).runners[i].pc.Done?
    ensures Exec(s, Rep(t, i)) == Finished(s, i)
  {
    var end := RunAlone(s, i);
    if end <= t {
      RepAppend(s, i, end, t - end);
      DoneStays(Finished(s, i), i, t - end);
    } else {
      RepAppend(s, i, t, end - t);
      DoneStays(Exec(s, Rep(t, i)), i, end - t);
    }
  }

  lemma FinishedTurn(s: State, i: nat)
    requires Turn(s, i) && i < |s.runners|
    ensures Turn(Finished(s, i), i + 1)
  {
    var t := Finished(s, i);
    forall k
      ensures Line(t, k) == []
    {
      assert Line(s, k) == [];
    }
  }

  /** What follows the leading steps of run i, t of them, belongs to later runs. */
  lemma Rest(schedule: seq<nat>, i: nat, t: nat)
    requires OneByOne(schedule) && t <= |schedule| && (t < |schedule| ==> schedule[t] > i)
    ensures OneByOne(schedule[t..]) && forall p | 0 <= p < |schedule[t..]| :: schedule[t..][p] >= i + 1
  {
    forall p | 0 <= p < |schedule[t..]|
      ensures schedule[t..][p] >= schedule[t]
    {
      assert schedule[t..][p] == schedule[t + p];
    }
  }

  /** Only runs before j have taken steps, and all of those have ended. */
  ghost predicate Through(s: State, schedule: seq<nat>, j: nat) {
    && OneByOne(schedule) && j <= |s.runners|
    && (forall p | 0 <= p < |schedule| :: schedule[p] < j || schedule[p] >= |s.runners|)
    && |Exec(s, schedule).runners| == |s.runners|
    && forall q | 0 <= q < j :: Exec(s, schedule).runners[q].pc.Done?
  }

  /** The leading steps of run i, and the rest, which belongs to later runs. */
  lemma SplitOff(schedule: seq<nat>, i: nat) returns (t: nat)
    requires OneByOne(schedule) && forall p | 0 <= p < |schedule| :: schedule[p] >= i
    ensures t <= |schedule| && schedule == Rep(t, i) + schedule[t..]
    ensures OneByOne(schedule[t..]) && forall p | 0 <= p < |schedule[t..]| :: schedule[t..][p] >= i + 1
  {
    t := Leading(schedule, i);
    assert t < |schedule| ==> schedule[t] > i;
    Rest(schedule, i, t);
  }

  /** The next run of the history: its steps, all of them, then the rest. */
  lemma NextRun(s: State, i: nat, j: nat, schedule: seq<nat>) returns (t: nat)
    requires Turn(s, i) && i < j && Through(s, schedule, j)
    requires forall p | 0 <= p < |schedule| :: schedule[p] >= i
    ensures t <= |schedule| && Through(Finished(s, i), schedule[t..], j)
    ensures forall p | 0 <= p < |schedule[t..]| :: schedule[t..][p] >= i + 1
    ensures Exec(s, schedule) == Exec(Finished(s, i), schedule[t..])
  {
    t := SplitOff(schedule, i);
    NotIn(schedule[t..], i);
    RunOver(s, i, t, schedule[t..]);
    ThroughRest(s, Finished(s, i), schedule, t, j);
  }

  lemma NotIn(rest: seq<nat>, i: nat)
    requires forall p | 0 <= p < |rest| :: rest[p] >= i + 1
    ensures i !in rest
  {
  }

  lemma ThroughRest(s: State, u: State, schedule: seq<nat>, t: nat, j: nat)
    requires Through(s, schedule, j) && t <= |schedule| && OneByOne(schedule[t..])
    requires |u.runners| == |s.runners| && Exec(u, schedule[t..]) == Exec(s, schedule)
    ensures Through(u, schedule[t..], j)
  {
    assert forall p | 0 <= p < |schedule[t..]| :: schedule[t..][p] == schedule[t + p];
  }

  /** A run that is over in the end was over after its own steps, and where RunAlone says. */
  lemma RunOver(s: State, i: nat, t: nat, rest: seq<nat>)
    requires Turn(s, i) && i < |s.runners| && i !in rest
    requires i < |Exec(s, Rep(t, i) + rest).runners| && Exec(s, Rep(t, i) + rest).runners[i].pc.Done?
    ensures Exec(s, Rep(t, i) + rest) == Exec(Finished(s, i), rest)
  {
    ExecAppend(s, Rep(t, i), rest);
    ExecFrame(s, Rep(t, i));
    OthersKeep(Exec(s, Rep(t, i)), rest, i);
    assert Line(s, s.runners[i].key) == [];
    SoloEnds(s, i, t);
  }

  /** In t the runs from i up to j have ended with the results of the fold over them, and left its database. */
  ghost predicate Folded(s: State, i: nat, j: nat, t: State) {
    && i <= j <= |s.runners| == |t.runners|
    && var h := Replay(s.n, s.db, s.runners[i..j]);
       t.db == h.db && forall q | i <= q < j :: t.runners[q].pc == Done(h.results[q - i])
  }

  lemma FoldedEarlier(s: State, i: nat, j: nat, t: State)
    requires i < j <= |s.runners| && s.runners[i].did == 0 && Folded(Finished(s, i), i + 1, j, t)
    requires i < |t.runners| && t.runners[i] == Finished(s, i).runners[i]
    ensures Folded(s, i, j, t)
  {
    var u := Finished(s, i);
    assert u.runners[i + 1..j] == s.runners[i..j][1..];
    var p := Perform(s.n, s.runners[i], 0, s.db);
    var h := Replay(s.n, s.db, s.runners[i..j]);
    var rest := Replay(u.n, u.db, u.runners[i + 1..j]);
    assert h == Replayed(rest.db, [p.result] + rest.results);
    forall q | i < q < j
      ensures t.runners[q].pc == Done(h.results[q - i])
    {
      assert h.results[q - i] == rest.results[q - (i + 1)];
    }
  }

  lemma {:induction false} HistoryFrom(s: State, i: nat, j: nat, schedule: seq<nat>)
    requires Turn(s, i) && i <= j && Through(s, schedule, j)
    requires forall p | 0 <= p < |schedule| :: schedule[p] >= i
    ensures Folded(s, i, j, Exec(s, schedule))
    decreases j - i
  {
    if i < j {
      var t := NextRun(s, i, j, schedule);
      var rest := schedule[t..];
      FinishedTurn(s, i);
      HistoryFrom(Finished(s, i), i + 1, j, rest);
      assert i !in rest;
      OthersKeep(Finished(s, i), rest, i);
      FoldedEarlier(s, i, j, Exec(s, schedule));
    } else {
      Outsiders(s, schedule);
    }
  }

  lemma {:induction false} Outsiders(s: State, schedule: seq<nat>)
    requires forall p | 0 <= p < |schedule| :: schedule[p] >= |s.runners|
    ensures Exec(s, schedule) == s
    decreases |schedule|
  {
    if schedule != [] {
      Outsiders(s, schedule[1..]);
    }
  }

  /** At the boundary between two runs: the database and results are those of the fold so far. */
  lemma HistoryUntil(s: State, schedule: seq<nat>, j: nat)
    requires Initial(s) && Through(s, schedule, j)
    ensures var h := Replay(s.n, s.db, s.runners[..j]);
            var t := Exec(s, schedule);
            && t.db == h.db && |t.runners| == |s.runners|
            && forall q | 0 <= q < j :: t.runners[q].pc == Done(h.results[q])
  {
    HistoryFrom(s, 0, j, schedule);
    assert s.runners[0..j] == s.runners[..j];
  }

  /** A completed sequential schedule has a boundary after any number of runs. */
  lemma BoundaryExists(s: State, schedule: seq<nat>, j: nat) returns (c: nat)
    requires OneByOne(schedule) && AllDone(Exec(s, schedule)) && j <= |s.runners|
    ensures c <= |schedule| && Through(s, schedule[..c], j)
  {
    c := EndOf(schedule, j);
    var head, rest := schedule[..c], schedule[c..];
    assert schedule == head + rest;
    ExecAppend(s, head, rest);
    ExecFrame(s, head);
    ExecFrame(s, schedule);
    forall q: nat | q < j
      ensures Exec(s, head).runners[q].pc.Done?
    {
      assert forall p | 0 <= p < |rest| :: rest[p] == schedule[c + p] >= j;
      OthersKeep(Exec(s, head), rest, q);
    }
  }

  /** Where the steps of runs before j end. */
  lemma EndOf(schedule: seq<nat>, j: nat) returns (c: nat)
    requires OneByOne(schedule)
    ensures c <= |schedule| && OneByOne(schedule[..c])
    ensures forall p | 0 <= p < c :: schedule[..c][p] < j
    ensures forall p | c <= p < |schedule| :: schedule[p] >= j
  {
    c := 0;
    while c < |schedule| && schedule[c] < j
      invariant c <= |schedule| && forall p | 0 <= p < c :: schedule[p] < j
    {
      c := c + 1;
    }
    assert c < |schedule| ==> forall p | c < p < |schedule| :: schedule[c] <= schedule[p];
  }

  /** Every completed sequential schedule leaves the database, and reports the results, of the fold. */
  lemma SequentialHistory(s: State, schedule: seq<nat>)
    requires Initial(s) && OneByOne(schedule) && AllDone(Exec(s, schedule))
    ensures var h := Replay(s.n, s.db, s.runners);
            var t := Exec(s, schedule);
            && t.db == h.db && |t.runners| == |s.runners|
            && forall j | 0 <= j < |s.runners| :: t.runners[j].pc == Done(h.results[j])
  {
    ExecFrame(s, schedule);
    HistoryUntil(s, schedule, |s.runners|);
    assert s.runners[..|s.runners|] == s.runners;
  }

  /** One more run of the fold. */
  lemma {:induction false} ReplayMore(n: nat, db: Db, rs: seq<Runner>, q: nat)
    requires q < |rs|
    ensures var p := Perform(n, rs[q], 0, Replay(n, db, rs[..q]).db);
            && Replay(n, db, rs).results[q] == p.result && Replay(n, db, rs[..q + 1]).db == p.db
    decreases q
  {
    if q == 0 {
      assert rs[..1] == [rs[0]];
    } else {
      var first := Perform(n, rs[0], 0, db);
      assert rs[..q][1..] == rs[1..][..q - 1] && rs[..q + 1][1..] == rs[1..][..q];
      ReplayMore(n, first.db, rs[1..], q - 1);
    }
  }

  /** Sequential schedules exist, for any requests: each run takes its steps when its turn comes. */
  lemma {:induction false} TakeTurns(s: State, i: nat) returns (schedule: seq<nat>)
    requires Turn(s, i)
    ensures OneByOne(schedule) && forall p | 0 <= p < |schedule| :: schedule[p] >= i
    ensures AllDone(Exec(s, schedule))
    decreases |s.runners| - i
  {
    if i == |s.runners| {
      schedule := [];
    } else {
      assert Line(s, s.runners[i].key) == [];
      var t := RunAlone(s, i);
      FinishedTurn(s, i);
      var rest := TakeTurns(Finished(s, i), i + 1);
      schedule := Rep(t, i) + rest;
      ExecAppend(s, Rep(t, i), rest);
    }
  }

  /** Two histories that ask for the same operations, of runners in any languages. */
  ghost predicate SameRequests(s: State, t: State) {
    && s.n == t.n && s.db == t.db && |s.runners| == |t.runners|
    && forall j | 0 <= j < |s.runners| ::
         && s.runners[j].op == t.runners[j].op && s.runners[j].fails == t.runners[j].fails
         && s.runners[j].cut == t.runners[j].cut && s.runners[j].name == t.runners[j].name
  }

  lemma {:induction false} ReplaySame(n: nat, db: Db, rs: seq<Runner>, qs: seq<Runner>)
    requires |rs| == |qs|
    requires forall j | 0 <= j < |rs| ::
               rs[j].op == qs[j].op && rs[j].fails == qs[j].fails && rs[j].cut == qs[j].cut && rs[j].name == qs[j].name
    ensures Replay(n, db, rs) == Replay(n, db, qs)
    decreases |rs|
  {
    if rs != [] {
      SameSpec(n, rs[0], qs[0], 0, db);
      ReplaySame(n, Perform(n, rs[0], 0, db).db, rs[1..], qs[1..]);
    }
  }

  /**
   The runners are interchangeable: reassigning the languages of a sequential history changes
   neither the database it leaves nor the result of any run.
   */
  lemma Interchangeable(s: State, t: State, a: seq<nat>, b: seq<nat>)
    requires Initial(s) && OneByOne(a) && AllDone(Exec(s, a))
    requires Initial(t) && OneByOne(b) && AllDone(Exec(t, b))
    requires SameRequests(s, t)
    ensures Exec(s, a).db == Exec(t, b).db && |Exec(s, a).runners| == |Exec(t, b).runners|
    ensures forall j | 0 <= j < |Exec(s, a).runners| :: Exec(s, a).runners[j].pc == Exec(t, b).runners[j].pc
  {
    SequentialHistory(s, a);
    SequentialHistory(t, b);
    ReplaySame(s.n, s.db, s.runners, t.runners);
  }

  // ---- what one run does, in closed form ----

  function Rows(from: nat, to: nat, who: string): (rows: seq<Effect>)
    requires from <= to
    ensures |rows| == to - from
  {
    seq(to - from, j requires 0 <= j < to - from => Effect(from + 1 + j, who))
  }

  /** The last version an `up` or a fitting `steps` is to reach from version v. */
  function Goal(n: nat, op: Op, did: nat, v: nat): nat
    requires op.Up? || (op.Steps? && did <= op.n)
  {
    if op.Up? then n else v + (op.n - did)
  }

  /** Which migration is the first not to be applied: a failing one, or the one after the goal. */
  ghost predicate StopsAt(n: nat, r: Runner, did: nat, db: Db, stop: nat) {
    && (r.op.Up? || (r.op.Steps? && did <= r.op.n))
    && var v, g := db.row.version, Goal(n, r.op, did, db.row.version);
       && !db.row.dirty && v <= g <= n && db.schema == Prefix(v) && v < stop <= g + 1
       && (stop <= g ==> stop in r.fails)
       && (forall w: nat | v < w < stop :: w !in r.fails)
  }

  /** The run that has applied everything below `stop`, in order and under its name. */
  function AppliedBelow(n: nat, r: Runner, did: nat, db: Db, stop: nat): Run
    requires r.op.Up? || (r.op.Steps? && did <= r.op.n)
    requires db.row.version < stop && db.row.version <= Goal(n, r.op, did, db.row.version)
  {
    var v := db.row.version;
    var g := Goal(n, r.op, did, v);
    Run(Db(if stop <= g && stop in r.fails then Row(stop, true) else Row(g, false), Prefix(stop - 1),
           db.effects + Rows(v, stop - 1, r.name)),
        if stop <= g && stop in r.fails then Failed(Error, r.fails[stop]) else Finish(did + (g - v)),
        did + (stop - 1 - v))
  }

  lemma StopsNow(n: nat, r: Runner, did: nat, db: Db, stop: nat)
    requires StopsAt(n, r, did, db, stop)
    requires stop == db.row.version + 1
    ensures Perform(n, r, did, db) == AppliedBelow(n, r, did, db, stop)
  {
    assert db.effects + Rows(db.row.version, db.row.version, r.name) == db.effects;
  }

  lemma GoesOn(n: nat, r: Runner, did: nat, db: Db, stop: nat)
    requires StopsAt(n, r, did, db, stop)
    requires stop > db.row.version + 1
    ensures r.op.Up? || did + 1 <= r.op.n
    ensures var v := db.row.version + 1;
            var next := Commit(db, v, true, r.name).(row := Row(v, false));
            && Decide(n, r.op, r.cut, did, db.row) == Apply(v) && v !in r.fails
            && StopsAt(n, r, did + 1, next, stop)
            && AppliedBelow(n, r, did + 1, next, stop) == AppliedBelow(n, r, did, db, stop)
  {
    var v := db.row.version + 1;
    assert db.effects + [Effect(v, r.name)] + Rows(v, stop - 1, r.name) == db.effects + Rows(v - 1, stop - 1, r.name);
  }

  /**
   From a clean row: the run applies, in order and under its name, every migration up to its goal
   or up to the first failing one, where the row is left dirty.
   */
  lemma {:induction false} AppliesUpTo(n: nat, r: Runner, did: nat, db: Db, stop: nat)
    requires StopsAt(n, r, did, db, stop)
    ensures Perform(n, r, did, db) == AppliedBelow(n, r, did, db, stop)
    decreases stop - db.row.version
  {
    var v := db.row.version + 1;
    if stop == v {
      StopsNow(n, r, did, db, stop);
    } else {
      GoesOn(n, r, did, db, stop);
      AppliesUpTo(n, r, did + 1, Commit(db, v, true, r.name).(row := Row(v, false)), stop);
    }
  }

  /** `down k` with k migrations to undo ends k versions lower. */
  lemma {:induction false} UndoesDownTo(n: nat, r: Runner, did: nat, db: Db)
    requires r.op.Down? && did <= r.op.n
    requires var v := db.row.version;
             !db.row.dirty && r.op.n - did <= v <= n && db.schema == Prefix(v)
    ensures var w := db.row.version - (r.op.n - did);
            var p := Perform(n, r, did, db);
            && p.db.row == Row(w, false) && p.db.schema == Prefix(w)
            && p.result == Finish(r.op.n) && p.did == r.op.n
            && p.db.effects == (if w == 0 && did < r.op.n then [] else db.effects)
    decreases db.row.version
  {
    var v := db.row.version;
    if did < r.op.n {
      PrefixShrinks(v);
      UndoesDownTo(n, r, did + 1, Commit(db, v, false, r.name).(row := Row(v - 1, false)));
    }
  }

  /** `down k` takes back `steps k`: the row and the schema are as before. */
  lemma DownUndoesSteps(n: nat, a: Runner, b: Runner, db: Db)
    requires a.op.Steps? && b.op == Down(a.op.n) && !db.row.dirty && db.schema == Prefix(db.row.version)
    requires db.row.version + a.op.n <= n
    requires forall w: nat | db.row.version < w <= db.row.version + a.op.n :: w !in a.fails
    ensures var there := Perform(n, a, 0, db);
            var back := Perform(n, b, 0, there.db);
            && back.db.row == db.row && back.db.schema == db.schema
            && there.result == back.result == Finish(a.op.n)
  {
    AppliesUpTo(n, a, 0, db, db.row.version + a.op.n + 1);
    UndoesDownTo(n, b, 0, Perform(n, a, 0, db).db);
  }

  // ---- runs that stop short ----

  /** A run that has applied as many as it was asked for ends ok, without another look at the row. */
  lemma QuotaEnds(s: State, i: nat)
    requires i < |s.runners| && s.runners[i].pc.Batched?
    requires var op := s.runners[i].op; op == Steps(s.runners[i].did + 1) || op == Down(s.runners[i].did + 1)
    ensures i < |Step(s, i).runners| && Step(s, i).runners[i].pc == Leaving(Some(Ok(Some(Changed))))
  {
  }

  /** A clean row above the source stops every operation but a force. */
  lemma AboveSource(n: nat, r: Runner, db: Db)
    requires !r.op.Force? && !db.row.dirty && db.row.version > n
    ensures Perform(n, r, 0, db) == Run(db, Failed(NotInSource, ""), 0)
  {
  }

  /** A dirty row stops every operation but a force. */
  lemma DirtyStops(n: nat, r: Runner, db: Db)
    requires !r.op.Force? && db.row.dirty
    ensures Perform(n, r, 0, db) == Run(db, Failed(DirtyCode, ""), 0)
  {
  }

  /** The number of migrations there are for an operation to apply or to undo. */
  function Left(n: nat, op: Op, version: nat): nat {
    match op
    case Down(_) => version
    case _ => if version <= n then n - version else 0
  }

  /** With nothing asked for or nothing left to do, a run reports "no_change" and does nothing. */
  lemma NothingToDo(n: nat, r: Runner, db: Db)
    requires !r.op.Force? && !db.row.dirty && db.row.version <= n
    requires Left(n, r.op, db.row.version) == 0 || r.op == Steps(0) || r.op == Down(0)
    ensures Perform(n, r, 0, db) == Run(db, Ok(Some(NoChange)), 0)
  {
  }

  /**
   Asked for more than there is, a run with something to do ends with "short_limit", having
   applied as many as its cut allows.
   */
  lemma {:induction false} FallsShort(n: nat, r: Runner, did: nat, db: Db)
    requires (r.op.Steps? || r.op.Down?) && !db.row.dirty && db.row.version <= n
    requires var left := Left(n, r.op, db.row.version); did + left < r.op.n && did + left > 0
    requires r.op.Steps? ==> forall w: nat | db.row.version < w <= n :: w !in r.fails
    ensures var left := Left(n, r.op, db.row.version);
            var more := if r.cut <= did then 0 else if r.cut - did < left then r.cut - did else left;
            var p := Perform(n, r, did, db);
            && p.result == Failed(ShortLimit, "") && p.did == did + more && !p.db.row.dirty
            && p.db.row.version == if r.op.Steps? then db.row.version + more else db.row.version - more
    decreases Left(n, r.op, db.row.version)
  {
    var v := db.row.version;
    if Left(n, r.op, v) > 0 && r.cut > did {
      if r.op.Steps? {
        FallsShort(n, r, did + 1, Commit(db, v + 1, true, r.name).(row := Row(v + 1, false)));
      } else {
        FallsShort(n, r, did + 1, Commit(db, v, false, r.name).(row := Row(v - 1, false)));
      }
    }
  }
}
