/**
 The FIFO lock neither deadlocks nor lets any mix of operations go on for ever, and a completed
 run of `up` runners with no failing batch leaves every migration applied exactly once.
 */
module Progress {
  import opened Prelude
  import opened Runners
  import opened LockLine
  import opened SchemaSafety
  import opened ExactlyOnce

  predicate CanMove(s: State, i: nat) {
    Step(s, i) != s
  }

  predicate AllDone(s: State) {
    forall i | 0 <= i < |s.runners| :: s.runners[i].pc.Done?
  }

  lemma MovesUnlessWaiting(s: State, i: nat)
    requires i < |s.runners| && !s.runners[i].pc.Done?
    requires s.runners[i].pc.InLine? ==> Line(s, s.runners[i].key) != [] && Line(s, s.runners[i].key)[0] == i
    ensures CanMove(s, i)
  {
    assert Step(s, i).runners[i].pc != s.runners[i].pc;
  }

  /** Whatever the keys and operations: while a run is unfinished, some run can move. */
  lemma NoDeadlock(s: State)
    requires Lined(s) && !AllDone(s)
    ensures exists i: nat :: i < |s.runners| && CanMove(s, i)
  {
    var i: nat :| i < |s.runners| && !s.runners[i].pc.Done?;
    var line := Line(s, s.runners[i].key);
    if s.runners[i].pc.InLine? {
      assert Placed(s, i) && OrderlyLine(s, s.runners[i].key);
      var h := line[0];
      assert Placed(s, h) && s.runners[h].key == s.runners[i].key;
      MovesUnlessWaiting(s, h);
    } else {
      MovesUnlessWaiting(s, i);
    }
  }

  // ---- termination of any mix of operations ----

  /** The holder is the only one to touch the row: inside a migration it is as the holder marked it. */
  ghost predicate Steady(s: State, k: int) {
    && OneKey(s, k) && Lined(s)
    && (forall i | 0 <= i < |s.runners| && Mid(s.runners[i].pc) ::
          1 <= s.runners[i].pc.v <= s.n && (s.runners[i].pc.up <==> !s.runners[i].op.Down?)
          && s.db.row == Row(Target(s.runners[i].pc.v, s.runners[i].pc.up), true))
    && (forall i | 0 <= i < |s.runners| && s.runners[i].pc.Read? :: s.runners[i].pc.row == s.db.row)
  }

  lemma InitialSteady(s: State, k: int)
    requires Initial(s) && OneKey(s, k)
    ensures Steady(s, k)
  {
    InitialLined(s);
  }

  /** The holder's own step: nobody else has a stake in the row. */
  lemma HolderSteady(s: State, i: nat, k: int)
    requires Steady(s, k) && i < |s.runners| && Holds(s.runners[i].pc)
    ensures Steady(Step(s, i), k)
  {
    StepLined(s, i);
    StepFrame(s, i);
    OnlyHolder(s, k, i);
  }

  lemma StepSteady(s: State, i: nat, k: int)
    requires Steady(s, k)
    ensures Steady(Step(s, i), k)
  {
    if i < |s.runners| && Holds(s.runners[i].pc) {
      HolderSteady(s, i, k);
    } else {
      StepLined(s, i);
      StepFrame(s, i);
    }
  }

  function Rank(pc: Pc): nat {
    match pc
    case Idle => 8
    case InLine => 7
    case Holding => 6
    case Read(_) => 5
    case Dirtied(_, _) => 14
    case Batched(_, _) => 13
    case Leaving(res) => if res.Some? then 1 else 9
    case Done(_) => 0
  }

  /** The migrations a run may still undo; one it is inside of no longer counts. */
  function Downs(r: Runner): nat {
    var begun := r.did + if Mid(r.pc) then 1 else 0;
    if r.op.Down? && begun < r.op.n then r.op.n - begun else 0
  }

  predicate WillForce(r: Runner) {
    r.op.Force? && !Started(r.pc)
  }

  /** An undo may make room for one more `up`, a force for n of them. */
  function Cost(n: nat, r: Runner): nat {
    Rank(r.pc) + 40 * Downs(r) + if WillForce(r) then 20 * (n + 1) else 0
  }

  function Costs(n: nat, rs: seq<Runner>): nat {
    if rs == [] then 0 else Cost(n, rs[0]) + Costs(n, rs[1..])
  }

  lemma {:induction false} CostsUpdate(n: nat, rs: seq<Runner>, i: nat, r: Runner)
    requires i < |rs|
    ensures Costs(n, rs[i := r]) == Costs(n, rs) - Cost(n, rs[i]) + Cost(n, r)
  {
    if i == 0 {
      assert rs[0 := r][1..] == rs[1..];
    } else {
      assert rs[i := r][1..] == rs[1..][i - 1 := r];
      CostsUpdate(n, rs[1..], i - 1, r);
    }
  }

  /** The migrations above the row. */
  function Above(n: nat, row: Row): nat {
    if row.version <= n then n - row.version else 0
  }

  function Measure(s: State): nat {
    20 * Above(s.n, s.db.row) + Costs(s.n, s.runners)
  }

  /** What a step does to the row, it pays for at the runner that takes it. */
  ghost predicate Pays(s: State, i: nat) {
    && i < |s.runners| && i < |Step(s, i).runners|
    && var t := Step(s, i);
       20 * Above(s.n, t.db.row) + Cost(s.n, t.runners[i]) < 20 * Above(s.n, s.db.row) + Cost(s.n, s.runners[i])
  }

  lemma ReadPays(s: State, i: nat, k: int)
    requires Steady(s, k) && i < |s.runners| && s.runners[i].pc.Read?
    ensures Pays(s, i)
  {
    var r := s.runners[i];
    match Decide(s.n, r.op, r.cut, r.did, r.pc.row)
    case Stop(_) =>
    case Apply(v) =>
      assert Downs(Step(s, i).runners[i]) == Downs(r) == 0;
    case Undo(v) =>
      assert Downs(Step(s, i).runners[i]) == Downs(r) - 1;
    case Write(v) =>
  }

  lemma MidPays(s: State, i: nat, k: int)
    requires Steady(s, k) && i < |s.runners| && Mid(s.runners[i].pc)
    ensures Pays(s, i)
  {
    assert Downs(Step(s, i).runners[i]) <= Downs(s.runners[i]);
  }

  lemma QuietPays(s: State, i: nat)
    requires i < |s.runners| && CanMove(s, i) && !s.runners[i].pc.Read? && !Mid(s.runners[i].pc)
    ensures Pays(s, i)
  {
  }

  lemma StepDecreases(s: State, i: nat, k: int)
    requires Steady(s, k) && CanMove(s, i)
    ensures Measure(Step(s, i)) < Measure(s)
  {
    var t := Step(s, i);
    if s.runners[i].pc.Read? {
      ReadPays(s, i, k);
    } else if Mid(s.runners[i].pc) {
      MidPays(s, i, k);
    } else {
      QuietPays(s, i);
    }
    StepFrame(s, i);
    assert t.runners == s.runners[i := t.runners[i]];
    CostsUpdate(s.n, s.runners, i, t.runners[i]);
  }

  /** Every step of the schedule changes the state. */
  predicate Productive(s: State, schedule: seq<nat>)
    decreases |schedule|
  {
    schedule == [] || (CanMove(s, schedule[0]) && Productive(Step(s, schedule[0]), schedule[1..]))
  }

  /** Any mix of operations stops: no schedule makes more moves than the measure of its start. */
  lemma {:induction false} RunsAreBounded(s: State, schedule: seq<nat>, k: int)
    requires Steady(s, k) && Productive(s, schedule)
    ensures |schedule| + Measure(Exec(s, schedule)) <= Measure(s)
    decreases |schedule|
  {
    if schedule != [] {
      StepDecreases(s, schedule[0], k);
      StepSteady(s, schedule[0], k);
      RunsAreBounded(Step(s, schedule[0]), schedule[1..], k);
    }
  }

  /** Any run of any mix can be continued until everybody is done. */
  lemma {:induction false} Completes(s: State, k: int) returns (schedule: seq<nat>)
    requires Steady(s, k)
    ensures Productive(s, schedule) && AllDone(Exec(s, schedule))
    decreases Measure(s)
  {
    if AllDone(s) {
      schedule := [];
    } else {
      NoDeadlock(s);
      var i: nat :| i < |s.runners| && CanMove(s, i);
      StepDecreases(s, i, k);
      StepSteady(s, i, k);
      var rest := Completes(Step(s, i), k);
      schedule := [i] + rest;
      assert schedule[1..] == rest;
    }
  }

  /** Any group of runs on one key, from its start: no schedule makes more moves than the measure. */
  lemma AnyMixStops(s: State, moves: seq<nat>, k: int)
    requires Initial(s) && OneKey(s, k) && Productive(s, moves)
    ensures |moves| <= Measure(s)
  {
    InitialSteady(s, k);
    RunsAreBounded(s, moves, k);
  }

  lemma {:induction false} ExecSteady(s: State, schedule: seq<nat>, k: int)
    requires Steady(s, k)
    ensures Steady(Exec(s, schedule), k)
    decreases |schedule|
  {
    if schedule != [] {
      StepSteady(s, schedule[0], k);
      ExecSteady(Step(s, schedule[0]), schedule[1..], k);
    }
  }

  /**
   With no failing batch, a completed run of any group of `up` runners, started on a clean row in
   any languages and any schedule, ends ok for everyone, with each migration recorded exactly once
   in version order and the row clean at the last version.
   */
  lemma ConcurrentUps(s: State, schedule: seq<nat>, k: int)
    requires FreshGroup(s, k) && s.runners != [] && !s.db.row.dirty
    requires forall i, v | 0 <= i < |s.runners| && 1 <= v <= s.n :: v !in s.runners[i].fails
    requires AllDone(Exec(s, schedule))
    ensures var t := Exec(s, schedule);
            && t.db.row == Row(s.n, false) && t.db.schema == Prefix(s.n)
            && |t.db.effects| == s.n && (forall j | 0 <= j < s.n :: t.db.effects[j].version == j + 1)
            && (forall i | 0 <= i < |t.runners| :: t.runners[i].pc.result.Ok?)
  {
    FreshUpInv(s, k);
    ExecSmooth(s, schedule, k);
    ExecUpInv(s, schedule, k);
    ExecFrame(s, schedule);
    var t := Exec(s, schedule);
    assert Honest(t, 0) && !Fails(t.runners[0].pc);
    CleanCount(t, k);
  }
}
