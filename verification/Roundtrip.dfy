/**
 The roundtrip scenario: the checker that compares each step's report with its expectation, and
 the proof that the 25 steps of the scenario meet theirs whichever languages run them.
 */
module Roundtrip {
  import opened Prelude
  import opened Runners
  import opened LockLine
  import opened SchemaSafety
  import opened Solo
  import opened Progress
  import opened History
  import opened ProbeReport
  import opened Sequences

  // ---- the checker ----

  /** The fields of a step's result that expectations mention; None is an absent key. */
  datatype Probe = Probe(ok: Option<bool>, code: Option<Code>, error: Option<string>,
                         version: Option<Option<nat>>, dirty: Option<bool>, outcome: Option<Outcome>,
                         exitCode: Option<int>, stdout: Option<string>)

  /** An expectation lists some fields; `error` is a substring to find. */
  predicate Meets(want: Probe, got: Probe) {
    && (want.ok.Some? ==> got.ok == want.ok)
    && (want.code.Some? ==> got.code == want.code)
    && (want.error.Some? ==> Contains(if got.error.Some? then got.error.value else "", want.error.value))
    && (want.version.Some? ==> got.version == want.version)
    && (want.dirty.Some? ==> got.dirty == want.dirty)
    && (want.outcome.Some? ==> got.outcome == want.outcome)
    && (want.exitCode.Some? ==> got.exitCode == want.exitCode)
    && (want.stdout.Some? ==> got.stdout == want.stdout)
  }

  datatype Problem<N> = Missing(name: N) | Unexpected(name: N) | Mismatch(name: N) | LeftObjects

  function StepName<N>(step: (N, Probe)): N {
    step.0
  }

  function StepResult<N>(step: (N, Probe)): Probe {
    step.1
  }

  /** The report's steps by name; a repeated name keeps its last result. */
  function ByName<N(==)>(steps: seq<(N, Probe)>): map<N, Probe> {
    Index(steps, StepName, StepResult)
  }

  predicate Accepted<N(==)>(expected: map<N, Probe>, steps: seq<(N, Probe)>, leftObjects: bool) {
    && ByName(steps).Keys == expected.Keys
    && (forall name | name in ByName(steps) :: name in expected && Meets(expected[name], ByName(steps)[name]))
    && !leftObjects
  }

  /** When a report has the problem. */
  predicate Has<N(==)>(expected: map<N, Probe>, byName: map<N, Probe>, leftObjects: bool, p: Problem<N>) {
    match p
    case Missing(name) => name in expected && name !in byName
    case Unexpected(name) => name in byName && name !in expected
    case Mismatch(name) => name in byName && name in expected && !Meets(expected[name], byName[name])
    case LeftObjects => leftObjects
  }

  method CheckMissing<N(==)>(expected: map<N, Probe>, byName: map<N, Probe>) returns (problems: seq<Problem<N>>)
    ensures forall p :: p in problems <==> p.Missing? && Has(expected, byName, false, p)
  {
    problems := [];
    var missing := Listed(expected.Keys - byName.Keys);
    for i := 0 to |missing|
      invariant forall p :: p in problems <==> p.Missing? && p.name in missing[..i]
    {
      assert missing[..i + 1] == missing[..i] + [missing[i]];
      problems := problems + [Missing(missing[i])];
    }
    assert missing[..|missing|] == missing;
  }

  method CheckSteps<N(==)>(expected: map<N, Probe>, byName: map<N, Probe>) returns (problems: seq<Problem<N>>)
    ensures forall p :: p in problems <==> (p.Unexpected? || p.Mismatch?) && Has(expected, byName, false, p)
  {
    problems := [];
    var names := Listed(byName.Keys);
    for i := 0 to |names|
      invariant forall p :: p in problems <==>
                  (p.Unexpected? || p.Mismatch?) && p.name in names[..i] && Has(expected, byName, false, p)
    {
      var name := names[i];
      assert name in byName.Keys;
      assert names[..i + 1] == names[..i] + [name];
      if name !in expected {
        problems := problems + [Unexpected(name)];
      } else if !Meets(expected[name], byName[name]) {
        problems := problems + [Mismatch(name)];
      }
    }
    assert names[..|names|] == names;
  }

  /** Exactly the problems the report has are added; none exactly when it is accepted. */
  method CheckRoundtrip<N(==)>(expected: map<N, Probe>, steps: seq<(N, Probe)>, leftObjects: bool)
    returns (problems: seq<Problem<N>>)
    ensures forall p :: p in problems <==> Has(expected, ByName(steps), leftObjects, p)
    ensures problems == [] <==> Accepted(expected, steps, leftObjects)
  {
    var byName := BuildIndex(steps, StepName, StepResult);
    var missing := CheckMissing(expected, byName);
    var mismatches := CheckSteps(expected, byName);
    problems := missing + mismatches + if leftObjects then [LeftObjects] else [];
    NoProblem(expected, steps, leftObjects);
    assert problems != [] ==> problems[0] in problems;
  }

  /** A report is accepted exactly when it has none of the problems. */
  lemma NoProblem<N>(expected: map<N, Probe>, steps: seq<(N, Probe)>, leftObjects: bool)
    ensures Accepted(expected, steps, leftObjects)
            <==> forall p :: !Has(expected, ByName(steps), leftObjects, p)
  {
    var byName := ByName(steps);
    if forall p :: !Has(expected, byName, leftObjects, p) {
      assert !Has(expected, byName, leftObjects, LeftObjects);
      forall name
        ensures name in byName.Keys <==> name in expected.Keys
        ensures name in byName ==> name in expected && Meets(expected[name], byName[name])
      {
        assert !Has(expected, byName, leftObjects, Missing(name));
        assert !Has(expected, byName, leftObjects, Unexpected(name));
        assert !Has(expected, byName, leftObjects, Mismatch(name));
      }
    }
  }

  // ---- the scenario ----

  datatype Act = Do(op: Op) | ReadVersion | CliStatus

  datatype Name =
    | GoSteps2 | PyVersionAfterGoSteps2 | CliAfterGoSteps2 | PySteps1 | GoVersionAfterPySteps1
    | PyDown1 | GoVersionAfterPyDown1 | GoUpFailsAt4 | GoVersionDirty4 | PyVersionDirty4FromGo
    | CliDirty4FromGo | PyUpRefusesDirty | PyForce3 | GoVersionAfterPyForce3 | PyUpFailsAt4
    | PyVersionDirty4 | GoVersionDirty4FromPy | GoUpRefusesDirty | GoForce3 | PyVersionAfterGoForce3
    | GoDown3 | PyVersionNone | CliNone | PyUpFromNoneFailsAt4 | GoVersionDirty4AfterPyUp

  const ORDER: seq<Name> := [
    GoSteps2, PyVersionAfterGoSteps2, CliAfterGoSteps2, PySteps1, GoVersionAfterPySteps1,
    PyDown1, GoVersionAfterPyDown1, GoUpFailsAt4, GoVersionDirty4, PyVersionDirty4FromGo,
    CliDirty4FromGo, PyUpRefusesDirty, PyForce3, GoVersionAfterPyForce3, PyUpFailsAt4,
    PyVersionDirty4, GoVersionDirty4FromPy, GoUpRefusesDirty, GoForce3, PyVersionAfterGoForce3,
    GoDown3, PyVersionNone, CliNone, PyUpFromNoneFailsAt4, GoVersionDirty4AfterPyUp]

  function ActOf(name: Name): Act {
    match name
    case GoSteps2 => Do(Steps(2))
    case PySteps1 => Do(Steps(1))
    case PyDown1 => Do(Down(1))
    case GoDown3 => Do(Down(3))
    case GoUpFailsAt4 | PyUpRefusesDirty | PyUpFailsAt4 | GoUpRefusesDirty | PyUpFromNoneFailsAt4 => Do(Up)
    case PyForce3 | GoForce3 => Do(Force(3))
    case CliAfterGoSteps2 | CliDirty4FromGo | CliNone => CliStatus
    case _ => ReadVersion
  }

  const DIV0 := "division by zero"
  const NOTHING_LISTED: Probe := Probe(None, None, None, None, None, None, None, None)

  function Runs(outcome: Outcome): Probe {
    NOTHING_LISTED.(ok := Some(true), outcome := Some(outcome))
  }

  function Fails(code: Code): Probe {
    NOTHING_LISTED.(ok := Some(false), code := Some(code))
  }

  function Reads(version: Option<nat>, dirty: bool): Probe {
    NOTHING_LISTED.(ok := Some(true), version := Some(version), dirty := Some(dirty))
  }

  function Prints(exitCode: int, stdout: string): Probe {
    NOTHING_LISTED.(exitCode := Some(exitCode), stdout := Some(stdout))
  }

  /** MIGRATE_ROUNDTRIP_EXPECTED. */
  function Expected(name: Name): Probe {
    match name
    case GoSteps2 | PySteps1 | PyDown1 | GoDown3 => Runs(Changed)
    case PyVersionAfterGoSteps2 | GoVersionAfterPyDown1 => Reads(Some(2), false)
    case GoVersionAfterPySteps1 | GoVersionAfterPyForce3 | PyVersionAfterGoForce3 => Reads(Some(3), false)
    case GoUpFailsAt4 | PyUpFailsAt4 | PyUpFromNoneFailsAt4 => Fails(Error).(error := Some(DIV0))
    case GoVersionDirty4 | PyVersionDirty4FromGo | PyVersionDirty4 | GoVersionDirty4FromPy
      | GoVersionDirty4AfterPyUp => Reads(Some(4), true)
    case PyUpRefusesDirty | GoUpRefusesDirty => Fails(DirtyCode)
    case PyForce3 | GoForce3 => NOTHING_LISTED.(ok := Some(true))
    case PyVersionNone => Reads(None, false)
    case CliAfterGoSteps2 => Prints(0, "version: 2 dirty: false")
    case CliDirty4FromGo => Prints(3, "version: 4 dirty: true")
    case CliNone => Prints(0, "version: none (no migrations applied)")
  }

  // ---- what the model reports for the scenario ----

  function Digit(v: nat): string
    requires v < 10
  {
    [['0', '1', '2', '3', '4', '5', '6', '7', '8', '9'][v]]
  }

  function Decimal(v: nat): string {
    if v < 10 then Digit(v) else Decimal(v / 10) + Digit(v % 10)
  }

  /** `pgcommon-migrate status` for a tracking row. */
  function Status(row: Row): Probe {
    if row.version == 0 then Prints(0, "version: none (no migrations applied)")
    else Prints(if row.dirty then 3 else 0,
                "version: " + Decimal(row.version) + " dirty: " + if row.dirty then "true" else "false")
  }

  const N: nat := 4

  /** A probe's printed report, as the checker reads it. */
  function Read(out: Report, error: string): Probe {
    Probe(Some(out.ok), out.code, if out.ok then None else Some(error), out.version, out.dirty, out.outcome, None, None)
  }

  /** got is what a probe of some language printed about the ending. */
  ghost predicate PrintedAs(got: Probe, e: Ending) {
    exists out, error :: Printed(e, out, error) && got == Read(out, error)
  }

  /** How many runs come before step i. */
  function RunsBefore(order: seq<Name>, i: nat): nat
    requires i <= |order|
  {
    if i == 0 then 0 else RunsBefore(order, i - 1) + if ActOf(order[i - 1]).Do? then 1 else 0
  }

  /**
   The runs of a sequence of steps, each by a runner of any language, key and name, asked for its
   operation; migration 4 divides by zero.
   */
  ghost predicate Cast(order: seq<Name>, s: State) {
    && Initial(s) && s.n == N && s.db == FRESH && |s.runners| == RunsBefore(order, |order|)
    && forall i | 0 <= i < |order| && ActOf(order[i]).Do? ::
         RunsBefore(order, i) < |s.runners| && Asked(ActOf(order[i]).op, s.runners[RunsBefore(order, i)])
  }

  ghost predicate Asked(op: Op, r: Runner) {
    r.op == op && r.fails.Keys == {N} && Contains(r.fails[N], DIV0)
  }

  /** After c steps of the schedule the first q runs have ended and no other has begun. */
  ghost predicate Boundary(s: State, schedule: seq<nat>, q: nat, c: nat) {
    c <= |schedule| && Through(s, schedule[..c], q)
  }

  /** got is what step i reports when the runs take turns along the schedule. */
  ghost predicate Reported(order: seq<Name>, s: State, schedule: seq<nat>, i: nat, got: Probe)
    requires i < |order|
  {
    var q := RunsBefore(order, i);
    match ActOf(order[i])
    case Do(op) =>
      var t := Exec(s, schedule);
      q < |t.runners| && t.runners[q].pc.Done? && PrintedAs(got, Ran(op, t.runners[q].pc.result))
    case ReadVersion =>
      exists c: nat :: Boundary(s, schedule, q, c)
                  && var row := Exec(s, schedule[..c]).db.row; PrintedAs(got, Seen(row, row.version <= N))
    case CliStatus =>
      exists c: nat :: Boundary(s, schedule, q, c) && got == Status(Exec(s, schedule[..c]).db.row)
  }

  /** The tracking row before each step. */
  function RowBefore(name: Name): Row {
    match name
    case GoSteps2 | PyVersionNone | CliNone | PyUpFromNoneFailsAt4 => Row(0, false)
    case PyVersionAfterGoSteps2 | CliAfterGoSteps2 | PySteps1 | GoVersionAfterPyDown1 | GoUpFailsAt4 => Row(2, false)
    case GoVersionAfterPySteps1 | PyDown1 | GoVersionAfterPyForce3 | PyUpFailsAt4 | PyVersionAfterGoForce3
      | GoDown3 => Row(3, false)
    case _ => Row(4, true)
  }

  function RowAfter(name: Name): Row {
    match name
    case GoSteps2 | PyDown1 => Row(2, false)
    case PySteps1 | PyForce3 | GoForce3 => Row(3, false)
    case GoDown3 => Row(0, false)
    case GoUpFailsAt4 | PyUpFailsAt4 | PyUpFromNoneFailsAt4 => Row(4, true)
    case _ => RowBefore(name)
  }

  ghost predicate DbIs(db: Db, row: Row) {
    db.row == row && db.schema == Prefix(Below(row))
  }

  /** Every print of the ending meets the expectation of the step. */
  ghost predicate Fits(name: Name, e: Ending) {
    && !Versionless(e) && Expected(name).exitCode.None? && Expected(name).stdout.None?
    && MeetsReport(Expected(name), ReportOf(e))
    && (Expected(name).error.Some? ==>
          e.Ran? && e.result.Failed? && e.result.code.Error? && Contains(e.result.error, Expected(name).error.value))
  }

  /** The listed fields other than the error text. */
  predicate MeetsReport(want: Probe, out: Report) {
    && (want.ok.Some? ==> Some(out.ok) == want.ok)
    && (want.code.Some? ==> out.code == want.code)
    && (want.version.Some? ==> out.version == want.version)
    && (want.dirty.Some? ==> out.dirty == want.dirty)
    && (want.outcome.Some? ==> out.outcome == want.outcome)
  }

  /** The report's entry of step i. */
  ghost predicate StepReported(order: seq<Name>, s: State, schedule: seq<nat>, i: nat, step: (Name, Probe)) {
    i < |order| && step.0 == order[i] && Reported(order, s, schedule, i, step.1)
  }

  lemma FittingMeets(name: Name, e: Ending, got: Probe)
    requires Fits(name, e) && PrintedAs(got, e)
    ensures Meets(Expected(name), got)
  {
    var out, error :| Printed(e, out, error) && got == Read(out, error);
    var want := Expected(name);
    if want.error.Some? {
      ContainsTransitive(error, e.result.error, want.error.value);
    }
  }

  /** `up` from a clean row at most 3 always ends in the failing migration 4. */
  lemma UpFails(r: Runner, db: Db)
    requires r.op == Up && r.fails.Keys == {N} && DbIs(db, Row(db.row.version, false)) && db.row.version <= 3
    ensures var p := Perform(N, r, 0, db);
            p.result == Failed(Error, r.fails[N]) && DbIs(p.db, Row(N, true))
  {
    AppliesUpTo(N, r, 0, db, N);
  }

  lemma StepsRun(r: Runner, db: Db)
    requires r.op.Steps? && r.op.n > 0 && r.fails.Keys == {N} && DbIs(db, Row(db.row.version, false))
    requires db.row.version + r.op.n <= 3
    ensures var p := Perform(N, r, 0, db);
            p.result == Ok(Some(Changed)) && DbIs(p.db, Row(db.row.version + r.op.n, false))
  {
    AppliesUpTo(N, r, 0, db, db.row.version + r.op.n + 1);
  }

  lemma DownRuns(r: Runner, db: Db)
    requires r.op.Down? && 0 < r.op.n <= db.row.version <= N && DbIs(db, Row(db.row.version, false))
    ensures var p := Perform(N, r, 0, db);
            p.result == Ok(Some(Changed)) && DbIs(p.db, Row(db.row.version - r.op.n, false))
  {
    UndoesDownTo(N, r, 0, db);
  }

  lemma ForceRuns(r: Runner, db: Db)
    requires r.op == Force(3) && DbIs(db, Row(4, true))
    ensures var p := Perform(N, r, 0, db); p.result == Ok(None) && DbIs(p.db, Row(3, false))
  {
  }

  /** A lone run leaves the row the next step is to find, and its report meets the expectation. */
  ghost predicate RunFits(name: Name, r: Runner, db: Db) {
    var p := Perform(N, r, 0, db);
    DbIs(p.db, RowAfter(name)) && Fits(name, Ran(r.op, p.result))
  }

  lemma UpFits(name: Name, r: Runner, db: Db)
    requires DbIs(db, RowBefore(name)) && ActOf(name).Do? && Asked(ActOf(name).op, r) && r.op.Up?
    ensures RunFits(name, r, db)
  {
    if !db.row.dirty {
      UpFails(r, db);
    }
  }

  lemma StepsFit(name: Name, r: Runner, db: Db)
    requires DbIs(db, RowBefore(name)) && ActOf(name).Do? && Asked(ActOf(name).op, r) && r.op.Steps?
    ensures RunFits(name, r, db)
  {
    StepsRun(r, db);
  }

  lemma DownFits(name: Name, r: Runner, db: Db)
    requires DbIs(db, RowBefore(name)) && ActOf(name).Do? && Asked(ActOf(name).op, r) && r.op.Down?
    ensures RunFits(name, r, db)
  {
    assert name == PyDown1 || name == GoDown3;
    DownRuns(r, db);
  }

  lemma ForceFits(name: Name, r: Runner, db: Db)
    requires DbIs(db, RowBefore(name)) && ActOf(name).Do? && Asked(ActOf(name).op, r) && r.op.Force?
    ensures RunFits(name, r, db)
  {
    assert name == PyForce3 || name == GoForce3;
    ForceRuns(r, db);
  }

  lemma RunFitsAlways(name: Name, r: Runner, db: Db)
    requires DbIs(db, RowBefore(name)) && ActOf(name).Do? && Asked(ActOf(name).op, r)
    ensures RunFits(name, r, db)
  {
    match r.op
    case Up => UpFits(name, r, db);
    case Steps(_) => StepsFit(name, r, db);
    case Down(_) => DownFits(name, r, db);
    case Force(_) => ForceFits(name, r, db);
  }

  lemma ReadFits(name: Name, row: Row)
    requires row == RowBefore(name) && ActOf(name) == ReadVersion
    ensures Fits(name, Seen(row, row.version <= N))
  {
  }

  lemma StatusFits(name: Name, row: Row)
    requires row == RowBefore(name) && ActOf(name) == CliStatus
    ensures Meets(Expected(name), Status(row))
  {
    StatusTexts();
  }

  lemma StatusTexts()
    ensures Status(Row(2, false)).stdout == Some("version: 2 dirty: false")
    ensures Status(Row(4, true)).stdout == Some("version: 4 dirty: true")
  {
    assert Decimal(2) == "2" && Decimal(4) == "4";
    assert "version: " + "2" + " dirty: " + "false" == "version: 2 dirty: false";
    assert "version: " + "4" + " dirty: " + "true" == "version: 4 dirty: true";
  }

  lemma EarlyLinks(i: nat)
    requires i < 12
    ensures RowAfter(ORDER[i]) == RowBefore(ORDER[i + 1])
  {
  }

  lemma LateLinks(i: nat)
    requires 12 <= i && i + 1 < |ORDER|
    ensures RowAfter(ORDER[i]) == RowBefore(ORDER[i + 1])
  {
  }

  lemma {:induction false} RunsGrow(order: seq<Name>, i: nat, j: nat)
    requires i <= j <= |order|
    ensures RunsBefore(order, i) <= RunsBefore(order, j)
    decreases j - i
  {
    if i < j {
      RunsGrow(order, i, j - 1);
    }
  }

  /** The database that the runs before step i leave. */
  function DbAt(order: seq<Name>, s: State, i: nat): Db
    requires i <= |order| && RunsBefore(order, i) <= |s.runners|
  {
    Replay(s.n, s.db, s.runners[..RunsBefore(order, i)]).db
  }

  /** The run of step i takes the database from step i to step i + 1. */
  lemma RunDb(order: seq<Name>, s: State, i: nat)
    requires s.n == N && i < |order| && ActOf(order[i]).Do? && RunsBefore(order, i) < |s.runners|
    ensures RunsBefore(order, i + 1) == RunsBefore(order, i) + 1
    ensures DbAt(order, s, i + 1) == Perform(N, s.runners[RunsBefore(order, i)], 0, DbAt(order, s, i)).db
  {
    ReplayMore(s.n, s.db, s.runners, RunsBefore(order, i));
  }

  lemma NextDb(order: seq<Name>, s: State, i: nat)
    requires Cast(order, s) && i < |order| && RunsBefore(order, i + 1) <= |s.runners|
    requires RunsBefore(order, i) <= |s.runners| && DbIs(DbAt(order, s, i), RowBefore(order[i]))
    ensures DbIs(DbAt(order, s, i + 1), RowAfter(order[i]))
  {
    if ActOf(order[i]).Do? {
      RunDb(order, s, i);
      RunFitsAlways(order[i], s.runners[RunsBefore(order, i)], DbAt(order, s, i));
    } else {
      assert RunsBefore(order, i + 1) == RunsBefore(order, i);
    }
  }

  lemma DbStep(order: seq<Name>, s: State, i: nat)
    requires Linked(order) && Cast(order, s) && i + 1 < |order|
    requires RunsBefore(order, i) <= |s.runners| && DbIs(DbAt(order, s, i), RowBefore(order[i]))
    ensures RunsBefore(order, i + 1) <= |s.runners| && DbIs(DbAt(order, s, i + 1), RowBefore(order[i + 1]))
  {
    RunsGrow(order, i + 1, |order|);
    NextDb(order, s, i);
  }

  /** Each step leaves the row the next one is to find, and the first finds no version. */
  ghost predicate Linked(order: seq<Name>) {
    && order != [] && RowBefore(order[0]) == FRESH.row
    && forall i | 0 <= i && i + 1 < |order| :: RowAfter(order[i]) == RowBefore(order[i + 1])
  }

  /** The runs before each step leave the row and the schema it is to find. */
  lemma {:induction false} DbTracks(order: seq<Name>, s: State, i: nat)
    requires Linked(order) && Cast(order, s) && i < |order|
    ensures RunsBefore(order, i) <= |s.runners| && DbIs(DbAt(order, s, i), RowBefore(order[i]))
  {
    if i > 0 {
      DbTracks(order, s, i - 1);
      DbStep(order, s, i - 1);
    } else {
      assert s.runners[..0] == [];
    }
  }

  function NameIndex(name: Name): nat {
    match name
    case GoSteps2 => 0
    case PyVersionAfterGoSteps2 => 1
    case CliAfterGoSteps2 => 2
    case PySteps1 => 3
    case GoVersionAfterPySteps1 => 4
    case PyDown1 => 5
    case GoVersionAfterPyDown1 => 6
    case GoUpFailsAt4 => 7
    case GoVersionDirty4 => 8
    case PyVersionDirty4FromGo => 9
    case CliDirty4FromGo => 10
    case PyUpRefusesDirty => 11
    case PyForce3 => 12
    case GoVersionAfterPyForce3 => 13
    case PyUpFailsAt4 => 14
    case PyVersionDirty4 => 15
    case GoVersionDirty4FromPy => 16
    case GoUpRefusesDirty => 17
    case GoForce3 => 18
    case PyVersionAfterGoForce3 => 19
    case GoDown3 => 20
    case PyVersionNone => 21
    case CliNone => 22
    case PyUpFromNoneFailsAt4 => 23
    case GoVersionDirty4AfterPyUp => 24
  }

  lemma EveryNameOccurs(name: Name)
    ensures NameIndex(name) < |ORDER| && ORDER[NameIndex(name)] == name
  {
  }

  /** The dictionary has the reported names, and each entry is some reported result of that name. */
  lemma ByNameHolds<X>(steps: seq<(X, Probe)>, fine: (X, Probe) -> bool)
    requires forall i | 0 <= i < |steps| :: fine(steps[i].0, steps[i].1)
    ensures forall i | 0 <= i < |steps| :: steps[i].0 in ByName(steps)
    ensures forall name | name in ByName(steps) :: fine(name, ByName(steps)[name])
  {
    forall i | 0 <= i < |steps|
      ensures steps[i].0 in ByName(steps)
    {
      IndexHolds(steps, StepName, StepResult, steps[i].0);
      assert steps[i] in steps && StepName(steps[i]) == steps[i].0;
    }
    forall name | name in ByName(steps)
      ensures fine(name, ByName(steps)[name])
    {
      IndexHolds(steps, StepName, StepResult, name);
      var x :| x in steps && StepName(x) == name && StepResult(x) == ByName(steps)[name];
      var i :| 0 <= i < |steps| && steps[i] == x;
    }
  }

  const ALL: map<Name, Probe> := map name: Name | true :: Expected(name)

  /** The database at a boundary of the schedule is that of the runs so far. */
  lemma BoundaryRow(order: seq<Name>, s: State, schedule: seq<nat>, i: nat, c: nat)
    requires Linked(order) && Cast(order, s) && i < |order| && Boundary(s, schedule, RunsBefore(order, i), c)
    ensures Exec(s, schedule[..c]).db.row == RowBefore(order[i])
  {
    DbTracks(order, s, i);
    HistoryUntil(s, schedule[..c], RunsBefore(order, i));
  }

  lemma RunReported(order: seq<Name>, s: State, schedule: seq<nat>, i: nat, got: Probe)
    requires Linked(order) && Cast(order, s) && OneByOne(schedule) && AllDone(Exec(s, schedule))
    requires i < |order| && ActOf(order[i]).Do? && Reported(order, s, schedule, i, got)
    ensures Meets(Expected(order[i]), got)
  {
    var q := RunsBefore(order, i);
    DbTracks(order, s, i);
    SequentialHistory(s, schedule);
    ReplayMore(s.n, s.db, s.runners, q);
    RunFitsAlways(order[i], s.runners[q], DbAt(order, s, i));
    FittingMeets(order[i], Ran(ActOf(order[i]).op, Exec(s, schedule).runners[q].pc.result), got);
  }

  lemma ReadReported(order: seq<Name>, s: State, schedule: seq<nat>, i: nat, got: Probe)
    requires Linked(order) && Cast(order, s)
    requires i < |order| && !ActOf(order[i]).Do? && Reported(order, s, schedule, i, got)
    ensures Meets(Expected(order[i]), got)
  {
    if ActOf(order[i]).ReadVersion? {
      var c: nat :| Boundary(s, schedule, RunsBefore(order, i), c)
               && var row := Exec(s, schedule[..c]).db.row; PrintedAs(got, Seen(row, row.version <= N));
      var row := Exec(s, schedule[..c]).db.row;
      BoundaryRow(order, s, schedule, i, c);
      ReadFits(order[i], row);
      FittingMeets(order[i], Seen(row, row.version <= N), got);
    } else {
      var c: nat :| Boundary(s, schedule, RunsBefore(order, i), c) && got == Status(Exec(s, schedule[..c]).db.row);
      BoundaryRow(order, s, schedule, i, c);
      StatusFits(order[i], Exec(s, schedule[..c]).db.row);
    }
  }

  /** Whatever a step reports when the runs take turns meets its expectation. */
  lemma StepMeets(order: seq<Name>, s: State, schedule: seq<nat>, i: nat, got: Probe)
    requires Linked(order) && Cast(order, s) && OneByOne(schedule) && AllDone(Exec(s, schedule))
    requires i < |order| && Reported(order, s, schedule, i, got)
    ensures Meets(Expected(order[i]), got)
  {
    if ActOf(order[i]).Do? {
      RunReported(order, s, schedule, i, got);
    } else {
      ReadReported(order, s, schedule, i, got);
    }
  }

  /** A linked sequence in which every step occurs and which ends at the failed migration, as ORDER does. */
  ghost predicate IsScenario(order: seq<Name>) {
    && Linked(order) && RowAfter(order[|order| - 1]) == Row(N, true)
    && forall name: Name :: name in order
  }

  lemma OrderIsScenario()
    ensures IsScenario(ORDER)
  {
    EveryNameOccurs(GoSteps2);
    EveryNameOccurs(GoVersionDirty4AfterPyUp);
    forall i | 0 <= i && i + 1 < |ORDER|
      ensures RowAfter(ORDER[i]) == RowBefore(ORDER[i + 1])
    {
      if i < 12 {
        EarlyLinks(i);
      } else {
        LateLinks(i);
      }
    }
    forall name: Name
      ensures name in ORDER
    {
      EveryNameOccurs(name);
    }
  }

  /** The failing migration 4 is not in the schema when the scenario is over. */
  lemma NothingLeft(order: seq<Name>, s: State, schedule: seq<nat>)
    requires IsScenario(order) && Cast(order, s) && OneByOne(schedule) && AllDone(Exec(s, schedule))
    ensures N !in Exec(s, schedule).db.schema
  {
    var n := |order| - 1;
    DbTracks(order, s, n);
    NextDb(order, s, n);
    SequentialHistory(s, schedule);
    assert s.runners[..|s.runners|] == s.runners;
  }

  /**
   Whichever languages run the steps of the scenario, in every completed one-after-the-other
   schedule of the machine, the report made of what the probes print is accepted, and 4 leaves
   nothing behind.
   */
  lemma ScenarioAccepted(order: seq<Name>, s: State, schedule: seq<nat>, steps: seq<(Name, Probe)>)
    requires IsScenario(order) && Cast(order, s) && OneByOne(schedule) && AllDone(Exec(s, schedule))
    requires |steps| == |order|
    requires forall i | 0 <= i < |order| :: StepReported(order, s, schedule, i, steps[i])
    ensures Accepted(ALL, steps, N in Exec(s, schedule).db.schema)
  {
    var fine := (name: Name, got: Probe) => Meets(Expected(name), got);
    forall i: nat | i < |steps|
      ensures fine(steps[i].0, steps[i].1)
    {
      StepMeets(order, s, schedule, i, steps[i].1);
    }
    ByNameHolds(steps, fine);
    forall name: Name
      ensures name in ByName(steps)
    {
      assert name in order;
      var i :| 0 <= i < |order| && order[i] == name;
      assert steps[i].0 == name;
    }
    NothingLeft(order, s, schedule);
  }

  // ---- the scenario arises, for every assignment of languages ----

  function RunnerFor(op: Op, lang: Lang): Runner {
    Runner(lang, "", 0, op, map[N := DIV0], 0, Idle, 0)
  }

  /** The runs of the first i steps, in the languages given by run number. */
  function RunnersFor(order: seq<Name>, langs: nat -> Lang, i: nat): seq<Runner>
    requires i <= |order|
  {
    if i == 0 then []
    else
      var before := RunnersFor(order, langs, i - 1);
      if ActOf(order[i - 1]).Do? then before + [RunnerFor(ActOf(order[i - 1]).op, langs(|before|))] else before
  }

  ghost predicate Casted(order: seq<Name>, langs: nat -> Lang, rs: seq<Runner>, i: nat) {
    && i <= |order| && |rs| == RunsBefore(order, i)
    && (forall q | 0 <= q < |rs| :: rs[q].lang == langs(q) && rs[q].pc == Idle && rs[q].did == 0)
    && forall j | 0 <= j < i && ActOf(order[j]).Do? ::
         RunsBefore(order, j) < |rs| && Asked(ActOf(order[j]).op, rs[RunsBefore(order, j)])
  }

  lemma {:induction false} RunnersCast(order: seq<Name>, langs: nat -> Lang, i: nat)
    requires i <= |order|
    ensures Casted(order, langs, RunnersFor(order, langs, i), i)
  {
    if i > 0 {
      RunnersCast(order, langs, i - 1);
      OneMore(order, langs, RunnersFor(order, langs, i - 1), RunnersFor(order, langs, i), i - 1);
    }
  }

  lemma RunnerAsked(op: Op, lang: Lang)
    ensures Asked(op, RunnerFor(op, lang))
  {
    ContainsTail("", DIV0);
    assert "" + DIV0 == DIV0;
  }

  lemma OneMore(order: seq<Name>, langs: nat -> Lang, before: seq<Runner>, rs: seq<Runner>, i: nat)
    requires i < |order| && Casted(order, langs, before, i)
    requires rs == if ActOf(order[i]).Do? then before + [RunnerFor(ActOf(order[i]).op, langs(|before|))] else before
    ensures Casted(order, langs, rs, i + 1)
  {
    assert |rs| == RunsBefore(order, i + 1);
    if ActOf(order[i]).Do? {
      RunnerAsked(ActOf(order[i]).op, langs(|before|));
    }
    forall j | 0 <= j < i + 1 && ActOf(order[j]).Do?
      ensures RunsBefore(order, j) < |rs| && Asked(ActOf(order[j]).op, rs[RunsBefore(order, j)])
    {
      if j < i {
        assert rs[RunsBefore(order, j)] == before[RunsBefore(order, j)];
      } else {
        assert rs[RunsBefore(order, j)] == RunnerFor(ActOf(order[i]).op, langs(|before|));
      }
    }
  }

  /** Each step has something to report. */
  lemma SomethingReported(order: seq<Name>, s: State, schedule: seq<nat>, i: nat) returns (got: Probe)
    requires Linked(order) && Cast(order, s) && OneByOne(schedule) && AllDone(Exec(s, schedule)) && i < |order|
    ensures Reported(order, s, schedule, i, got)
  {
    var q := RunsBefore(order, i);
    DbTracks(order, s, i);
    if ActOf(order[i]).Do? {
      ExecFrame(s, schedule);
      got := SomePrint(Ran(ActOf(order[i]).op, Exec(s, schedule).runners[q].pc.result));
    } else {
      var c := BoundaryExists(s, schedule, q);
      assert Boundary(s, schedule, q, c);
      BoundaryRow(order, s, schedule, i, c);
      var row := Exec(s, schedule[..c]).db.row;
      got := if ActOf(order[i]).CliStatus? then Status(row) else Read(ReportOf(Seen(row, row.version <= N)), "");
      var e := Seen(row, row.version <= N);
      assert ActOf(order[i]).ReadVersion? ==> Printed(e, ReportOf(e), "");
    }
  }

  lemma SomePrint(e: Ending) returns (got: Probe)
    requires e.Ran?
    ensures PrintedAs(got, e)
  {
    var error := if e.result.Failed? then e.result.error else "";
    ContainsTail("", error);
    assert "" + error == error;
    assert Printed(e, ReportOf(e), error);
    got := Read(ReportOf(e), error);
  }

  lemma {:induction false} StepsReported(order: seq<Name>, s: State, schedule: seq<nat>, i: nat)
      returns (steps: seq<(Name, Probe)>)
    requires Linked(order) && Cast(order, s) && OneByOne(schedule) && AllDone(Exec(s, schedule)) && i <= |order|
    ensures |steps| == i
    ensures forall j | 0 <= j < i :: StepReported(order, s, schedule, j, steps[j])
  {
    if i == 0 {
      steps := [];
    } else {
      var before := StepsReported(order, s, schedule, i - 1);
      var got := SomethingReported(order, s, schedule, i - 1);
      var step := (order[i - 1], got);
      assert StepReported(order, s, schedule, i - 1, step);
      steps := before + [step];
      assert forall j | 0 <= j < i - 1 :: steps[j] == before[j];
    }
  }

  /** For every assignment of languages there are runs, a schedule and a report as ScenarioAccepted supposes. */
  lemma ScenarioArises(langs: nat -> Lang) returns (s: State, schedule: seq<nat>, steps: seq<(Name, Probe)>)
    ensures IsScenario(ORDER) && Cast(ORDER, s) && forall q | 0 <= q < |s.runners| :: s.runners[q].lang == langs(q)
    ensures OneByOne(schedule) && AllDone(Exec(s, schedule)) && |steps| == |ORDER|
    ensures forall i | 0 <= i < |ORDER| :: StepReported(ORDER, s, schedule, i, steps[i])
  {
    OrderIsScenario();
    RunnersCast(ORDER, langs, |ORDER|);
    s := State(N, FRESH, map[], RunnersFor(ORDER, langs, |ORDER|));
    schedule := TakeTurns(s, 0);
    steps := StepsReported(ORDER, s, schedule, |ORDER|);
  }
}
