/**
 What an accepting verdict of the roundtrip checker pins down: the values each report must show, and
 with them the rows that were read and the results of the runs.
 */
module RoundtripVerdict {
  import opened Prelude
  import opened Runners
  import opened ProbeReport
  import opened Sequences
  import opened Roundtrip

  // ---- the values a report must show ----

  /** needle stands somewhere in hay. */
  ghost predicate StandsIn(needle: string, hay: string) {
    exists head: string, tail: string :: hay == head + needle + tail
  }

  lemma ContainsIff(hay: string, needle: string)
    ensures Contains(hay, needle) <==> StandsIn(needle, hay)
  {
    if Contains(hay, needle) {
      var i :| 0 <= i <= |hay| && needle <= hay[i..];
      assert hay == hay[..i] + needle + hay[i..][|needle|..];
    }
    if StandsIn(needle, hay) {
      var head: string, tail: string :| hay == head + needle + tail;
      assert hay[|head|..] == needle + tail;
    }
  }

  predicate ShowsRow(got: Probe, version: Option<nat>, dirty: bool) {
    got.ok == Some(true) && got.version == Some(version) && got.dirty == Some(dirty)
  }

  predicate ShowsText(got: Probe, exitCode: int, stdout: string) {
    got.exitCode == Some(exitCode) && got.stdout == Some(stdout)
  }

  /** What the report of each step must show. */
  ghost predicate Right(name: Name, got: Probe) {
    match name
    case GoSteps2 | PySteps1 | PyDown1 | GoDown3 => got.ok == Some(true) && got.outcome == Some(Changed)
    case PyVersionAfterGoSteps2 | GoVersionAfterPyDown1 => ShowsRow(got, Some(2), false)
    case GoVersionAfterPySteps1 | GoVersionAfterPyForce3 | PyVersionAfterGoForce3 => ShowsRow(got, Some(3), false)
    case GoUpFailsAt4 | PyUpFailsAt4 | PyUpFromNoneFailsAt4 =>
      && got.ok == Some(false) && got.code == Some(Error)
      && got.error.Some? && StandsIn("division by zero", got.error.value)
    case GoVersionDirty4 | PyVersionDirty4FromGo | PyVersionDirty4 | GoVersionDirty4FromPy
      | GoVersionDirty4AfterPyUp => ShowsRow(got, Some(4), true)
    case PyUpRefusesDirty | GoUpRefusesDirty => got.ok == Some(false) && got.code == Some(DirtyCode)
    case PyForce3 | GoForce3 => got.ok == Some(true)
    case PyVersionNone => ShowsRow(got, None, false)
    case CliAfterGoSteps2 => ShowsText(got, 0, "version: 2 dirty: false")
    case CliDirty4FromGo => ShowsText(got, 3, "version: 4 dirty: true")
    case CliNone => ShowsText(got, 0, "version: none (no migrations applied)")
  }

  lemma AbsentError(error: Option<string>)
    ensures Contains(if error.Some? then error.value else "", DIV0)
            <==> error.Some? && StandsIn("division by zero", error.value)
  {
    ContainsIff(if error.Some? then error.value else "", DIV0);
  }

  lemma RunMeetsIff(name: Name, got: Probe)
    requires ActOf(name).Do?
    ensures Meets(Expected(name), got) <==> Right(name, got)
  {
    AbsentError(got.error);
  }

  lemma ReadMeetsIff(name: Name, got: Probe)
    requires ActOf(name).ReadVersion?
    ensures Meets(Expected(name), got) <==> Right(name, got)
  {
    AbsentError(got.error);
  }

  lemma StatusMeetsIff(name: Name, got: Probe)
    requires ActOf(name).CliStatus?
    ensures Meets(Expected(name), got) <==> Right(name, got)
  {
    AbsentError(got.error);
  }

  /** The checker's comparisons come to exactly these values. */
  lemma MeetsIff(name: Name, got: Probe)
    ensures Meets(Expected(name), got) <==> Right(name, got)
  {
    match ActOf(name)
    case Do(_) => RunMeetsIff(name, got);
    case ReadVersion => ReadMeetsIff(name, got);
    case CliStatus => StatusMeetsIff(name, got);
  }

  // ---- from the values back to rows and results ----

  lemma RowPinned(name: Name, row: Row, got: Probe)
    requires ActOf(name) == ReadVersion && PrintedAs(got, Seen(row, row.version <= N))
    requires row.version == 0 ==> !row.dirty
    requires Meets(Expected(name), got)
    ensures row == RowBefore(name)
  {
    MeetsIff(name, got);
    var out, error :| Printed(Seen(row, row.version <= N), out, error) && got == Roundtrip.Read(out, error);
  }

  /** The result that each run of the scenario is to have. */
  ghost predicate Due(name: Name, result: Result, got: Probe) {
    match name
    case GoSteps2 | PySteps1 | PyDown1 | GoDown3 => result == Ok(Some(Changed))
    case PyForce3 | GoForce3 => result.Ok?
    case PyUpRefusesDirty | GoUpRefusesDirty => result.Failed? && result.code == DirtyCode
    case GoUpFailsAt4 | PyUpFailsAt4 | PyUpFromNoneFailsAt4 =>
      && result.Failed? && result.code == Error
      && got.error.Some? && StandsIn("division by zero", got.error.value)
    case _ => true
  }

  lemma ResultPinned(name: Name, op: Op, result: Result, got: Probe)
    requires ActOf(name).Do? && PrintedAs(got, Ran(op, result)) && Meets(Expected(name), got)
    ensures Due(name, result, got)
  {
    MeetsIff(name, got);
    var out, error :| Printed(Ran(op, result), out, error) && got == Roundtrip.Read(out, error);
  }

  // ---- the status line ----

  lemma {:induction false} DecimalDigits(v: nat)
    ensures Decimal(v) != [] && forall i | 0 <= i < |Decimal(v)| :: '0' <= Decimal(v)[i] <= '9'
    decreases v
  {
    if v >= 10 {
      DecimalDigits(v / 10);
    }
  }

  lemma DigitInjective(a: nat, b: nat)
    requires a < 10 && b < 10 && Digit(a)[0] == Digit(b)[0]
    ensures a == b
  {
  }

  lemma {:induction false} DecimalInjective(v: nat, w: nat)
    requires Decimal(v) == Decimal(w)
    ensures v == w
    decreases v
  {
    var s := Decimal(v);
    DecimalDigits(v / 10);
    DecimalDigits(w / 10);
    assert |s| == 1 <==> v < 10;
    assert |s| == 1 <==> w < 10;
    assert s[|s| - 1] == Digit(v % 10)[0] == Digit(w % 10)[0];
    DigitInjective(v % 10, w % 10);
    if v >= 10 {
      assert s[..|s| - 1] == Decimal(v / 10) == Decimal(w / 10);
      DecimalInjective(v / 10, w / 10);
    }
  }

  /** A head without blanks ends at the first blank. */
  lemma HeadBeforeBlank(a: string, x: string, b: string, y: string)
    requires ' ' !in a && ' ' !in b && a + " " + x == b + " " + y
    ensures a == b && x == y
  {
    var p, q := a + " " + x, b + " " + y;
    assert p[|a|] == ' ' && q[|b|] == ' ';
    assert a == p[..|a|] && b == q[..|b|];
    assert x == p[|a| + 1..] && y == q[|b| + 1..];
  }

  function Flag(dirty: bool): string {
    if dirty then "true" else "false"
  }

  function Rest(dirty: bool): string {
    "dirty: " + Flag(dirty)
  }

  lemma LineParts(digits: string, flag: string)
    ensures "version: " + digits + " dirty: " + flag == "version: " + (digits + " " + ("dirty: " + flag))
  {
    assert " dirty: " == " " + "dirty: ";
  }

  lemma Cancel(head: string, p: string, q: string)
    requires head + p == head + q
    ensures p == q
  {
    assert p == (head + p)[|head|..] && q == (head + q)[|head|..];
  }

  lemma NoBlank(v: nat)
    ensures ' ' !in Decimal(v)
  {
    DecimalDigits(v);
  }

  lemma LineInjective(v: nat, f: bool, w: nat, g: bool)
    requires "version: " + Decimal(v) + " dirty: " + Flag(f) == "version: " + Decimal(w) + " dirty: " + Flag(g)
    ensures v == w && f == g
  {
    LineParts(Decimal(v), Flag(f));
    LineParts(Decimal(w), Flag(g));
    Cancel("version: ", Decimal(v) + " " + Rest(f), Decimal(w) + " " + Rest(g));
    NoBlank(v);
    NoBlank(w);
    HeadBeforeBlank(Decimal(v), Rest(f), Decimal(w), Rest(g));
    DecimalInjective(v, w);
    Cancel("dirty: ", Flag(f), Flag(g));
    assert |Flag(f)| == |Flag(g)|;
  }

  lemma NoneIsNoLine(v: nat, f: bool)
    ensures "version: " + Decimal(v) + " dirty: " + Flag(f) != "version: none (no migrations applied)"
  {
    var line := "version: " + Decimal(v) + " dirty: " + Flag(f);
    DecimalDigits(v);
    assert line[9] == Decimal(v)[0];
    assert "version: none (no migrations applied)"[9] == 'n';
  }

  /** The status output tells any two rows apart, where a row without a version is clean. */
  lemma StatusInjective(a: Row, b: Row)
    requires (a.version == 0 ==> !a.dirty) && (b.version == 0 ==> !b.dirty) && Status(a) == Status(b)
    ensures a == b
  {
    NoneIsNoLine(a.version, a.dirty);
    NoneIsNoLine(b.version, b.dirty);
    if a.version > 0 && b.version > 0 {
      LineInjective(a.version, a.dirty, b.version, b.dirty);
    }
  }

  lemma StatusPinned(name: Name, row: Row)
    requires ActOf(name) == CliStatus && (row.version == 0 ==> !row.dirty) && Meets(Expected(name), Status(row))
    ensures row == RowBefore(name)
  {
    StatusTexts();
    StatusInjective(row, RowBefore(name));
  }

  // ---- a whole report ----

  /** What stands behind the reports: the rows read and the results of the runs, step by step. */
  ghost predicate Behind(order: seq<Name>, steps: seq<(Name, Probe)>, rows: seq<Row>, results: seq<Result>) {
    && |steps| == |rows| == |results| == |order|
    && forall i | 0 <= i < |order| :: Stands(order[i], steps[i], rows[i], results[i])
  }

  ghost predicate Stands(name: Name, step: (Name, Probe), row: Row, result: Result) {
    && step.0 == name && (row.version == 0 ==> !row.dirty)
    && match ActOf(name)
       case Do(op) => PrintedAs(step.1, Ran(op, result))
       case ReadVersion => PrintedAs(step.1, Seen(row, row.version <= N))
       case CliStatus => step.1 == Status(row)
  }

  lemma NamedStep(order: seq<Name>, steps: seq<(Name, Probe)>, i: nat)
    requires Distinct(order) && |steps| == |order| && i < |order|
    requires forall j | 0 <= j < |order| :: steps[j].0 == order[j]
    ensures order[i] in ByName(steps) && ByName(steps)[order[i]] == steps[i].1
  {
    IndexHolds(steps, StepName, StepResult, order[i]);
    assert steps[i] in steps && StepName(steps[i]) == order[i];
    var x :| x in steps && StepName(x) == order[i] && StepResult(x) == ByName(steps)[order[i]];
    var j :| 0 <= j < |steps| && steps[j] == x;
    assert order[j] == order[i];
  }

  /**
   An accepted report determines what was read and how every run ended: each version read and each
   status found the row of its step, each run had the result it was to have, and nothing was left.
   */
  lemma AcceptedPins(order: seq<Name>, steps: seq<(Name, Probe)>, rows: seq<Row>, results: seq<Result>,
                     leftObjects: bool, i: nat)
    requires Distinct(order) && Behind(order, steps, rows, results) && Accepted(ALL, steps, leftObjects) && i < |order|
    ensures !leftObjects && Right(order[i], steps[i].1)
    ensures !ActOf(order[i]).Do? ==> rows[i] == RowBefore(order[i])
    ensures ActOf(order[i]).Do? ==> Due(order[i], results[i], steps[i].1)
  {
    assert forall j | 0 <= j < |order| :: Stands(order[j], steps[j], rows[j], results[j]);
    NamedStep(order, steps, i);
    var name, got := order[i], steps[i].1;
    assert Meets(Expected(name), got);
    MeetsIff(name, got);
    match ActOf(name)
    case Do(op) => ResultPinned(name, op, results[i], got);
    case ReadVersion => RowPinned(name, rows[i], got);
    case CliStatus => StatusPinned(name, rows[i]);
  }

  /** The scenario's 25 names are distinct, so this applies to its reports. */
  lemma OrderDistinct()
    ensures Distinct(ORDER)
  {
    forall i: nat | i < |ORDER|
      ensures NameIndex(ORDER[i]) == i
    {
      IndexOfName(i);
    }
  }

  lemma IndexOfName(i: nat)
    requires i < |ORDER|
    ensures NameIndex(ORDER[i]) == i
  {
  }
}
