/**
 The migration runners of both languages as one small-step machine over a shared database.

 A tracking row, a schema, the table in which every up migration records itself, and one
 advisory lock per key are shared by any number of runners.  A schedule is a sequence of runner
 indices; every interleaving is some schedule, and a runner that cannot move stutters.

 The two languages differ in one place only (see BatchDone): after each migration the Go runner
 gives the lock back and asks for it again, the Python runner keeps it for its whole run.
 Both read the tracking row only while they hold the lock.
 */
module Runners {
  import opened Prelude

  datatype Lang = Go | Python

  /** The tracking row; version 0 stands for "no version recorded". */
  datatype Row = Row(version: nat, dirty: bool)

  datatype Effect = Effect(version: nat, who: string)

  datatype Db = Db(row: Row, schema: set<nat>, effects: seq<Effect>)

  datatype Op = Up | Down(n: nat) | Steps(n: nat) | Force(v: nat)

  datatype Code = DirtyCode | NotInSource | ShortLimit | Error

  datatype Outcome = Changed | NoChange

  datatype Result = Ok(outcome: Option<Outcome>) | Failed(code: Code, error: string)

  datatype Pc =
    | Idle                         // does not hold or want the lock yet
    | InLine                       // asked for the lock, blocked unless first in line
    | Holding                      // owns the lock, has not read the row
    | Read(row: Row)               // has read the row under the lock
    | Dirtied(v: nat, up: bool)    // wrote the dirty row; migration v is running
    | Batched(v: nat, up: bool)    // migration v committed; the row is still dirty
    | Leaving(res: Option<Result>) // about to release; None means it will ask again
    | Done(result: Result)

  /**
   One run of one operation.  `fails` gives the database error of each up migration that fails in
   this run.  `cut` says how many migrations a run applies when fewer are left than it was asked
   for; the harness only names the resulting error code, so every value is allowed.
   */
  datatype Runner = Runner(lang: Lang, name: string, key: int, op: Op,
                           fails: map<nat, string>, cut: nat, pc: Pc, did: nat)

  /** `lines[k]` is the FIFO line of the lock with key k: its head owns the lock. */
  datatype State = State(n: nat, db: Db, lines: map<int, seq<nat>>, runners: seq<Runner>)

  datatype Move = Stop(res: Result) | Apply(v: nat) | Undo(v: nat) | Write(v: nat)

  function Line(s: State, k: int): seq<nat> {
    if k in s.lines then s.lines[k] else []
  }

  predicate Holds(pc: Pc) {
    pc.Holding? || pc.Read? || pc.Dirtied? || pc.Batched? || pc.Leaving?
  }

  /** Inside a migration: the row has been marked dirty and not been cleared. */
  predicate Mid(pc: Pc) {
    pc.Dirtied? || pc.Batched?
  }

  function Finish(did: nat): Result {
    Ok(Some(if did == 0 then NoChange else Changed))
  }

  predicate QuotaDone(op: Op, did: nat) {
    (op.Down? || op.Steps?) && did >= op.n
  }

  function Budgeted(quota: nat, did: nat, cut: nat, available: nat, move: Move): Move {
    if did >= quota then Stop(Finish(did))
    else if available == 0 then Stop(if did == 0 then Finish(0) else Failed(ShortLimit, ""))
    else if available < quota - did && cut <= did then Stop(Failed(ShortLimit, ""))
    else move
  }

  /** What a run does after reading `row` under the lock, n migrations being in its source. */
  function Decide(n: nat, op: Op, cut: nat, did: nat, row: Row): Move {
    if op.Force? then Write(op.v)
    else if row.dirty then Stop(Failed(DirtyCode, ""))
    else if row.version > n then Stop(Failed(NotInSource, ""))
    else
      match op
      case Up => if row.version < n then Apply(row.version + 1) else Stop(Finish(did))
      case Steps(k) => Budgeted(k, did, cut, n - row.version, Apply(row.version + 1))
      case Down(k) => Budgeted(k, did, cut, row.version, Undo(row.version))
      case Force(v) => Write(v)
  }

  /** The row while migration v runs, and, once `dirty` is cleared, after it. */
  function Target(v: nat, up: bool): nat {
    if up then v else if v == 0 then 0 else v - 1
  }

  /** The committed batch: an up migration records itself; undoing 1 drops the effects table. */
  function Commit(db: Db, v: nat, up: bool, who: string): Db {
    if up then db.(schema := db.schema + {v}, effects := db.effects + [Effect(v, who)])
    else db.(schema := db.schema - {v}, effects := if v == 1 then [] else db.effects)
  }

  function Goto(s: State, i: nat, pc: Pc): State
    requires i < |s.runners|
  {
    s.(runners := s.runners[i := s.runners[i].(pc := pc)])
  }

  function Join(s: State, i: nat): State
    requires i < |s.runners|
  {
    var k := s.runners[i].key;
    Goto(s, i, InLine).(lines := s.lines[k := Line(s, k) + [i]])
  }

  function Release(s: State, i: nat, next: Option<Result>): State
    requires i < |s.runners|
  {
    var k := s.runners[i].key;
    var line := Line(s, k);
    Goto(s, i, if next.Some? then Done(next.value) else Idle)
    .(lines := s.lines[k := if line == [] then [] else line[1..]])
  }

  function BatchDone(r: Runner, row: Row): Pc {
    if QuotaDone(r.op, r.did) then Leaving(Some(Finish(r.did)))
    else if r.lang.Go? then Leaving(None)
    else Read(row)
  }

  function StepRead(s: State, i: nat, row: Row): State
    requires i < |s.runners|
  {
    var r := s.runners[i];
    match Decide(s.n, r.op, r.cut, r.did, row)
    case Stop(res) => Goto(s, i, Leaving(Some(res)))
    case Apply(v) => Goto(s, i, Dirtied(v, true)).(db := s.db.(row := Row(v, true)))
    case Undo(v) => Goto(s, i, Dirtied(v, false)).(db := s.db.(row := Row(Target(v, false), true)))
    case Write(v) => Goto(s, i, Leaving(Some(Ok(None)))).(db := s.db.(row := Row(v, false)))
  }

  function StepBatch(s: State, i: nat, v: nat, up: bool): State
    requires i < |s.runners|
  {
    var r := s.runners[i];
    if up && v in r.fails then Goto(s, i, Leaving(Some(Failed(Error, r.fails[v]))))
    else Goto(s, i, Batched(v, up)).(db := Commit(s.db, v, up, r.name))
  }

  function StepClean(s: State, i: nat, v: nat, up: bool): State
    requires i < |s.runners|
  {
    var row := Row(Target(v, up), false);
    var r := s.runners[i].(did := s.runners[i].did + 1);
    s.(db := s.db.(row := row), runners := s.runners[i := r.(pc := BatchDone(r, row))])
  }

  /** One step of runner i; the state itself when i cannot move. */
  function Step(s: State, i: nat): State {
    if i >= |s.runners| then s
    else
      var r := s.runners[i];
      match r.pc
      case Idle => Join(s, i)
      case InLine => if Line(s, r.key) != [] && Line(s, r.key)[0] == i then Goto(s, i, Holding) else s
      case Holding => Goto(s, i, Read(s.db.row))
      case Read(row) => StepRead(s, i, row)
      case Dirtied(v, up) => StepBatch(s, i, v, up)
      case Batched(v, up) => StepClean(s, i, v, up)
      case Leaving(next) => Release(s, i, next)
      case Done(_) => s
  }

  function Exec(s: State, schedule: seq<nat>): State
    decreases |schedule|
  {
    if schedule == [] then s else Exec(Step(s, schedule[0]), schedule[1..])
  }

  /** Runners that have not started, on a database whose lock nobody wants. */
  predicate Initial(s: State) {
    && s.lines == map[]
    && forall i | 0 <= i < |s.runners| :: s.runners[i].pc == Idle && s.runners[i].did == 0
  }

  const FRESH: Db := Db(Row(0, false), {}, [])

  ghost predicate OneKey(s: State, k: int) {
    forall i | 0 <= i < |s.runners| :: s.runners[i].key == k
  }

  lemma {:induction false} ExecAppend(s: State, a: seq<nat>, b: seq<nat>)
    ensures Exec(s, a + b) == Exec(Exec(s, a), b)
    decreases |a|
  {
    if a == [] {
      assert a + b == b;
    } else {
      assert (a + b)[0] == a[0] && (a + b)[1..] == a[1..] + b;
      ExecAppend(Step(s, a[0]), a[1..], b);
    }
  }

  /** Runner q is runner r further on: the same run, asked for the same thing. */
  predicate SameRun(r: Runner, q: Runner) {
    && q.lang == r.lang && q.name == r.name && q.key == r.key && q.op == r.op
    && q.fails == r.fails && q.cut == r.cut
  }

  lemma StepOthers(s: State, i: nat)
    ensures var t := Step(s, i);
            && t.n == s.n && |t.runners| == |s.runners|
            && (forall j | 0 <= j < |s.runners| && j != i :: t.runners[j] == s.runners[j])
  {
  }

  lemma StepReadSelf(s: State, i: nat, row: Row)
    requires i < |s.runners|
    ensures i < |StepRead(s, i, row).runners| && SameRun(s.runners[i], StepRead(s, i, row).runners[i])
  {
  }

  lemma StepSelf(s: State, i: nat)
    requires i < |s.runners|
    ensures i < |Step(s, i).runners| && SameRun(s.runners[i], Step(s, i).runners[i])
  {
    if s.runners[i].pc.Read? {
      StepReadSelf(s, i, s.runners[i].pc.row);
    }
  }

  /** What no step of any runner changes. */
  lemma StepFrame(s: State, i: nat)
    ensures var t := Step(s, i);
            && t.n == s.n && |t.runners| == |s.runners|
            && (forall j | 0 <= j < |s.runners| && j != i :: t.runners[j] == s.runners[j])
            && (forall j | 0 <= j < |s.runners| :: SameRun(s.runners[j], t.runners[j]))
  {
    StepOthers(s, i);
    if i < |s.runners| {
      StepSelf(s, i);
    }
  }
}
