/**
 A run that nobody interferes with.  `Perform` says what one operation does to the database as a
 whole, without locks, steps or a language; both machines refine it when they run alone, so in a
 sequential history the two languages cannot be told apart.
 */
module Solo {
  import opened Prelude
  import opened Runners
  import opened LockLine

  datatype Run = Run(db: Db, result: Result, did: nat)

  function Room(n: nat, op: Op, version: nat): nat {
    if op.Down? then version else if version <= n then n - version else 0
  }

  /** A whole run of r on `db`, having already applied `did` migrations. */
  function Perform(n: nat, r: Runner, did: nat, db: Db): Run
    decreases Room(n, r.op, db.row.version)
  {
    match Decide(n, r.op, r.cut, did, db.row)
    case Stop(res) => Run(db, res, did)
    case Write(v) => Run(db.(row := Row(v, false)), Ok(None), did)
    case Apply(v) =>
      if v in r.fails then Run(db.(row := Row(v, true)), Failed(Error, r.fails[v]), did)
      else Perform(n, r, did + 1, Commit(db, v, true, r.name).(row := Row(v, false)))
    case Undo(v) =>
      Perform(n, r, did + 1, Commit(db, v, false, r.name).(row := Row(Target(v, false), false)))
  }

  function Rep(t: nat, i: nat): seq<nat> {
    seq(t, _ => i)
  }

  lemma RepAppend(s: State, i: nat, a: nat, b: nat)
    ensures Exec(s, Rep(a + b, i)) == Exec(Exec(s, Rep(a, i)), Rep(b, i))
  {
    assert Rep(a + b, i) == Rep(a, i) + Rep(b, i);
    ExecAppend(s, Rep(a, i), Rep(b, i));
  }

  lemma RepStep(s: State, i: nat, t: nat)
    ensures Exec(s, Rep(t + 1, i)) == Exec(Step(s, i), Rep(t, i))
  {
    assert Rep(t + 1, i)[1..] == Rep(t, i);
  }

  /** Where a lone run of i ends: its result recorded, its lock free, nothing else touched. */
  function Finished(s: State, i: nat): State
    requires i < |s.runners|
  {
    var r := s.runners[i];
    var p := Perform(s.n, r, r.did, s.db);
    s.(db := p.db, lines := s.lines[r.key := []],
       runners := s.runners[i := r.(pc := Done(p.result), did := p.did)])
  }

  /** The state after a migration went through, back at a read of the row. */
  function Again(s: State, i: nat, v: nat, up: bool): State
    requires i < |s.runners|
  {
    var r := s.runners[i];
    var row := Row(Target(v, up), false);
    s.(db := Commit(s.db, v, up, r.name).(row := row),
       runners := s.runners[i := r.(pc := Read(row), did := r.did + 1)])
  }

  ghost predicate AtRead(s: State, i: nat) {
    && i < |s.runners| && s.runners[i].pc == Read(s.db.row)
    && s.runners[i].key in s.lines && s.lines[s.runners[i].key] == [i]
  }

  lemma LeaveNow(s: State, i: nat, res: Result)
    requires i < |s.runners| && s.runners[i].pc == Leaving(Some(res)) && Line(s, s.runners[i].key) == [i]
    ensures Step(s, i) == Goto(s, i, Done(res)).(lines := s.lines[s.runners[i].key := []])
  {
    assert Line(s, s.runners[i].key)[1..] == [];
  }

  /** The run ends at this read: it stops, forces, or its batch fails. */
  lemma LastRead(s: State, i: nat) returns (t: nat)
    requires AtRead(s, i)
    requires var r := s.runners[i];
             var d := Decide(s.n, r.op, r.cut, r.did, s.db.row);
             d.Stop? || d.Write? || (d.Apply? && d.v in r.fails)
    ensures Exec(s, Rep(t, i)) == Finished(s, i)
  {
    var a := Step(s, i);
    var r := s.runners[i];
    match Decide(s.n, r.op, r.cut, r.did, s.db.row) {
      case Stop(res) =>
        t := 2;
        LeaveNow(a, i, res);
        assert Step(a, i) == Finished(s, i);
      case Write(v) =>
        t := 2;
        LeaveNow(a, i, Ok(None));
        assert Step(a, i) == Finished(s, i);
      case Apply(v) =>
        t := 3;
        LeaveNow(Step(a, i), i, Failed(Error, r.fails[v]));
        assert Step(Step(a, i), i) == Finished(s, i);
        RepStep(Step(a, i), i, 0);
    }
    RepStep(s, i, t - 1);
    RepStep(a, i, t - 2);
  }

  /** Read, mark dirty, commit, mark clean. */
  lemma Migrate(s: State, i: nat, v: nat, up: bool) returns (c: State)
    requires AtRead(s, i)
    requires var r := s.runners[i];
             var d := Decide(s.n, r.op, r.cut, r.did, s.db.row);
             d == if up then Apply(v) else Undo(v)
    requires up ==> v !in s.runners[i].fails
    ensures Exec(s, Rep(3, i)) == c
    ensures var r := s.runners[i].(did := s.runners[i].did + 1);
            c == Goto(Again(s, i, v, up), i, BatchDone(r, Row(Target(v, up), false)))
  {
    var a := Step(s, i);
    assert a.runners[i].pc == Dirtied(v, up);
    var b := Step(a, i);
    assert b.runners[i].pc == Batched(v, up) && b.runners[i].did == s.runners[i].did;
    c := Step(b, i);
    RepStep(s, i, 2);
    RepStep(a, i, 1);
    RepStep(b, i, 0);
    var row := Row(Target(v, up), false);
    assert c.db == Commit(s.db, v, up, s.runners[i].name).(row := row);
    assert c.runners == Goto(Again(s, i, v, up), i, BatchDone(s.runners[i].(did := s.runners[i].did + 1), row)).runners;
  }

  /** A Go runner between two migrations releases the lock and takes it again. */
  lemma Relock(c: State, i: nat)
    requires i < |c.runners| && c.runners[i].pc == Leaving(None)
    requires c.runners[i].key in c.lines && c.lines[c.runners[i].key] == [i]
    ensures Exec(c, Rep(4, i)) == Goto(c, i, Read(c.db.row))
  {
    LetGo(c, i);
    var d := Step(c, i);
    AcquireAndRead(d, i);
    assert Rep(3, i) == [i, i, i];
    RepStep(c, i, 3);
    assert Goto(c, i, Read(c.db.row)).lines == d.lines[c.runners[i].key := [i]];
  }

  lemma LetGo(c: State, i: nat)
    requires i < |c.runners| && c.runners[i].pc == Leaving(None) && Line(c, c.runners[i].key) == [i]
    ensures Step(c, i) == Goto(c, i, Idle).(lines := c.lines[c.runners[i].key := []])
  {
    assert Line(c, c.runners[i].key)[1..] == [];
  }

  /** One migration, and what follows it up to the end of the run or the next read of the row. */
  lemma OneMigration(s: State, i: nat, v: nat, up: bool) returns (t: nat)
    requires AtRead(s, i)
    requires var r := s.runners[i];
             Decide(s.n, r.op, r.cut, r.did, s.db.row) == if up then Apply(v) else Undo(v)
    requires up ==> v !in s.runners[i].fails
    ensures var u := Again(s, i, v, up);
            && AtRead(u, i)
            && Exec(s, Rep(t, i)) == if QuotaDone(u.runners[i].op, u.runners[i].did) then Finished(u, i) else u
  {
    var u := Again(s, i, v, up);
    var c := Migrate(s, i, v, up);
    var more := AfterMigration(s, i, c, u);
    t := 3 + more;
    RepAppend(s, i, 3, more);
  }

  lemma {:induction false} FromRead(s: State, i: nat) returns (t: nat)
    requires AtRead(s, i)
    ensures Exec(s, Rep(t, i)) == Finished(s, i)
    decreases Room(s.n, s.runners[i].op, s.db.row.version)
  {
    var r := s.runners[i];
    var d := Decide(s.n, r.op, r.cut, r.did, s.db.row);
    if d.Stop? || d.Write? || (d.Apply? && d.v in r.fails) {
      t := LastRead(s, i);
    } else {
      t := OneMigration(s, i, d.v, d.Apply?);
      var u := Again(s, i, d.v, d.Apply?);
      if !QuotaDone(u.runners[i].op, u.runners[i].did) {
        var rest := FromRead(u, i);
        RepAppend(s, i, t, rest);
        t := t + rest;
      }
      FinishedAgain(s, i, d.v, d.Apply?);
    }
  }

  /** A run that goes on ends where the run from its next read ends. */
  lemma FinishedAgain(s: State, i: nat, v: nat, up: bool)
    requires AtRead(s, i)
    requires var r := s.runners[i];
             Decide(s.n, r.op, r.cut, r.did, s.db.row) == if up then Apply(v) else Undo(v)
    requires up ==> v !in s.runners[i].fails
    ensures Finished(Again(s, i, v, up), i) == Finished(s, i)
  {
    var u := Again(s, i, v, up);
    SameSpec(s.n, s.runners[i], u.runners[i], u.runners[i].did, u.db);
    assert Finished(u, i).runners == Finished(s, i).runners;
  }

  /** From a committed migration to the end of the run, or to the next read of the row. */
  lemma AfterMigration(s: State, i: nat, c: State, u: State) returns (t: nat)
    requires AtRead(s, i) && AtRead(u, i)
    requires c == Goto(u, i, BatchDone(u.runners[i], u.db.row))
    requires !u.db.row.dirty && u.db.row.version <= u.n
    ensures Exec(c, Rep(t, i))
            == if QuotaDone(u.runners[i].op, u.runners[i].did) then Finished(u, i) else u
  {
    if QuotaDone(u.runners[i].op, u.runners[i].did) {
      t := 1;
      LeaveNow(c, i, Finish(u.runners[i].did));
      RepStep(c, i, 0);
    } else if u.runners[i].lang.Go? {
      t := 4;
      Relock(c, i);
    } else {
      t := 0;
      assert c == u;
    }
  }

  /** A run that starts with its lock free and is the only one to step refines Perform. */
  lemma RunAlone(s: State, i: nat) returns (t: nat)
    requires i < |s.runners| && s.runners[i].pc == Idle && Line(s, s.runners[i].key) == []
    ensures Exec(s, Rep(t, i)) == Finished(s, i)
  {
    AcquireAndRead(s, i);
    assert Rep(3, i) == [i, i, i];
    var a := Exec(s, Rep(3, i));
    var rest := FromRead(a, i);
    t := 3 + rest;
    RepAppend(s, i, 3, rest);
    SameSpec(s.n, s.runners[i], a.runners[i], s.runners[i].did, s.db);
    assert Finished(a, i) == Finished(s, i);
  }

  /** Perform looks only at the operation, the failing batches, the cut and the name. */
  lemma {:induction false} SameSpec(n: nat, r: Runner, q: Runner, did: nat, db: Db)
    requires r.op == q.op && r.fails == q.fails && r.cut == q.cut && r.name == q.name
    ensures Perform(n, r, did, db) == Perform(n, q, did, db)
    decreases Room(n, r.op, db.row.version)
  {
    match Decide(n, r.op, r.cut, did, db.row)
    case Apply(v) =>
      if v !in r.fails {
        SameSpec(n, r, q, did + 1, Commit(db, v, true, r.name).(row := Row(v, false)));
      }
    case Undo(v) =>
      SameSpec(n, r, q, did + 1, Commit(db, v, false, r.name).(row := Row(Target(v, false), false)));
    case _ =>
  }
}
