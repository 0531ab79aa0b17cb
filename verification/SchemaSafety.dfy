/**
 What the tracking row says about the schema, in every schedule of any number of runners of both
 languages that share one lock key: up, down, steps and force, with arbitrary failing up batches.
 */
module SchemaSafety {
  import opened Prelude
  import opened Runners
  import opened LockLine

  /** The last migration the row vouches for: a dirty row vouches for those below its version. */
  function Below(row: Row): nat {
    if row.dirty && row.version >= 1 then row.version - 1 else row.version
  }

  /** Clean at v: exactly 1..v are applied.  Dirty at v: exactly those below v. */
  ghost predicate Settled(n: nat, db: Db) {
    && db.row.version <= n
    && (db.row.dirty ==> db.row.version >= 1)
    && db.schema == Prefix(Below(db.row))
  }

  /** The database while a runner is inside migration v. */
  ghost predicate Agrees(n: nat, db: Db, pc: Pc) {
    && Mid(pc) && 1 <= pc.v <= n
    && db.row == Row(Target(pc.v, pc.up), true)
    && db.schema == Prefix(if pc.Batched? then Target(pc.v, pc.up) else Target(pc.v, !pc.up))
  }

  ghost predicate NoneMid(s: State) {
    forall i | 0 <= i < |s.runners| :: !Mid(s.runners[i].pc)
  }

  ghost predicate Consistent(s: State) {
    && (forall i | 0 <= i < |s.runners| && Mid(s.runners[i].pc) :: Agrees(s.n, s.db, s.runners[i].pc))
    && (forall i | 0 <= i < |s.runners| && s.runners[i].pc.Read? :: s.runners[i].pc.row == s.db.row)
    && (NoneMid(s) ==> Settled(s.n, s.db))
  }

  ghost predicate Inv(s: State, k: int) {
    OneKey(s, k) && Lined(s) && Consistent(s)
  }

  /** If this step is a force, it forces the version the row vouches for. */
  predicate ForcesBelow(s: State, i: nat) {
    i < |s.runners| && s.runners[i].pc.Read? && s.runners[i].op.Force?
    ==> s.runners[i].op.v == Below(s.db.row)
  }

  predicate Disciplined(s: State, schedule: seq<nat>)
    decreases |schedule|
  {
    schedule == [] || (ForcesBelow(s, schedule[0]) && Disciplined(Step(s, schedule[0]), schedule[1..]))
  }

  /** Without a force among the runs, every schedule is disciplined. */
  lemma {:induction false} DisciplinedWithoutForce(s: State, schedule: seq<nat>)
    requires forall i | 0 <= i < |s.runners| :: !s.runners[i].op.Force?
    ensures Disciplined(s, schedule)
    decreases |schedule|
  {
    if schedule != [] {
      StepFrame(s, schedule[0]);
      DisciplinedWithoutForce(Step(s, schedule[0]), schedule[1..]);
    }
  }

  /** With one key, the runner that holds the lock is the only one that does. */
  lemma OnlyHolder(s: State, k: int, i: nat)
    requires OneKey(s, k) && Lined(s) && i < |s.runners| && Holds(s.runners[i].pc)
    ensures forall j | 0 <= j < |s.runners| && j != i :: !Holds(s.runners[j].pc)
  {
    forall j: nat | j < |s.runners| && j != i
      ensures !Holds(s.runners[j].pc)
    {
      Exclusive(s, i, j);
    }
  }

  lemma InitialInv(s: State, k: int)
    requires Initial(s) && OneKey(s, k) && Settled(s.n, s.db)
    ensures Inv(s, k)
  {
    InitialLined(s);
  }

  /** Outside a migration the holder sees a settled database, and nobody else is inside one. */
  lemma HolderSettled(s: State, k: int, i: nat)
    requires Inv(s, k) && i < |s.runners| && Holds(s.runners[i].pc) && !Mid(s.runners[i].pc)
    ensures NoneMid(s) && Settled(s.n, s.db)
  {
    OnlyHolder(s, k, i);
  }

  /** Only the runner inside a migration ever leaves the row dirty behind its back. */
  lemma CleanMeansNoneMid(s: State)
    requires Consistent(s)
    ensures s.db.row.dirty || NoneMid(s)
  {
    forall i | 0 <= i < |s.runners| && Mid(s.runners[i].pc)
      ensures s.db.row.dirty
    {
      assert Agrees(s.n, s.db, s.runners[i].pc);
    }
  }

  lemma ReadConsistent(s: State, k: int, i: nat)
    requires Inv(s, k) && i < |s.runners| && s.runners[i].pc.Read? && ForcesBelow(s, i)
    ensures Consistent(Step(s, i))
  {
    OnlyHolder(s, k, i);
    HolderSettled(s, k, i);
    var t := Step(s, i);
    var r := s.runners[i];
    match Decide(s.n, r.op, r.cut, r.did, r.pc.row)
    case Stop(_) =>
      assert NoneMid(t);
    case Apply(v) =>
      assert Agrees(t.n, t.db, t.runners[i].pc);
    case Undo(v) =>
      assert Agrees(t.n, t.db, t.runners[i].pc);
    case Write(v) =>
      assert NoneMid(t);
  }

  lemma BatchConsistent(s: State, k: int, i: nat)
    requires Inv(s, k) && i < |s.runners| && s.runners[i].pc.Dirtied?
    ensures Consistent(Step(s, i))
  {
    OnlyHolder(s, k, i);
    var t := Step(s, i);
    var pc := s.runners[i].pc;
    assert Agrees(s.n, s.db, pc);
    PrefixShrinks(pc.v);
    if t.runners[i].pc.Leaving? {
      assert NoneMid(t);
    } else {
      assert Agrees(t.n, t.db, t.runners[i].pc);
    }
  }

  lemma CleanConsistent(s: State, k: int, i: nat)
    requires Inv(s, k) && i < |s.runners| && s.runners[i].pc.Batched?
    ensures Consistent(Step(s, i))
  {
    OnlyHolder(s, k, i);
    assert Agrees(s.n, s.db, s.runners[i].pc);
    assert NoneMid(Step(s, i));
  }

  /** Steps that touch neither the row nor the schema. */
  lemma QuietConsistent(s: State, i: nat)
    requires Consistent(s) && i < |s.runners|
    requires s.runners[i].pc.Idle? || s.runners[i].pc.InLine? || s.runners[i].pc.Holding?
          || s.runners[i].pc.Leaving? || s.runners[i].pc.Done?
    ensures Consistent(Step(s, i))
  {
    var t := Step(s, i);
    assert t.db == s.db && t.n == s.n;
    assert NoneMid(t) ==> NoneMid(s) by {
      if NoneMid(t) {
        forall j | 0 <= j < |s.runners|
          ensures !Mid(s.runners[j].pc)
        {
          assert j != i ==> t.runners[j] == s.runners[j];
        }
      }
    }
  }

  lemma StepInv(s: State, i: nat, k: int)
    requires Inv(s, k) && ForcesBelow(s, i)
    ensures Inv(Step(s, i), k)
  {
    StepLined(s, i);
    StepFrame(s, i);
    if i < |s.runners| {
      match s.runners[i].pc
      case Read(_) => ReadConsistent(s, k, i);
      case Dirtied(_, _) => BatchConsistent(s, k, i);
      case Batched(_, _) => CleanConsistent(s, k, i);
      case _ => QuietConsistent(s, i);
    }
  }

  /** Every disciplined run keeps the row, the schema and the lock in agreement. */
  lemma {:induction false} ExecInv(s: State, schedule: seq<nat>, k: int)
    requires Inv(s, k) && Disciplined(s, schedule)
    ensures Inv(Exec(s, schedule), k)
    decreases |schedule|
  {
    if schedule != [] {
      StepInv(s, schedule[0], k);
      ExecInv(Step(s, schedule[0]), schedule[1..], k);
    }
  }

  /**
   After any run, whenever no runner is inside a migration: clean at v means the schema is exactly
   1..v, dirty at v that it is exactly the migrations below v.
   */
  lemma RowDescribesSchema(s: State, schedule: seq<nat>, k: int)
    requires Initial(s) && OneKey(s, k) && Settled(s.n, s.db) && Disciplined(s, schedule)
    ensures var t := Exec(s, schedule);
            NoneMid(t) ==>
              && (!t.db.row.dirty ==> t.db.schema == Prefix(t.db.row.version))
              && (t.db.row.dirty ==> t.db.row.version >= 1 && t.db.schema == Prefix(t.db.row.version - 1))
  {
    InitialInv(s, k);
    ExecInv(s, schedule, k);
  }

  /**
   The exact condition on force: from an agreeing state, forcing any version leaves the row clean,
   and true of the schema iff it is the version the row vouched for (below the
   failed migration when the row is dirty).
   */
  lemma ForceRestoresIff(s: State, i: nat, k: int)
    requires Inv(s, k) && i < |s.runners| && s.runners[i].pc.Read?
    requires s.runners[i].op.Force?
    ensures var t := Step(s, i);
            && t.db.row == Row(s.runners[i].op.v, false) && t.db.schema == s.db.schema
            && (Settled(t.n, t.db) <==> s.runners[i].op.v == Below(s.db.row))
  {
    HolderSettled(s, k, i);
    PrefixInjective(s.runners[i].op.v, Below(s.db.row));
  }

  // ---- a dirty row stops every runner until someone forces ----

  predicate Started(pc: Pc) {
    (pc.Leaving? && pc.res.Some?) || pc.Done?
  }

  const REFUSED: Result := Failed(DirtyCode, "")

  predicate WillRefuse(pc: Pc) {
    pc.Idle? || pc.InLine? || pc.Holding? || pc.Read? || pc == Leaving(None)
    || pc == Leaving(Some(REFUSED)) || pc == Done(REFUSED)
  }

  /** db is dirty and unchanged; whoever had not decided yet refuses, or still has to decide. */
  ghost predicate Stuck(s: State, db: Db, decided: set<nat>) {
    && s.db == db && db.row.dirty
    && forall i: nat | i < |s.runners| ::
         && (i in decided ==> Started(s.runners[i].pc))
         && (i !in decided ==> !s.runners[i].op.Force? && WillRefuse(s.runners[i].pc))
         && (s.runners[i].pc.Read? ==> s.runners[i].pc.row == db.row)
  }

  lemma {:induction false} StuckForever(s: State, schedule: seq<nat>, db: Db, decided: set<nat>)
    requires Stuck(s, db, decided)
    ensures Stuck(Exec(s, schedule), db, decided)
    decreases |schedule|
  {
    if schedule != [] {
      StepFrame(s, schedule[0]);
      StuckForever(Step(s, schedule[0]), schedule[1..], db, decided);
    }
  }

  /**
   Once a migration failed and nobody is inside one, no schedule changes the database unless a
   force is still to come, and every run that decides from then on ends with the dirty code.
   */
  lemma DirtyRefusesAll(s: State, schedule: seq<nat>, k: int)
    requires Inv(s, k) && s.db.row.dirty && NoneMid(s)
    requires forall i | 0 <= i < |s.runners| :: s.runners[i].op.Force? ==> Started(s.runners[i].pc)
    ensures var t := Exec(s, schedule);
            && t.db == s.db
            && forall i | 0 <= i < |s.runners| ::
                 !Started(s.runners[i].pc) && i < |t.runners| && t.runners[i].pc.Done?
                 ==> t.runners[i].pc.result == REFUSED
  {
    var decided := set i: nat | i < |s.runners| && Started(s.runners[i].pc);
    StuckForever(s, schedule, s.db, decided);
  }
}
