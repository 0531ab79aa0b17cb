/**
 The lock discipline every schedule keeps, for any number of runners and any mix of keys, and what
 it means for two runners: they exclude each other exactly when their keys are equal.
 */
module LockLine {
  import opened Prelude
  import opened Runners

  predicate Wants(pc: Pc) {
    !pc.Idle? && !pc.Done?
  }

  ghost predicate Placed(s: State, i: nat) {
    && i < |s.runners|
    && var r := s.runners[i];
       && (Wants(r.pc) ==> i in Line(s, r.key))
       && (Holds(r.pc) ==> Line(s, r.key) != [] && Line(s, r.key)[0] == i)
  }

  ghost predicate OrderlyLine(s: State, k: int) {
    var line := Line(s, k);
    && (forall p | 0 <= p < |line| ::
          line[p] < |s.runners| && s.runners[line[p]].key == k && Wants(s.runners[line[p]].pc))
    && (forall p, q | 0 <= p < q < |line| :: line[p] != line[q])
  }

  /** Each line lists exactly the runners that want its lock, once; only a head acts as owner. */
  ghost predicate Lined(s: State) {
    && (forall i: nat | i < |s.runners| :: Placed(s, i))
    && (forall k :: OrderlyLine(s, k))
  }

  lemma InitialLined(s: State)
    requires Initial(s)
    ensures Lined(s)
  {
  }

  lemma JoinLined(s: State, i: nat)
    requires Lined(s) && i < |s.runners| && s.runners[i].pc.Idle?
    ensures Lined(Join(s, i))
  {
    var t := Join(s, i);
    var key := s.runners[i].key;
    assert OrderlyLine(s, key);
    assert i !in Line(s, key);
    assert Line(t, key) == Line(s, key) + [i];
    forall k
      ensures OrderlyLine(t, k)
    {
      assert OrderlyLine(s, k);
      if k != key {
        assert Line(t, k) == Line(s, k);
      }
    }
    forall j: nat | j < |t.runners|
      ensures Placed(t, j)
    {
      assert Placed(s, j);
      if j == i {
        assert Line(t, key)[|Line(s, key)|] == i;
      } else if Wants(t.runners[j].pc) && t.runners[j].key == key {
        var p :| 0 <= p < |Line(s, key)| && Line(s, key)[p] == j;
        assert Line(t, key)[p] == j;
      }
    }
  }

  lemma ReleaseLined(s: State, i: nat, next: Option<Result>)
    requires Lined(s) && i < |s.runners| && s.runners[i].pc.Leaving?
    ensures Lined(Release(s, i, next))
  {
    var t := Release(s, i, next);
    var key := s.runners[i].key;
    assert Placed(s, i) && OrderlyLine(s, key);
    assert Line(t, key) == Line(s, key)[1..];
    forall k
      ensures OrderlyLine(t, k)
    {
      assert OrderlyLine(s, k);
      if k != key {
        assert Line(t, k) == Line(s, k);
      }
    }
    forall j: nat | j < |t.runners|
      ensures Placed(t, j)
    {
      assert Placed(s, j);
      if j != i && Wants(t.runners[j].pc) && t.runners[j].key == key {
        var p :| 0 <= p < |Line(s, key)| && Line(s, key)[p] == j;
        assert p >= 1 && Line(t, key)[p - 1] == j;
      }
    }
  }

  /** Any step that stays in line, whether or not it writes the database. */
  lemma StayLined(s: State, t: State, i: nat)
    requires Lined(s) && i < |s.runners| && |t.runners| == |s.runners| && t.lines == s.lines
    requires t.runners == s.runners[i := t.runners[i]] && t.runners[i].key == s.runners[i].key
    requires Wants(s.runners[i].pc) && Wants(t.runners[i].pc)
    requires Line(s, s.runners[i].key)[..] != [] ==> Line(s, s.runners[i].key)[0] == i
    ensures Lined(t)
  {
    forall k
      ensures OrderlyLine(t, k)
    {
      assert OrderlyLine(s, k) && Line(t, k) == Line(s, k);
    }
    forall j: nat | j < |t.runners|
      ensures Placed(t, j)
    {
      assert Placed(s, j) && Placed(s, i);
      assert Line(t, t.runners[j].key) == Line(s, s.runners[j].key);
    }
  }

  lemma StepLined(s: State, i: nat)
    requires Lined(s)
    ensures Lined(Step(s, i))
  {
    if i < |s.runners| {
      var t := Step(s, i);
      assert Placed(s, i);
      match s.runners[i].pc
      case Idle => JoinLined(s, i);
      case Leaving(next) => ReleaseLined(s, i, next);
      case Done(_) =>
      case InLine => if t != s { StayLined(s, t, i); }
      case _ => StayLined(s, t, i);
    }
  }

  lemma {:induction false} ExecLined(s: State, schedule: seq<nat>)
    requires Lined(s)
    ensures Lined(Exec(s, schedule))
    decreases |schedule|
  {
    if schedule != [] {
      StepLined(s, schedule[0]);
      ExecLined(Step(s, schedule[0]), schedule[1..]);
    }
  }

  /** Two runners on one key are never both between acquiring and releasing. */
  lemma Exclusive(s: State, i: nat, j: nat)
    requires Lined(s) && i < |s.runners| && j < |s.runners| && i != j
    requires s.runners[i].key == s.runners[j].key
    ensures !(Holds(s.runners[i].pc) && Holds(s.runners[j].pc))
  {
    assert Placed(s, i) && Placed(s, j);
  }

  ghost predicate BothMid(s: State, i: nat, j: nat) {
    i < |s.runners| && j < |s.runners| && Mid(s.runners[i].pc) && Mid(s.runners[j].pc)
  }

  /** Running `schedule` from s ends with runners 0 and 1 both inside a migration. */
  ghost predicate Overlapping(s: State, schedule: seq<nat>) {
    BothMid(Exec(s, schedule), 0, 1)
  }

  /** Alone on its lock, a runner that has not started reads the row after three steps. */
  lemma AcquireAndRead(s: State, i: nat)
    requires i < |s.runners| && s.runners[i].pc == Idle && Line(s, s.runners[i].key) == []
    ensures Exec(s, [i, i, i])
            == Goto(s, i, Read(s.db.row)).(lines := s.lines[s.runners[i].key := [i]])
  {
    var k := s.runners[i].key;
    var a := Step(s, i);
    assert Line(s, k) + [i] == [i];
    assert a == Goto(s, i, InLine).(lines := s.lines[k := [i]]);
    var b := Step(a, i);
    assert b == Goto(s, i, Holding).(lines := s.lines[k := [i]]);
    assert Step(b, i) == Goto(s, i, Read(s.db.row)).(lines := s.lines[k := [i]]);
    assert Exec(s, [i, i, i]) == Exec(a, [i, i]) == Exec(b, [i]) == Exec(Step(b, i), []);
  }

  /** The overlapping schedule: both runners read the row before either marks it dirty. */
  const OVERLAP: seq<nat> := [0, 0, 0] + [1, 1, 1] + [0, 1]

  lemma OverlapRuns(s: State)
    requires Initial(s) && |s.runners| == 2 && s.runners[0].key != s.runners[1].key
    requires s.runners[0].op == Up && s.runners[1].op == Up
    requires !s.db.row.dirty && s.db.row.version < s.n
    ensures BothMid(Exec(s, OVERLAP), 0, 1)
  {
    AcquireAndRead(s, 0);
    var a := Exec(s, [0, 0, 0]);
    assert Line(a, s.runners[1].key) == [];
    AcquireAndRead(a, 1);
    var b := Exec(a, [1, 1, 1]);
    assert b.runners[0].pc == b.runners[1].pc == Read(s.db.row);
    ExecAppend(s, [0, 0, 0], [1, 1, 1]);
    ExecAppend(s, [0, 0, 0] + [1, 1, 1], [0, 1]);
    BothMark(b, s.db.row);
  }

  lemma BothMark(b: State, row: Row)
    requires |b.runners| == 2 && b.runners[0].op == Up && b.runners[1].op == Up
    requires b.runners[0].pc == b.runners[1].pc == Read(row) && !row.dirty && row.version < b.n
    ensures BothMid(Exec(b, [0, 1]), 0, 1)
  {
    var c := Step(b, 0);
    assert c.runners[0].pc.Dirtied? && c.runners[1] == b.runners[1] && c.n == b.n;
    var d := Step(c, 1);
    assert d.runners[1].pc.Dirtied? && d.runners[0] == c.runners[0];
    assert Exec(b, [0, 1]) == Exec(c, [1]) == Exec(d, []);
  }

  lemma SameKeyExcludes(s: State, schedule: seq<nat>, i: nat, j: nat)
    requires Initial(s) && i < |s.runners| && j < |s.runners| && i != j
    requires s.runners[i].key == s.runners[j].key
    ensures !BothMid(Exec(s, schedule), i, j)
  {
    InitialLined(s);
    ExecLined(s, schedule);
    ExecFrame(s, schedule);
    Exclusive(Exec(s, schedule), i, j);
  }

  /**
   Two `up` runs with a migration to apply can be inside a migration at the same time, in some
   schedule, exactly when their lock keys differ.
   */
  lemma ConcurrentIffKeysDiffer(s: State)
    requires Initial(s) && |s.runners| == 2
    requires s.runners[0].op == Up && s.runners[1].op == Up
    requires !s.db.row.dirty && s.db.row.version < s.n
    ensures (exists schedule :: Overlapping(s, schedule))
            <==> s.runners[0].key != s.runners[1].key
  {
    if s.runners[0].key != s.runners[1].key {
      OverlapRuns(s);
      assert Overlapping(s, OVERLAP);
    } else {
      forall schedule: seq<nat>
        ensures !Overlapping(s, schedule)
      {
        SameKeyExcludes(s, schedule, 0, 1);
      }
    }
  }

  /** Over whole runs: who the runners are, and what they were asked to do, stays. */
  lemma {:induction false} ExecFrame(s: State, schedule: seq<nat>)
    ensures var t := Exec(s, schedule);
            && t.n == s.n && |t.runners| == |s.runners|
            && (forall j | 0 <= j < |s.runners| :: SameRun(s.runners[j], t.runners[j]))
    decreases |schedule|
  {
    if schedule != [] {
      StepFrame(s, schedule[0]);
      ExecFrame(Step(s, schedule[0]), schedule[1..]);
    }
  }

  lemma {:induction false} ExecOneKey(s: State, schedule: seq<nat>, k: int)
    requires OneKey(s, k)
    ensures OneKey(Exec(s, schedule), k)
  {
    ExecFrame(s, schedule);
  }
}
