/**
 A leader is inside a migration and a runner of the other language waits in the FIFO line.
 A Go leader loses the lock after that migration, so the waiting Python runner applies the rest;
 a Python leader keeps the lock, so the waiting Go runner finds nothing to do.
 */
module Handover {
  import opened Prelude
  import opened Runners
  import opened LockLine
  import opened SchemaSafety
  import opened ExactlyOnce
  import opened Progress

  /** The first m rows are the leader's (runner 0), any others the follower's (runner 1). */
  ghost predicate SplitAt(s: State, m: nat) {
    && |s.runners| == 2
    && forall j | 0 <= j < |s.db.effects| ::
         s.db.effects[j].who == if j < m then s.runners[0].name else s.runners[1].name
  }

  /** The two runs can be told apart by name, and the table holds what they wrote and nothing else. */
  ghost predicate Signed(s: State) {
    |s.runners| == 2 && s.runners[0].name != s.runners[1].name && Credited(s, [])
  }

  lemma StepSigned(s: State, i: nat)
    requires |s.runners| == 2 && AllUp(s) && OnlyUps(s) && Signed(s)
    ensures |Step(s, i).runners| == 2 && Signed(Step(s, i))
  {
    StepFrame(s, i);
    StepCredited(s, i, []);
  }

  /** What a signed table says of each of the two runs. */
  lemma SignedShare(s: State, i: nat)
    requires |s.runners| == 2 && Signed(s) && i < 2
    ensures Written(s.db.effects, s.runners[i].name) == Share(s.runners[i], s.runners[i].name)
  {
    TotalAlone(s.runners, i);
  }

  /** The leader is inside migration m and the follower is blocked behind it. */
  ghost predicate Blocked(s: State, k: int, m: nat) {
    && UpInv(s, k) && Smooth(s) && |s.runners| == 2 && Signed(s)
    && s.runners[0].pc == Dirtied(m, true) && s.runners[1].pc == InLine && Line(s, k) == [0, 1]
    && SplitAt(s, s.n)
  }

  // ---- Go leads ----

  ghost predicate GoEarly(s: State, k: int, m: nat) {
    && |s.runners| == 2
    && (s.runners[0].pc == Dirtied(m, true) || s.runners[0].pc == Batched(m, true)
        || s.runners[0].pc == Leaving(None))
    && s.runners[1].pc == InLine && Line(s, k) == [0, 1]
    && |s.db.effects| == (if s.runners[0].pc.Dirtied? then m - 1 else m)
  }

  ghost predicate GoLate(s: State, k: int, m: nat) {
    && |s.runners| == 2
    && |s.db.effects| >= m
    && !Mid(s.runners[0].pc) && s.runners[0].pc != Leaving(None)
    && !s.runners[1].pc.Idle? && s.runners[1].pc != Leaving(None)
    && (s.runners[1].pc.Done?
        || (Line(s, k) != [] && Line(s, k)[0] == 1 && (s.runners[0].pc.Idle? || s.runners[0].pc.InLine?)))
  }

  ghost predicate GoLeads(s: State, k: int, m: nat) {
    && UpInv(s, k) && Smooth(s) && |s.runners| == 2 && Signed(s) && m >= 1
    && s.runners[0].lang == Go && s.runners[1].lang == Python
    && SplitAt(s, m)
    && (GoEarly(s, k, m) || GoLate(s, k, m))
  }

  /** A follower that is done left the row clean at the last version. */
  lemma DoneAtTop(s: State, k: int, i: nat)
    requires UpInv(s, k) && Smooth(s) && i < |s.runners| && s.runners[i].pc.Done?
    ensures s.db.row == Row(s.n, false)
  {
    assert Honest(s, i) && !Fails(s.runners[i].pc);
  }

  lemma GoEarlyStep(s: State, k: int, m: nat, i: nat)
    requires GoLeads(s, k, m) && GoEarly(s, k, m) && i < 2
    ensures SplitAt(Step(s, i), m) && (GoEarly(Step(s, i), k, m) || GoLate(Step(s, i), k, m))
  {
    var t := Step(s, i);
    StepFrame(s, i);
    if i == 0 {
      var pc := s.runners[0].pc;
      if pc == Leaving(None) {
        assert Line(t, k) == [1];
      } else {
        assert Agrees(s.n, s.db, pc);
      }
    }
  }

  lemma GoLateStep(s: State, k: int, m: nat, i: nat)
    requires GoLeads(s, k, m) && GoLate(s, k, m) && i < 2
    ensures SplitAt(Step(s, i), m) && GoLate(Step(s, i), k, m)
  {
    var t := Step(s, i);
    StepFrame(s, i);
    if i == 0 {
      if s.runners[1].pc.Done? {
        DoneAtTop(s, k, 1);
      }
    } else if s.runners[1].pc.Read? {
      HolderSettled(s, k, 1);
    }
  }

  lemma {:induction false} GoLeadsKept(s: State, schedule: seq<nat>, k: int, m: nat)
    requires GoLeads(s, k, m)
    ensures GoLeads(Exec(s, schedule), k, m)
    decreases |schedule|
  {
    if schedule != [] {
      var i := schedule[0];
      StepUpInv(s, i, k);
      StepSmooth(s, i, k);
      StepSigned(s, i);
      StepFrame(s, i);
      if i < 2 {
        if GoEarly(s, k, m) {
          GoEarlyStep(s, k, m, i);
        } else {
          GoLateStep(s, k, m, i);
        }
      }
      GoLeadsKept(Step(s, i), schedule[1..], k, m);
    }
  }

  lemma {:induction false} WrittenSplit(effects: seq<Effect>, m: nat, first: string, second: string)
    requires first != second
    requires forall j | 0 <= j < |effects| :: effects[j].who == if j < m then first else second
    ensures Written(effects, first) == if |effects| <= m then |effects| else m
    ensures Written(effects, second) == if |effects| <= m then 0 else |effects| - m
  {
    if effects != [] {
      WrittenSplit(effects[..|effects| - 1], m, first, second);
    }
  }

  /**
   From a Go leader inside migration m with a Python runner waiting, every completed run has Go
   applying exactly 1..m and Python exactly m+1..n; Python reports "changed" iff m < n.
   */
  lemma GoLeaderSplits(s: State, schedule: seq<nat>, k: int, m: nat)
    requires Blocked(s, k, m) && s.runners[0].lang == Go && s.runners[1].lang == Python
    requires AllDone(Exec(s, schedule))
    ensures var t := Exec(s, schedule);
            && |t.runners| == 2 && t.db.row == Row(s.n, false) && 1 <= m <= s.n
            && t.db.effects == seq(s.n, j requires 0 <= j < s.n =>
                 Effect(j + 1, if j < m then s.runners[0].name else s.runners[1].name))
            && t.runners[0].pc == Done(Ok(Some(Changed)))
            && t.runners[1].pc == Done(Ok(Some(if m < s.n then Changed else NoChange)))
  {
    assert Agrees(s.n, s.db, s.runners[0].pc);
    PrefixInjective(m - 1, |s.db.effects|);
    assert GoLeads(s, k, m);
    GoLeadsKept(s, schedule, k, m);
    ExecFrame(s, schedule);
    Conclude(Exec(s, schedule), k, m);
  }

  /** Reading the table of a finished pair. */
  lemma Conclude(t: State, k: int, m: nat)
    requires UpInv(t, k) && Smooth(t) && |t.runners| == 2 && Signed(t)
    requires SplitAt(t, m) && 1 <= m <= t.n && AllDone(t)
    ensures t.db.row == Row(t.n, false)
    ensures t.db.effects == seq(t.n, j requires 0 <= j < t.n =>
              Effect(j + 1, if j < m then t.runners[0].name else t.runners[1].name))
    ensures t.runners[0].pc == Done(Ok(Some(Changed)))
    ensures t.runners[1].pc == Done(Ok(Some(if m < t.n then Changed else NoChange)))
  {
    DoneAtTop(t, k, 0);
    CleanCount(t, k);
    SignedShare(t, 0);
    SignedShare(t, 1);
    WrittenSplit(t.db.effects, m, t.runners[0].name, t.runners[1].name);
    assert Honest(t, 0) && Honest(t, 1);
    assert !Fails(t.runners[0].pc) && !Fails(t.runners[1].pc);
  }

  // ---- Python leads ----

  ghost predicate PyLeads(s: State, k: int) {
    && UpInv(s, k) && Smooth(s) && |s.runners| == 2 && Signed(s)
    && s.runners[0].lang == Python && SplitAt(s, s.n)
    && (PyKeeps(s, k) || (s.runners[0].pc.Done? && !Mid(s.runners[1].pc)))
  }

  ghost predicate PyKeeps(s: State, k: int) {
    && |s.runners| == 2
    && s.runners[1].pc == InLine && Line(s, k) == [0, 1]
    && (Mid(s.runners[0].pc) || s.runners[0].pc.Read?
        || (s.runners[0].pc.Leaving? && s.runners[0].pc.res.Some?))
  }

  lemma PyKeepsStep(s: State, k: int, i: nat)
    requires PyLeads(s, k) && PyKeeps(s, k) && i < 2
    ensures var t := Step(s, i);
            && SplitAt(t, s.n) && (PyKeeps(t, k) || (t.runners[0].pc.Done? && !Mid(t.runners[1].pc)))
  {
    if i == 0 && s.runners[0].pc.Read? {
      HolderSettled(s, k, 0);
    } else if i == 0 && Mid(s.runners[0].pc) {
      assert Agrees(s.n, s.db, s.runners[0].pc);
    }
  }

  lemma PyGoneStep(s: State, k: int, i: nat)
    requires PyLeads(s, k) && s.runners[0].pc.Done? && !Mid(s.runners[1].pc) && i < 2
    ensures var t := Step(s, i);
            SplitAt(t, s.n) && t.runners[0].pc.Done? && !Mid(t.runners[1].pc)
  {
    DoneAtTop(s, k, 0);
  }

  lemma PyLeadsStep(s: State, k: int, i: nat)
    requires PyLeads(s, k)
    ensures PyLeads(Step(s, i), k)
  {
    StepUpInv(s, i, k);
    StepSmooth(s, i, k);
    StepSigned(s, i);
    StepFrame(s, i);
    if i < 2 {
      if PyKeeps(s, k) {
        PyKeepsStep(s, k, i);
      } else {
        PyGoneStep(s, k, i);
      }
    }
  }

  lemma {:induction false} PyLeadsKept(s: State, schedule: seq<nat>, k: int)
    requires PyLeads(s, k)
    ensures PyLeads(Exec(s, schedule), k)
    decreases |schedule|
  {
    if schedule != [] {
      var i := schedule[0];
      PyLeadsStep(s, k, i);
      PyLeadsKept(Step(s, i), schedule[1..], k);
    }
  }

  /**
   With a Python leader inside any migration and any runner waiting, every completed run has
   Python applying all n migrations and the follower reporting "no_change".
   */
  lemma PythonLeaderKeepsAll(s: State, schedule: seq<nat>, k: int, m: nat)
    requires Blocked(s, k, m) && s.runners[0].lang == Python
    requires AllDone(Exec(s, schedule))
    ensures var t := Exec(s, schedule);
            && |t.runners| == 2 && t.db.row == Row(s.n, false)
            && t.db.effects == seq(s.n, j requires 0 <= j < s.n => Effect(j + 1, s.runners[0].name))
            && t.runners[0].pc == Done(Ok(Some(Changed)))
            && t.runners[1].pc == Done(Ok(Some(NoChange)))
  {
    assert Agrees(s.n, s.db, s.runners[0].pc);
    PyLeadsKept(s, schedule, k);
    ExecFrame(s, schedule);
    Conclude(Exec(s, schedule), k, s.n);
  }
}
