/** How the orchestrator gets a round going: the leader runs alone until it is inside the wanted migration. */
module RoundStart {
  import opened Runners
  import opened LockLine
  import opened ExactlyOnce
  import opened Handover
  import opened Solo

  ghost predicate OnlyBy(effects: seq<Effect>, who: string) {
    forall j | 0 <= j < |effects| :: effects[j].who == who
  }

  /** The leader is inside migration m, owns the lock alone, and nobody else has moved. */
  ghost predicate Inside(u: State, s: State, m: nat) {
    && |u.runners| == |s.runners| == 2 && u.runners[1] == s.runners[1] && u.n == s.n
    && u.runners[0].pc == Dirtied(m, true) && Line(u, s.runners[0].key) == [0]
    && u.runners[0].key == s.runners[0].key && u.runners[0].name == s.runners[0].name
    && OnlyBy(u.db.effects, s.runners[0].name)
  }

  lemma {:induction false} ReachInside(s: State, m: nat) returns (t: nat)
    requires AtRead(s, 0) && |s.runners| == 2 && s.runners[0].op == Up
    requires !s.db.row.dirty && s.db.row.version < m <= s.n
    requires forall v | 1 <= v <= s.n :: v !in s.runners[0].fails
    requires OnlyBy(s.db.effects, s.runners[0].name)
    ensures Inside(Exec(s, Rep(t, 0)), s, m)
    decreases m - s.db.row.version
  {
    var v := s.db.row.version + 1;
    if v == m {
      t := 1;
      RepStep(s, 0, 0);
    } else {
      var u := Again(s, 0, v, true);
      var c := Migrate(s, 0, v, true);
      var more := AfterMigration(s, 0, c, u);
      var rest := ReachInside(u, m);
      t := 3 + more + rest;
      RepAppend(s, 0, 3 + more, rest);
      RepAppend(s, 0, 3, more);
    }
  }

  /** The blocked situation arises for every m from a fresh database, whoever leads. */
  lemma RoundIsReachable(s: State, k: int, m: nat) returns (schedule: seq<nat>)
    requires FreshGroup(s, k) && s.db == FRESH && |s.runners| == 2 && 1 <= m <= s.n
    requires s.runners[0].name != s.runners[1].name
    requires forall i, v | 0 <= i < |s.runners| && 1 <= v <= s.n :: v !in s.runners[i].fails
    ensures Blocked(Exec(s, schedule), k, m)
  {
    AcquireAndRead(s, 0);
    assert Rep(3, 0) == [0, 0, 0];
    var a := Exec(s, Rep(3, 0));
    var t := ReachInside(a, m);
    RepAppend(s, 0, 3, t);
    var u := Exec(s, Rep(3 + t, 0));
    schedule := Rep(3 + t, 0) + [1];
    ExecAppend(s, Rep(3 + t, 0), [1]);
    assert Exec(u, [1]) == Step(u, 1);
    FollowerJoins(s, u, k, m);
    FreshUpInv(s, k);
    ExecUpInv(s, schedule, k);
    ExecSmooth(s, schedule, k);
    FreshCredited(s);
    ExecCredited(s, schedule, []);
    ExecFrame(s, schedule);
    EffectsBounded(Exec(s, schedule), k);
  }

  lemma FollowerJoins(s: State, u: State, k: int, m: nat)
    requires Inside(u, s, m) && s.runners[0].key == s.runners[1].key == k && s.runners[1].pc == Idle
    ensures var w := Step(u, 1);
            && |w.runners| == 2 && w.runners[0] == u.runners[0] && w.runners[1].pc == InLine
            && Line(w, k) == [0, 1] && OnlyBy(w.db.effects, w.runners[0].name)
  {
  }
}
