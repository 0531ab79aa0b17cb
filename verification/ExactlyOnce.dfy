/**
 Concurrent `up` runs, any number, of either language, on one key: every migration records itself
 at most once and in version order, and a run that finishes ok has seen the last one applied.
 */
module ExactlyOnce {
  import opened Prelude
  import opened Runners
  import opened LockLine
  import opened SchemaSafety

  /** The effects table holds one row for each applied migration, in version order. */
  ghost predicate Recorded(db: Db) {
    && db.schema == Prefix(|db.effects|)
    && forall j | 0 <= j < |db.effects| :: db.effects[j].version == j + 1
  }

  function Written(effects: seq<Effect>, who: string): nat {
    if effects == [] then 0
    else Written(effects[..|effects| - 1], who) + if effects[|effects| - 1].who == who then 1 else 0
  }

  function Times(effects: seq<Effect>, version: nat): nat {
    if effects == [] then 0
    else Times(effects[..|effects| - 1], version) + if effects[|effects| - 1].version == version then 1 else 0
  }

  lemma {:induction false} RecordedTimes(effects: seq<Effect>, version: nat)
    requires forall j | 0 <= j < |effects| :: effects[j].version == j + 1
    ensures Times(effects, version) == if 1 <= version <= |effects| then 1 else 0
  {
    if effects != [] {
      RecordedTimes(effects[..|effects| - 1], version);
    }
  }

  predicate EndsOk(pc: Pc) {
    (pc.Leaving? && pc.res.Some? && pc.res.value.Ok?) || (pc.Done? && pc.result.Ok?)
  }

  function Ending(pc: Pc): Result
    requires EndsOk(pc)
  {
    if pc.Done? then pc.result else pc.res.value
  }

  /** A run that ended ok saw the last version clean, and reports its own count. */
  ghost predicate Honest(s: State, i: nat) {
    i < |s.runners|
    && var r := s.runners[i];
       EndsOk(r.pc) ==> s.db.row == Row(s.n, false) && Ending(r.pc) == Finish(r.did)
  }

  ghost predicate AllUp(s: State) {
    forall i | 0 <= i < |s.runners| :: s.runners[i].op == Up
  }

  ghost predicate UpInv(s: State, k: int) {
    && Inv(s, k) && AllUp(s) && Recorded(s.db)
    && (forall i: nat | i < |s.runners| :: Honest(s, i))
    && OnlyUps(s)
  }

  ghost predicate OnlyUps(s: State) {
    forall i | 0 <= i < |s.runners| && Mid(s.runners[i].pc) :: s.runners[i].pc.up
  }

  /** A run that decides outside a migration. */
  lemma ReadHonest(s: State, i: nat, j: nat, k: int)
    requires UpInv(s, k) && i < |s.runners| && j < |s.runners| && s.runners[i].pc.Read?
    ensures j < |Step(s, i).runners| && Honest(Step(s, i), j)
  {
    assert Honest(s, j) && Honest(s, i);
    StepFrame(s, i);
    HolderSettled(s, k, i);
    OnlyHolder(s, k, i);
  }

  /** The steps that leave the row alone. */
  lemma QuietHonest(s: State, i: nat, j: nat, k: int)
    requires UpInv(s, k) && i < |s.runners| && j < |s.runners| && !Mid(s.runners[i].pc) && !s.runners[i].pc.Read?
    ensures j < |Step(s, i).runners| && Honest(Step(s, i), j)
  {
    assert Honest(s, j) && Honest(s, i);
    StepFrame(s, i);
  }

  /** Inside a migration the row is dirty, so nobody has ended ok. */
  lemma MidHonest(s: State, i: nat, j: nat, k: int)
    requires UpInv(s, k) && i < |s.runners| && j < |s.runners| && Mid(s.runners[i].pc)
    ensures j < |Step(s, i).runners| && Honest(Step(s, i), j)
  {
    assert Honest(s, j) && Honest(s, i);
    StepFrame(s, i);
    assert Agrees(s.n, s.db, s.runners[i].pc);
  }

  lemma StepHonest(s: State, i: nat, j: nat, k: int)
    requires UpInv(s, k) && i < |s.runners| && j < |s.runners|
    ensures j < |Step(s, i).runners| && Honest(Step(s, i), j)
  {
    if Mid(s.runners[i].pc) {
      MidHonest(s, i, j, k);
    } else if s.runners[i].pc.Read? {
      ReadHonest(s, i, j, k);
    } else {
      QuietHonest(s, i, j, k);
    }
  }

  lemma StepUps(s: State, i: nat)
    requires AllUp(s) && OnlyUps(s)
    ensures AllUp(Step(s, i)) && OnlyUps(Step(s, i))
  {
    StepFrame(s, i);
  }

  lemma StepRecorded(s: State, i: nat, k: int)
    requires UpInv(s, k) && i < |s.runners|
    ensures Recorded(Step(s, i).db)
  {
    var pc := s.runners[i].pc;
    if pc.Dirtied? {
      assert Agrees(s.n, s.db, pc);
      PrefixInjective(pc.v - 1, |s.db.effects|);
      PrefixShrinks(pc.v);
    }
  }

  lemma StepUpInv(s: State, i: nat, k: int)
    requires UpInv(s, k)
    ensures UpInv(Step(s, i), k)
  {
    StepInv(s, i, k);
    StepUps(s, i);
    if i < |s.runners| {
      StepRecorded(s, i, k);
      forall j: nat | j < |Step(s, i).runners|
        ensures Honest(Step(s, i), j)
      {
        StepFrame(s, i);
        StepHonest(s, i, j, k);
      }
    }
  }

  lemma {:induction false} ExecUpInv(s: State, schedule: seq<nat>, k: int)
    requires UpInv(s, k)
    ensures UpInv(Exec(s, schedule), k)
    decreases |schedule|
  {
    if schedule != [] {
      StepUpInv(s, schedule[0], k);
      ExecUpInv(Step(s, schedule[0]), schedule[1..], k);
    }
  }

  // ---- who wrote what ----

  /** How many rows run r has written under the name `who`. */
  function Share(r: Runner, who: string): nat {
    if r.name != who then 0 else r.did + if r.pc.Batched? then 1 else 0
  }

  function Total(rs: seq<Runner>, who: string): nat {
    if rs == [] then 0 else Share(rs[0], who) + Total(rs[1..], who)
  }

  /** Conservation: the rows of each name are those of `base` and what the runs of that name wrote. */
  ghost predicate Credited(s: State, base: seq<Effect>) {
    forall who :: Written(s.db.effects, who) == Written(base, who) + Total(s.runners, who)
  }

  lemma WrittenAppend(effects: seq<Effect>, e: Effect, who: string)
    ensures Written(effects + [e], who) == Written(effects, who) + if e.who == who then 1 else 0
  {
    assert (effects + [e])[..|effects|] == effects;
  }

  lemma {:induction false} TotalUpdate(rs: seq<Runner>, i: nat, r: Runner, who: string)
    requires i < |rs|
    ensures Total(rs[i := r], who) == Total(rs, who) - Share(rs[i], who) + Share(r, who)
  {
    if i == 0 {
      assert rs[0 := r][1..] == rs[1..];
    } else {
      assert rs[i := r][1..] == rs[1..][i - 1 := r];
      TotalUpdate(rs[1..], i - 1, r, who);
    }
  }

  lemma {:induction false} TotalFresh(rs: seq<Runner>, who: string)
    requires forall i | 0 <= i < |rs| :: rs[i].pc == Idle && rs[i].did == 0
    ensures Total(rs, who) == 0
  {
    if rs != [] {
      TotalFresh(rs[1..], who);
    }
  }

  /** A name that only one run has stands for that run. */
  lemma {:induction false} TotalAlone(rs: seq<Runner>, i: nat)
    requires i < |rs| && forall j | 0 <= j < |rs| && j != i :: rs[j].name != rs[i].name
    ensures Total(rs, rs[i].name) == Share(rs[i], rs[i].name)
  {
    if i == 0 {
      TotalOthers(rs[1..], rs[0].name);
    } else {
      assert rs[0].name != rs[i].name;
      TotalAlone(rs[1..], i - 1);
    }
  }

  lemma {:induction false} TotalOthers(rs: seq<Runner>, who: string)
    requires forall j | 0 <= j < |rs| :: rs[j].name != who
    ensures Total(rs, who) == 0
  {
    if rs != [] {
      TotalOthers(rs[1..], who);
    }
  }

  /** What the committed batch of run i adds under a name. */
  lemma BatchShare(s: State, i: nat, who: string)
    requires i < |s.runners| && s.runners[i].pc.Dirtied? && s.runners[i].pc.up
    ensures i < |Step(s, i).runners|
    ensures Written(Step(s, i).db.effects, who) - Written(s.db.effects, who)
            == Share(Step(s, i).runners[i], who) - Share(s.runners[i], who)
  {
    WrittenAppend(s.db.effects, Effect(s.runners[i].pc.v, s.runners[i].name), who);
  }

  /** A step of a run that is not in a batch leaves the table and its count of rows alone. */
  lemma QuietShare(s: State, i: nat, who: string)
    requires i < |s.runners| && !s.runners[i].pc.Dirtied?
    ensures i < |Step(s, i).runners| && Step(s, i).db.effects == s.db.effects
    ensures Share(Step(s, i).runners[i], who) == Share(s.runners[i], who)
  {
    StepSelf(s, i);
  }

  /** What a step adds to the table, it adds to the count of the run that took it. */
  lemma StepShare(s: State, i: nat, who: string)
    requires OnlyUps(s) && i < |s.runners|
    ensures i < |Step(s, i).runners|
    ensures Written(Step(s, i).db.effects, who) - Written(s.db.effects, who)
            == Share(Step(s, i).runners[i], who) - Share(s.runners[i], who)
  {
    if s.runners[i].pc.Dirtied? {
      BatchShare(s, i, who);
    } else {
      QuietShare(s, i, who);
    }
  }

  lemma StepCredited(s: State, i: nat, base: seq<Effect>)
    requires OnlyUps(s) && AllUp(s) && Credited(s, base)
    ensures Credited(Step(s, i), base)
  {
    if i < |s.runners| {
      var t := Step(s, i);
      StepFrame(s, i);
      assert t.runners == s.runners[i := t.runners[i]];
      forall who
        ensures Written(t.db.effects, who) == Written(base, who) + Total(t.runners, who)
      {
        StepShare(s, i, who);
        TotalUpdate(s.runners, i, t.runners[i], who);
      }
    }
  }

  lemma {:induction false} ExecCredited(s: State, schedule: seq<nat>, base: seq<Effect>)
    requires OnlyUps(s) && AllUp(s) && Credited(s, base)
    ensures Credited(Exec(s, schedule), base)
    decreases |schedule|
  {
    if schedule != [] {
      StepUps(s, schedule[0]);
      StepCredited(s, schedule[0], base);
      ExecCredited(Step(s, schedule[0]), schedule[1..], base);
    }
  }

  lemma FreshCredited(s: State)
    requires Initial(s)
    ensures Credited(s, s.db.effects)
  {
    forall who
      ensures Total(s.runners, who) == 0
    {
      TotalFresh(s.runners, who);
    }
  }

  /** A group of `up` runs that have not started, under any names. */
  ghost predicate FreshGroup(s: State, k: int) {
    Initial(s) && OneKey(s, k) && AllUp(s) && Settled(s.n, s.db) && Recorded(s.db)
  }

  lemma FreshUpInv(s: State, k: int)
    requires FreshGroup(s, k)
    ensures UpInv(s, k)
  {
    InitialInv(s, k);
  }

  /**
   In every schedule: the table holds each applied version exactly once, in order, and nothing
   else; the rows added under a name are those counted by the runs of that name; a run that ended
   ok saw version n clean with all n rows there, and reports "changed" exactly when it counted one.
   */
  lemma AppliedOnce(s: State, schedule: seq<nat>, k: int)
    requires FreshGroup(s, k)
    ensures var t := Exec(s, schedule);
            && |t.db.effects| <= t.n
            && (forall j | 0 <= j < |t.db.effects| :: t.db.effects[j].version == j + 1)
            && (forall v: nat :: Times(t.db.effects, v) == if 1 <= v <= |t.db.effects| then 1 else 0)
            && (forall who :: Written(t.db.effects, who) == Written(s.db.effects, who) + Total(t.runners, who))
            && (forall i | 0 <= i < |t.runners| :: t.runners[i].pc.Done? && t.runners[i].pc.result.Ok? ==>
                  && t.db.row == Row(t.n, false) && |t.db.effects| == t.n
                  && t.runners[i].pc.result == Ok(Some(if t.runners[i].did > 0 then Changed else NoChange)))
  {
    FreshUpInv(s, k);
    FreshCredited(s);
    ExecUpInv(s, schedule, k);
    ExecCredited(s, schedule, s.db.effects);
    var t := Exec(s, schedule);
    EffectsBounded(t, k);
    forall v: nat
      ensures Times(t.db.effects, v) == if 1 <= v <= |t.db.effects| then 1 else 0
    {
      RecordedTimes(t.db.effects, v);
    }
    forall i: nat | i < |t.runners| && t.runners[i].pc.Done? && t.runners[i].pc.result.Ok?
      ensures t.db.row == Row(t.n, false) && |t.db.effects| == t.n
      ensures t.runners[i].pc.result == Ok(Some(if t.runners[i].did > 0 then Changed else NoChange))
    {
      assert Honest(t, i);
      CleanCount(t, k);
    }
  }

  /** The names tell the runs apart: a run under a name of its own added exactly the rows it counted. */
  lemma OwnRows(s: State, schedule: seq<nat>, k: int, i: nat)
    requires FreshGroup(s, k) && i < |s.runners|
    requires forall j | 0 <= j < |s.runners| && j != i :: s.runners[j].name != s.runners[i].name
    ensures var t := Exec(s, schedule);
            && |t.runners| == |s.runners|
            && Written(t.db.effects, s.runners[i].name)
               == Written(s.db.effects, s.runners[i].name) + Share(t.runners[i], s.runners[i].name)
  {
    AppliedOnce(s, schedule, k);
    ExecFrame(s, schedule);
    TotalAlone(Exec(s, schedule).runners, i);
  }

  lemma EffectsBounded(t: State, k: int)
    requires UpInv(t, k)
    ensures |t.db.effects| <= t.n
  {
    if i :| 0 <= i < |t.runners| && Mid(t.runners[i].pc) {
      assert Agrees(t.n, t.db, t.runners[i].pc);
      var pc := t.runners[i].pc;
      PrefixInjective(if pc.Batched? then pc.v else pc.v - 1, |t.db.effects|);
    } else {
      assert NoneMid(t);
      PrefixInjective(Below(t.db.row), |t.db.effects|);
    }
  }

  /** A clean row outside a migration counts the rows of the table. */
  lemma CleanCount(t: State, k: int)
    requires UpInv(t, k) && !t.db.row.dirty
    ensures |t.db.effects| == t.db.row.version
  {
    CleanMeansNoneMid(t);
    PrefixInjective(t.db.row.version, |t.db.effects|);
  }

  // ---- when no batch fails, no run fails ----

  predicate Fails(pc: Pc) {
    (pc.Leaving? && pc.res.Some? && pc.res.value.Failed?) || (pc.Done? && pc.result.Failed?)
  }

  ghost predicate Smooth(s: State) {
    && (forall i, v | 0 <= i < |s.runners| && 1 <= v <= s.n :: v !in s.runners[i].fails)
    && (forall i | 0 <= i < |s.runners| :: !Fails(s.runners[i].pc))
    && (NoneMid(s) ==> !s.db.row.dirty)
  }

  lemma StepSmooth(s: State, i: nat, k: int)
    requires UpInv(s, k) && Smooth(s)
    ensures Smooth(Step(s, i))
  {
    StepFrame(s, i);
    if i < |s.runners| {
      var t := Step(s, i);
      var pc := s.runners[i].pc;
      if Holds(pc) {
        OnlyHolder(s, k, i);
      }
      if pc.Read? {
        HolderSettled(s, k, i);
      } else if Mid(pc) {
        assert Agrees(s.n, s.db, pc);
      } else if NoneMid(t) {
        forall j | 0 <= j < |s.runners|
          ensures !Mid(s.runners[j].pc)
        {
          assert j != i ==> t.runners[j] == s.runners[j];
        }
      }
      assert Mid(t.runners[i].pc) ==> !NoneMid(t);
    }
  }

  lemma {:induction false} ExecSmooth(s: State, schedule: seq<nat>, k: int)
    requires UpInv(s, k) && Smooth(s)
    ensures Smooth(Exec(s, schedule))
    decreases |schedule|
  {
    if schedule != [] {
      StepSmooth(s, schedule[0], k);
      StepUpInv(s, schedule[0], k);
      ExecSmooth(Step(s, schedule[0]), schedule[1..], k);
    }
  }
}
