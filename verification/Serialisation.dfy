/**
 The serialisation scenario: the checker's verdict on a round, what an accepting verdict says
 about the tables behind the report, and that every run of the protocol is accepted.
 */
module Serialisation {
  import opened Prelude
  import opened Runners
  import opened LockLine
  import opened ExactlyOnce
  import opened Progress
  import opened Handover
  import opened Grouping
  import opened LockKey
  import opened RoundStart

  /** One round of the report, as the orchestrator writes it. */
  datatype Round = Round(leader: Lang, follower: Lang, inSlow: bool,
                         leaderHeld: seq<Held>, followerWaited: seq<Held>, waitEvents: seq<string>,
                         lead: Result, follow: Result, effects: seq<Counted>, final: Option<Row>)

  datatype Problem = NotInSlow | RunnerFailed | WrongKeys | NoLockWait | NotOnceEach | WrongFinalRow
                   | GoShouldWait | GoHoldsWholeRun | WrongSplit

  function App(lang: Lang): string {
    if lang.Go? then "interop-go" else "interop-python"
  }

  const ADVISORY := "Lock:advisory"
  const LAST := 3

  function OutcomeIn(r: Result): Option<Outcome> {
    if r.Ok? then r.outcome else None
  }

  /** What the follower is to report. */
  function Waited(rnd: Round): Outcome {
    if rnd.leader.Python? then NoChange else Changed
  }

  /** `by`: the author of each version that has exactly one. */
  function Sole(applied: map<nat, seq<string>>): map<nat, string> {
    map v | v in applied && |applied[v]| == 1 :: applied[v][0]
  }

  predicate OnceEach(applied: map<nat, seq<string>>) {
    applied.Keys == {1, 2, 3} && forall v | v in applied :: |applied[v]| == 1
  }

  /** Which part of a report a problem is about: how the runs met, the tables, or who applied what. */
  datatype Part = Meeting | Tables | Split

  function PartOf(p: Problem): Part {
    match p
    case NotInSlow | RunnerFailed | WrongKeys | NoLockWait => Meeting
    case NotOnceEach | WrongFinalRow => Tables
    case GoShouldWait | GoHoldsWholeRun | WrongSplit => Split
  }

  ghost predicate AllByGo(rnd: Round) {
    forall v | v in Sole(Expand(rnd.effects)) :: Sole(Expand(rnd.effects))[v] == App(Go)
  }

  /** When a round has the problem. */
  ghost predicate Has(rnd: Round, p: Problem) {
    match p
    case NotInSlow => !rnd.inSlow
    case RunnerFailed => rnd.lead.Failed? || rnd.follow.Failed?
    case WrongKeys => !exists key :: rnd.leaderHeld == [key] == rnd.followerWaited
    case NoLockWait => ADVISORY !in rnd.waitEvents
    case NotOnceEach => !OnceEach(Expand(rnd.effects))
    case WrongFinalRow => rnd.final != Some(Row(LAST, false))
    case GoShouldWait =>
      rnd.leader.Python? && (OutcomeIn(rnd.follow) != Some(NoChange) || !AuthorsPass(rnd, Sole(Expand(rnd.effects))))
    case GoHoldsWholeRun => rnd.leader.Go? && OutcomeIn(rnd.follow) == Some(NoChange) && AllByGo(rnd)
    case WrongSplit =>
      && rnd.leader.Go? && !(OutcomeIn(rnd.follow) == Some(NoChange) && AllByGo(rnd))
      && (OutcomeIn(rnd.follow) != Some(Changed) || !AuthorsPass(rnd, Sole(Expand(rnd.effects))))
  }

  method CheckMeeting(rnd: Round) returns (problems: seq<Problem>)
    ensures forall p :: p in problems <==> PartOf(p) == Meeting && Has(rnd, p)
  {
    problems := [];
    if !rnd.inSlow {
      problems := problems + [NotInSlow];
    }
    if !rnd.lead.Ok? || !rnd.follow.Ok? {
      problems := problems + [RunnerFailed];
    }
    OneKeyList(rnd.leaderHeld, rnd.followerWaited);
    if |rnd.leaderHeld| != 1 || rnd.followerWaited != rnd.leaderHeld {
      problems := problems + [WrongKeys];
    }
    if ADVISORY !in rnd.waitEvents {
      problems := problems + [NoLockWait];
    }
  }

  method CheckTables(rnd: Round, applied: map<nat, seq<string>>) returns (problems: seq<Problem>)
    requires applied == Expand(rnd.effects)
    ensures forall p :: p in problems <==> PartOf(p) == Tables && Has(rnd, p)
  {
    problems := [];
    if applied.Keys != {1, 2, 3} || exists v | v in applied :: |applied[v]| != 1 {
      problems := problems + [NotOnceEach];
    }
    if rnd.final != Some(Row(LAST, false)) {
      problems := problems + [WrongFinalRow];
    }
  }

  /** Who applied what, against the declared divergence. */
  method CheckAuthors(rnd: Round, sole: map<nat, string>) returns (problems: seq<Problem>)
    requires sole == Sole(Expand(rnd.effects))
    ensures forall p :: p in problems <==> PartOf(p) == Split && Has(rnd, p)
  {
    problems := [];
    var leaderApp, followerApp := App(rnd.leader), App(rnd.follower);
    if rnd.leader.Python? {
      if OutcomeIn(rnd.follow) != Some(NoChange) || exists v | v in sole :: sole[v] != leaderApp {
        problems := [GoShouldWait];
      }
    } else {
      var wantBy := map[1 := leaderApp, 2 := leaderApp, 3 := followerApp];
      if sole != wantBy || OutcomeIn(rnd.follow) != Some(Changed) {
        if OutcomeIn(rnd.follow) == Some(NoChange) && forall v | v in sole :: sole[v] == leaderApp {
          problems := [GoHoldsWholeRun];
        } else {
          problems := [WrongSplit];
        }
      }
    }
  }

  /** Exactly the problems a round has are added; none exactly when it is accepted. */
  method CheckRound(rnd: Round) returns (problems: seq<Problem>)
    ensures forall p :: p in problems <==> Has(rnd, p)
    ensures problems == [] <==> Accepted(rnd)
  {
    var applied := ExpandEffects(rnd.effects);
    var meeting := CheckMeeting(rnd);
    var tables := CheckTables(rnd, applied);
    var authors := CheckAuthors(rnd, Sole(applied));
    problems := meeting + tables + authors;
    assert forall p :: p in problems <==> Has(rnd, p) by {
      forall p
        ensures p in problems <==> Has(rnd, p)
      {
        assert PartOf(p) == Meeting || PartOf(p) == Tables || PartOf(p) == Split;
      }
    }
    NoProblem(rnd);
    if problems != [] {
      assert problems[0] in problems;
    }
  }

  /** A round is accepted exactly when it has none of the problems. */
  lemma NoProblem(rnd: Round)
    ensures Accepted(rnd) <==> forall p :: !Has(rnd, p)
  {
    Verdict(rnd, Expand(rnd.effects));
    if forall p :: !Has(rnd, p) {
      assert !Has(rnd, NotInSlow) && !Has(rnd, RunnerFailed) && !Has(rnd, WrongKeys) && !Has(rnd, NoLockWait);
      assert !Has(rnd, NotOnceEach) && !Has(rnd, WrongFinalRow);
      assert !Has(rnd, GoShouldWait) && !Has(rnd, GoHoldsWholeRun) && !Has(rnd, WrongSplit);
    }
  }

  lemma OneKeyList(held: seq<Held>, waited: seq<Held>)
    ensures !(|held| != 1 || waited != held) <==> exists key :: held == [key] == waited
  {
    if |held| == 1 {
      assert held == [held[0]];
    }
  }

  /** The code's test on the sole authors. */
  predicate AuthorsPass(rnd: Round, sole: map<nat, string>) {
    if rnd.leader.Python? then forall v | v in sole :: sole[v] == App(rnd.leader)
    else sole == map[1 := App(rnd.leader), 2 := App(rnd.leader), 3 := App(rnd.follower)]
  }

  method CheckSerialisation(rounds: seq<Round>) returns (problems: seq<Problem>)
    ensures problems == [] <==> forall rnd | rnd in rounds :: Accepted(rnd)
  {
    problems := [];
    for i := 0 to |rounds|
      invariant problems == [] <==> forall j | 0 <= j < i :: Accepted(rounds[j])
    {
      var more := CheckRound(rounds[i]);
      problems := problems + more;
    }
  }

  /** Who must have applied version v: a Python leader all, a Go leader those up to 2. */
  function Applier(rnd: Round, v: nat): string {
    if rnd.leader.Python? || v < LAST then App(rnd.leader) else App(rnd.follower)
  }

  /**
   What acceptance means: the follower was blocked on the leader's one key inside the slow
   migration, both ended ok, the last row is clean at 3, and the table behind the report has exactly
   one row for each of 1, 2, 3, by the runner the declared divergence names.
   */
  ghost predicate Accepted(rnd: Round) {
    && rnd.inSlow && rnd.lead.Ok? && rnd.follow.Ok?
    && (exists key :: rnd.leaderHeld == [key] == rnd.followerWaited)
    && ADVISORY in rnd.waitEvents
    && rnd.final == Some(Row(LAST, false))
    && (forall v: nat :: v in Expand(rnd.effects) <==> 1 <= v <= LAST)
    && ByApplier(rnd, Expand(rnd.effects))
    && rnd.follow.outcome == Some(Waited(rnd))
  }

  lemma KeysOneToThree(applied: map<nat, seq<string>>)
    ensures applied.Keys == {1, 2, 3} <==> forall v: nat :: v in applied <==> 1 <= v <= LAST
  {
    if forall v: nat :: v in applied <==> 1 <= v <= LAST {
      forall v
        ensures v in applied.Keys <==> v in {1, 2, 3}
      {
        assert v in applied <==> 1 <= v <= LAST;
      }
    }
  }

  ghost predicate ByApplier(rnd: Round, applied: map<nat, seq<string>>) {
    forall v | 1 <= v <= LAST :: At(applied, v) == [Applier(rnd, v)]
  }

  /** The dictionary tests of the code, read against the required authors. */
  lemma Verdict(rnd: Round, applied: map<nat, seq<string>>)
    ensures OnceEach(applied) && AuthorsPass(rnd, Sole(applied))
            <==> (forall v: nat :: v in applied <==> 1 <= v <= LAST) && ByApplier(rnd, applied)
  {
    KeysOneToThree(applied);
    if OnceEach(applied) {
      assert forall v | 1 <= v <= LAST :: v in applied && At(applied, v) == [Sole(applied)[v]];
      assert Sole(applied).Keys == {1, 2, 3};
    }
    if (forall v: nat :: v in applied <==> 1 <= v <= LAST) && ByApplier(rnd, applied) {
      forall v | v in applied
        ensures |applied[v]| == 1
      {
        assert At(applied, v) == [Applier(rnd, v)];
      }
    }
  }

  // ---- what an accepted table holds ----

  /** The table holds exactly one row for each of 1, 2, 3, and no other row. */
  ghost predicate OneRowEach(table: seq<Effect>) {
    forall v: nat :: Times(table, v) == if 1 <= v <= LAST then 1 else 0
  }

  lemma ExpandSizes(table: seq<Effect>, effects: seq<Counted>)
    requires Grouped(table, effects)
    ensures forall v: nat :: v in Expand(effects) <==> Times(table, v) > 0
    ensures forall v | v in Expand(effects) :: |Expand(effects)[v]| == Times(table, v)
  {
    forall v: nat
      ensures v in Expand(effects) <==> Times(table, v) > 0
      ensures v in Expand(effects) ==> |Expand(effects)[v]| == Times(table, v)
    {
      GroupedKeys(table, effects, v);
      ExpandRestores(table, effects, v);
    }
  }

  /** "Applied exactly once each" is a statement about the rows of the table, both ways. */
  lemma OnceEachIsOneRowEach(table: seq<Effect>, effects: seq<Counted>)
    requires Grouped(table, effects)
    ensures OnceEach(Expand(effects)) <==> OneRowEach(table)
  {
    var applied := Expand(effects);
    KeysOneToThree(applied);
    ExpandSizes(table, effects);
    if OnceEach(applied) {
      forall v: nat
        ensures Times(table, v) == if 1 <= v <= LAST then 1 else 0
      {
        assert v in applied <==> 1 <= v <= LAST;
      }
    }
    if OneRowEach(table) {
      forall v: nat
        ensures v in applied <==> 1 <= v <= LAST
      {
        assert Times(table, v) == if 1 <= v <= LAST then 1 else 0;
      }
    }
  }

  /** In an accepted round the table itself holds one row per version, written by the declared runner. */
  lemma AcceptedTable(rnd: Round, table: seq<Effect>, v: nat)
    requires Accepted(rnd) && Grouped(table, rnd.effects)
    ensures Authors(table, v) == if 1 <= v <= LAST then [Applier(rnd, v)] else []
  {
    ExpandRestores(table, rnd.effects, v);
    AuthorsCount(table, v, "");
    var a := Authors(table, v);
    if 1 <= v <= LAST {
      assert multiset(a) == multiset{Applier(rnd, v)};
      assert |a| == 1 && a[0] in multiset(a);
    } else {
      assert v !in Expand(rnd.effects);
    }
  }

  /** The table has one row for each of 1, 2, 3, by these authors, and no other row. */
  ghost predicate TableIs(table: seq<Effect>, first: string, second: string, third: string) {
    && Authors(table, 1) == [first] && Authors(table, 2) == [second] && Authors(table, 3) == [third]
    && forall v: nat | v < 1 || v > 3 :: Authors(table, v) == []
  }

  lemma SoleAuthor(table: seq<Effect>, effects: seq<Counted>, v: nat, who: string)
    requires Grouped(table, effects)
    ensures Authors(table, v) == [who] <==> At(Expand(effects), v) == [who]
    ensures Authors(table, v) == [] <==> v !in Expand(effects)
  {
    ExpandRestores(table, effects, v);
    GroupedKeys(table, effects, v);
    AuthorsCount(table, v, who);
    var a, b := Authors(table, v), At(Expand(effects), v);
    if a == [who] || b == [who] {
      assert |a| == |b| == 1 && multiset(a) == multiset(b);
      assert a[0] in multiset(a) && b[0] in multiset(b);
    }
  }

  /** The author-by-author form of the check on the table. */
  lemma TableChecked(rnd: Round, table: seq<Effect>)
    requires Grouped(table, rnd.effects)
    ensures (forall v: nat :: v in Expand(rnd.effects) <==> 1 <= v <= LAST) && ByApplier(rnd, Expand(rnd.effects))
            <==> TableIs(table, Applier(rnd, 1), Applier(rnd, 2), Applier(rnd, 3))
  {
    var applied := Expand(rnd.effects);
    forall v: nat
      ensures Authors(table, v) == [Applier(rnd, v)] <==> At(applied, v) == [Applier(rnd, v)]
      ensures Authors(table, v) == [] <==> v !in applied
    {
      SoleAuthor(table, rnd.effects, v, Applier(rnd, v));
    }
    if TableIs(table, Applier(rnd, 1), Applier(rnd, 2), Applier(rnd, 3)) {
      forall v: nat
        ensures v in applied <==> 1 <= v <= LAST
        ensures 1 <= v <= LAST ==> At(applied, v) == [Applier(rnd, v)]
      {
        assert v == 1 || v == 2 || v == 3 || v < 1 || v > 3;
      }
    }
  }

  /**
   Acceptance in the report's own terms.  A Python leader applied all three and the follower had
   nothing to do; a Go leader applied 1 and 2, its follower 3, and both changed the schema.
   */
  lemma AcceptedMeans(rnd: Round, table: seq<Effect>)
    requires Grouped(table, rnd.effects) && rnd.follower == Other(rnd.leader)
    ensures Accepted(rnd) <==>
              && rnd.inSlow && rnd.lead.Ok? && "Lock:advisory" in rnd.waitEvents
              && (exists key :: rnd.leaderHeld == [key] == rnd.followerWaited)
              && rnd.final == Some(Row(3, false))
              && (if rnd.leader == Python then
                    rnd.follow == Ok(Some(NoChange))
                    && TableIs(table, "interop-python", "interop-python", "interop-python")
                  else
                    rnd.follow == Ok(Some(Changed))
                    && TableIs(table, "interop-go", "interop-go", "interop-python"))
  {
    TableChecked(rnd, table);
  }

  // ---- every run of the protocol is accepted ----

  /** u is a state of the run from s along the schedule. */
  ghost predicate Visited(s: State, schedule: seq<nat>, u: State) {
    exists c: nat :: c <= |schedule| && u == Exec(s, schedule[..c])
  }

  ghost predicate GrantedIn(s: State, key: int) {
    Line(s, key) != []
  }

  ghost predicate WaitedIn(samples: seq<State>, key: int) {
    exists u :: u in samples && |Line(u, key)| >= 2
  }

  ghost predicate NoDuplicates(keys: seq<Held>) {
    forall p, q | 0 <= p < q < |keys| :: keys[p] != keys[q]
  }

  /**
   What the orchestrator sees of a run: the locks granted when the follower was started (state s),
   the locks waited for in the samples, and the tables and results at the end (state t).
   */
  ghost predicate Observes(rnd: Round, s: State, samples: seq<State>, t: State) {
    && |s.runners| == 2 && |t.runners| == 2 && AllDone(t)
    && (rnd.inSlow <==> s.runners[0].pc == Dirtied(2, true))
    && (forall h :: h in rnd.leaderHeld <==> h.Bigint? && GrantedIn(s, h.key))
    && (forall h :: h in rnd.followerWaited <==> h.Bigint? && WaitedIn(samples, h.key))
    && NoDuplicates(rnd.leaderHeld) && NoDuplicates(rnd.followerWaited)
    && (ADVISORY in rnd.waitEvents <==> exists key :: WaitedIn(samples, key))
    && rnd.lead == t.runners[0].pc.result && rnd.follow == t.runners[1].pc.result
    && Grouped(t.db.effects, rnd.effects) && rnd.final == Some(t.db.row)
  }

  /** The report of a run of those two probes. */
  ghost predicate Reports(rnd: Round, s: State, samples: seq<State>, t: State) {
    Observes(rnd, s, samples, t) && rnd.leader == s.runners[0].lang && rnd.follower == s.runners[1].lang
  }

  lemma HeadKey(s: State, key: int)
    requires Lined(s) && Line(s, key) != []
    ensures exists i :: 0 <= i < |s.runners| && s.runners[i].key == key
  {
    assert OrderlyLine(s, key);
    assert s.runners[Line(s, key)[0]].key == key;
  }

  lemma OtherLinesEmpty(s: State, k: int, key: int)
    requires OneKey(s, k) && Lined(s) && key != k
    ensures Line(s, key) == []
  {
    if Line(s, key) != [] {
      HeadKey(s, key);
      assert false;
    }
  }

  lemma TwoMembers(list: seq<Held>)
    requires NoDuplicates(list) && |list| > 1
    ensures exists x, y :: x in list && y in list && x != y
  {
    assert list[0] in list && list[1] in list && list[0] != list[1];
  }

  lemma OnlyMember(list: seq<Held>, h: Held)
    requires NoDuplicates(list) && forall x :: x in list <==> x == h
    ensures list == [h]
  {
    assert h in list;
    if |list| > 1 {
      TwoMembers(list);
      assert false;
    }
  }

  lemma HeldIsOneKey(held: seq<Held>, s: State, k: int)
    requires OneKey(s, k) && Lined(s) && GrantedIn(s, k) && NoDuplicates(held)
    requires forall h :: h in held <==> h.Bigint? && GrantedIn(s, h.key)
    ensures held == [Bigint(k)]
  {
    forall h
      ensures h in held <==> h == Bigint(k)
    {
      if h.Bigint? && h.key != k {
        OtherLinesEmpty(s, k, h.key);
      }
    }
    OnlyMember(held, Bigint(k));
  }

  lemma WaitedIsOneKey(waited: seq<Held>, s: State, schedule: seq<nat>, samples: seq<State>, k: int)
    requires OneKey(s, k) && Lined(s) && WaitedIn(samples, k) && NoDuplicates(waited)
    requires forall u | u in samples :: Visited(s, schedule, u)
    requires forall h :: h in waited <==> h.Bigint? && WaitedIn(samples, h.key)
    ensures waited == [Bigint(k)]
  {
    forall h
      ensures h in waited <==> h == Bigint(k)
    {
      if h.Bigint? && h.key != k && WaitedIn(samples, h.key) {
        var u :| u in samples && |Line(u, h.key)| >= 2;
        var c: nat :| c <= |schedule| && u == Exec(s, schedule[..c]);
        ExecLined(s, schedule[..c]);
        ExecOneKey(s, schedule[..c], k);
        OtherLinesEmpty(u, k, h.key);
        assert false;
      }
    }
    OnlyMember(waited, Bigint(k));
  }

  lemma {:induction false} AuthorsInOrder(table: seq<Effect>, v: nat)
    requires forall j | 0 <= j < |table| :: table[j].version == j + 1
    ensures Authors(table, v) == if 1 <= v <= |table| then [table[v - 1].who] else []
  {
    if table != [] {
      AuthorsInOrder(table[..|table| - 1], v);
    }
  }

  lemma ExpandInOrder(table: seq<Effect>, effects: seq<Counted>, v: nat)
    requires Grouped(table, effects) && forall j | 0 <= j < |table| :: table[j].version == j + 1
    ensures At(Expand(effects), v) == if 1 <= v <= |table| then [table[v - 1].who] else []
    ensures v in Expand(effects) <==> 1 <= v <= |table|
  {
    ExpandRestores(table, effects, v);
    GroupedKeys(table, effects, v);
    AuthorsInOrder(table, v);
    AuthorsCount(table, v, "");
    var a := At(Expand(effects), v);
    if 1 <= v <= |table| {
      assert |a| == 1 && a[0] in multiset(a);
      assert multiset(a) == multiset{table[v - 1].who};
    }
  }

  /** Runners of the round: a leader inside the slow migration 2 of 3, a follower of the other language behind it. */
  ghost predicate RoundStarts(s: State, k: int) {
    && Blocked(s, k, 2) && s.n == LAST && s.runners[0].lang != s.runners[1].lang
    && s.runners[0].name == App(s.runners[0].lang) && s.runners[1].name == App(s.runners[1].lang)
  }

  lemma RunEnds(rnd: Round, s: State, schedule: seq<nat>, k: int)
    requires RoundStarts(s, k) && AllDone(Exec(s, schedule))
    requires rnd.leader == s.runners[0].lang && rnd.follower == s.runners[1].lang
    ensures var t := Exec(s, schedule);
            && |t.runners| == 2 && t.db.row == Row(LAST, false) && |t.db.effects| == LAST
            && (forall j | 0 <= j < LAST :: t.db.effects[j] == Effect(j + 1, Applier(rnd, j + 1)))
            && t.runners[0].pc == Done(Ok(Some(Changed)))
            && t.runners[1].pc == Done(Ok(Some(Waited(rnd))))
  {
    if s.runners[0].lang.Go? {
      GoLeaderSplits(s, schedule, k, 2);
    } else {
      PythonLeaderKeepsAll(s, schedule, k, 2);
    }
  }

  lemma ExpectedAuthors(rnd: Round, table: seq<Effect>)
    requires Grouped(table, rnd.effects) && |table| == LAST
    requires forall j | 0 <= j < LAST :: table[j] == Effect(j + 1, Applier(rnd, j + 1))
    ensures forall v: nat :: v in Expand(rnd.effects) <==> 1 <= v <= LAST
    ensures ByApplier(rnd, Expand(rnd.effects))
  {
    forall v: nat
      ensures v in Expand(rnd.effects) <==> 1 <= v <= LAST
      ensures 1 <= v <= LAST ==> At(Expand(rnd.effects), v) == [Applier(rnd, v)]
    {
      ExpandInOrder(table, rnd.effects, v);
    }
  }

  /**
   Whatever the schedule, a completed round of the protocol whose waiting was sampled at least once
   yields a report the checker accepts, with either language leading.
   */
  lemma RunsAreAccepted(rnd: Round, s: State, schedule: seq<nat>, samples: seq<State>, k: int)
    requires RoundStarts(s, k) && AllDone(Exec(s, schedule)) && |Exec(s, schedule).runners| == 2
    requires (forall u | u in samples :: Visited(s, schedule, u)) && WaitedIn(samples, k)
    requires Reports(rnd, s, samples, Exec(s, schedule))
    ensures Accepted(rnd) && rnd.leaderHeld == [Bigint(k)]
  {
    RunEnds(rnd, s, schedule, k);
    HeldIsOneKey(rnd.leaderHeld, s, k);
    WaitedIsOneKey(rnd.followerWaited, s, schedule, samples, k);
    ExpectedAuthors(rnd, Exec(s, schedule).db.effects);
    assert rnd.leaderHeld == [Bigint(k)] == rnd.followerWaited;
  }

  // ---- rounds arise, with either leader ----

  /** The report's lines for a table of versions 1, 2, ..., each written once. */
  function OneEach(table: seq<Effect>): (effects: seq<Counted>)
    ensures |effects| == |table|
  {
    seq(|table|, j requires 0 <= j < |table| => Counted(table[j].version, table[j].who, 1))
  }

  lemma {:induction false} PairInOrder(table: seq<Effect>, v: nat, who: string)
    requires forall j | 0 <= j < |table| :: table[j].version == j + 1
    ensures PairCount(table, v, who) == if 1 <= v <= |table| && table[v - 1].who == who then 1 else 0
  {
    if table != [] {
      PairInOrder(table[..|table| - 1], v, who);
    }
  }

  lemma OneEachGroups(table: seq<Effect>)
    requires forall j | 0 <= j < |table| :: table[j].version == j + 1
    ensures Grouped(table, OneEach(table))
  {
    var effects := OneEach(table);
    forall e | e in effects
      ensures e.count == PairCount(table, e.version, e.who) > 0
    {
      var j :| 0 <= j < |effects| && effects[j] == e;
      PairInOrder(table, e.version, e.who);
    }
    forall row | row in table
      ensures exists e :: e in effects && e.version == row.version && e.who == row.who
    {
      var j :| 0 <= j < |table| && table[j] == row;
      assert effects[j] in effects && effects[j] == Counted(row.version, row.who, 1);
    }
  }

  function Other(lang: Lang): Lang {
    if lang.Go? then Python else Go
  }

  /** The two probes before a round, on a fresh database. */
  function Probes(leader: Lang, k: int): State {
    State(LAST, FRESH, map[],
          [Runner(leader, App(leader), k, Up, map[], 0, Idle, 0),
           Runner(Other(leader), App(Other(leader)), k, Up, map[], 0, Idle, 0)])
  }

  /** The round gets going, and can be completed. */
  lemma RoundRuns(leader: Lang, k: int) returns (s: State, schedule: seq<nat>)
    ensures RoundStarts(s, k) && s.runners[0].lang == leader && AllDone(Exec(s, schedule))
  {
    var start := Probes(leader, k);
    assert FreshGroup(start, k);
    var before := RoundIsReachable(start, k, 2);
    s := Exec(start, before);
    ExecFrame(start, before);
    InitialSteady(start, k);
    ExecSteady(start, before, k);
    schedule := Completes(s, k);
  }

  /** Only the round's key has a line, and it has both probes in it. */
  lemma LinesOf(s: State, k: int, key: int)
    requires RoundStarts(s, k)
    ensures GrantedIn(s, key) <==> key == k
    ensures WaitedIn([s], key) <==> key == k
  {
    if key != k {
      OtherLinesEmpty(s, k, key);
    }
    assert s in [s];
  }

  /** For either leader there are a round, a schedule, samples and a report as RunsAreAccepted supposes. */
  lemma RoundArises(leader: Lang, k: int)
      returns (rnd: Round, s: State, schedule: seq<nat>, samples: seq<State>)
    ensures rnd.leader == leader && RoundStarts(s, k)
    ensures AllDone(Exec(s, schedule)) && |Exec(s, schedule).runners| == 2
    ensures (forall u | u in samples :: Visited(s, schedule, u)) && WaitedIn(samples, k)
    ensures Reports(rnd, s, samples, Exec(s, schedule))
  {
    s, schedule := RoundRuns(leader, k);
    samples := [s];
    ExecFrame(s, schedule);
    var t := Exec(s, schedule);
    rnd := Round(leader, s.runners[1].lang, true, [Bigint(k)], [Bigint(k)], [ADVISORY],
                 t.runners[0].pc.result, t.runners[1].pc.result, OneEach(t.db.effects), Some(t.db.row));
    RunEnds(rnd, s, schedule, k);
    OneEachGroups(t.db.effects);
    assert s == Exec(s, schedule[..0]);
    forall h: Held | h.Bigint?
      ensures (GrantedIn(s, h.key) <==> h.key == k) && (WaitedIn(samples, h.key) <==> h.key == k)
    {
      LinesOf(s, k, h.key);
    }
    LinesOf(s, k, k);
  }

  // ---- the declared divergence ----

  /** A round led by the Go probe, whatever lock discipline the library behind it now has. */
  ghost predicate GoRoundStarts(s: State, k: int) {
    && Blocked(s, k, 2) && s.n == LAST && s.runners[1].lang == Python
    && s.runners[0].name == App(Go) && s.runners[1].name == App(Python)
  }

  /** A leader that keeps the lock for its whole run wrote every row, and the follower none. */
  lemma WholeRunReport(rnd: Round, table: seq<Effect>)
    requires rnd.leader == Go && Grouped(table, rnd.effects)
    requires table == seq(LAST, j requires 0 <= j < LAST => Effect(j + 1, App(Go)))
    ensures forall v | v in Sole(Expand(rnd.effects)) :: Sole(Expand(rnd.effects))[v] == App(Go)
    ensures At(Expand(rnd.effects), LAST) == [App(Go)]
  {
    forall v | v in Sole(Expand(rnd.effects))
      ensures Sole(Expand(rnd.effects))[v] == App(Go)
    {
      ExpandInOrder(table, rnd.effects, v);
      assert Expand(rnd.effects)[v] == At(Expand(rnd.effects), v) == [App(Go)];
    }
    ExpandInOrder(table, rnd.effects, LAST);
  }

  /** Such a report has the problem that says so, and with it is not accepted. */
  lemma WholeRunNamed(rnd: Round, table: seq<Effect>)
    requires rnd.leader == Go && rnd.follow == Ok(Some(NoChange)) && Grouped(table, rnd.effects)
    requires table == seq(LAST, j requires 0 <= j < LAST => Effect(j + 1, App(Go)))
    ensures Has(rnd, GoHoldsWholeRun) && !Accepted(rnd)
  {
    WholeRunReport(rnd, table);
    assert Has(rnd, GoHoldsWholeRun);
    NoProblem(rnd);
  }

  /**
   The declared divergence is watched: in every completed Go-led round the report is accepted iff
   the Go runner takes the lock per migration, and otherwise it has the problem that says that Go
   kept the lock.
   */
  lemma DivergenceIsDetected(rnd: Round, s: State, schedule: seq<nat>, samples: seq<State>, k: int)
    requires GoRoundStarts(s, k) && AllDone(Exec(s, schedule)) && |Exec(s, schedule).runners| == 2
    requires (forall u | u in samples :: Visited(s, schedule, u)) && WaitedIn(samples, k)
    requires rnd.leader == Go && rnd.follower == Python && Observes(rnd, s, samples, Exec(s, schedule))
    ensures Accepted(rnd) <==> s.runners[0].lang == Go
    ensures s.runners[0].lang == Python <==> Has(rnd, GoHoldsWholeRun)
  {
    if s.runners[0].lang.Go? {
      RunsAreAccepted(rnd, s, schedule, samples, k);
      NoProblem(rnd);
    } else {
      PythonLeaderKeepsAll(s, schedule, k, 2);
      WholeRunNamed(rnd, Exec(s, schedule).db.effects);
    }
  }
}
