/**
 The lock_keys scenario: the checker's verdict on the keys observed per variant, and what it means
 for the runners that used them.
 */
module LockKeysCheck {
  import opened Prelude
  import opened Runners
  import opened LockLine
  import opened LockKey

  datatype Observed = Observed(result: Result, held: seq<Held>)

  datatype Variant = Variant(inputs: Inputs, go: Observed, python: Observed)

  datatype Problem = DidNotApply(lang: Lang) | NotOneKey(lang: Lang) | DifferentKeys | NotGolangMigrateKey

  predicate Applied(r: Result) {
    r.Ok? && r.outcome == Some(Changed)
  }

  /** Both runs changed the schema and held exactly the key the names hash to. */
  predicate Agreed(v: Variant) {
    && Applied(v.go.result) && Applied(v.python.result)
    && v.go.held == v.python.held == [Bigint(Key(v.inputs))]
  }

  /**
   What agreeing means, in the report's terms: both results are ok and "changed", and the one key
   each run held is the salted CRC of the joined names.
   */
  lemma AgreedMeans(v: Variant, k: int)
    ensures Agreed(v) && v.go.held == [Bigint(k)]
            <==> v.go.result == Ok(Some(Changed)) == v.python.result
                 && v.go.held == [Bigint(k)] == v.python.held
                 && 0 <= k < 0x1_0000_0000
                 && (k * 2973394227) % 0x1_0000_0000
                    == Crc.Crc32(v.inputs.schema + [0] + v.inputs.table + [0] + v.inputs.database) as int
  {
    KeyUnsalted(v.inputs);
    if 0 <= k < 0x1_0000_0000 && (k * 2973394227) % 0x1_0000_0000 == (Key(v.inputs) * 2973394227) % 0x1_0000_0000 {
      Unsalting(k, Key(v.inputs));
    }
  }

  function Of(v: Variant, lang: Lang): Observed {
    if lang.Go? then v.go else v.python
  }

  /** When a variant has the problem. */
  predicate Has(v: Variant, p: Problem) {
    match p
    case DidNotApply(lang) => !Applied(Of(v, lang).result)
    case NotOneKey(lang) => |Of(v, lang).held| != 1
    case DifferentKeys => v.go.held != v.python.held
    case NotGolangMigrateKey => v.go.held == v.python.held != [Bigint(Key(v.inputs))]
  }

  method CheckRun(lang: Lang, o: Observed) returns (problems: seq<Problem>)
    ensures forall p :: p in problems <==>
              (p == DidNotApply(lang) && !Applied(o.result)) || (p == NotOneKey(lang) && |o.held| != 1)
  {
    problems := [];
    if !Applied(o.result) {
      problems := problems + [DidNotApply(lang)];
    }
    if |o.held| != 1 {
      problems := problems + [NotOneKey(lang)];
    }
  }

  /** Exactly the problems the variant has are added; none exactly when the runners agree. */
  method CheckVariant(v: Variant) returns (problems: seq<Problem>)
    ensures forall p :: p in problems <==> Has(v, p)
    ensures DidNotApply(Go) in problems <==> v.go.result != Ok(Some(Changed))
    ensures DidNotApply(Python) in problems <==> v.python.result != Ok(Some(Changed))
    ensures NotOneKey(Go) in problems <==> |v.go.held| != 1
    ensures NotOneKey(Python) in problems <==> |v.python.held| != 1
    ensures problems == [] <==> Agreed(v)
  {
    problems := [];
    var expected := Bigint(Key(v.inputs));
    var langs := [Go, Python];
    for i := 0 to 2
      invariant forall p :: p in problems <==>
                  && (p.DidNotApply? || p.NotOneKey?) && p.lang in langs[..i] && Has(v, p)
    {
      var more := CheckRun(langs[i], Of(v, langs[i]));
      assert langs[..i + 1] == langs[..i] + [langs[i]];
      problems := problems + more;
    }
    assert langs[0] == Go && langs[1] == Python && langs[..2] == langs;
    if v.go.held != v.python.held {
      problems := problems + [DifferentKeys];
    } else if v.go.held != [expected] {
      problems := problems + [NotGolangMigrateKey];
    }
    NoProblem(v);
    assert problems != [] ==> problems[0] in problems;
  }

  /** The runners of a variant agree exactly when it has none of the problems. */
  lemma NoProblem(v: Variant)
    ensures Agreed(v) <==> forall p :: !Has(v, p)
  {
    if forall p :: !Has(v, p) {
      assert !Has(v, DidNotApply(Go)) && !Has(v, DidNotApply(Python));
      assert !Has(v, DifferentKeys) && !Has(v, NotGolangMigrateKey);
    }
  }

  method CheckLockKeys(variants: seq<Variant>) returns (problems: seq<Problem>)
    ensures problems == [] <==> forall v | v in variants :: Agreed(v)
  {
    problems := [];
    for i := 0 to |variants|
      invariant problems == [] <==> forall j | 0 <= j < i :: Agreed(variants[j])
    {
      var more := CheckVariant(variants[i]);
      problems := problems + more;
    }
  }

  /** Two `up` runners of a variant, Go first, each locking the one key it was seen to hold. */
  ghost predicate RunsOf(v: Variant, s: State) {
    && Initial(s) && |s.runners| == 2
    && s.runners[0].lang == Go && s.runners[1].lang == Python
    && s.runners[0].op == Up && s.runners[1].op == Up
    && v.go.held == [Bigint(s.runners[0].key)] && v.python.held == [Bigint(s.runners[1].key)]
    && !s.db.row.dirty && s.db.row.version < s.n
  }

  /**
   The verdict means what its message says: for runners holding one key each, "Go locked one key,
   Python another" is reported exactly when some schedule has both inside a migration at once.
   */
  lemma DifferentKeysMeansConcurrent(v: Variant, s: State)
    requires RunsOf(v, s)
    ensures v.go.held != v.python.held <==> exists schedule :: Overlapping(s, schedule)
  {
    ConcurrentIffKeysDiffer(s);
  }

  /** Runners of an accepted variant take golang-migrate's key, and are never both in a migration. */
  lemma AgreedRunnersExclude(v: Variant, s: State, schedule: seq<nat>)
    requires RunsOf(v, s) && Agreed(v)
    ensures s.runners[0].key == s.runners[1].key == Key(v.inputs)
    ensures !Overlapping(s, schedule)
  {
    SameKeyExcludes(s, schedule, 0, 1);
  }

  /** Two variants with NUL-free names get the same key from an accepting check only by a CRC collision. */
  lemma AgreedKeysSeparate(v: Variant, w: Variant)
    requires Agreed(v) && Agreed(w) && Plain(v.inputs) && Plain(w.inputs)
    ensures v.go.held == w.go.held <==>
              v.inputs == w.inputs
              || (Preimage(v.inputs) != Preimage(w.inputs)
                  && Crc.Crc32(Preimage(v.inputs)) == Crc.Crc32(Preimage(w.inputs)))
  {
    KeyIsCrc(v.inputs, w.inputs);
    PreimageInjective(v.inputs, w.inputs);
  }
}
