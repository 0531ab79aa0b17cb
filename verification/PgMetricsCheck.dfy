/**
 The pg-metrics checker: registry and family contracts must be equal, except for label values the
 Python port declares it cannot emit, each of which must be a real difference.
 */
module PgMetricsCheck {
  import opened Prelude
  import opened Sequences
  import opened SkipKey

  /** The compared registry fields. */
  datatype Contract = Contract(kind: string, tier: string, status: string, help: string,
                               required: seq<string>, approved: seq<string>,
                               values: map<string, seq<string>>, rules: seq<string>)

  /** A registry entry; Go's entries have no buckets, which reads as []. */
  datatype Entry = Entry(name: string, contract: Contract, buckets: seq<real>)

  datatype Shape = Shape(kind: string, help: string, labels: seq<string>, buckets: seq<real>)

  datatype Family = Family(name: string, shape: Shape, constLabels: seq<string>, observed: map<string, seq<string>>)

  datatype Doc = Doc(registry: seq<Entry>, families: seq<Family>, warnings: seq<string>, skipped: seq<string>)

  datatype Problem = Warnings | NamesDiffer | Registry(name: string) | FamilyShape(name: string)
                   | LabelValues(name: string)

  function EntryName(e: Entry): string {
    e.name
  }

  function FamilyName(f: Family): string {
    f.name
  }

  function Entries(registry: seq<Entry>): map<string, Entry> {
    Index(registry, EntryName, Self)
  }

  function Families(families: seq<Family>): map<string, Family> {
    Index(families, FamilyName, Self)
  }

  function ValuesOf(observed: map<string, seq<string>>, l: string): set<string> {
    if l in observed then Elements(observed[l]) else {}
  }

  type Skips = map<(string, string), set<string>>

  function Declared(skips: Skips, metric: string, l: string): set<string> {
    if (metric, l) in skips then skips[(metric, l)] else {}
  }

  // ---- one label ----

  /** Go's values are Python's and the declared ones, and no declared value is Python's. */
  ghost predicate DisjointUnion(go: set<string>, py: set<string>, declared: set<string>) {
    go == py + declared && py !! declared
  }

  method CheckValues(name: string, go: set<string>, py: set<string>, declared: set<string>)
    returns (problems: seq<Problem>)
    ensures problems == [] <==> DisjointUnion(go, py, declared)
  {
    problems := [];
    var values := Listed(declared);
    for i := 0 to |values|
      invariant problems == [] <==> forall j | 0 <= j < i :: values[j] in go && values[j] !in py
    {
      if values[i] !in go || values[i] in py {
        problems := problems + [LabelValues(name)];
      }
    }
    assert problems == [] <==> forall v | v in declared :: v in go && v !in py by {
      assert forall j | 0 <= j < |values| :: values[j] in declared;
    }
    if go - declared != py {
      problems := problems + [LabelValues(name)];
    }
  }

  // ---- one family ----

  ghost predicate FamilyAgrees(go: Family, py: Family, required: seq<string>, skips: Skips) {
    && go.shape == py.shape
    && Elements(required) <= Elements(go.constLabels)
    && forall l | l in go.observed.Keys + py.observed.Keys :: LabelAgrees(go, py, skips, l)
  }

  ghost predicate LabelAgrees(go: Family, py: Family, skips: Skips, l: string) {
    DisjointUnion(ValuesOf(go.observed, l), ValuesOf(py.observed, l), Declared(skips, go.name, l))
  }

  method CheckLabel(go: Family, py: Family, skips: Skips, l: string) returns (problems: seq<Problem>)
    ensures problems == [] <==> LabelAgrees(go, py, skips, l)
  {
    problems := CheckValues(go.name, ValuesOf(go.observed, l), ValuesOf(py.observed, l), Declared(skips, go.name, l));
  }

  method CheckLabels(go: Family, py: Family, skips: Skips, labels: set<string>) returns (problems: seq<Problem>)
    ensures problems == [] <==> forall l | l in labels :: LabelAgrees(go, py, skips, l)
  {
    problems := [];
    var list := Listed(labels);
    for i := 0 to |list|
      invariant problems == [] <==> forall j | 0 <= j < i :: LabelAgrees(go, py, skips, list[j])
    {
      var more := CheckLabel(go, py, skips, list[i]);
      problems := problems + more;
    }
    assert forall j | 0 <= j < |list| :: list[j] in labels;
  }

  method CheckFamily(go: Family, py: Family, required: seq<string>, skips: Skips) returns (problems: seq<Problem>)
    ensures problems == [] <==> FamilyAgrees(go, py, required, skips)
  {
    problems := [];
    if go.shape != py.shape {
      problems := problems + [FamilyShape(go.name)];
    }
    if !(Elements(required) <= Elements(go.constLabels)) {
      problems := problems + [FamilyShape(go.name)];
    }
    var more := CheckLabels(go, py, skips, go.observed.Keys + py.observed.Keys);
    problems := problems + more;
  }

  // ---- the declared exceptions ----

  /** The values declared for a metric and label by texts that parse. */
  ghost predicate DeclaredBy(isWord: char -> bool, keys: seq<string>, metric: string, l: string, v: string) {
    exists key :: key in keys && Parse(isWord, key) == Some(Skip(metric, l, v))
  }

  ghost predicate Reads(skips: Skips, isWord: char -> bool, keys: seq<string>) {
    forall metric, l, v :: v in Declared(skips, metric, l) <==> DeclaredBy(isWord, keys, metric, l, v)
  }

  lemma DeclaredMore(isWord: char -> bool, keys: seq<string>, key: string, metric: string, l: string, v: string)
    ensures DeclaredBy(isWord, keys + [key], metric, l, v)
            <==> DeclaredBy(isWord, keys, metric, l, v) || Parse(isWord, key) == Some(Skip(metric, l, v))
  {
    if DeclaredBy(isWord, keys, metric, l, v) {
      var k :| k in keys && Parse(isWord, k) == Some(Skip(metric, l, v));
      assert k in keys + [key];
    }
    if Parse(isWord, key) == Some(Skip(metric, l, v)) {
      assert key in keys + [key];
    }
  }

  function AddSkip(skips: Skips, parsed: Option<Skip>): Skips {
    if parsed.None? then skips
    else
      var k := parsed.value;
      skips[(k.metric, k.name) := Declared(skips, k.metric, k.name) + {k.value}]
  }

  lemma AddSkipReads(skips: Skips, isWord: char -> bool, keys: seq<string>, key: string)
    requires Reads(skips, isWord, keys)
    ensures Reads(AddSkip(skips, Parse(isWord, key)), isWord, keys + [key])
  {
    var next := AddSkip(skips, Parse(isWord, key));
    forall metric, l, v
      ensures v in Declared(next, metric, l) <==> DeclaredBy(isWord, keys + [key], metric, l, v)
    {
      DeclaredMore(isWord, keys, key, metric, l, v);
    }
  }

  method ReadSkips(isWord: char -> bool, keys: seq<string>) returns (skips: Skips)
    ensures Reads(skips, isWord, keys)
  {
    skips := map[];
    for i := 0 to |keys|
      invariant Reads(skips, isWord, keys[..i])
    {
      AddSkipReads(skips, isWord, keys[..i], keys[i]);
      assert keys[..i + 1] == keys[..i] + [keys[i]];
      skips := AddSkip(skips, Parse(isWord, keys[i]));
    }
    assert keys[..|keys|] == keys;
  }

  // ---- the documents ----

  ghost predicate DocSound(d: Doc) {
    d.warnings == [] && Entries(d.registry).Keys == Families(d.families).Keys
  }

  function Required(registry: map<string, Entry>, name: string): seq<string> {
    if name in registry then registry[name].contract.required else []
  }

  ghost predicate EntryAgrees(name: string, go: Entry, py: Entry, families: map<string, Family>) {
    go.contract == py.contract && (name in families ==> py.buckets == families[name].shape.buckets)
  }

  ghost predicate EntriesAgree(goReg: map<string, Entry>, pyReg: map<string, Entry>, goFam: map<string, Family>) {
    forall name | name in goReg.Keys * pyReg.Keys :: EntryAgrees(name, goReg[name], pyReg[name], goFam)
  }

  ghost predicate FamiliesAgree(goReg: map<string, Entry>, goFam: map<string, Family>, pyFam: map<string, Family>,
                                skips: Skips)
  {
    forall name | name in goFam.Keys * pyFam.Keys ::
      FamilyAgrees(goFam[name], pyFam[name], Required(goReg, name), skips)
  }

  /** Warnings, and the names of registries and families, within and across the documents. */
  ghost predicate NamesAgree(go: Doc, py: Doc) {
    && DocSound(go) && DocSound(py)
    && Entries(go.registry).Keys == Entries(py.registry).Keys
    && Families(go.families).Keys == Families(py.families).Keys
  }

  ghost predicate Accepted(go: Doc, py: Doc, skips: Skips) {
    && NamesAgree(go, py)
    && EntriesAgree(Entries(go.registry), Entries(py.registry), Families(go.families))
    && FamiliesAgree(Entries(go.registry), Families(go.families), Families(py.families), skips)
  }

  method CheckEntries(goReg: map<string, Entry>, pyReg: map<string, Entry>, goFam: map<string, Family>)
    returns (problems: seq<Problem>)
    ensures problems == [] <==> EntriesAgree(goReg, pyReg, goFam)
  {
    problems := [];
    var shared := goReg.Keys * pyReg.Keys;
    var names := Listed(shared);
    for i := 0 to |names|
      invariant problems == [] <==> forall j | 0 <= j < i ::
                  names[j] in shared && EntryAgrees(names[j], goReg[names[j]], pyReg[names[j]], goFam)
    {
      var name := names[i];
      assert name in shared;
      if goReg[name].contract != pyReg[name].contract {
        problems := problems + [Registry(name)];
      }
      if name in goFam && pyReg[name].buckets != goFam[name].shape.buckets {
        problems := problems + [Registry(name)];
      }
    }
    assert forall j | 0 <= j < |names| :: names[j] in shared;
  }

  method CheckFamilies(goReg: map<string, Entry>, goFam: map<string, Family>, pyFam: map<string, Family>, skips: Skips)
    returns (problems: seq<Problem>)
    ensures problems == [] <==> FamiliesAgree(goReg, goFam, pyFam, skips)
  {
    problems := [];
    var shared := goFam.Keys * pyFam.Keys;
    var names := Listed(shared);
    for i := 0 to |names|
      invariant problems == [] <==> forall j | 0 <= j < i ::
                  names[j] in shared
                  && FamilyAgrees(goFam[names[j]], pyFam[names[j]], Required(goReg, names[j]), skips)
    {
      var name := names[i];
      assert name in shared;
      var more := CheckFamily(goFam[name], pyFam[name], Required(goReg, name), skips);
      problems := problems + more;
    }
    assert forall j | 0 <= j < |names| :: names[j] in shared;
  }

  method CheckNames(go: Doc, py: Doc) returns (problems: seq<Problem>)
    ensures problems == [] <==> NamesAgree(go, py)
  {
    problems := [];
    var (goReg, pyReg) := (Entries(go.registry).Keys, Entries(py.registry).Keys);
    var (goFam, pyFam) := (Families(go.families).Keys, Families(py.families).Keys);
    if go.warnings != [] || py.warnings != [] {
      problems := problems + [Warnings];
    }
    if goReg != goFam || pyReg != pyFam {
      problems := problems + [NamesDiffer];
    }
    if goReg != pyReg || goFam != pyFam {
      problems := problems + [NamesDiffer];
    }
  }

  method CheckPgMetrics(isWord: char -> bool, go: Doc, py: Doc) returns (problems: seq<Problem>, skips: Skips)
    ensures Reads(skips, isWord, py.skipped)
    ensures problems == [] <==> Accepted(go, py, skips)
  {
    var goReg := BuildIndex(go.registry, EntryName, Self);
    var pyReg := BuildIndex(py.registry, EntryName, Self);
    var goFam := BuildIndex(go.families, FamilyName, Self);
    var pyFam := BuildIndex(py.families, FamilyName, Self);
    var names := CheckNames(go, py);
    var entries := CheckEntries(goReg, pyReg, goFam);
    skips := ReadSkips(isWord, py.skipped);
    var families := CheckFamilies(goReg, goFam, pyFam, skips);
    problems := names + entries + families;
  }

  lemma FamilyNamed(families: seq<Family>, name: string)
    requires name in Families(families)
    ensures Families(families)[name].name == name
  {
    IndexHolds(families, FamilyName, Self, name);
  }

  /**
   What acceptance means for a metric and a label observed by either side, in terms of the
   documents: Go emits v iff Python emits it or metric{label="v"} is declared, and never both.
   */
  lemma AcceptedReconciles(isWord: char -> bool, go: Doc, py: Doc, skips: Skips, name: string, l: string)
    requires WordClass(isWord) && Reads(skips, isWord, py.skipped) && Accepted(go, py, skips)
    requires name in Families(go.families) && Word(isWord, name) && Word(isWord, l)
    requires l in Families(go.families)[name].observed || l in Families(py.families)[name].observed
    ensures var g := Families(go.families)[name].observed;
            var p := Families(py.families)[name].observed;
            && (forall v: string :: (l in g && v in g[l])
                  <==> (l in p && v in p[l]) || ('"' !in v && Print(Skip(name, l, v)) in py.skipped))
            && (forall v: string | l in p && v in p[l] && '"' !in v :: Print(Skip(name, l, v)) !in py.skipped)
  {
    FamilyNamed(go.families, name);
    var g := Families(go.families)[name];
    var p := Families(py.families)[name];
    assert FamilyAgrees(g, p, Required(Entries(go.registry), name), skips);
    assert LabelAgrees(g, p, skips, l);
    forall v: string
      ensures v in Declared(skips, name, l) <==> '"' !in v && Print(Skip(name, l, v)) in py.skipped
      ensures v in ValuesOf(g.observed, l) <==> l in g.observed && v in g.observed[l]
      ensures v in ValuesOf(p.observed, l) <==> l in p.observed && v in p.observed[l]
    {
      DeclaredIsPrinted(isWord, py.skipped, name, l, v);
    }
  }

  // ---- what acceptance says of the documents entry by entry ----

  ghost predicate HasEntry(d: Doc, name: string) {
    exists e :: e in d.registry && e.name == name
  }

  ghost predicate HasFamily(d: Doc, name: string) {
    exists f :: f in d.families && f.name == name
  }

  lemma NamesAre(d: Doc, name: string)
    ensures name in Entries(d.registry) <==> HasEntry(d, name)
    ensures name in Families(d.families) <==> HasFamily(d, name)
  {
    IndexHolds(d.registry, EntryName, Self, name);
    IndexHolds(d.families, FamilyName, Self, name);
    if e :| e in d.registry && e.name == name {
      assert EntryName(e) == name;
    }
    if f :| f in d.families && f.name == name {
      assert FamilyName(f) == name;
    }
  }

  /** The four lists of an accepted pair have the same names, and nobody warned. */
  lemma AcceptedNames(go: Doc, py: Doc, skips: Skips, name: string)
    requires Accepted(go, py, skips)
    ensures go.warnings == [] && py.warnings == []
    ensures HasEntry(go, name) == HasFamily(go, name) == HasEntry(py, name) == HasFamily(py, name)
  {
    NamesAre(go, name);
    NamesAre(py, name);
    assert name in Entries(go.registry).Keys <==> name in Families(go.families).Keys;
    assert name in Entries(py.registry).Keys <==> name in Families(py.families).Keys;
    assert name in Entries(go.registry).Keys <==> name in Entries(py.registry).Keys;
  }

  ghost predicate OneName(d: Doc) {
    && (forall e, f | e in d.registry && f in d.registry && e.name == f.name :: e == f)
    && (forall e, f | e in d.families && f in d.families && e.name == f.name :: e == f)
  }

  lemma TheEntry(d: Doc, e: Entry)
    requires OneName(d) && e in d.registry
    ensures e.name in Entries(d.registry) && Entries(d.registry)[e.name] == e
  {
    IndexHolds(d.registry, EntryName, Self, e.name);
    assert EntryName(e) == e.name;
    var x :| x in d.registry && EntryName(x) == e.name && Self(x) == Entries(d.registry)[e.name];
  }

  lemma TheFamily(d: Doc, f: Family)
    requires OneName(d) && f in d.families
    ensures f.name in Families(d.families) && Families(d.families)[f.name] == f
  {
    IndexHolds(d.families, FamilyName, Self, f.name);
    assert FamilyName(f) == f.name;
    var x :| x in d.families && FamilyName(x) == f.name && Self(x) == Families(d.families)[f.name];
  }

  /**
   With one entry per name: the entries and the families of one name have equal fields, Python's
   registered buckets are those Go exposes, and Go's const labels cover the identity labels.
   */
  lemma AcceptedEntries(go: Doc, py: Doc, skips: Skips, e: Entry, p: Entry, f: Family, g: Family)
    requires Accepted(go, py, skips) && OneName(go) && OneName(py)
    requires e in go.registry && p in py.registry && f in go.families && g in py.families
    requires e.name == p.name == f.name == g.name
    ensures e.contract == p.contract && p.buckets == f.shape.buckets && f.shape == g.shape
    ensures forall l | l in e.contract.required :: l in f.constLabels
  {
    TheEntry(go, e);
    TheEntry(py, p);
    TheFamily(go, f);
    TheFamily(py, g);
    assert e.name in Entries(go.registry).Keys * Entries(py.registry).Keys;
    assert EntryAgrees(e.name, e, p, Families(go.families));
    assert e.name in Families(go.families).Keys * Families(py.families).Keys;
    assert FamilyAgrees(f, g, Required(Entries(go.registry), e.name), skips);
    forall l | l in e.contract.required
      ensures l in f.constLabels
    {
      assert l in Elements(e.contract.required);
    }
  }

  lemma DeclaredIsPrinted(isWord: char -> bool, keys: seq<string>, metric: string, l: string, v: string)
    requires WordClass(isWord) && Word(isWord, metric) && Word(isWord, l)
    ensures DeclaredBy(isWord, keys, metric, l, v) <==> '"' !in v && Print(Skip(metric, l, v)) in keys
  {
    if DeclaredBy(isWord, keys, metric, l, v) {
      var key :| key in keys && Parse(isWord, key) == Some(Skip(metric, l, v));
      ParseIff(isWord, key, Skip(metric, l, v));
    }
    if '"' !in v && Print(Skip(metric, l, v)) in keys {
      ParseIff(isWord, Print(Skip(metric, l, v)), Skip(metric, l, v));
    }
  }
}
