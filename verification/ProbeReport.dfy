/**
 What one probe prints about one operation.  The two languages get there by different control
 flow over different library answers; both print the same report of the same ending.
 */
module ProbeReport {
  import opened Prelude
  import opened Runners

  // ---- the captured log ----

  datatype Level = DebugLevel | InfoLevel | WarnLevel | ErrorLevel

  /** One call of the library to its logger. */
  datatype Call = Call(level: Level, text: string)

  function LinesOf(c: Call): seq<string> {
    match c.level
    case DebugLevel => []
    case InfoLevel => [c.text]
    case WarnLevel => ["warning: " + c.text]
    case ErrorLevel => ["error: " + c.text]
  }

  /** The messages that a sequence of log calls leaves. */
  function Lines(calls: seq<Call>): seq<string> {
    if calls == [] then [] else Lines(calls[..|calls| - 1]) + LinesOf(calls[|calls| - 1])
  }

  lemma LinesMore(calls: seq<Call>, c: Call)
    ensures Lines(calls + [c]) == Lines(calls) + LinesOf(c)
  {
    assert (calls + [c])[..|calls|] == calls;
  }

  /** Collects what the library logs, as both probes do; `calls` is the log call by call. */
  class CaptureLogger {
    var msgs: seq<string>
    ghost var calls: seq<Call>

    ghost predicate Valid()
      reads this
    {
      msgs == Lines(calls)
    }

    constructor ()
      ensures Valid() && calls == []
    {
      msgs, calls := [], [];
    }

    method Debug(text: string)
      requires Valid()
      modifies this
      ensures Valid() && calls == old(calls) + [Call(DebugLevel, text)]
    {
      LinesMore(calls, Call(DebugLevel, text));
      calls := calls + [Call(DebugLevel, text)];
    }

    method Info(text: string)
      requires Valid()
      modifies this
      ensures Valid() && calls == old(calls) + [Call(InfoLevel, text)]
    {
      LinesMore(calls, Call(InfoLevel, text));
      msgs, calls := msgs + [text], calls + [Call(InfoLevel, text)];
    }

    method Warn(text: string)
      requires Valid()
      modifies this
      ensures Valid() && calls == old(calls) + [Call(WarnLevel, text)]
    {
      LinesMore(calls, Call(WarnLevel, text));
      msgs, calls := msgs + ["warning: " + text], calls + [Call(WarnLevel, text)];
    }

    method Error(text: string)
      requires Valid()
      modifies this
      ensures Valid() && calls == old(calls) + [Call(ErrorLevel, text)]
    {
      LinesMore(calls, Call(ErrorLevel, text));
      msgs, calls := msgs + ["error: " + text], calls + [Call(ErrorLevel, text)];
    }
  }

  /** The library run, as far as its logger sees it. */
  method LogAll(logger: CaptureLogger, calls: seq<Call>)
    requires logger.Valid() && logger.calls == []
    modifies logger
    ensures logger.Valid() && logger.calls == calls
  {
    for i := 0 to |calls|
      invariant logger.Valid() && logger.calls == calls[..i]
    {
      match calls[i].level {
        case DebugLevel => logger.Debug(calls[i].text);
        case InfoLevel => logger.Info(calls[i].text);
        case WarnLevel => logger.Warn(calls[i].text);
        case ErrorLevel => logger.Error(calls[i].text);
      }
      assert calls[..i + 1] == calls[..i] + [calls[i]];
    }
    assert calls[..|calls|] == calls;
  }

  const NO_CHANGES := "migrations: no changes"
  const NOTHING := "migrations: nothing to roll back"

  predicate SaysNoChange(m: string) {
    NO_CHANGES <= m || NOTHING <= m
  }

  datatype Action = Migrate(op: Op) | Version

  predicate Classified(action: Action) {
    action.Migrate? && !action.op.Force?
  }

  function OutcomeOf(action: Action, failed: bool, msgs: seq<string>): Option<Outcome> {
    if failed || !Classified(action) then None
    else if exists m | m in msgs :: SaysNoChange(m) then Some(NoChange)
    else Some(Changed)
  }

  /** The Go scan with its early return. */
  method RunOutcome(action: Action, failed: bool, msgs: seq<string>) returns (outcome: Option<Outcome>)
    ensures outcome == OutcomeOf(action, failed, msgs)
  {
    if failed || !Classified(action) {
      return None;
    }
    for i := 0 to |msgs|
      invariant forall j | 0 <= j < i :: !SaysNoChange(msgs[j])
    {
      if SaysNoChange(msgs[i]) {
        return Some(NoChange);
      }
    }
    return Some(Changed);
  }

  /** The library told its logger, as information, that there was nothing to do. */
  ghost predicate ToldNoChange(calls: seq<Call>) {
    exists c :: c in calls && c.level.InfoLevel? && SaysNoChange(c.text)
  }

  lemma Unprefixed(m: string)
    requires m != [] && m[0] != 'm'
    ensures !SaysNoChange(m)
  {
    assert NO_CHANGES[0] == NOTHING[0] == 'm';
  }

  lemma OneCall(c: Call)
    ensures (exists m :: m in LinesOf(c) && SaysNoChange(m)) <==> c.level.InfoLevel? && SaysNoChange(c.text)
  {
    Unprefixed("warning: " + c.text);
    Unprefixed("error: " + c.text);
    if c.level.InfoLevel? {
      assert c.text in LinesOf(c);
    }
  }

  /** Among the captured messages only information counts: no warning, error or debug text can pass for it. */
  lemma {:induction false} OnlyInfoCounts(calls: seq<Call>)
    ensures (exists m :: m in Lines(calls) && SaysNoChange(m)) <==> ToldNoChange(calls)
  {
    if calls != [] {
      var n := |calls| - 1;
      OnlyInfoCounts(calls[..n]);
      OneCall(calls[n]);
      assert forall c :: c in calls <==> c in calls[..n] || c == calls[n];
      assert forall m :: m in Lines(calls) <==> m in Lines(calls[..n]) || m in LinesOf(calls[n]);
    }
  }

  /** So the outcome of an ok run of a classified action is what the library told. */
  lemma OutcomeIsTold(action: Action, failed: bool, calls: seq<Call>)
    ensures OutcomeOf(action, failed, Lines(calls))
            == if failed || !Classified(action) then None
               else Some(if ToldNoChange(calls) then NoChange else Changed)
  {
    OnlyInfoCounts(calls);
  }

  /** A warning or an error whose text looks like "no changes" does not make a run "no_change". */
  lemma WarningsDoNotCount(action: Action, failed: bool, msgs: seq<string>, text: string)
    ensures OutcomeOf(action, failed, msgs + ["warning: " + text]) == OutcomeOf(action, failed, msgs)
    ensures OutcomeOf(action, failed, msgs + ["error: " + text]) == OutcomeOf(action, failed, msgs)
  {
    Unprefixed("warning: " + text);
    Unprefixed("error: " + text);
    Ignored(action, failed, msgs, "warning: " + text);
    Ignored(action, failed, msgs, "error: " + text);
  }

  lemma Ignored(action: Action, failed: bool, msgs: seq<string>, m: string)
    requires !SaysNoChange(m)
    ensures OutcomeOf(action, failed, msgs + [m]) == OutcomeOf(action, failed, msgs)
  {
    assert forall x :: x in msgs + [m] <==> x in msgs || x == m;
  }

  /** The messages of the libraries: which of them report that nothing was changed. */
  lemma KnownMessages(version: string)
    ensures SaysNoChange("migrations: no changes") && SaysNoChange("migrations: no changes to apply")
    ensures SaysNoChange("migrations: nothing to roll back")
    ensures !SaysNoChange("migrations: applied up to version " + version)
  {
    assert "migrations: no changes to apply" == "migrations: no changes" + " to apply";
    var m := "migrations: applied up to version " + version;
    assert m[12] == 'a' && NO_CHANGES[12] == NOTHING[12] == 'n';
  }

  // ---- one ending, two probes ----

  /** How an operation ended: a run with its result, or a row read. */
  datatype Ending = Ran(op: Op, result: Result) | Seen(row: Row, known: bool)

  datatype Report = Report(ok: bool, code: Option<Code>, version: Option<Option<nat>>,
                           dirty: Option<bool>, outcome: Option<Outcome>)

  /** The language-neutral report of an ending. */
  function ReportOf(e: Ending): Report {
    match e
    case Ran(_, Ok(outcome)) => Report(true, None, None, None, outcome)
    case Ran(_, Failed(code, _)) => Report(false, Some(code), None, None, None)
    case Seen(row, known) =>
      var ok := known || row.version == 0;
      Report(ok, if ok then None else Some(NotInSource),
             Some(if row.version == 0 then None else Some(row.version)), Some(row.dirty), None)
  }

  predicate Contains(hay: string, needle: string) {
    exists i | 0 <= i <= |hay| :: needle <= hay[i..]
  }

  lemma ContainsTransitive(a: string, b: string, c: string)
    requires Contains(a, b) && Contains(b, c)
    ensures Contains(a, c)
  {
    var i :| 0 <= i <= |a| && b <= a[i..];
    var j :| 0 <= j <= |b| && c <= b[j..];
    assert a[i + j..] == a[i..][j..];
    assert b[j..] <= a[i..][j..];
  }

  lemma ContainsTail(head: string, tail: string)
    ensures Contains(head + tail, tail)
  {
    assert (head + tail)[|head|..] == tail;
  }

  /** A dirty row with no version, as a failed down of the first migration leaves it. */
  predicate Versionless(e: Ending) {
    e.Seen? && e.row.version == 0 && e.row.dirty
  }

  /** A probe printed this report and error text about the ending. */
  ghost predicate Printed(e: Ending, out: Report, error: string) {
    if Versionless(e) then out.version == Some(None) && out.dirty == Some(true) && (out.ok <==> out.code.None?)
    else
      && out == ReportOf(e)
      && (e.Ran? && e.result.Failed? && e.result.code.Error? ==> Contains(error, e.result.error))
  }

  /** The run ended ok without changing anything exactly when the library told so. */
  ghost predicate LogTells(e: Ending, calls: seq<Call>) {
    e.Ran? && e.result.Ok? ==>
      && (e.op.Force? <==> e.result.outcome.None?)
      && (e.result.outcome.Some? ==> (e.result.outcome.value == NoChange <==> ToldNoChange(calls)))
  }

  function ActionOf(e: Ending): Action {
    if e.Ran? then Migrate(e.op) else Version
  }

  // ---- Go ----

  datatype GoKind = ErrNilVersion | ErrMigrationDirty | ErrVersionNotInSource | ErrShortLimit | ErrOther

  /** A Go error: of some kind, or another error with text in front. */
  datatype GoError = Plain(kind: GoKind, text: string) | Wrapped(prefix: string, inner: GoError)

  /** errors.Is, errors.As */
  predicate Is(err: GoError, kind: GoKind) {
    match err
    case Plain(k, _) => k == kind
    case Wrapped(_, inner) => Is(inner, kind)
  }

  function Text(err: GoError): string {
    match err
    case Plain(_, text) => text
    case Wrapped(prefix, inner) => prefix + ": " + Text(inner)
  }

  function Root(err: GoError): GoError {
    if err.Plain? then err else Root(err.inner)
  }

  lemma {:induction false} IsItsRoot(err: GoError, kind: GoKind)
    ensures Is(err, kind) <==> Root(err).Plain? && Root(err).kind == kind
  {
    if err.Wrapped? {
      IsItsRoot(err.inner, kind);
    }
  }

  /** Wrapping keeps the text of the error inside. */
  lemma {:induction false} RootText(err: GoError)
    ensures Contains(Text(err), Text(Root(err)))
  {
    if err.Wrapped? {
      RootText(err.inner);
      ContainsTail(err.prefix + ": ", Text(err.inner));
      ContainsTransitive(Text(err), Text(err.inner), Text(Root(err)));
    } else {
      ContainsTail("", Text(err));
      assert "" + Text(err) == Text(err);
    }
  }

  /** What a library call returns. */
  datatype GoReturn = GoReturn(err: Option<GoError>, version: nat, dirty: bool)

  function KindOf(code: Code): GoKind {
    match code
    case DirtyCode => ErrMigrationDirty
    case NotInSource => ErrVersionNotInSource
    case ShortLimit => ErrShortLimit
    case Error => ErrOther
  }

  ghost predicate RootIs(err: Option<GoError>, kind: GoKind) {
    err.Some? && Is(err.value, kind)
  }

  /** The library's answers for an ending: which error, possibly wrapped, and which row. */
  ghost predicate GoReturns(e: Ending, g: GoReturn) {
    match e
    case Ran(_, Ok(_)) => g.err.None?
    case Ran(_, Failed(code, text)) =>
      RootIs(g.err, KindOf(code)) && (code.Error? ==> Contains(Text(Root(g.err.value)), text))
    case Seen(row, known) =>
      if row.version == 0 then
        && g.dirty == row.dirty
        && (if row.dirty then g.err.Some? && !RootIs(g.err, ErrNilVersion) && !RootIs(g.err, ErrVersionNotInSource)
            else RootIs(g.err, ErrNilVersion))
      else
        && g.version == row.version && g.dirty == row.dirty
        && (if known then g.err.None? else RootIs(g.err, ErrVersionNotInSource))
  }

  function GoErrorCode(err: GoError): Code {
    if Is(err, ErrMigrationDirty) then DirtyCode
    else if Is(err, ErrVersionNotInSource) then NotInSource
    else if Is(err, ErrShortLimit) then ShortLimit
    else Error
  }

  lemma CodeOfKind(err: GoError, code: Code)
    requires Is(err, KindOf(code))
    ensures GoErrorCode(err) == code
  {
    IsItsRoot(err, KindOf(code));
    IsItsRoot(err, ErrMigrationDirty);
    IsItsRoot(err, ErrVersionNotInSource);
    IsItsRoot(err, ErrShortLimit);
  }

  method GoProbe(action: Action, g: GoReturn, calls: seq<Call>, ghost e: Ending) returns (out: Report, error: string)
    requires action == ActionOf(e) && GoReturns(e, g) && LogTells(e, calls)
    ensures Printed(e, out, error)
    ensures Versionless(e) ==> !out.ok
  {
    var logger := new CaptureLogger();
    LogAll(logger, calls);
    var err := g.err;
    out, error := Report(true, None, None, None, None), "";
    if err.Some? {
      IsItsRoot(err.value, ErrNilVersion);
      IsItsRoot(err.value, ErrVersionNotInSource);
    }
    if action.Version? {
      if err.Some? && Is(err.value, ErrNilVersion) {
        out, err := out.(version := Some(None), dirty := Some(false)), None;
      } else if err.None? || Is(err.value, ErrVersionNotInSource) {
        out := out.(version := Some(Some(g.version)), dirty := Some(g.dirty));
      } else if g.dirty {
        out := out.(version := Some(None), dirty := Some(true));
      }
    }
    if err.Some? {
      error := Text(err.value);
      out := out.(ok := false, code := Some(GoErrorCode(err.value)));
    }
    OutcomeIsTold(action, err.Some?, calls);
    var outcome := RunOutcome(action, err.Some?, logger.msgs);
    out := out.(outcome := outcome);
    if err.Some? {
      GoErrorPrinted(e, g, error);
    }
  }

  lemma GoErrorPrinted(e: Ending, g: GoReturn, error: string)
    requires GoReturns(e, g) && g.err.Some? && error == Text(g.err.value)
    ensures e.Ran? ==> e.result.Failed? && GoErrorCode(g.err.value) == e.result.code
    ensures e.Seen? && e.row.version > 0 ==> GoErrorCode(g.err.value) == NotInSource
    ensures e.Ran? && e.result.code.Error? ==> Contains(error, e.result.error)
  {
    if e.Ran? {
      CodeOfKind(g.err.value, e.result.code);
      if e.result.code.Error? {
        RootText(g.err.value);
        IsItsRoot(g.err.value, ErrOther);
        ContainsTransitive(error, Text(Root(g.err.value)), e.result.error);
      }
    } else if e.row.version > 0 {
      CodeOfKind(g.err.value, NotInSource);
    }
  }

  // ---- Python ----

  datatype PyClass = VersionNotInSourceError(version: Option<nat>, dirty: bool) | MigrationDirtyError
                   | ShortLimitError | OtherError

  /** An exception: its class, the name it prints, and its text. */
  datatype PyError = PyError(class_: PyClass, name: string, text: string)

  datatype PyReturn = Returned(version: Option<nat>, dirty: bool) | Raised(exc: PyError)

  ghost predicate RaisesFor(code: Code, class_: PyClass) {
    match code
    case DirtyCode => class_.MigrationDirtyError?
    case NotInSource => class_.VersionNotInSourceError?
    case ShortLimit => class_.ShortLimitError?
    case Error => class_.OtherError?
  }

  function SeenVersion(row: Row): Option<nat> {
    if row.version == 0 then None else Some(row.version)
  }

  /**
   The library's answers for an ending: a row, or an exception.  A dirty row without a version comes
   back as either, and carries the row both ways.
   */
  ghost predicate PyReturns(e: Ending, p: PyReturn) {
    match e
    case Ran(_, Ok(_)) => p.Returned?
    case Ran(_, Failed(code, text)) =>
      p.Raised? && RaisesFor(code, p.exc.class_) && (code.Error? ==> Contains(p.exc.text, text))
    case Seen(row, known) =>
      var version := SeenVersion(row);
      if Versionless(e) then
        p == Returned(None, true) || (p.Raised? && p.exc.class_ == VersionNotInSourceError(None, true))
      else
        p == if known || row.version == 0 then Returned(version, row.dirty)
              else Raised(PyError(VersionNotInSourceError(version, row.dirty),
                                  if p.Raised? then p.exc.name else "", if p.Raised? then p.exc.text else ""))
  }

  function PyErrorCode(exc: PyError): Code {
    if exc.class_.MigrationDirtyError? then DirtyCode
    else if exc.class_.VersionNotInSourceError? then NotInSource
    else if exc.class_.ShortLimitError? then ShortLimit
    else Error
  }

  lemma PyRaised(e: Ending, p: PyReturn)
    requires PyReturns(e, p) && p.Raised?
    ensures e.Ran? ==> e.result.Failed? && PyErrorCode(p.exc) == e.result.code
    ensures e.Seen? ==> p.exc.class_ == VersionNotInSourceError(SeenVersion(e.row), e.row.dirty)
    ensures e.Seen? && !Versionless(e) ==> !e.known && e.row.version > 0
  {
  }

  lemma PyReturned(e: Ending, p: PyReturn)
    requires PyReturns(e, p) && p.Returned?
    ensures e.Ran? ==> e.result.Ok?
    ensures e.Seen? ==> p == Returned(SeenVersion(e.row), e.row.dirty)
    ensures e.Seen? ==> e.known || e.row.version == 0
  {
  }

  method PyProbe(action: Action, p: PyReturn, calls: seq<Call>, ghost e: Ending) returns (out: Report, error: string)
    requires action == ActionOf(e) && PyReturns(e, p) && LogTells(e, calls)
    ensures Printed(e, out, error)
  {
    var logger := new CaptureLogger();
    LogAll(logger, calls);
    out, error := Report(true, None, None, None, None), "";
    if p.Returned? {
      PyReturned(e, p);
      if action.Version? {
        out := out.(version := Some(p.version), dirty := Some(p.dirty));
      }
    } else if p.exc.class_.VersionNotInSourceError? {
      PyRaised(e, p);
      error := p.exc.text;
      out := out.(ok := false, code := Some(NotInSource));
      if action.Version? {
        out := out.(version := Some(p.exc.class_.version), dirty := Some(p.exc.class_.dirty));
      }
    } else {
      PyRaised(e, p);
      error := p.exc.name + ": " + p.exc.text;
      ContainsTail(p.exc.name + ": ", p.exc.text);
      out := out.(ok := false, code := Some(PyErrorCode(p.exc)));
      if e.Ran? && e.result.Failed? && e.result.code.Error? {
        ContainsTransitive(error, p.exc.text, e.result.error);
      }
    }
    OutcomeIsTold(action, !out.ok, calls);
    assert !Versionless(e) ==> out == ReportOf(e).(outcome := None);
    out := out.(outcome := OutcomeOf(action, !out.ok, logger.msgs));
  }
}
