/**
 The checker of one SNS/SQS direction: every event sent was handled once, with the same contents,
 and, on FIFO topics, in the order of its group.
 */
module EventsWire {
  import opened Prelude
  import opened Runners
  import opened Sequences

  /** The compared envelope fields; an absent field reads as "". */
  datatype Fields = Fields(id: string, eventType: string, source: string, specversion: string, tenantId: string,
                           traceId: string, correlationId: string, subject: string, actor: string,
                           ipAddress: string, userAgent: string, time: string)

  /** A JSON value, by its canonical text. */
  type Json = string

  datatype Sent = Sent(key: string, group: string, env: Fields, dataschema: string, data: Json, producerTrace: string)

  /** What a handler saw; `payload` is its parsed raw payload, `guc` None without a tenant GUC. */
  datatype Received = Received(env: Fields, dataschema: string, data: Json, payload: Json, traceIdCtx: string,
                               guc: Option<string>, baggage: map<string, string>, attributes: map<string, string>,
                               links: seq<string>, hmacOk: Option<bool>)

  datatype Flags = Flags(codec: bool, hmac: bool, fifo: bool)

  /** The compared envelope fields, by name. */
  datatype FieldName = Id | EventType | Source | Specversion | TenantId | TraceId | CorrelationId | Subject
                     | Actor | IpAddress | UserAgent | Time

  const FIELDS: seq<FieldName> := [Id, EventType, Source, Specversion, TenantId, TraceId, CorrelationId, Subject,
                                   Actor, IpAddress, UserAgent, Time]

  function FieldOf(env: Fields, f: FieldName): string {
    match f
    case Id => env.id
    case EventType => env.eventType
    case Source => env.source
    case Specversion => env.specversion
    case TenantId => env.tenantId
    case TraceId => env.traceId
    case CorrelationId => env.correlationId
    case Subject => env.subject
    case Actor => env.actor
    case IpAddress => env.ipAddress
    case UserAgent => env.userAgent
    case Time => env.time
  }

  /** What can differ between a sent event and the record handled under its id. */
  datatype Difference = Field(f: FieldName) | Dataschema | Data | Payload | ContextTrace | TenantGuc | Baggage
                      | Attribute(name: string) | NoTraceparent | NotLinked | BadHmac

  datatype Problem = Count | NotReceived(key: string) | Differs(key: string, what: Difference)
                   | OutOfOrder(group: string)

  function WantedAttributes(s: Sent): map<string, string> {
    map["EventType" := s.env.eventType, "Source" := s.env.source, "EventID" := s.env.id]
    + (if s.env.tenantId != "" then map["TenantID" := s.env.tenantId] else map[])
    + (if s.env.subject != "" then map["Subject" := s.env.subject] else map[])
  }

  function WantedBaggage(producer: Lang): map<string, string> {
    map["probe.lang" := if producer.Go? then "go" else "py"]
  }

  /** When the record differs from what was sent in this respect. */
  predicate DiffersIn(d: Difference, s: Sent, g: Received, producer: Lang, flags: Flags) {
    match d
    case Field(f) => FieldOf(s.env, f) != FieldOf(g.env, f)
    case Dataschema => if flags.codec then g.dataschema == "" else g.dataschema != s.dataschema
    case Data => g.data != s.data
    case Payload => g.payload != s.data
    case ContextTrace => g.traceIdCtx != s.env.traceId
    case TenantGuc => g.guc != Some(s.env.tenantId)
    case Baggage => g.baggage != WantedBaggage(producer)
    case Attribute(k) =>
      k in WantedAttributes(s) && !(k in g.attributes && g.attributes[k] == WantedAttributes(s)[k])
    case NoTraceparent => "traceparent" !in g.attributes
    case NotLinked => s.producerTrace !in g.links
    case BadHmac => flags.hmac && g.hmacOk != Some(true)
  }

  /** The record is what was sent: the same envelope and payload, context, attributes, link and signature. */
  ghost predicate Handled(s: Sent, g: Received, producer: Lang, flags: Flags) {
    && g.env == s.env
    && (if flags.codec then g.dataschema != "" else g.dataschema == s.dataschema)
    && g.data == s.data && g.payload == s.data
    && g.traceIdCtx == s.env.traceId
    && g.guc == Some(s.env.tenantId)
    && g.baggage == WantedBaggage(producer)
    && (forall k | k in WantedAttributes(s) :: k in g.attributes && g.attributes[k] == WantedAttributes(s)[k])
    && "traceparent" in g.attributes
    && s.producerTrace in g.links
    && (flags.hmac ==> g.hmacOk == Some(true))
  }

  /** Handled as sent means no difference of any kind. */
  lemma HandledIff(s: Sent, g: Received, producer: Lang, flags: Flags)
    ensures Handled(s, g, producer, flags) <==> forall d :: !DiffersIn(d, s, g, producer, flags)
  {
    if forall d :: !DiffersIn(d, s, g, producer, flags) {
      FieldsDecide(s.env, g.env, s, g, producer, flags);
      assert !DiffersIn(Dataschema, s, g, producer, flags) && !DiffersIn(Data, s, g, producer, flags);
      assert !DiffersIn(Payload, s, g, producer, flags) && !DiffersIn(ContextTrace, s, g, producer, flags);
      assert !DiffersIn(TenantGuc, s, g, producer, flags) && !DiffersIn(Baggage, s, g, producer, flags);
      assert !DiffersIn(NoTraceparent, s, g, producer, flags) && !DiffersIn(NotLinked, s, g, producer, flags);
      assert !DiffersIn(BadHmac, s, g, producer, flags);
      forall k | k in WantedAttributes(s)
        ensures k in g.attributes && g.attributes[k] == WantedAttributes(s)[k]
      {
        assert !DiffersIn(Attribute(k), s, g, producer, flags);
      }
    }
  }

  /** The attribute a record must carry under a name: v, unless v is empty and the name optional. */
  predicate Carries(g: Received, name: string, v: string) {
    name in g.attributes && g.attributes[name] == v
  }

  /** Handled as sent, in terms of the documents and the names on the wire. */
  lemma HandledMeans(s: Sent, g: Received, producer: Lang, flags: Flags)
    ensures Handled(s, g, producer, flags) <==>
              && g.env == s.env && g.data == s.data == g.payload
              && (if flags.codec then g.dataschema != "" else g.dataschema == s.dataschema)
              && g.traceIdCtx == s.env.traceId && g.guc == Some(s.env.tenantId)
              && g.baggage == (if producer == Go then map["probe.lang" := "go"] else map["probe.lang" := "py"])
              && Carries(g, "EventType", s.env.eventType) && Carries(g, "Source", s.env.source)
              && Carries(g, "EventID", s.env.id)
              && (s.env.tenantId != "" ==> Carries(g, "TenantID", s.env.tenantId))
              && (s.env.subject != "" ==> Carries(g, "Subject", s.env.subject))
              && "traceparent" in g.attributes && s.producerTrace in g.links
              && (flags.hmac ==> g.hmacOk == Some(true))
  {
    AttributesWanted(s, g);
  }

  lemma AttributesWanted(s: Sent, g: Received)
    ensures (forall k | k in WantedAttributes(s) :: Carries(g, k, WantedAttributes(s)[k])) <==>
              && Carries(g, "EventType", s.env.eventType) && Carries(g, "Source", s.env.source)
              && Carries(g, "EventID", s.env.id)
              && (s.env.tenantId != "" ==> Carries(g, "TenantID", s.env.tenantId))
              && (s.env.subject != "" ==> Carries(g, "Subject", s.env.subject))
  {
    var w := WantedAttributes(s);
    assert "EventType" in w && w["EventType"] == s.env.eventType;
    assert "Source" in w && w["Source"] == s.env.source;
    assert "EventID" in w && w["EventID"] == s.env.id;
    assert s.env.tenantId != "" ==> "TenantID" in w && w["TenantID"] == s.env.tenantId;
    assert s.env.subject != "" ==> "Subject" in w && w["Subject"] == s.env.subject;
  }

  /** The twelve fields are the whole compared envelope. */
  lemma FieldsDecide(a: Fields, b: Fields, s: Sent, g: Received, producer: Lang, flags: Flags)
    requires a == s.env && b == g.env && forall d :: !DiffersIn(d, s, g, producer, flags)
    ensures a == b
  {
    forall f: FieldName
      ensures FieldOf(a, f) == FieldOf(b, f)
    {
      assert !DiffersIn(Field(f), s, g, producer, flags);
    }
    assert FieldOf(a, Id) == FieldOf(b, Id) && FieldOf(a, EventType) == FieldOf(b, EventType);
    assert FieldOf(a, Source) == FieldOf(b, Source) && FieldOf(a, Specversion) == FieldOf(b, Specversion);
    assert FieldOf(a, TenantId) == FieldOf(b, TenantId) && FieldOf(a, TraceId) == FieldOf(b, TraceId);
    assert FieldOf(a, CorrelationId) == FieldOf(b, CorrelationId) && FieldOf(a, Subject) == FieldOf(b, Subject);
    assert FieldOf(a, Actor) == FieldOf(b, Actor) && FieldOf(a, IpAddress) == FieldOf(b, IpAddress);
    assert FieldOf(a, UserAgent) == FieldOf(b, UserAgent) && FieldOf(a, Time) == FieldOf(b, Time);
  }

  /** The envelope with the named field set to x. */
  function WithField(env: Fields, f: FieldName, x: string): Fields {
    match f
    case Id => env.(id := x)
    case EventType => env.(eventType := x)
    case Source => env.(source := x)
    case Specversion => env.(specversion := x)
    case TenantId => env.(tenantId := x)
    case TraceId => env.(traceId := x)
    case CorrelationId => env.(correlationId := x)
    case Subject => env.(subject := x)
    case Actor => env.(actor := x)
    case IpAddress => env.(ipAddress := x)
    case UserAgent => env.(userAgent := x)
    case Time => env.(time := x)
  }

  lemma SetThenGet(env: Fields, f: FieldName, x: string, h: FieldName)
    ensures FieldOf(WithField(env, f, x), h) == if h == f then x else FieldOf(env, h)
  {
  }

  /** A record whose envelope differs in one field has the problem of that field, and of no other field. */
  lemma FieldIsolated(s: Sent, g: Received, f: FieldName, x: string, h: FieldName, producer: Lang, flags: Flags)
    ensures DiffersIn(Field(h), s, g.(env := WithField(s.env, f, x)), producer, flags)
            <==> h == f && x != FieldOf(s.env, f)
  {
    SetThenGet(s.env, f, x, h);
  }

  /** A handled record that is changed in one respect has exactly the problem of that respect. */
  lemma ContentIsolated(s: Sent, g: Received, x: string, d: Difference, producer: Lang, flags: Flags)
    requires Handled(s, g, producer, flags)
    ensures DiffersIn(d, s, g.(data := x), producer, flags) <==> d == Data && x != s.data
    ensures DiffersIn(d, s, g.(payload := x), producer, flags) <==> d == Payload && x != s.data
    ensures DiffersIn(d, s, g.(traceIdCtx := x), producer, flags) <==> d == ContextTrace && x != s.env.traceId
    ensures DiffersIn(d, s, g.(guc := Some(x)), producer, flags) <==> d == TenantGuc && x != s.env.tenantId
    ensures DiffersIn(d, s, g.(guc := None), producer, flags) <==> d == TenantGuc
  {
    HandledIff(s, g, producer, flags);
  }

  lemma ContextIsolated(s: Sent, g: Received, d: Difference, producer: Lang, flags: Flags)
    requires Handled(s, g, producer, flags)
    ensures DiffersIn(d, s, g.(baggage := map[]), producer, flags) <==> d == Baggage
    ensures DiffersIn(d, s, g.(links := []), producer, flags) <==> d == NotLinked
    ensures DiffersIn(d, s, g.(attributes := g.attributes - {"traceparent"}), producer, flags) <==> d == NoTraceparent
    ensures DiffersIn(d, s, g.(hmacOk := Some(false)), producer, flags) <==> d == BadHmac && flags.hmac
  {
    HandledIff(s, g, producer, flags);
    assert "traceparent" !in WantedAttributes(s) && "probe.lang" in WantedBaggage(producer);
  }

  function SentIds(sent: seq<Sent>): seq<string> {
    seq(|sent|, i requires 0 <= i < |sent| => sent[i].env.id)
  }

  function GotIds(got: seq<Received>): seq<string> {
    seq(|got|, i requires 0 <= i < |got| => got[i].env.id)
  }

  function ReceivedId(g: Received): string {
    g.env.id
  }

  function SentId(s: Sent): string {
    s.env.id
  }

  function SentGroup(s: Sent): string {
    s.group
  }

  /** The received records by id. */
  function ById(got: seq<Received>): map<string, Received> {
    Index(got, ReceivedId, Self)
  }

  /** The group of each id. */
  function GroupOf(sent: seq<Sent>): map<string, string> {
    Index(sent, SentId, SentGroup)
  }

  function Lookup<K, V>(m: map<K, V>, k: K): Option<V> {
    if k in m then Some(m[k]) else None
  }

  function SentInGroup(sent: seq<Sent>, grp: string): seq<string> {
    if sent == [] then []
    else (if sent[0].group == grp then [sent[0].env.id] else []) + SentInGroup(sent[1..], grp)
  }

  function GotInGroup(order: seq<string>, groupOf: map<string, string>, grp: string): seq<string> {
    if order == [] then []
    else (if Lookup(groupOf, order[0]) == Some(grp) then [order[0]] else []) + GotInGroup(order[1..], groupOf, grp)
  }

  predicate InOrder(sent: seq<Sent>, got: seq<Received>) {
    var groupOf := GroupOf(sent);
    forall grp | grp in groupOf.Values :: GotInGroup(GotIds(got), groupOf, grp) == SentInGroup(sent, grp)
  }

  ghost predicate Accepted(sent: seq<Sent>, got: seq<Received>, producer: Lang, flags: Flags) {
    && |got| == |sent|
    && (forall s | s in sent :: s.env.id in ById(got) && Handled(s, ById(got)[s.env.id], producer, flags))
    && (flags.fifo ==> InOrder(sent, got))
  }

  // ---- the checker ----

  /** The problems that one sent event has. */
  predicate EventHas(s: Sent, byId: map<string, Received>, p: Problem, producer: Lang, flags: Flags) {
    match p
    case NotReceived(key) => key == s.key && s.env.id !in byId
    case Differs(key, d) =>
      key == s.key && s.env.id in byId && DiffersIn(d, s, byId[s.env.id], producer, flags)
    case _ => false
  }

  /** When a pair of documents has the problem. */
  ghost predicate Has(sent: seq<Sent>, got: seq<Received>, p: Problem, producer: Lang, flags: Flags) {
    match p
    case Count => |got| != |sent|
    case OutOfOrder(grp) =>
      && flags.fifo && grp in GroupOf(sent).Values
      && GotInGroup(GotIds(got), GroupOf(sent), grp) != SentInGroup(sent, grp)
    case _ => exists s :: s in sent && EventHas(s, ById(got), p, producer, flags)
  }

  method CheckEach(s: Sent, g: Received, producer: Lang, flags: Flags, tests: seq<Difference>)
    returns (problems: seq<Problem>)
    ensures forall p :: p in problems <==>
              p.Differs? && p.key == s.key && p.what in tests && DiffersIn(p.what, s, g, producer, flags)
  {
    problems := [];
    for i := 0 to |tests|
      invariant forall p :: p in problems <==>
                  p.Differs? && p.key == s.key && p.what in tests[..i] && DiffersIn(p.what, s, g, producer, flags)
    {
      assert tests[..i + 1] == tests[..i] + [tests[i]];
      if DiffersIn(tests[i], s, g, producer, flags) {
        problems := problems + [Differs(s.key, tests[i])];
      }
    }
    assert tests[..|tests|] == tests;
  }

  function FieldTests(fields: seq<FieldName>): seq<Difference> {
    seq(|fields|, i requires 0 <= i < |fields| => Field(fields[i]))
  }

  function AttributeTests(names: seq<string>): seq<Difference> {
    seq(|names|, i requires 0 <= i < |names| => Attribute(names[i]))
  }

  const CONTENT_TESTS: seq<Difference> := [Dataschema, Data, Payload, ContextTrace, TenantGuc, Baggage]
  const TRACE_TESTS: seq<Difference> := [NoTraceparent, NotLinked, BadHmac]

  lemma EveryField(f: FieldName)
    ensures Field(f) in FieldTests(FIELDS)
  {
    assert FIELDS[0] == Id && FIELDS[1] == EventType && FIELDS[2] == Source && FIELDS[3] == Specversion;
    assert FIELDS[4] == TenantId && FIELDS[5] == TraceId && FIELDS[6] == CorrelationId && FIELDS[7] == Subject;
    assert FIELDS[8] == Actor && FIELDS[9] == IpAddress && FIELDS[10] == UserAgent && FIELDS[11] == Time;
    var i :| 0 <= i < |FIELDS| && FIELDS[i] == f;
    assert FieldTests(FIELDS)[i] == Field(f);
  }

  lemma EveryTest(d: Difference, s: Sent, g: Received, names: seq<string>, producer: Lang, flags: Flags)
    requires DiffersIn(d, s, g, producer, flags) && forall k :: k in names <==> k in WantedAttributes(s).Keys
    ensures d in FieldTests(FIELDS) || d in CONTENT_TESTS || d in AttributeTests(names) || d in TRACE_TESTS
  {
    if d.Field? {
      EveryField(d.f);
    } else if d.Attribute? {
      assert d.name in WantedAttributes(s).Keys;
      var i :| 0 <= i < |names| && names[i] == d.name;
      assert AttributeTests(names)[i] == d;
    } else {
      assert CONTENT_TESTS[0] == Dataschema && CONTENT_TESTS[1] == Data && CONTENT_TESTS[2] == Payload;
      assert CONTENT_TESTS[3] == ContextTrace && CONTENT_TESTS[4] == TenantGuc && CONTENT_TESTS[5] == Baggage;
      assert TRACE_TESTS[0] == NoTraceparent && TRACE_TESTS[1] == NotLinked && TRACE_TESTS[2] == BadHmac;
    }
  }

  /** Adds a problem for each respect in which the record differs from the event. */
  method CheckEvent(s: Sent, g: Received, producer: Lang, flags: Flags) returns (problems: seq<Problem>)
    ensures forall p :: p in problems <==> p.Differs? && p.key == s.key && DiffersIn(p.what, s, g, producer, flags)
  {
    var names := Listed(WantedAttributes(s).Keys);
    var tests := FieldTests(FIELDS) + CONTENT_TESTS + AttributeTests(names) + TRACE_TESTS;
    forall d | DiffersIn(d, s, g, producer, flags)
      ensures d in tests
    {
      EveryTest(d, s, g, names, producer, flags);
    }
    problems := CheckEach(s, g, producer, flags, tests);
  }

  method CheckEvents(sent: seq<Sent>, byId: map<string, Received>, producer: Lang, flags: Flags)
    returns (problems: seq<Problem>)
    ensures forall p :: p in problems <==> exists s :: s in sent && EventHas(s, byId, p, producer, flags)
  {
    problems := [];
    for i := 0 to |sent|
      invariant forall p :: p in problems <==> exists s :: s in sent[..i] && EventHas(s, byId, p, producer, flags)
    {
      var s := sent[i];
      var more := [];
      if s.env.id !in byId {
        more := [NotReceived(s.key)];
      } else {
        more := CheckEvent(s, byId[s.env.id], producer, flags);
      }
      assert forall p :: p in more <==> EventHas(s, byId, p, producer, flags);
      assert forall x :: x in sent[..i + 1] <==> x in sent[..i] || x == s;
      problems := problems + more;
    }
    assert sent[..|sent|] == sent;
  }

  method CheckOrder(sent: seq<Sent>, got: seq<Received>) returns (problems: seq<Problem>)
    ensures forall p :: p in problems <==>
              && p.OutOfOrder? && p.group in GroupOf(sent).Values
              && GotInGroup(GotIds(got), GroupOf(sent), p.group) != SentInGroup(sent, p.group)
  {
    problems := [];
    var groupOf := BuildIndex(sent, SentId, SentGroup);
    var order := GotIds(got);
    var groups := Listed(groupOf.Values);
    for i := 0 to |groups|
      invariant forall p :: p in problems <==>
                  && p.OutOfOrder? && p.group in groups[..i]
                  && GotInGroup(order, groupOf, p.group) != SentInGroup(sent, p.group)
    {
      assert groups[..i + 1] == groups[..i] + [groups[i]];
      if GotInGroup(order, groupOf, groups[i]) != SentInGroup(sent, groups[i]) {
        problems := problems + [OutOfOrder(groups[i])];
      }
    }
    assert groups[..|groups|] == groups;
  }

  /** Exactly the problems the documents have are added; none exactly when they are accepted. */
  method CheckEventsWire(sent: seq<Sent>, got: seq<Received>, producer: Lang, flags: Flags)
    returns (problems: seq<Problem>)
    ensures forall p :: p in problems <==> Has(sent, got, p, producer, flags)
    ensures problems == [] <==> Accepted(sent, got, producer, flags)
  {
    var counts := if |got| != |sent| then [Count] else [];
    var byId := BuildIndex(got, ReceivedId, Self);
    var events := CheckEvents(sent, byId, producer, flags);
    var order := [];
    if flags.fifo {
      order := CheckOrder(sent, got);
    }
    problems := counts + events + order;
    forall p
      ensures p in problems <==> Has(sent, got, p, producer, flags)
    {
      assert p in problems <==> p in counts || p in events || p in order;
    }
    EmptyMeansAccepted(sent, got, problems, producer, flags);
  }

  lemma EmptyMeansAccepted(sent: seq<Sent>, got: seq<Received>, problems: seq<Problem>, producer: Lang, flags: Flags)
    requires forall p :: p in problems <==> Has(sent, got, p, producer, flags)
    ensures problems == [] <==> Accepted(sent, got, producer, flags)
  {
    NoProblem(sent, got, producer, flags);
    assert problems != [] ==> problems[0] in problems;
  }

  /** Documents are accepted exactly when they have none of the problems. */
  lemma NoProblem(sent: seq<Sent>, got: seq<Received>, producer: Lang, flags: Flags)
    ensures Accepted(sent, got, producer, flags) <==> forall p :: !Has(sent, got, p, producer, flags)
  {
    if Accepted(sent, got, producer, flags) {
      forall p
        ensures !Has(sent, got, p, producer, flags)
      {
        if s :| s in sent && EventHas(s, ById(got), p, producer, flags) {
          HandledIff(s, ById(got)[s.env.id], producer, flags);
        }
      }
    }
    if forall p :: !Has(sent, got, p, producer, flags) {
      assert !Has(sent, got, Count, producer, flags);
      forall s | s in sent
        ensures s.env.id in ById(got) && Handled(s, ById(got)[s.env.id], producer, flags)
      {
        NoneForEvent(sent, got, s, producer, flags);
      }
      forall grp | flags.fifo && grp in GroupOf(sent).Values
        ensures GotInGroup(GotIds(got), GroupOf(sent), grp) == SentInGroup(sent, grp)
      {
        assert !Has(sent, got, OutOfOrder(grp), producer, flags);
      }
    }
  }

  lemma NoneForEvent(sent: seq<Sent>, got: seq<Received>, s: Sent, producer: Lang, flags: Flags)
    requires s in sent && forall p :: !Has(sent, got, p, producer, flags)
    ensures s.env.id in ById(got) && Handled(s, ById(got)[s.env.id], producer, flags)
  {
    assert !Has(sent, got, NotReceived(s.key), producer, flags);
    assert s.env.id in ById(got) by {
      assert !EventHas(s, ById(got), NotReceived(s.key), producer, flags);
    }
    var g := ById(got)[s.env.id];
    forall d
      ensures !DiffersIn(d, s, g, producer, flags)
    {
      assert !Has(sent, got, Differs(s.key, d), producer, flags);
      assert !EventHas(s, ById(got), Differs(s.key, d), producer, flags);
    }
    HandledIff(s, g, producer, flags);
  }
}
