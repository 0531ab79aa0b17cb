/**
 The publisher probes: the cases that are sent, the message group each event is published under,
 and what a queue that keeps every message group in order means for the order check.
 */
module Publish {
  import opened Sequences
  import opened EventsWire
  import opened Delivery

  datatype Case = Case(key: string, group: string, skipFifo: bool)

  /** An envelope as the library made it for the k-th published case; its id is new. */
  datatype Envelope = Envelope(env: Fields, dataschema: string, data: Json)

  datatype Published = Published(groups: map<string, string>, envs: seq<Envelope>, sent: seq<Sent>)

  predicate Skipped(c: Case, fifo: bool) {
    fifo && c.skipFifo
  }

  function Kept(cases: seq<Case>, fifo: bool): seq<Case> {
    if cases == [] then []
    else Kept(cases[..|cases| - 1], fifo) + if Skipped(cases[|cases| - 1], fifo) then [] else [cases[|cases| - 1]]
  }

  /** On a standard topic every case is kept. */
  lemma {:induction false} KeptOnStandard(cases: seq<Case>)
    ensures Kept(cases, false) == cases
  {
    if cases != [] {
      KeptOnStandard(cases[..|cases| - 1]);
    }
  }

  /** On a FIFO topic those not marked to be skipped are kept, as often as they occur, and no others. */
  lemma {:induction false} KeptOnFifo(cases: seq<Case>, c: Case)
    ensures multiset(Kept(cases, true))[c] == if c.skipFifo then 0 else multiset(cases)[c]
  {
    if cases != [] {
      var n := |cases| - 1;
      KeptOnFifo(cases[..n], c);
      assert cases == cases[..n] + [cases[n]];
    }
  }

  lemma KeptMore(cases: seq<Case>, fifo: bool, i: nat)
    requires i < |cases|
    ensures Kept(cases[..i + 1], fifo)
            == Kept(cases[..i], fifo) + if Skipped(cases[i], fifo) then [] else [cases[i]]
  {
    assert cases[..i + 1][..i] == cases[..i];
  }

  function SentAs(c: Case, e: Envelope, trace: string): Sent {
    Sent(c.key, c.group, e.env, e.dataschema, e.data, trace)
  }

  /** Entry i: its envelope, and what is recorded of it. */
  ghost predicate Recorded(p: Published, i: nat, c: Case, e: Envelope, trace: string) {
    && i < |p.envs| == |p.sent| && p.envs[i] == e
    && p.sent[i].key == c.key && p.sent[i].group == c.group
    && p.sent[i].env == e.env && p.sent[i].dataschema == e.dataschema && p.sent[i].data == e.data
    && p.sent[i].producerTrace == trace
  }

  /** One entry for each kept case, in order, in the groups of their cases. */
  ghost predicate Records(p: Published, kept: seq<Case>, made: nat -> Envelope, trace: nat -> string) {
    && |p.envs| == |p.sent| == |kept|
    && (forall i: nat | i < |kept| :: Recorded(p, i, kept[i], made(i), trace(i)))
    && p.groups == GroupOf(p.sent)
  }

  function Append(p: Published, c: Case, e: Envelope, trace: string): Published {
    Published(p.groups[e.env.id := c.group], p.envs + [e], p.sent + [SentAs(c, e, trace)])
  }

  lemma AppendRecords(p: Published, kept: seq<Case>, c: Case, made: nat -> Envelope, trace: nat -> string)
    requires Records(p, kept, made, trace)
    ensures Records(Append(p, c, made(|p.envs|), trace(|p.envs|)), kept + [c], made, trace)
  {
    var n := |p.envs|;
    assert Append(p, c, made(n), trace(n)).sent[..n] == p.sent;
  }

  /** Go: one loop that skips, fills the group map and appends. */
  method GoPublish(cases: seq<Case>, fifo: bool, made: nat -> Envelope, trace: nat -> string) returns (p: Published)
    ensures Records(p, Kept(cases, fifo), made, trace)
  {
    p := Published(map[], [], []);
    for i := 0 to |cases|
      invariant Records(p, Kept(cases[..i], fifo), made, trace)
    {
      KeptMore(cases, fifo, i);
      if fifo && cases[i].skipFifo {
        continue;
      }
      AppendRecords(p, Kept(cases[..i], fifo), cases[i], made, trace);
      p := Append(p, cases[i], made(|p.envs|), trace(|p.envs|));
    }
    assert cases[..|cases|] == cases;
  }

  /** Python: filter the cases, then build the lists and the map from them. */
  method PyPublish(cases: seq<Case>, fifo: bool, made: nat -> Envelope, trace: nat -> string) returns (p: Published)
    ensures Records(p, Kept(cases, fifo), made, trace)
  {
    var kept := Kept(cases, fifo);
    var envs := seq(|kept|, i requires 0 <= i < |kept| => made(i));
    var sent := seq(|kept|, i requires 0 <= i < |kept| => SentAs(kept[i], envs[i], trace(i)));
    var groups := map[];
    for i := 0 to |kept|
      invariant groups == GroupOf(sent[..i])
    {
      assert sent[..i + 1][..i] == sent[..i];
      assert sent[..i + 1][i] == sent[i] == SentAs(kept[i], made(i), trace(i)) && envs[i] == made(i);
      groups := groups[envs[i].env.id := kept[i].group];
    }
    assert sent[..|kept|] == sent;
    p := Published(groups, envs, sent);
  }

  /** Both publishers write the same document for the same envelopes. */
  lemma PublishersAgree(p: Published, q: Published, kept: seq<Case>, made: nat -> Envelope, trace: nat -> string)
    requires Records(p, kept, made, trace) && Records(q, kept, made, trace)
    ensures p == q
  {
    forall i: nat | i < |kept|
      ensures p.envs[i] == q.envs[i] && p.sent[i] == q.sent[i]
    {
      assert Recorded(p, i, kept[i], made(i), trace(i)) && Recorded(q, i, kept[i], made(i), trace(i));
    }
    assert p.envs == q.envs && p.sent == q.sent;
  }

  /** The message group an event is published under: groups[e.ID]. */
  function MessageGroup(groups: map<string, string>, id: string): string {
    if id in groups then groups[id] else ""
  }

  lemma {:induction false} SentIsInGroup(sent: seq<Sent>, f: string -> string, grp: string)
    requires forall s | s in sent :: f(s.env.id) == s.group
    ensures SentInGroup(sent, grp) == InGroup(SentIds(sent), f, grp)
  {
    if sent != [] {
      assert SentIds(sent)[1..] == SentIds(sent[1..]);
      SentIsInGroup(sent[1..], f, grp);
    }
  }

  /** Every message group is handled in the order it was published in. */
  ghost predicate KeepsGroups(p: Published, order: seq<string>) {
    forall grp | grp in p.groups.Values ::
      InGroup(order, id => MessageGroup(p.groups, id), grp)
      == InGroup(SentIds(p.sent), id => MessageGroup(p.groups, id), grp)
  }

  /**
   For new ids all of which arrive, the order check of the report passes exactly when the queue
   kept each message group, as the publisher assigned them, in publishing order.
   */
  lemma OrderCheckIsGroupOrder(p: Published, kept: seq<Case>, made: nat -> Envelope, trace: nat -> string,
                               got: seq<Received>)
    requires Records(p, kept, made, trace) && Distinct(SentIds(p.sent))
    requires multiset(GotIds(got)) == multiset(SentIds(p.sent))
    ensures InOrder(p.sent, got) <==> KeepsGroups(p, GotIds(got))
  {
    var f := id => MessageGroup(p.groups, id);
    forall s | s in p.sent
      ensures f(s.env.id) == s.group
    {
      GroupOfIs(p.sent, s);
    }
    OrderKnown(p.sent, GotIds(got));
    forall grp | grp in p.groups.Values
      ensures SentInGroup(p.sent, grp) == InGroup(SentIds(p.sent), f, grp)
      ensures GotInGroup(GotIds(got), p.groups, grp) == InGroup(GotIds(got), f, grp)
    {
      SentIsInGroup(p.sent, f, grp);
      LookupIsName(p.sent, GotIds(got), f, grp);
    }
    assert KeepsGroups(p, GotIds(got)) <==> forall grp | grp in p.groups.Values ::
        InGroup(GotIds(got), f, grp) == InGroup(SentIds(p.sent), f, grp);
  }
}
