/** What an accepting verdict of the events-wire checker says about the messages, and when. */
module Delivery {
  import opened Prelude
  import opened Runners
  import opened Sequences
  import opened EventsWire

  /**
   Handled once each: the received ids are exactly the sent ids, whatever was received under a
   sent id matches what was sent, and on a FIFO topic the handling order interleaves the groups'
   own sequences.
   */
  ghost predicate Delivered(sent: seq<Sent>, got: seq<Received>, producer: Lang, flags: Flags) {
    && multiset(GotIds(got)) == multiset(SentIds(sent))
    && (forall s, g | s in sent && g in got && g.env.id == s.env.id :: Handled(s, g, producer, flags))
    && (flags.fifo ==> Interleaves(GotIds(got), Parts(sent)))
  }

  /** The per-group sequences that were sent. */
  function Parts(sent: seq<Sent>): map<string, seq<string>> {
    map grp | grp in GroupOf(sent).Values :: SentInGroup(sent, grp)
  }

  lemma ByIdIs(got: seq<Received>, id: string)
    ensures id in ById(got) <==> id in GotIds(got)
    ensures id in ById(got) ==> ById(got)[id] in got && ById(got)[id].env.id == id
  {
    IndexHolds(got, ReceivedId, Self, id);
    if g :| g in got && ReceivedId(g) == id {
      var i :| 0 <= i < |got| && got[i] == g;
      assert GotIds(got)[i] == id;
    }
    if id in GotIds(got) {
      var i :| 0 <= i < |got| && GotIds(got)[i] == id;
      assert got[i] in got && ReceivedId(got[i]) == id;
    }
  }

  /** With distinct received ids the index hides nothing. */
  lemma ByIdUnique(got: seq<Received>, g: Received)
    requires Distinct(GotIds(got)) && g in got
    ensures g.env.id in ById(got) && ById(got)[g.env.id] == g
  {
    var i :| 0 <= i < |got| && got[i] == g;
    assert GotIds(got)[i] == g.env.id;
    ByIdIs(got, g.env.id);
    var j :| 0 <= j < |got| && got[j] == ById(got)[g.env.id];
    assert GotIds(got)[j] == g.env.id;
  }

  lemma SentIdIn(sent: seq<Sent>, s: Sent)
    requires s in sent
    ensures s.env.id in SentIds(sent)
  {
    var i :| 0 <= i < |sent| && sent[i] == s;
    assert SentIds(sent)[i] == s.env.id;
  }

  /** Equal lengths and "every sent id is indexed" is a permutation of the ids, for distinct sent ids. */
  lemma CountsForcePermutation(sent: seq<Sent>, got: seq<Received>)
    requires Distinct(SentIds(sent))
    ensures |got| == |sent| && (forall s | s in sent :: s.env.id in ById(got))
            <==> multiset(GotIds(got)) == multiset(SentIds(sent))
    ensures multiset(GotIds(got)) == multiset(SentIds(sent)) ==> Distinct(GotIds(got))
  {
    Pigeonhole(SentIds(sent), GotIds(got));
    if forall s | s in sent :: s.env.id in ById(got) {
      forall x | x in Elements(SentIds(sent))
        ensures x in Elements(GotIds(got))
      {
        var i :| 0 <= i < |sent| && SentIds(sent)[i] == x;
        assert sent[i] in sent;
        ByIdIs(got, x);
      }
    }
    if Elements(SentIds(sent)) <= Elements(GotIds(got)) {
      forall s | s in sent
        ensures s.env.id in ById(got)
      {
        SentIdIn(sent, s);
        assert s.env.id in Elements(SentIds(sent));
        ByIdIs(got, s.env.id);
      }
    }
  }

  // ---- the order check ----

  lemma GroupOfIs(sent: seq<Sent>, s: Sent)
    requires Distinct(SentIds(sent)) && s in sent
    ensures s.env.id in GroupOf(sent) && GroupOf(sent)[s.env.id] == s.group
  {
    IndexHolds(sent, SentId, SentGroup, s.env.id);
    assert SentId(s) == s.env.id;
    var u :| u in sent && SentId(u) == s.env.id && SentGroup(u) == GroupOf(sent)[s.env.id];
    var i :| 0 <= i < |sent| && sent[i] == s;
    var j :| 0 <= j < |sent| && sent[j] == u;
    assert SentIds(sent)[i] == SentIds(sent)[j];
  }

  lemma GroupOfKeys(sent: seq<Sent>, id: string)
    ensures id in GroupOf(sent) <==> id in SentIds(sent)
  {
    IndexHolds(sent, SentId, SentGroup, id);
    if s :| s in sent && SentId(s) == id {
      SentIdIn(sent, s);
    }
    if id in SentIds(sent) {
      var i :| 0 <= i < |sent| && SentIds(sent)[i] == id;
      assert sent[i] in sent && SentId(sent[i]) == id;
    }
  }

  lemma {:induction false} SentInGroupMembers(sent: seq<Sent>, grp: string, id: string)
    ensures id in SentInGroup(sent, grp) <==> exists s :: s in sent && s.group == grp && s.env.id == id
  {
    if sent != [] {
      SentInGroupMembers(sent[1..], grp, id);
      assert forall s :: s in sent <==> s == sent[0] || s in sent[1..];
      if sent[0].group == grp && sent[0].env.id == id {
        assert sent[0] in sent;
      }
    }
  }

  /** The group of an id that was sent. */
  function GroupName(sent: seq<Sent>, id: string): string {
    if id in GroupOf(sent) then GroupOf(sent)[id] else ""
  }

  lemma PartsStayInGroup(sent: seq<Sent>, grp: string, id: string)
    requires Distinct(SentIds(sent)) && id in SentInGroup(sent, grp)
    ensures GroupName(sent, id) == grp
  {
    SentInGroupMembers(sent, grp, id);
    var s :| s in sent && s.group == grp && s.env.id == id;
    GroupOfIs(sent, s);
  }

  lemma {:induction false} LookupIsName(sent: seq<Sent>, order: seq<string>, f: string -> string, grp: string)
    requires forall i :: f(i) == GroupName(sent, i)
    requires forall i | i in order :: i in GroupOf(sent)
    ensures GotInGroup(order, GroupOf(sent), grp) == InGroup(order, f, grp)
    decreases |order|
  {
    if order != [] {
      LookupIsName(sent, order[1..], f, grp);
    }
  }

  /** The ids received are ids of known groups. */
  lemma OrderKnown(sent: seq<Sent>, order: seq<string>)
    requires multiset(order) == multiset(SentIds(sent))
    ensures forall i | i in order :: i in GroupOf(sent) && GroupName(sent, i) in Parts(sent)
  {
    forall i | i in order
      ensures i in GroupOf(sent) && GroupName(sent, i) in Parts(sent)
    {
      assert i in multiset(order);
      assert i in multiset(SentIds(sent));
      GroupOfKeys(sent, i);
      assert GroupOf(sent)[i] in GroupOf(sent).Values;
    }
  }

  lemma OrderedInterleaves(sent: seq<Sent>, order: seq<string>, f: string -> string)
    requires multiset(order) == multiset(SentIds(sent)) && forall i :: f(i) == GroupName(sent, i)
    requires forall grp | grp in GroupOf(sent).Values :: GotInGroup(order, GroupOf(sent), grp) == SentInGroup(sent, grp)
    ensures Interleaves(order, Parts(sent))
  {
    OrderKnown(sent, order);
    forall grp | grp in Parts(sent)
      ensures Parts(sent)[grp] == InGroup(order, f, grp)
    {
      LookupIsName(sent, order, f, grp);
    }
    SplitInterleaves(order, Parts(sent), f);
  }

  lemma InterleavingOrdered(sent: seq<Sent>, order: seq<string>, f: string -> string)
    requires Distinct(SentIds(sent)) && multiset(order) == multiset(SentIds(sent))
    requires forall i :: f(i) == GroupName(sent, i)
    requires Interleaves(order, Parts(sent))
    ensures forall grp | grp in GroupOf(sent).Values :: GotInGroup(order, GroupOf(sent), grp) == SentInGroup(sent, grp)
  {
    OrderKnown(sent, order);
    forall grp, x | grp in Parts(sent) && x in Parts(sent)[grp]
      ensures f(x) == grp
    {
      PartsStayInGroup(sent, grp, x);
    }
    InterleavingSplits(order, Parts(sent), f);
    forall grp | grp in GroupOf(sent).Values
      ensures GotInGroup(order, GroupOf(sent), grp) == SentInGroup(sent, grp)
    {
      assert grp in Parts(sent);
      LookupIsName(sent, order, f, grp);
    }
  }

  /**
   For distinct sent ids and the same ids received, the per-group order check passes exactly on
   the interleavings of the per-group sent sequences.
   */
  lemma OrderIsInterleaving(sent: seq<Sent>, got: seq<Received>)
    requires Distinct(SentIds(sent)) && multiset(GotIds(got)) == multiset(SentIds(sent))
    ensures InOrder(sent, got) <==> Interleaves(GotIds(got), Parts(sent))
  {
    var f := (id: string) => GroupName(sent, id);
    if InOrder(sent, got) {
      OrderedInterleaves(sent, GotIds(got), f);
    }
    if Interleaves(GotIds(got), Parts(sent)) {
      InterleavingOrdered(sent, GotIds(got), f);
    }
  }

  /** For distinct sent ids the verdict is exactly "handled once each, in order". */
  lemma AcceptedIsDelivered(sent: seq<Sent>, got: seq<Received>, producer: Lang, flags: Flags)
    requires Distinct(SentIds(sent))
    ensures Accepted(sent, got, producer, flags) <==> Delivered(sent, got, producer, flags)
  {
    CountsForcePermutation(sent, got);
    if multiset(GotIds(got)) == multiset(SentIds(sent)) {
      OrderIsInterleaving(sent, got);
      forall s, g | s in sent && g in got && g.env.id == s.env.id
        ensures s.env.id in ById(got) && ById(got)[s.env.id] == g
      {
        ByIdUnique(got, g);
      }
      forall s | s in sent && s.env.id in ById(got)
        ensures ById(got)[s.env.id] in got && ById(got)[s.env.id].env.id == s.env.id
      {
        ByIdIs(got, s.env.id);
      }
    }
  }

  // ---- what the counts do not see when ids repeat ----

  function Longest(ids: seq<string>): (n: nat)
    ensures forall i | 0 <= i < |ids| :: |ids[i]| <= n
  {
    if ids == [] then 0
    else
      var n := Longest(ids[..|ids| - 1]);
      if |ids[|ids| - 1]| > n then |ids[|ids| - 1]| else n
  }

  lemma FreshId(ids: seq<string>) returns (x: string)
    ensures x !in ids
  {
    x := seq(Longest(ids) + 1, _ => 'x');
  }

  /** One received record per sent event, but a foreign one in the place of the repeated event j. */
  function WithForeign(sent: seq<Sent>, got: seq<Received>, j: nat, foreign: Received): seq<Received>
    requires forall s | s in sent :: s.env.id in ById(got)
  {
    seq(|sent|, q requires 0 <= q < |sent| => if q == j then foreign else ById(got)[sent[q].env.id])
  }

  lemma ForeignUnseen(sent: seq<Sent>, got: seq<Received>, i: nat, j: nat, foreign: Received, s: Sent)
    requires forall s | s in sent :: s.env.id in ById(got)
    requires i < j < |sent| && sent[i].env.id == sent[j].env.id && foreign.env.id !in SentIds(sent) && s in sent
    ensures var fake := WithForeign(sent, got, j, foreign);
            s.env.id in ById(fake) && ById(fake)[s.env.id] == ById(got)[s.env.id]
  {
    var fake := WithForeign(sent, got, j, foreign);
    var p :| 0 <= p < |sent| && sent[p] == s;
    var at := if p == j then i else p;
    ByIdIs(got, s.env.id);
    assert fake[at] == ById(got)[s.env.id] && GotIds(fake)[at] == s.env.id;
    ByIdIs(fake, s.env.id);
    var q :| 0 <= q < |fake| && fake[q] == ById(fake)[s.env.id];
    SentIdIn(sent, s);
    assert q != j;
    ByIdIs(got, sent[q].env.id);
  }

  /**
   When the verdict means what it promises, on standard and FIFO topics: for a document that some
   report satisfies, every accepted report was handled once each, as sent and in order, iff the
   sent ids are distinct.
   */
  lemma HandledOnceIffDistinct(sent: seq<Sent>, some: seq<Received>, producer: Lang, flags: Flags)
    requires Accepted(sent, some, producer, flags)
    ensures (forall got | Accepted(sent, got, producer, flags) :: Delivered(sent, got, producer, flags))
            <==> Distinct(SentIds(sent))
  {
    if Distinct(SentIds(sent)) {
      forall got | Accepted(sent, got, producer, flags)
        ensures Delivered(sent, got, producer, flags)
      {
        AcceptedIsDelivered(sent, got, producer, flags);
      }
    } else {
      var fake := NotDelivered(sent, some, producer, flags);
    }
  }

  /** With repeated ids, some accepted report is wrong: the given one, or one with a hidden record changed. */
  lemma NotDelivered(sent: seq<Sent>, some: seq<Received>, producer: Lang, flags: Flags) returns (fake: seq<Received>)
    requires Accepted(sent, some, producer, flags) && !Distinct(SentIds(sent))
    ensures Accepted(sent, fake, producer, flags) && !Delivered(sent, fake, producer, flags)
  {
    if multiset(GotIds(some)) != multiset(SentIds(sent)) {
      fake := some;
    } else {
      var p, q := ReceivedTwice(sent, some);
      fake := HiddenPayload(sent, some, p, q, producer, flags);
    }
  }

  lemma ReceivedTwice(sent: seq<Sent>, got: seq<Received>) returns (p: nat, q: nat)
    requires multiset(GotIds(got)) == multiset(SentIds(sent)) && !Distinct(SentIds(sent))
    ensures p < q < |got| && got[p].env.id == got[q].env.id && got[p].env.id in SentIds(sent)
  {
    if Distinct(GotIds(got)) {
      Pigeonhole(GotIds(got), SentIds(sent));
      assert false;
    }
    p, q :| p < q < |got| && GotIds(got)[p] == GotIds(got)[q];
    assert GotIds(got)[p] in multiset(GotIds(got));
    assert GotIds(got)[p] in multiset(SentIds(sent));
  }

  /** A record that a later one of its id overwrites may carry any payload. */
  lemma HiddenPayload(sent: seq<Sent>, got: seq<Received>, p: nat, q: nat, producer: Lang, flags: Flags)
      returns (fake: seq<Received>)
    requires Accepted(sent, got, producer, flags)
    requires p < q < |got| && got[p].env.id == got[q].env.id && got[p].env.id in SentIds(sent)
    ensures |fake| == |got| && GotIds(fake) == GotIds(got)
    ensures Accepted(sent, fake, producer, flags) && !Delivered(sent, fake, producer, flags)
  {
    var i :| 0 <= i < |sent| && SentIds(sent)[i] == got[p].env.id;
    var foreign := got[p].(payload := sent[i].data + "x");
    fake := got[p := foreign];
    IndexOverwritten(got, ReceivedId, Self, p, q, foreign);
    assert GotIds(fake) == GotIds(got);
    assert ById(fake) == ById(got);
    assert fake[p] == foreign && foreign in fake && sent[i] in sent;
    assert foreign.payload != sent[i].data by {
      assert |foreign.payload| == |sent[i].data| + 1;
    }
    assert !Handled(sent[i], foreign, producer, flags);
  }

  /**
   The smallest case on a FIFO topic: one event sent twice in one group.  The ids are counted
   right, yet a record with a foreign payload under the sent id is accepted.
   */
  lemma RepeatedEventHides(s: Sent, g: Received, producer: Lang, flags: Flags)
    requires flags.fifo && g.env.id == s.env.id && Handled(s, g, producer, flags)
    ensures var got := [g.(payload := s.data + "x"), g];
            && Countable([s, s], flags) && Accepted([s, s], got, producer, flags)
            && multiset(GotIds(got)) == multiset(SentIds([s, s])) && !Delivered([s, s], got, producer, flags)
  {
    var foreign := g.(payload := s.data + "x");
    var sent, got := [s, s], [foreign, g];
    IndexOfTwo(foreign, g, ReceivedId, Self);
    IndexOfTwo(s, s, SentId, SentGroup);
    assert GotIds(got) == [s.env.id, s.env.id] == SentIds(sent);
    TwiceInOrder(s, got);
    assert s.env.id in GroupOf(sent) && GroupOf(sent)[s.env.id] == s.group;
    assert s.group in GroupOf(sent).Values;
    assert |foreign.payload| == |s.data| + 1;
    assert got[0] == foreign && sent[0] == s;
    assert !Handled(s, foreign, producer, flags);
  }

  lemma TwiceInOrder(s: Sent, got: seq<Received>)
    requires GroupOf([s, s]) == map[s.env.id := s.group] && GotIds(got) == [s.env.id, s.env.id]
    ensures InOrder([s, s], got)
  {
    assert [s, s][1..] == [s] && [s][1..] == [];
    assert SentInGroup([s], s.group) == [s.env.id];
    assert SentInGroup([s, s], s.group) == [s.env.id, s.env.id];
    assert [s.env.id, s.env.id][1..] == [s.env.id] && [s.env.id][1..] == [];
    assert GotInGroup([s.env.id], GroupOf([s, s]), s.group) == [s.env.id];
    assert GotInGroup([s.env.id, s.env.id], GroupOf([s, s]), s.group) == [s.env.id, s.env.id];
  }

  // ---- what the verdict says of the ids alone ----

  /**
   What a document must be for the accepted ids to be the sent ids: on a standard topic the sent ids
   are distinct; on a FIFO topic every group is still named by some id of the group index.
   */
  ghost predicate Countable(sent: seq<Sent>, flags: Flags) {
    if flags.fifo then forall s | s in sent :: s.group in GroupOf(sent).Values else Distinct(SentIds(sent))
  }

  /** For a document that some report satisfies: all accepted reports carry exactly the sent ids iff it is countable. */
  lemma ExactlyOnceIffCountable(sent: seq<Sent>, some: seq<Received>, producer: Lang, flags: Flags)
    requires Accepted(sent, some, producer, flags)
    ensures (forall got | Accepted(sent, got, producer, flags) :: multiset(GotIds(got)) == multiset(SentIds(sent)))
            <==> Countable(sent, flags)
  {
    if flags.fifo {
      forall got | Accepted(sent, got, producer, flags)
        ensures multiset(GotIds(got)) == multiset(SentIds(sent)) <==> Countable(sent, flags)
      {
        FifoExactIff(sent, got);
      }
    } else {
      ExactlyOnceIffDistinct(sent, some, producer, flags);
    }
  }

  // ---- FIFO topics, where ids may repeat ----

  /** How often id was sent in group grp, and how often at all. */
  function SentCount(sent: seq<Sent>, grp: string, id: string): nat {
    multiset(SentInGroup(sent, grp))[id]
  }

  /** What the first event adds to the two counts of id. */
  lemma CountHead(sent: seq<Sent>, grp: string, id: string)
    requires sent != []
    ensures SentCount(sent, grp, id)
            == SentCount(sent[1..], grp, id) + if sent[0].env.id == id && sent[0].group == grp then 1 else 0
    ensures multiset(SentIds(sent))[id] == multiset(SentIds(sent[1..]))[id] + if sent[0].env.id == id then 1 else 0
  {
    assert SentIds(sent) == [sent[0].env.id] + SentIds(sent[1..]);
  }

  lemma {:induction false} CountInGroup(sent: seq<Sent>, grp: string, id: string)
    ensures SentCount(sent, grp, id) <= multiset(SentIds(sent))[id]
    ensures SentCount(sent, grp, id) == multiset(SentIds(sent))[id]
            <==> forall s | s in sent && s.env.id == id :: s.group == grp
  {
    if sent != [] {
      CountInGroup(sent[1..], grp, id);
      CountHead(sent, grp, id);
      assert forall s :: s in sent <==> s == sent[0] || s in sent[1..];
    }
  }

  /** Received ids known to the group index are counted in their own group only. */
  lemma {:induction false} GotCount(order: seq<string>, groupOf: map<string, string>, grp: string, id: string)
    ensures multiset(GotInGroup(order, groupOf, grp))[id]
            == if Lookup(groupOf, id) == Some(grp) then multiset(order)[id] else 0
    decreases |order|
  {
    if order != [] {
      GotCount(order[1..], groupOf, grp, id);
      assert order == [order[0]] + order[1..];
    }
  }

  /** In an accepted order an id that was sent arrives as often as it was sent in the group it is indexed under. */
  lemma IndexedCount(sent: seq<Sent>, got: seq<Received>, id: string)
    requires InOrder(sent, got) && id in GroupOf(sent)
    ensures multiset(GotIds(got))[id] == SentCount(sent, GroupOf(sent)[id], id)
  {
    var grp := GroupOf(sent)[id];
    assert grp in GroupOf(sent).Values;
    GotCount(GotIds(got), GroupOf(sent), grp, id);
  }

  /** In an accepted order, an event whose group is still named is indexed under that group. */
  lemma NamedIsIndexed(sent: seq<Sent>, got: seq<Received>, s: Sent)
    requires InOrder(sent, got) && s in sent && s.group in GroupOf(sent).Values
    ensures s.env.id in GroupOf(sent) && GroupOf(sent)[s.env.id] == s.group
  {
    SentInGroupMembers(sent, s.group, s.env.id);
    assert s.env.id in multiset(SentInGroup(sent, s.group));
    GotCount(GotIds(got), GroupOf(sent), s.group, s.env.id);
  }

  /** An accepted FIFO report carries exactly the sent ids iff every group is still named. */
  lemma FifoExactIff(sent: seq<Sent>, got: seq<Received>)
    requires |got| == |sent| && InOrder(sent, got)
    ensures multiset(GotIds(got)) == multiset(SentIds(sent))
            <==> forall s | s in sent :: s.group in GroupOf(sent).Values
  {
    if forall s | s in sent :: s.group in GroupOf(sent).Values {
      forall id | id in multiset(SentIds(sent))
        ensures multiset(GotIds(got))[id] == multiset(SentIds(sent))[id]
      {
        SentArrives(sent, got, id);
      }
      SameSizeSame(multiset(SentIds(sent)), multiset(GotIds(got)));
    }
    if multiset(GotIds(got)) == multiset(SentIds(sent)) {
      forall s | s in sent
        ensures s.group in GroupOf(sent).Values
      {
        SentIdIn(sent, s);
        GroupOfKeys(sent, s.env.id);
        IndexedCount(sent, got, s.env.id);
        CountInGroup(sent, GroupOf(sent)[s.env.id], s.env.id);
        assert s.group == GroupOf(sent)[s.env.id];
      }
    }
  }

  lemma SentArrives(sent: seq<Sent>, got: seq<Received>, id: string)
    requires InOrder(sent, got) && id in SentIds(sent)
    requires forall s | s in sent :: s.group in GroupOf(sent).Values
    ensures multiset(GotIds(got))[id] == multiset(SentIds(sent))[id]
  {
    GroupOfKeys(sent, id);
    IndexedCount(sent, got, id);
    CountInGroup(sent, GroupOf(sent)[id], id);
    forall s | s in sent && s.env.id == id
      ensures s.group == GroupOf(sent)[id]
    {
      NamedIsIndexed(sent, got, s);
    }
  }

  /** A multiset that has all of another one's elements, as often, and no more in all, is that one. */
  lemma SameSizeSame<T>(a: multiset<T>, b: multiset<T>)
    requires |a| == |b| && forall x | x in a :: b[x] == a[x]
    ensures a == b
  {
    assert a <= b;
    assert b == a + (b - a);
    assert |b| == |a| + |b - a|;
  }

  /**
   The FIFO document that is not countable: one event sent under one id in two groups, of which the
   index keeps the second.  A foreign record in the place of one of them is accepted.
   */
  lemma OverwrittenGroupHides(s: Sent, g: Received, other: string, producer: Lang, flags: Flags)
      returns (sent: seq<Sent>, fake: seq<Received>)
    requires flags.fifo && g.env.id == s.env.id && Handled(s, g, producer, flags) && other != s.group
    ensures sent == [s, s.(group := other)] && Accepted(sent, fake, producer, flags)
    ensures multiset(GotIds(fake)) != multiset(SentIds(sent))
  {
    var again := s.(group := other);
    sent := [s, again];
    var x := FreshId(SentIds(sent));
    var foreign := g.(env := g.env.(id := x));
    fake := [g, foreign];
    assert SentIds(sent) == [s.env.id, s.env.id] && GotIds(fake) == [s.env.id, x];
    assert x != s.env.id by {
      assert SentIds(sent)[0] == s.env.id;
    }
    assert x in multiset(GotIds(fake)) && x !in multiset(SentIds(sent));
    OverwrittenIndexes(s, again, g, foreign);
    assert Handled(again, g, producer, flags);
  }

  lemma OverwrittenIndexes(s: Sent, again: Sent, g: Received, foreign: Received)
    requires again == s.(group := again.group) && again.group != s.group
    requires g.env.id == s.env.id && foreign.env.id != s.env.id
    ensures ById([g, foreign]) == map[s.env.id := g, foreign.env.id := foreign]
    ensures InOrder([s, again], [g, foreign])
  {
    IndexOfTwo(g, foreign, ReceivedId, Self);
    IndexOfTwo(s, again, SentId, SentGroup);
    assert GroupOf([s, again]) == map[s.env.id := again.group];
    assert GotIds([g, foreign]) == [s.env.id, foreign.env.id];
    assert [s, again][1..] == [again] && [again][1..] == [];
    assert [s.env.id, foreign.env.id][1..] == [foreign.env.id] && [foreign.env.id][1..] == [];
    assert SentInGroup([again], again.group) == [s.env.id];
    assert SentInGroup([s, again], again.group) == SentInGroup([again], again.group);
    assert GotInGroup([foreign.env.id], GroupOf([s, again]), again.group) == [];
    assert GotInGroup([s.env.id, foreign.env.id], GroupOf([s, again]), again.group) == [s.env.id];
  }

  // ---- standard topics ----

  /** Without the order check: all accepted reports carry exactly the sent ids iff the sent ids are distinct. */
  lemma ExactlyOnceIffDistinct(sent: seq<Sent>, some: seq<Received>, producer: Lang, flags: Flags)
    requires !flags.fifo && Accepted(sent, some, producer, flags)
    ensures (forall got | Accepted(sent, got, producer, flags) :: multiset(GotIds(got)) == multiset(SentIds(sent)))
            <==> Distinct(SentIds(sent))
  {
    if Distinct(SentIds(sent)) {
      forall got | Accepted(sent, got, producer, flags)
        ensures multiset(GotIds(got)) == multiset(SentIds(sent))
      {
        CountsForcePermutation(sent, got);
      }
    } else {
      var fake := RepeatedIdsHide(sent, some, producer, flags);
    }
  }

  lemma RepeatedIdsHide(sent: seq<Sent>, some: seq<Received>, producer: Lang, flags: Flags)
      returns (fake: seq<Received>)
    requires !flags.fifo && Accepted(sent, some, producer, flags) && !Distinct(SentIds(sent))
    ensures Accepted(sent, fake, producer, flags) && multiset(GotIds(fake)) != multiset(SentIds(sent))
  {
    var i: nat, j: nat :| i < j < |sent| && SentIds(sent)[i] == SentIds(sent)[j];
    var x := FreshId(SentIds(sent));
    var foreign := some[0].(env := some[0].env.(id := x));
    fake := WithForeign(sent, some, j, foreign);
    forall s | s in sent
      ensures s.env.id in ById(fake) && ById(fake)[s.env.id] == ById(some)[s.env.id]
    {
      ForeignUnseen(sent, some, i, j, foreign, s);
    }
    assert GotIds(fake)[j] == x;
    assert x in multiset(GotIds(fake)) && x !in multiset(SentIds(sent));
  }
}
