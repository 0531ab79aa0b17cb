/** Values shared by the other modules. */
module Prelude {

  datatype Option<+T> = None | Some(value: T)

  /** The versions 1..v: the schema after exactly the first v migrations. */
  function Prefix(v: nat): (p: set<nat>)
    ensures forall k :: k in p <==> 1 <= k <= v
  {
    if v == 0 then {} else Prefix(v - 1) + {v}
  }

  lemma PrefixShrinks(v: nat)
    requires v >= 1
    ensures Prefix(v) - {v} == Prefix(v - 1)
  {
  }

  lemma PrefixInjective(v: nat, w: nat)
    ensures Prefix(v) == Prefix(w) <==> v == w
  {
    assert v in Prefix(v) <==> 1 <= v;
    assert w in Prefix(w) <==> 1 <= w;
    assert v in Prefix(w) <==> 1 <= v <= w;
    assert w in Prefix(v) <==> 1 <= w <= v;
  }
}
