/**
 The advisory-lock key of a tracking table: golang-migrate's hash of (schema, table, database), as
 compare.py recomputes it, and the key read back from the two 32-bit halves that pg_locks shows.
 */
module LockKey {
  import opened Crc

  const TWO_32: int := 0x1_0000_0000
  const SALT: int := 1486364155

  /** The inverse of the salt modulo 2^32. */
  const INVERSE: int := 2973394227
  const QUOTIENT: int := 1029005879

  /** The (encoded) names a key derives from. */
  datatype Inputs = Inputs(database: Bytes, schema: Bytes, table: Bytes)

  function Preimage(t: Inputs): Bytes {
    t.schema + [0] + t.table + [0] + t.database
  }

  function Scramble(crc: int): int {
    (crc * SALT) % TWO_32
  }

  function Key(t: Inputs): (k: int)
    ensures 0 <= k < TWO_32
  {
    Scramble(Crc32(Preimage(t)) as int)
  }

  lemma NoMultiple(d: int, z: int)
    requires d == TWO_32 * z && -TWO_32 < d < TWO_32
    ensures d == 0
  {
  }

  lemma Regroup(d: int, q: int)
    requires d * SALT == q * TWO_32
    ensures d == TWO_32 * (q * INVERSE - d * QUOTIENT)
  {
    assert SALT * INVERSE == 1 + QUOTIENT * TWO_32;
    assert d * (SALT * INVERSE) == (d * SALT) * INVERSE;
  }

  /** The salt is odd, so multiplying by it modulo 2^32 loses nothing. */
  lemma ScrambleInjective(a: int, b: int)
    requires 0 <= a < TWO_32 && 0 <= b < TWO_32
    ensures Scramble(a) == Scramble(b) <==> a == b
  {
    if Scramble(a) == Scramble(b) {
      var qa, qb := (a * SALT) / TWO_32, (b * SALT) / TWO_32;
      assert (a - b) * SALT == (qa - qb) * TWO_32;
      Regroup(a - b, qa - qb);
      NoMultiple(a - b, (qa - qb) * INVERSE - (a - b) * QUOTIENT);
    }
  }

  lemma WordRange(c: bv32)
    ensures 0 <= c as int < TWO_32
  {
  }

  lemma WordEqual(c: bv32, d: bv32)
    ensures c as int == d as int <==> c == d
  {
    assert (c as int) as bv32 == c && (d as int) as bv32 == d;
  }

  /** Two keys agree exactly when the two CRCs do. */
  lemma KeyIsCrc(t: Inputs, u: Inputs)
    ensures Key(t) == Key(u) <==> Crc32(Preimage(t)) == Crc32(Preimage(u))
  {
    var c, d := Crc32(Preimage(t)), Crc32(Preimage(u));
    WordRange(c);
    WordRange(d);
    WordEqual(c, d);
    ScrambleInjective(c as int, d as int);
  }

  lemma Remainder(k: int, c: int, z: int)
    requires k == c + TWO_32 * z && 0 <= c < TWO_32
    ensures k % TWO_32 == c
  {
  }

  lemma Unsalt(c: int, k: int)
    requires 0 <= c < TWO_32 && k == Scramble(c)
    ensures (k * INVERSE) % TWO_32 == c
  {
    var q := (c * SALT) / TWO_32;
    assert k == c * SALT - q * TWO_32;
    Distribute(c, q, k);
    Remainder(k * INVERSE, c, c * QUOTIENT - q * INVERSE);
  }

  lemma Distribute(c: int, q: int, k: int)
    requires k == c * SALT - q * TWO_32
    ensures k * INVERSE == c + TWO_32 * (c * QUOTIENT - q * INVERSE)
  {
  }

  /** Taking the salt out of a key, by its inverse modulo 2^32, leaves the CRC of the joined names. */
  lemma KeyUnsalted(t: Inputs)
    ensures (Key(t) * 2973394227) % 0x1_0000_0000 == Crc32(Preimage(t)) as int
  {
    WordRange(Crc32(Preimage(t)));
    Unsalt(Crc32(Preimage(t)) as int, Key(t));
  }

  /** The inverse of the salt loses nothing either. */
  lemma Unsalting(a: int, b: int)
    requires 0 <= a < TWO_32 && 0 <= b < TWO_32 && (a * INVERSE) % TWO_32 == (b * INVERSE) % TWO_32
    ensures a == b
  {
    var d, q := a - b, (a * INVERSE) / TWO_32 - (b * INVERSE) / TWO_32;
    assert d * INVERSE == q * TWO_32;
    assert SALT * INVERSE == 1 + QUOTIENT * TWO_32;
    assert d * (SALT * INVERSE) == (d * INVERSE) * SALT;
    NoMultiple(d, q * SALT - d * QUOTIENT);
  }

  // ---- the joined names ----

  predicate NulFree(b: Bytes) {
    0 !in b
  }

  predicate Plain(t: Inputs) {
    NulFree(t.schema) && NulFree(t.table)
  }

  /** A NUL-free head ends at the first NUL. */
  lemma HeadInjective(a: Bytes, x: Bytes, b: Bytes, y: Bytes)
    requires NulFree(a) && NulFree(b) && a + [0] + x == b + [0] + y
    ensures a == b && x == y
  {
    var p, q := a + [0] + x, b + [0] + y;
    assert p[|a|] == 0 && q[|b|] == 0;
    assert a == p[..|a|] && b == q[..|b|];
    assert x == p[|a| + 1..] && y == q[|b| + 1..];
  }

  /** With NUL-free schema and table, the preimage determines the three names. */
  lemma PreimageInjective(t: Inputs, u: Inputs)
    requires Plain(t) && Plain(u)
    ensures Preimage(t) == Preimage(u) <==> t == u
  {
    if Preimage(t) == Preimage(u) {
      assert Preimage(t) == t.schema + [0] + (t.table + [0] + t.database);
      assert Preimage(u) == u.schema + [0] + (u.table + [0] + u.database);
      HeadInjective(t.schema, t.table + [0] + t.database, u.schema, u.table + [0] + u.database);
      HeadInjective(t.table, t.database, u.table, u.database);
    }
  }

  // ---- when the joined names are unambiguous ----

  predicate AllNulFree(t: Inputs) {
    NulFree(t.schema) && NulFree(t.table) && NulFree(t.database)
  }

  ghost predicate Unambiguous(t: Inputs) {
    forall u :: Preimage(u) == Preimage(t) ==> u == t
  }

  function Nuls(b: Bytes): nat {
    if b == [] then 0 else (if b[0] == 0 then 1 else 0) + Nuls(b[1..])
  }

  lemma {:induction false} NulsNone(b: Bytes)
    ensures Nuls(b) == 0 <==> NulFree(b)
  {
    if b != [] {
      NulsNone(b[1..]);
      assert forall x :: x in b <==> x == b[0] || x in b[1..];
    }
  }

  lemma {:induction false} NulsAppend(a: Bytes, b: Bytes)
    ensures Nuls(a + b) == Nuls(a) + Nuls(b)
  {
    if a == [] {
      assert a + b == b;
    } else {
      assert (a + b)[1..] == a[1..] + b;
      NulsAppend(a[1..], b);
    }
  }

  lemma NulsOfPreimage(t: Inputs)
    ensures Nuls(Preimage(t)) == Nuls(t.schema) + Nuls(t.table) + Nuls(t.database) + 2
  {
    var nul: Bytes := [0];
    assert Nuls(nul) == 1;
    NulsAppend(t.schema, nul);
    NulsAppend(t.schema + nul, t.table);
    NulsAppend(t.schema + nul + t.table, nul);
    NulsAppend(t.schema + nul + t.table + nul, t.database);
  }

  /** The triples that join to the same bytes as NUL-free names are NUL-free, so they are those names. */
  lemma NulFreeUnambiguous(t: Inputs, u: Inputs)
    requires AllNulFree(t) && Preimage(u) == Preimage(t)
    ensures u == t
  {
    NulsOfPreimage(t);
    NulsOfPreimage(u);
    NulsNone(t.schema);
    NulsNone(t.table);
    NulsNone(t.database);
    NulsNone(u.schema);
    NulsNone(u.table);
    NulsNone(u.database);
    PreimageInjective(t, u);
  }

  lemma SplitAtNul(b: Bytes) returns (head: Bytes, tail: Bytes)
    requires !NulFree(b)
    ensures b == head + [0] + tail && |head| < |b|
  {
    var i :| 0 <= i < |b| && b[i] == 0;
    head, tail := b[..i], b[i + 1..];
  }

  /** A NUL inside a name can be read as a separator, and a separator as part of a name. */
  lemma OtherReading(t: Inputs) returns (u: Inputs)
    requires !AllNulFree(t)
    ensures u != t && Preimage(u) == Preimage(t)
  {
    if !NulFree(t.schema) {
      var head, tail := SplitAtNul(t.schema);
      u := Inputs(t.table + [0] + t.database, head, tail);
      assert Preimage(u) == head + [0] + tail + [0] + t.table + [0] + t.database;
    } else if !NulFree(t.table) {
      var head, tail := SplitAtNul(t.table);
      u := Inputs(tail + [0] + t.database, t.schema, head);
      assert Preimage(u) == t.schema + [0] + (head + [0] + tail) + [0] + t.database;
    } else {
      var head, tail := SplitAtNul(t.database);
      u := Inputs(tail, t.schema + [0] + t.table, head);
      assert Preimage(u) == t.schema + [0] + t.table + [0] + (head + [0] + tail);
      assert |u.schema| > |t.schema|;
    }
  }

  /** The joined bytes stand for one triple of names exactly when none of the three has a NUL. */
  lemma UnambiguousIff(t: Inputs)
    ensures Unambiguous(t) <==> AllNulFree(t)
  {
    if AllNulFree(t) {
      forall u | Preimage(u) == Preimage(t)
        ensures u == t
      {
        NulFreeUnambiguous(t, u);
      }
    } else {
      var u := OtherReading(t);
    }
  }

  /** The smallest instance: two triples, one key. */
  lemma NulMakesAmbiguous()
    ensures var t, u := Inputs([3], [1, 0], [2]), Inputs([3], [1], [0, 2]);
            t != u && Preimage(t) == Preimage(u) && Key(t) == Key(u)
  {
    var t, u := Inputs([3], [1, 0], [2]), Inputs([3], [1], [0, 2]);
    assert Preimage(t) == [1, 0, 0, 2, 0, 3] == Preimage(u);
  }

  /** Different tables share a key only through a CRC collision of different preimages. */
  lemma SharedKeyIsCollision(t: Inputs, u: Inputs)
    requires Plain(t) && Plain(u) && t != u
    ensures Preimage(t) != Preimage(u)
    ensures Key(t) == Key(u) <==> Crc32(Preimage(t)) == Crc32(Preimage(u))
  {
    PreimageInjective(t, u);
    KeyIsCrc(t, u);
  }

  /** p and q differ at most at the four positions from i on. */
  predicate NearlyEqual(p: Bytes, q: Bytes, i: nat) {
    |p| == |q| && forall j | 0 <= j < |p| :: p[j] == q[j] || i <= j < i + 4
  }

  lemma NearCrc(p: Bytes, q: Bytes, i: nat)
    requires NearlyEqual(p, q, i)
    ensures Crc32(p) == Crc32(q) <==> p == q
  {
    var lo := if i <= |p| then i else |p|;
    var hi := if i + 4 <= |p| then i + 4 else |p|;
    var a, b := p[lo..hi], q[lo..hi];
    assert p[..lo] == q[..lo] && p[hi..] == q[hi..];
    assert p == p[..lo] + a + p[hi..] && q == p[..lo] + b + p[hi..];
    ShortChangeDetected(p[..lo], a, b, p[hi..], 0);
  }

  /** Names whose preimages differ only inside four consecutive bytes never get the same key. */
  lemma NearNamesDiffer(t: Inputs, u: Inputs, i: nat)
    requires NearlyEqual(Preimage(t), Preimage(u), i)
    ensures Key(t) == Key(u) <==> Preimage(t) == Preimage(u)
  {
    NearCrc(Preimage(t), Preimage(u), i);
    KeyIsCrc(t, u);
  }

  // ---- pg_locks ----

  datatype Held = Bigint(key: int) | Int4Pair(classid: int, objid: int)

  /** A pg_locks advisory row: both halves are unsigned 32-bit, objsubid tells the two forms apart. */
  datatype LockRow = LockRow(classid: int, objid: int, objsubid: int)

  predicate IsRow(r: LockRow) {
    0 <= r.classid < TWO_32 && 0 <= r.objid < TWO_32 && 1 <= r.objsubid <= 2
  }

  function HeldKey(r: LockRow): Held {
    if r.objsubid == 1 then
      var key := r.classid * TWO_32 + r.objid;
      Bigint(if key >= 0x8000_0000_0000_0000 then key - TWO_32 * TWO_32 else key)
    else Int4Pair(r.classid, r.objid)
  }

  /** How Postgres shows a lock taken on a signed 64-bit key. */
  function Shown(key: int): LockRow
    requires -0x8000_0000_0000_0000 <= key < 0x8000_0000_0000_0000
  {
    var word := if key < 0 then key + TWO_32 * TWO_32 else key;
    LockRow(word / TWO_32, word % TWO_32, 1)
  }

  lemma ShiftIsTimes(classid: bv64, objid: bv64)
    requires classid < 0x1_0000_0000 && objid < 0x1_0000_0000
    ensures (classid << 32) | objid == (classid << 32) + objid
  {
  }

  /** Every signed 64-bit key survives the split into two halves. */
  lemma KeySurvivesPgLocks(key: int)
    requires -0x8000_0000_0000_0000 <= key < 0x8000_0000_0000_0000
    ensures IsRow(Shown(key)) && HeldKey(Shown(key)) == Bigint(key)
  {
  }

  /** A lock taken on a pair of 32-bit keys is shown with objsubid 2, and read as that pair, first key first. */
  lemma PairShown(first: int, second: int)
    ensures HeldKey(LockRow(first, second, 2)) == Int4Pair(first, second)
    ensures HeldKey(LockRow(first, second, 2)).classid == first
  {
  }

  /** Two rows read as the same key exactly when they show the same lock. */
  lemma HeldKeyInjective(a: LockRow, b: LockRow)
    requires IsRow(a) && IsRow(b)
    ensures HeldKey(a) == HeldKey(b) <==> a == b
  {
    if HeldKey(a) == HeldKey(b) && a.objsubid == 1 {
      NoMultiple(a.objid - b.objid, b.classid - a.classid);
    }
  }

  /** A golang-migrate key is held with class 0 and comes back as the number it was. */
  lemma MigrateKeyShown(t: Inputs)
    ensures Shown(Key(t)) == LockRow(0, Key(t), 1)
    ensures HeldKey(Shown(Key(t))) == Bigint(Key(t))
  {
    KeySurvivesPgLocks(Key(t));
  }
}
