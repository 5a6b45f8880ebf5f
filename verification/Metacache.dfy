/** The string intern table of src/metacache.c: a fixed hash table of chains with reference counts. */
module Metacache {
  import opened PlayItems

  const HASH_SIZE := 4096

  /** The sdbm hash over signed chars, in 32-bit arithmetic. */
  function Sdbm(str: seq<byte>): (h: nat)
    ensures h < 0x1_0000_0000
  {
    if str == [] then 0
    else
      var h, b := Sdbm(str[..|str| - 1]), str[|str| - 1];
      ((if b < 128 then b else b - 256) + 64 * h + 65536 * h - h) % 0x1_0000_0000
  }

  // ----- what the hash is ------------------------------------------------------------------

  function Power(n: nat): int {
    if n == 0 then 1 else 65599 * Power(n - 1)
  }

  /** The signed chars as digits to the base 65599, the first with the highest weight. */
  function Weighted(str: seq<byte>): int {
    if str == [] then 0
    else (if str[0] < 128 then str[0] as int else str[0] as int - 256) * Power(|str| - 1) + Weighted(str[1..])
  }

  lemma {:induction false} WeightedLast(str: seq<byte>)
    requires str != []
    ensures var n := |str| - 1;
      Weighted(str) == 65599 * Weighted(str[..n]) + if str[n] < 128 then str[n] as int else str[n] as int - 256
    decreases |str|
  {
    var n := |str| - 1;
    if n == 0 {
      assert str[1..] == [] && str[..0] == [];
      assert Power(0) == 1 && Weighted(str[1..]) == 0 == Weighted(str[..0]);
    } else {
      var rest, front := str[1..], str[..n];
      WeightedLast(rest);
      assert rest[..n - 1] == front[1..] && rest[n - 1] == str[n] && front[0] == str[0];
      var d := if str[0] < 128 then str[0] as int else str[0] as int - 256;
      Scaled(d, Power(n - 1));
    }
  }

  lemma Scaled(d: int, p: int)
    ensures d * (65599 * p) == 65599 * (d * p)
  {
  }

  lemma ModOnce(h: int, w: int, b: int)
    requires h == w % 0x1_0000_0000
    ensures (b + 64 * h + 65536 * h - h) % 0x1_0000_0000 == (65599 * w + b) % 0x1_0000_0000
  {
    var m := 0x1_0000_0000;
    assert w == m * (w / m) + h;
    assert 65599 * w + b == m * (65599 * (w / m)) + (65599 * h + b);
  }

  /** The hash is that number, in 32 bits. */
  lemma {:induction false} SdbmIs(str: seq<byte>)
    ensures Sdbm(str) == Weighted(str) % 0x1_0000_0000
    decreases |str|
  {
    if str != [] {
      var n := |str| - 1;
      SdbmIs(str[..n]);
      WeightedLast(str);
      ModOnce(Sdbm(str[..n]), Weighted(str[..n]), if str[n] < 128 then str[n] as int else str[n] as int - 256);
    }
  }

  function Bucket(str: seq<byte>): (h: nat)
    ensures h < HASH_SIZE
  {
    Sdbm(str) % HASH_SIZE
  }

  /** Where the entries are: a string is in the table exactly when it is referenced, it sits in the
      bucket its hash selects, and it sits there once. */
  ghost predicate Sound(chains: seq<seq<CacheStr>>, refs: multiset<CacheStr>) {
    && |chains| == HASH_SIZE
    && (forall h, i :: 0 <= h < HASH_SIZE && 0 <= i < |chains[h]| ==>
          chains[h][i] in refs && Bucket(chains[h][i].str) == h)
    && (forall e :: e in refs ==> e in chains[Bucket(e.str)])
    && (forall h, i, j :: 0 <= h < HASH_SIZE && 0 <= i < j < |chains[h]| ==> chains[h][i].str != chains[h][j].str)
  }

  lemma MoreRefs(chains: seq<seq<CacheStr>>, refs: multiset<CacheStr>, e: CacheStr)
    requires Sound(chains, refs) && e in refs
    ensures Sound(chains, refs + multiset{e})
  {
    hide Bucket;
  }

  lemma FewerRefs(chains: seq<seq<CacheStr>>, refs: multiset<CacheStr>, e: CacheStr)
    requires Sound(chains, refs) && refs[e] > 1
    ensures Sound(chains, refs - multiset{e})
  {
    hide Bucket;
  }

  lemma NewEntry(chains: seq<seq<CacheStr>>, refs: multiset<CacheStr>, e: CacheStr)
    requires Sound(chains, refs) && forall x :: x in refs ==> x.str != e.str
    ensures var h := Bucket(e.str); Sound(chains[h := [e] + chains[h]], refs + multiset{e})
  {
    hide Bucket;
    var h := Bucket(e.str);
    var next := chains[h := [e] + chains[h]];
    forall k, i | 0 <= k < HASH_SIZE && 0 <= i < |next[k]|
      ensures next[k][i] in refs + multiset{e} && Bucket(next[k][i].str) == k
      ensures forall j :: i < j < |next[k]| ==> next[k][i].str != next[k][j].str
    {
      if k == h {
        assert next[k][i] == if i == 0 then e else chains[h][i - 1];
        assert forall j :: i < j < |next[k]| ==> next[k][j] == chains[h][j - 1] && chains[h][j - 1] in refs;
      } else {
        assert next[k] == chains[k];
      }
    }
    forall x | x in refs + multiset{e}
      ensures x in next[Bucket(x.str)]
    {
      if x != e { assert x in chains[Bucket(x.str)]; }
    }
  }

  lemma ChainWithout(chain: seq<CacheStr>, i: nat)
    requires i < |chain| && forall k, j :: 0 <= k < j < |chain| ==> chain[k].str != chain[j].str
    ensures var rest := chain[..i] + chain[i + 1..];
      && (forall x :: x in rest <==> x in chain && x != chain[i])
      && (forall k, j :: 0 <= k < j < |rest| ==> rest[k].str != rest[j].str)
  {
    var rest := chain[..i] + chain[i + 1..];
    forall j | 0 <= j < |rest|
      ensures rest[j] == chain[if j < i then j else j + 1] && rest[j] != chain[i]
    {
    }
    forall j | 0 <= j < |chain| && j != i
      ensures chain[j] in rest
    {
      assert chain[j] == rest[if j < i then j else j - 1];
    }
  }

  lemma LastRef(chains: seq<seq<CacheStr>>, refs: multiset<CacheStr>, h: nat, i: nat)
    requires Sound(chains, refs) && h < HASH_SIZE && i < |chains[h]| && refs[chains[h][i]] == 1
    ensures Sound(chains[h := chains[h][..i] + chains[h][i + 1..]], refs - multiset{chains[h][i]})
  {
    hide Bucket;
    var e, rest := chains[h][i], chains[h][..i] + chains[h][i + 1..];
    ChainWithout(chains[h], i);
    var next: seq<seq<CacheStr>> := chains[h := rest];
    var left := refs - multiset{e};
    assert forall x :: x in left <==> x in refs && x != e;
    assert Bucket(e.str) == h;
    forall k: nat, j: nat | k < HASH_SIZE && j < |next[k]|
      ensures next[k][j] in left && Bucket(next[k][j].str) == k
    {
      assert next[k][j] in chains[k];
    }
  }

  class Table {
    /** The chains; new entries go to the front. */
    const hash: array<seq<CacheStr>>
    /** Every reference the program holds, entry by entry. */
    ghost var refs: multiset<CacheStr>

    /** The table is sound, and every count is the number of references held. */
    ghost predicate Valid()
      reads this, hash, (set e | e in refs)`refcount
    {
      && hash.Length == HASH_SIZE && Sound(hash[..], refs)
      && (forall e :: e in refs ==> e.refcount == refs[e])
    }

    /** Two live handles are equal exactly when their bytes are. */
    lemma HandlesAreContents(a: CacheStr, b: CacheStr)
      requires Valid() && a in refs && b in refs
      ensures a == b <==> a.str == b.str
    {
      var chain := hash[..][Bucket(a.str)];
      if a.str == b.str {
        var i :| 0 <= i < |chain| && chain[i] == a;
        var j :| 0 <= j < |chain| && chain[j] == b;
      }
    }

    constructor ()
      ensures Valid() && refs == multiset{} && fresh(hash)
    {
      hash := new seq<CacheStr>[HASH_SIZE](_ => []);
      refs := multiset{};
    }

    method GetHash(str: seq<byte>) returns (h: nat)
      ensures h == Sdbm(str)
    {
      h := 0;
      for i := 0 to |str|
        invariant h == Sdbm(str[..i])
      {
        assert str[..i + 1][..i] == str[..i];
        h := ((if str[i] < 128 then str[i] else str[i] - 256) + 64 * h + 65536 * h - h) % 0x1_0000_0000;
      }
      assert str[..|str|] == str;
    }

    method FindInBucket(h: nat, value: seq<byte>) returns (e: CacheStr?)
      requires Valid() && h == Bucket(value)
      ensures e != null ==> e in refs && e.str == value
      ensures e == null ==> forall x :: x in refs ==> x.str != value
    {
      hide Bucket;
      var chain := hash[h];
      assert chain == hash[..][h];
      for i := 0 to |chain|
        invariant forall k :: 0 <= k < i ==> chain[k].str != value
      {
        if chain[i].str == value {
          return chain[i];
        }
      }
      return null;
    }

    method Retain(e: CacheStr)
      requires Valid() && e in refs
      modifies this`refs, e`refcount
      ensures Valid() && refs == old(refs) + multiset{e}
    {
      hide Sound;
      MoreRefs(hash[..], refs, e);
      e.refcount := e.refcount + 1;
      refs := refs + multiset{e};
    }

    method Insert(e: CacheStr, h: nat)
      requires Valid() && h == Bucket(e.str) && e.refcount == 1 && forall x :: x in refs ==> x.str != e.str
      modifies this`refs, hash
      ensures Valid() && refs == old(refs) + multiset{e}
    {
      hide Sound, Bucket;
      NewEntry(hash[..], refs, e);
      hash[h] := [e] + hash[h];
      refs := refs + multiset{e};
    }

    /** metacache_add_value: one more reference to the entry that holds `value`. */
    method AddValue(value: seq<byte>) returns (e: CacheStr)
      requires Valid()
      modifies this`refs, hash, (set x | x in refs)`refcount
      ensures Valid() && e.str == value && refs == old(refs) + multiset{e}
      ensures e in old(refs) || fresh(e)
    {
      var s := GetHash(value);
      var h := s % HASH_SIZE;
      hide Sound, Sdbm;
      var found := FindInBucket(h, value);
      if found != null {
        e := found;
        Retain(e);
      } else {
        e := new CacheStr(value);
        Insert(e, h);
      }
    }

    /** metacache_get_value: like AddValue, but never creates an entry. */
    method GetValue(value: seq<byte>) returns (e: CacheStr?)
      requires Valid()
      modifies this`refs, (set x | x in refs)`refcount
      ensures Valid()
      ensures e == null ==> refs == old(refs) && forall x :: x in refs ==> x.str != value
      ensures e != null ==> e.str == value && e in old(refs) && refs == old(refs) + multiset{e}
    {
      var s := GetHash(value);
      e := FindInBucket(s % HASH_SIZE, value);
      hide Sound;
      if e != null {
        Retain(e);
      }
    }

    method Release(e: CacheStr, h: nat, i: nat)
      requires Valid() && h < HASH_SIZE && i < |hash[h]| && hash[h][i] == e && e in refs
      modifies this`refs, hash, e`refcount
      ensures Valid() && refs == old(refs) - multiset{e}
    {
      hide Sound;
      ghost var chains := hash[..];
      assert chains[h] == hash[h];
      e.refcount := e.refcount - 1;
      if e.refcount == 0 {
        LastRef(chains, refs, h, i);
        hash[h] := hash[h][..i] + hash[h][i + 1..];
      } else {
        FewerRefs(chains, refs, e);
      }
      refs := refs - multiset{e};
    }

    /** metacache_remove_value: one reference less; the last one takes the entry out of its chain.
        `e` is the entry that holds `value`, if there is one. */
    method RemoveValue(value: seq<byte>) returns (ghost e: CacheStr?)
      requires Valid()
      modifies this`refs, hash, (set x | x in refs)`refcount
      ensures Valid()
      ensures e == null ==> refs == old(refs) && forall x :: x in refs ==> x.str != value
      ensures e != null ==> e.str == value && e in old(refs) && refs == old(refs) - multiset{e}
    {
      var s := GetHash(value);
      var h := s % HASH_SIZE;
      var chain := hash[h];
      assert h == Bucket(value) && chain == hash[..][h];
      assert forall k :: 0 <= k < |chain| ==> chain[k] in refs;
      assert forall x :: x in refs && x.str == value ==> x in chain;
      hide Sound, Sdbm, Bucket;
      var i := 0;
      while i < |chain|
        invariant 0 <= i <= |chain|
        invariant forall k :: 0 <= k < i ==> chain[k].str != value
      {
        if chain[i].str == value {
          e := chain[i];
          Release(chain[i], h, i);
          return;
        }
        i := i + 1;
      }
      e := null;
    }
  }
}
