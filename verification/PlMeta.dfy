/** The metadata list of a track (src/plmeta.c) over interned strings: every operation keeps the
    ordering discipline and balances the reference counts of the intern table. */
module PlMeta {
  import opened PlayItems
  import opened MetaSpec
  import opened Metacache

  function KeyOf(m: Meta): seq<byte> {
    if m.key.str == [] then [] else m.key.str[..|m.key.str| - 1]
  }

  function ValueOf(m: Meta): seq<byte> {
    if m.value == null then [] else m.value.str
  }

  /** The list as keys and values. */
  function View(l: seq<Meta>): (v: seq<Entry>)
    ensures |v| == |l|
  {
    seq(|l|, i requires 0 <= i < |l| => Entry(KeyOf(l[i]), ValueOf(l[i])))
  }

  ghost predicate NodeOk(m: Meta) {
    && m.value != null && m.value.str != [] && Terminated(m.value.str)
    && m.key.str == KeyOf(m) + [0] && 0 !in KeyOf(m)
  }

  ghost predicate WellFormed(l: seq<Meta>) {
    (forall i :: 0 <= i < |l| ==> NodeOk(l[i])) && Ordered(View(l))
  }

  // ----- references ------------------------------------------------------------------------

  ghost function NodeHandles(m: Meta): multiset<CacheStr> {
    if m.value == null then multiset{m.key} else multiset{m.key, m.value}
  }

  /** Every reference the list holds: one per key and one per value. */
  ghost function Handles(l: seq<Meta>): multiset<CacheStr> {
    if l == [] then multiset{} else NodeHandles(l[0]) + Handles(l[1..])
  }

  lemma {:induction false} HandlesConcat(a: seq<Meta>, b: seq<Meta>)
    ensures Handles(a + b) == Handles(a) + Handles(b)
  {
    if a == [] {
      assert a + b == b;
    } else {
      assert (a + b)[1..] == a[1..] + b;
      HandlesConcat(a[1..], b);
    }
  }

  lemma HandlesInsert(a: seq<Meta>, m: Meta, b: seq<Meta>)
    ensures Handles(a + [m] + b) == Handles(a + b) + NodeHandles(m)
  {
    HandlesConcat(a + [m], b);
    HandlesConcat(a, [m]);
    HandlesConcat(a, b);
    assert [m][1..] == [] && Handles([m]) == NodeHandles(m);
  }

  lemma Split(l: seq<Meta>, i: nat, m: Meta)
    requires i < |l|
    ensures l == l[..i] + [l[i]] + l[i + 1..] && l[i := m] == l[..i] + [m] + l[i + 1..]
  {
  }

  // ----- byte loops ------------------------------------------------------------------------

  method LowerCase(key: seq<byte>) returns (r: seq<byte>)
    ensures r == Fold(key)
  {
    r := [];
    for i := 0 to |key|
      invariant r == Fold(key)[..i]
    {
      r := r + [ToLower(key[i])];
    }
  }

  /** strlen from position `p` on. */
  method StringLength(v: seq<byte>, p: nat) returns (n: nat)
    requires Terminated(v) && p < |v|
    ensures n == StrLen(v[p..]) && p + n < |v|
  {
    StrLenInside(v[p..]);
    n := 0;
    while v[p + n] != 0
      invariant p + n < |v| && forall i :: 0 <= i < n ==> v[p..][i] != 0
      decreases |v| - n
    {
      assert v[p..][n] == v[p + n];
      n := n + 1;
    }
    StrLenUnique(v[p..], n);
  }

  /** The string at position `p` of a zero-divided buffer, and what follows it. */
  lemma PartAt(v: seq<byte>, p: nat)
    requires p < |v| && Terminated(v[p..])
    ensures var l := StrLen(v[p..]);
      && p + l < |v| && Terminated(v[p + l + 1..])
      && Parts(v[p..]) == [v[p..p + l]] + Parts(v[p + l + 1..])
      && v[p..p + l + 1] == v[p..p + l] + [0]
  {
    hide Parts;
    PartsHead(v[p..]);
    var l := StrLen(v[p..]);
    assert v[p..][..l] == v[p..p + l] && v[p..][l + 1..] == v[p + l + 1..];
    assert v[p..][l] == 0;
  }

  lemma JoinCons(out: seq<byte>, part: seq<byte>, rest: seq<seq<byte>>)
    ensures out + Join([part] + rest) == (out + (part + [0])) + Join(rest)
  {
    assert ([part] + rest)[1..] == rest;
    assert Join([part] + rest) == part + [0] + Join(rest);
  }

  lemma FilterCons(known: seq<seq<byte>>, part: seq<byte>, rest: seq<seq<byte>>)
    ensures NonEmpty([part] + rest) == if part == [] then NonEmpty(rest) else [part] + NonEmpty(rest)
    ensures Unknown(known, [part] + rest)
      == if part in known then Unknown(known, rest) else [part] + Unknown(known, rest)
  {
    assert ([part] + rest)[1..] == rest;
  }

  lemma Empties(known: seq<seq<byte>>)
    ensures Parts([]) == [] && NonEmpty([]) == [] && Unknown(known, []) == [] && Join([]) == []
  {
  }

  /** One string of the buffer is copied or left out. */
  lemma StripRound(value: seq<byte>, p: nat, out: seq<byte>)
    requires p < |value| && Terminated(value[p..])
    ensures var l := StrLen(value[p..]);
      && p + l < |value| && Terminated(value[p + l + 1..])
      && out + Join(NonEmpty(Parts(value[p..])))
        == (if l > 0 then out + value[p..p + l + 1] else out) + Join(NonEmpty(Parts(value[p + l + 1..])))
  {
    hide Parts, Join, NonEmpty;
    PartAt(value, p);
    var l := StrLen(value[p..]);
    var rest := Parts(value[p + l + 1..]);
    FilterCons([], value[p..p + l], rest);
    JoinCons(out, value[p..p + l], NonEmpty(rest));
  }

  /** _strip_empty: the non-empty strings of a zero-divided buffer. */
  method StripEmpty(value: seq<byte>) returns (out: seq<byte>)
    requires Terminated(value)
    ensures out == Join(NonEmpty(Parts(value)))
  {
    hide Parts, Join, NonEmpty, Terminated, StrLen;
    Empties([]);
    out := [];
    var p := 0;
    assert value[0..] == value;
    ghost var all := Join(NonEmpty(Parts(value)));
    Units(all);
    while p < |value|
      invariant p <= |value| && Terminated(value[p..])
      invariant all == out + Join(NonEmpty(Parts(value[p..])))
      decreases |value| - p
    {
      var l := StringLength(value, p);
      StripRound(value, p, out);
      if l + 1 > 1 {
        out := out + value[p..p + l + 1];
      }
      p := p + l + 1;
    }
    assert value[p..] == [];
    Units(out);
  }

  lemma Units(a: seq<byte>)
    ensures [] + a == a == a + []
  {
  }

  /** The inner loop of _combine_into_unique_multivalue: is `part` among the strings of `value`? */
  method HasPart(value: seq<byte>, part: seq<byte>) returns (found: bool)
    requires Terminated(value)
    ensures found <==> part in Parts(value)
  {
    hide Parts;
    Empties([]);
    var p := 0;
    assert value[0..] == value;
    while p < |value|
      invariant p <= |value| && Terminated(value[p..])
      invariant part in Parts(value) <==> part in Parts(value[p..])
      decreases |value| - p
    {
      var l := StringLength(value, p);
      PartAt(value, p);
      if value[p..p + l] == part {
        return true;
      }
      p := p + l + 1;
    }
    assert value[p..] == [];
    return false;
  }

  /** _combine_into_unique_multivalue; `changed` is false where the code returns no buffer. */
  method CombineUnique(value1: seq<byte>, value2: seq<byte>) returns (changed: bool, buf: seq<byte>)
    requires Terminated(value1) && Terminated(value2)
    ensures buf == Combined(value1, value2)
    ensures !changed ==> buf == value1
  {
    hide Parts, Join, Unknown, Terminated;
    changed, buf := false, value1;
    var v := 0;
    CombineStart(value1, value2);
    while v < |value2|
      invariant v <= |value2| && Terminated(value2[v..])
      invariant Combined(value1, value2) == buf + Join(Unknown(Parts(value1), Parts(value2[v..])))
      invariant !changed ==> buf == value1
      decreases |value2| - v
    {
      var len := StringLength(value2, v);
      CombineStep(value1, value2, v, len, buf);
      var dupe := HasPart(value1, value2[v..v + len]);
      if !dupe {
        changed, buf := true, buf + value2[v..v + len + 1];
      }
      v := v + len + 1;
    }
    CombineEnd(value1, value2, v, buf);
  }

  lemma CombineStart(value1: seq<byte>, value2: seq<byte>)
    requires Terminated(value1) && Terminated(value2)
    ensures Terminated(value2[0..])
    ensures Combined(value1, value2) == value1 + Join(Unknown(Parts(value1), Parts(value2[0..])))
  {
    assert value2[0..] == value2;
  }

  lemma CombineStep(value1: seq<byte>, value2: seq<byte>, v: nat, len: nat, buf: seq<byte>)
    requires Terminated(value1) && v < |value2| && Terminated(value2[v..]) && len == StrLen(value2[v..])
    ensures v + len < |value2| && Terminated(value2[v + len + 1..])
    ensures var part, rest := value2[v..v + len], Unknown(Parts(value1), Parts(value2[v + len + 1..]));
      buf + Join(Unknown(Parts(value1), Parts(value2[v..])))
      == (if part in Parts(value1) then buf else buf + value2[v..v + len + 1]) + Join(rest)
  {
    hide Parts, Join, Unknown;
    PartAt(value2, v);
    var rest := Parts(value2[v + len + 1..]);
    FilterCons(Parts(value1), value2[v..v + len], rest);
    JoinCons(buf, value2[v..v + len], Unknown(Parts(value1), rest));
  }

  lemma CombineEnd(value1: seq<byte>, value2: seq<byte>, v: nat, buf: seq<byte>)
    requires Terminated(value1) && v == |value2|
    ensures buf + Join(Unknown(Parts(value1), Parts(value2[v..]))) == buf
  {
    assert value2[v..] == [];
    Empties(Parts(value1));
    Units(buf);
  }

  // ----- lists and views -------------------------------------------------------------------

  lemma ViewInsert(l: seq<Meta>, p: nat, m: Meta)
    requires p <= |l|
    ensures View(l[..p] + [m] + l[p..]) == Insert(View(l), p, Entry(KeyOf(m), ValueOf(m)))
  {
  }

  lemma ViewRemove(l: seq<Meta>, p: nat)
    requires p < |l|
    ensures View(l[..p] + l[p + 1..]) == Remove(View(l), p)
  {
  }

  lemma ViewUpdate(l: seq<Meta>, p: nat, m: Meta)
    requires p < |l| && m.key == l[p].key
    ensures View(l[p := m]) == View(l)[p := Entry(View(l)[p].key, ValueOf(m))]
  {
  }

  lemma StoredKeyNoZero(key: seq<byte>)
    requires 0 !in key
    ensures 0 !in StoredKey(key)
  {
    assert forall i :: 0 <= i < |key| ==> key[i] != 0 && ToLower(key[i]) != 0;
  }

  lemma InsertKeepsForm(l: seq<Meta>, key: seq<byte>, m: Meta)
    requires WellFormed(l) && NodeOk(m) && KeyOf(m) == StoredKey(key) && Find(View(l), key) == |l|
    ensures var p := Slot(View(l), key); WellFormed(l[..p] + [m] + l[p..])
  {
    var p := Slot(View(l), key);
    ViewInsert(l, p, m);
    InsertKeepsOrder(View(l), key, ValueOf(m));
    hide NodeOk, Ordered, View, Slot, Find;
    NodesInserted(l, p, m);
  }

  lemma NodesInserted(l: seq<Meta>, p: nat, m: Meta)
    requires p <= |l| && NodeOk(m) && forall i :: 0 <= i < |l| ==> NodeOk(l[i])
    ensures var r := l[..p] + [m] + l[p..]; forall i :: 0 <= i < |r| ==> NodeOk(r[i])
  {
    hide NodeOk;
    var r := l[..p] + [m] + l[p..];
    assert forall i :: 0 <= i < |r| ==> r[i] == if i < p then l[i] else if i == p then m else l[i - 1];
  }

  lemma RemoveKeepsForm(l: seq<Meta>, p: nat)
    requires WellFormed(l) && p < |l|
    ensures WellFormed(l[..p] + l[p + 1..])
  {
    ViewRemove(l, p);
    RemoveKeepsOrder(View(l), p);
  }

  lemma UpdateKeepsForm(l: seq<Meta>, p: nat, m: Meta)
    requires WellFormed(l) && p < |l| && NodeOk(m) && m.key == l[p].key
    ensures WellFormed(l[p := m])
  {
    ViewUpdate(l, p, m);
    UpdateKeepsOrder(View(l), p, ValueOf(m));
  }

  // ----- lookups ---------------------------------------------------------------------------

  /** pl_meta_for_key: the first node with the key, ignoring case; |l| stands for NULL. */
  method MetaForKey(l: seq<Meta>, key: seq<byte>) returns (f: nat)
    ensures f == Find(View(l), key)
  {
    f := 0;
    while f < |l| && !SameKey(key, KeyOf(l[f]))
      invariant f <= |l| && forall i :: 0 <= i < f ==> !SameKey(View(l)[i].key, key)
    {
      f := f + 1;
    }
    FindUnique(View(l), key, f);
  }

  lemma FindUnique(v: seq<Entry>, key: seq<byte>, f: nat)
    requires f <= |v| && (f < |v| ==> SameKey(v[f].key, key)) && forall i :: 0 <= i < f ==> !SameKey(v[i].key, key)
    ensures Find(v, key) == f
  {
  }

  /** The scan of pl_meta_for_cached_key gives up here: at a ':' node unless it looks for a ':'
      key, and at any '!' node. */
  predicate Stops(m: Meta, key: seq<byte>) {
    (First(key) != COLON && First(KeyOf(m)) == COLON) || First(KeyOf(m)) == BANG
  }

  function CachedFrom(l: seq<Meta>, key: CacheStr, k: seq<byte>, i: nat): (f: nat)
    requires i <= |l|
    ensures f <= |l|
    decreases |l| - i
  {
    if i == |l| || Stops(l[i], k) then |l|
    else if l[i].key == key then i
    else CachedFrom(l, key, k, i + 1)
  }

  /** pl_meta_for_cached_key: compares handles, not bytes; |l| stands for NULL. */
  method MetaForCachedKey(l: seq<Meta>, key: CacheStr) returns (f: nat)
    requires key.str != [] && forall i :: 0 <= i < |l| ==> NodeOk(l[i])
    requires key.str[|key.str| - 1] == 0
    ensures f == CachedFrom(l, key, key.str[..|key.str| - 1], 0)
  {
    ghost var k := key.str[..|key.str| - 1];
    assert key.str == k + [0];
    f := 0;
    while f < |l|
      invariant f <= |l| && CachedFrom(l, key, k, f) == CachedFrom(l, key, k, 0)
    {
      var m := l[f];
      assert m.key.str[0] == First(KeyOf(m)) && key.str[0] == First(k);
      if key.str[0] != COLON && m.key.str[0] == COLON {
        return |l|;
      }
      if m.key.str[0] == BANG {
        return |l|;
      }
      if key == m.key {
        return;
      }
      f := f + 1;
    }
  }

  /** The fast lookup of an interned lower-case plain key finds the node the full scan finds. */
  lemma {:induction false} CachedLookupAgrees(l: seq<Meta>, key: CacheStr, k: seq<byte>, cache: Table, i: nat)
    requires cache.Valid() && WellFormed(l) && key in cache.refs && i <= |l|
    requires forall j :: 0 <= j < |l| ==> l[j].key in cache.refs
    requires key.str == k + [0] && !IsProp(k) && k == Fold(k)
    requires forall j :: 0 <= j < i ==> !SameKey(View(l)[j].key, k)
    ensures CachedFrom(l, key, k, i) == Find(View(l), k)
    decreases |l| - i
  {
    hide Fold, NodeOk, Ordered, cache.Valid, Find;
    if i == |l| {
      FindUnique(View(l), k, i);
    } else if SameKey(View(l)[i].key, k) {
      FindUnique(View(l), k, i);
      MatchIsHandle(l, i, key, k, cache);
    } else if Stops(l[i], k) {
      PropsCannotMatch(View(l), i, k);
    } else {
      assert KeyOf(l[i]) == View(l)[i].key && KeyOf(l[i]) != k;
      assert KeyOf(Meta(key, null)) == k;
      CachedLookupAgrees(l, key, k, cache, i + 1);
    }
  }

  lemma MatchIsHandle(l: seq<Meta>, i: nat, key: CacheStr, k: seq<byte>, cache: Table)
    requires cache.Valid() && WellFormed(l) && i < |l| && key in cache.refs && l[i].key in cache.refs
    requires key.str == k + [0] && !IsProp(k) && k == Fold(k) && SameKey(View(l)[i].key, k)
    ensures l[i].key == key && !Stops(l[i], k)
  {
    FoldKeepsKind(View(l)[i].key, k);
    assert View(l)[i].key == k && NodeOk(l[i]);
    assert l[i].key.str == key.str;
    cache.HandlesAreContents(l[i].key, key);
  }

  lemma PropsCannotMatch(v: seq<Entry>, i: nat, k: seq<byte>)
    requires Ordered(v) && i < |v| && IsProp(v[i].key) && !IsProp(k)
    requires forall j :: 0 <= j < i ==> !SameKey(v[j].key, k)
    ensures Find(v, k) == |v|
  {
    forall j | 0 <= j < |v|
      ensures !SameKey(v[j].key, k)
    {
      if j >= i && SameKey(v[j].key, k) { FoldKeepsKind(v[j].key, k); }
    }
    FindUnique(v, k, |v|);
  }

  /** Where the fast scan for a key gives up: at a '!' node, and for keys that do not start with ':' at a ':' node. */
  predicate GivesUp(m: Meta, k: seq<byte>) {
    KeyOf(m) != [] && (KeyOf(m)[0] == 33 || (KeyOf(m)[0] == 58 && (k == [] || k[0] != 58)))
  }

  lemma GivesUpIs(m: Meta, k: seq<byte>)
    ensures GivesUp(m, k) <==> Stops(m, k)
  {
  }

  lemma HandleIsKey(m: Meta, key: CacheStr, k: seq<byte>, cache: Table)
    requires cache.Valid() && NodeOk(m) && m.key in cache.refs && key in cache.refs && key.str == k + [0]
    ensures m.key == key <==> KeyOf(m) == k
  {
    cache.HandlesAreContents(m.key, key);
    assert m.key.str[..|m.key.str| - 1] == KeyOf(m) && key.str[..|key.str| - 1] == k;
  }

  /** For any interned key the fast lookup finds the node the full scan finds if and only if that has the very key and
      the scan does not give up before, or the key is not there. */
  lemma {:induction false} CachedExact(l: seq<Meta>, key: CacheStr, k: seq<byte>, cache: Table, i: nat)
    requires cache.Valid() && WellFormed(l) && key in cache.refs && i <= |l| && key.str == k + [0]
    requires forall j :: 0 <= j < |l| ==> l[j].key in cache.refs
    requires forall j :: 0 <= j < i ==> !SameKey(View(l)[j].key, k) && !GivesUp(l[j], k)
    ensures var f := Find(View(l), k);
      CachedFrom(l, key, k, i) == f <==>
        f == |l| || (KeyOf(l[f]) == k && forall j :: 0 <= j <= f ==> !GivesUp(l[j], k))
    decreases |l| - i
  {
    hide SameKey, NodeOk, Ordered, cache.Valid, Find, GivesUp, Stops;
    if i == |l| {
      FindUnique(View(l), k, i);
    } else {
      GivesUpIs(l[i], k);
      HandleIsKey(l[i], key, k, cache);
      assert KeyOf(l[i]) == View(l)[i].key;
      SameToItself(k);
      if SameKey(View(l)[i].key, k) {
        FindUnique(View(l), k, i);
        if !GivesUp(l[i], k) && KeyOf(l[i]) != k {
          NotElsewhere(l, key, k, cache, i);
        }
      } else if !GivesUp(l[i], k) {
        CachedExact(l, key, k, cache, i + 1);
      }
    }
  }

  lemma SameToItself(k: seq<byte>)
    ensures SameKey(k, k)
  {
  }

  lemma {:induction false} NotElsewhere(l: seq<Meta>, key: CacheStr, k: seq<byte>, cache: Table, i: nat)
    requires cache.Valid() && WellFormed(l) && key in cache.refs && i < |l| && key.str == k + [0]
    requires forall j :: 0 <= j < |l| ==> l[j].key in cache.refs
    requires SameKey(View(l)[i].key, k) && KeyOf(l[i]) != k
    ensures CachedFrom(l, key, k, i) > i
  {
    HandleIsKey(l[i], key, k, cache);
    hide SameKey, NodeOk, Ordered, cache.Valid, Stops;
    After(l, key, k, i + 1);
  }

  lemma {:induction false} After(l: seq<Meta>, key: CacheStr, k: seq<byte>, i: nat)
    requires i <= |l|
    ensures CachedFrom(l, key, k, i) >= i
    decreases |l| - i
  {
    hide Stops;
    if i < |l| {
      After(l, key, k, i + 1);
    }
  }

  lemma KeyIs(l: seq<Meta>, i: nat, name: seq<byte>)
    requires i < |l| && l[i].key.str == name + [0]
    ensures KeyOf(l[i]) == name && View(l)[i].key == name
  {
  }

  lemma BangAndUri(m: Meta)
    requires KeyOf(m) == Ascii("!a")
    ensures !SameKey(Ascii("!a"), Ascii(":URI")) && GivesUp(m, Ascii(":URI"))
  {
    assert Ascii("!a") == [33, 97] && |Fold(Ascii("!a"))| == 2 && |Fold(Ascii(":URI"))| == 4;
  }

  /** A URI behind a '!' node: the fast lookup misses it. */
  lemma UriBehindBang(l: seq<Meta>, key: CacheStr, cache: Table)
    requires cache.Valid() && WellFormed(l) && |l| == 2 && key in cache.refs
    requires forall j :: 0 <= j < |l| ==> l[j].key in cache.refs
    requires l[0].key.str == Ascii("!a") + [0] && l[1].key == key && key.str == Ascii(":URI") + [0]
    ensures CachedFrom(l, key, Ascii(":URI"), 0) != Find(View(l), Ascii(":URI")) == 1
  {
    hide *;
    var k := Ascii(":URI");
    KeyIs(l, 0, Ascii("!a"));
    KeyIs(l, 1, k);
    SameToItself(k);
    BangAndUri(l[0]);
    FindUnique(View(l), k, 1);
    CachedExact(l, key, k, cache, 0);
  }
}
