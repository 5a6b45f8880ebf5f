/** The metadata operations of src/plmeta.c on a track and the intern table. Each one does to keys
    and values what MetaSpec says, and moves reference counts exactly with the references. */
module MetaOps {
  import opened PlayItems
  import opened MetaSpec
  import opened Metacache
  import opened PlMeta

  /** The track is well formed and the table counts every reference it holds. */
  ghost predicate Held(it: PlayItem, cache: Table)
    reads it`meta, cache, cache.hash, (set e | e in cache.refs)`refcount
  {
    cache.Valid() && WellFormed(it.meta) && Handles(it.meta) <= cache.refs
  }

  /** The table gained and lost exactly the references the list gained and lost. */
  ghost predicate Balanced(refs0: multiset<CacheStr>, held0: multiset<CacheStr>,
                           refs1: multiset<CacheStr>, held1: multiset<CacheStr>)
  {
    refs1 + held0 == refs0 + held1
  }

  lemma BalancedSame(refs: multiset<CacheStr>, held: multiset<CacheStr>)
    ensures Balanced(refs, held, refs, held)
  {
  }

  lemma BalancedThen(refs0: multiset<CacheStr>, held0: multiset<CacheStr>, refs1: multiset<CacheStr>,
                     held1: multiset<CacheStr>, refs2: multiset<CacheStr>, held2: multiset<CacheStr>)
    requires Balanced(refs0, held0, refs1, held1) && Balanced(refs1, held1, refs2, held2)
    ensures Balanced(refs0, held0, refs2, held2)
  {
    forall e
      ensures (refs2 + held0)[e] == (refs0 + held2)[e]
    {
      assert (refs1 + held0)[e] == (refs0 + held1)[e] && (refs2 + held1)[e] == (refs1 + held2)[e];
    }
  }

  lemma RefsAdded(refs: multiset<CacheStr>, held: multiset<CacheStr>, k: CacheStr, v: CacheStr)
    ensures Balanced(refs, held, refs + multiset{k} + multiset{v}, held + multiset{k, v})
  {
  }

  lemma RefsRemoved(refs: multiset<CacheStr>, held: multiset<CacheStr>, k: CacheStr, v: CacheStr)
    requires held + multiset{k, v} <= refs
    ensures k in refs && v in refs - multiset{k} && held <= refs - multiset{k} - multiset{v}
    ensures Balanced(refs, held + multiset{k, v}, refs - multiset{k} - multiset{v}, held)
  {
    assert forall e :: (held + multiset{k, v})[e] <= refs[e];
    assert multiset{k, v}[k] >= 1;
    var left := refs - multiset{k} - multiset{v};
    forall e
      ensures left[e] + multiset{k, v}[e] == refs[e]
    {
      assert multiset{k, v}[e] == (if e == k then 1 else 0) + if e == v then 1 else 0;
      assert (refs - multiset{k})[e] == refs[e] - if e == k then 1 else 0;
    }
  }

  lemma RefsSwapped(refs: multiset<CacheStr>, held: multiset<CacheStr>, k: CacheStr, v: CacheStr, w: CacheStr)
    requires held + multiset{k, v} <= refs
    ensures v in refs && held + multiset{k, w} <= refs - multiset{v} + multiset{w}
    ensures Balanced(refs, held + multiset{k, v}, refs - multiset{v} + multiset{w}, held + multiset{k, w})
  {
    var next := refs - multiset{v} + multiset{w};
    assert forall e :: (held + multiset{k, v})[e] <= refs[e];
    assert multiset{k, v}[v] >= 1;
    forall e
      ensures next[e] + multiset{k, v}[e] == refs[e] + multiset{k, w}[e]
    {
      assert multiset{k, v}[e] == (if e == k then 1 else 0) + if e == v then 1 else 0;
      assert multiset{k, w}[e] == (if e == k then 1 else 0) + if e == w then 1 else 0;
      assert (refs - multiset{v})[e] == refs[e] - if e == v then 1 else 0;
    }
  }

  /** The scanning loop of pl_add_empty_meta_for_key: where a node for `key` goes, or -1 if the
      key is taken. Pointers are positions, -1 is NULL. */
  method FindSlot(l: seq<Meta>, key: seq<byte>) returns (pos: int)
    requires WellFormed(l)
    ensures pos == -1 <==> Find(View(l), key) < |l|
    ensures pos != -1 ==> pos == Slot(View(l), key)
  {
    hide Fold, Find, Boundary, NodeOk;
    var propstart, tail, m := -1, -1, 0;
    while m < |l|
      invariant 0 <= m <= |l| && tail == m - 1
      invariant forall i :: 0 <= i < m ==> !SameKey(View(l)[i].key, key)
      invariant !IsProp(key) ==> propstart == -1 && forall i :: 0 <= i < m ==> !IsProp(View(l)[i].key) && i + 1 < |l|
      invariant !IsProp(key) && m == |l| ==> l == []
    {
      if SameKey(key, KeyOf(l[m])) {
        FindUnique(View(l), key, m);
        return -1;
      }
      if m + 1 == |l| || IsProp(KeyOf(l[m])) {
        propstart := m;
        if !IsProp(key) {
          break;
        }
      }
      tail := m;
      m := m + 1;
    }
    if IsProp(key) {
      FindUnique(View(l), key, |l|);
      return tail + 1;
    }
    if propstart == -1 {
      FindUnique(View(l), key, |l|);
      BoundaryUnique(View(l), 0);
      return 0;
    }
    if IsProp(View(l)[m].key) {
      PropsCannotMatch(View(l), m, key);
    } else {
      FindUnique(View(l), key, |l|);
    }
    BoundaryUnique(View(l), m);
    return propstart;
  }

  lemma BoundaryUnique(v: seq<Entry>, b: nat)
    requires b <= |v| && (v == [] ==> b == 0) && (v != [] ==> b < |v| && (IsProp(v[b].key) || b == |v| - 1))
    requires forall i :: 0 <= i < b ==> !IsProp(v[i].key) && i + 1 < |v|
    ensures Boundary(v) == b
  {
  }

  /** pl_add_empty_meta_for_key: the position of a new node without value, or -1 if the key is taken. */
  method AddEmptyMetaForKey(it: PlayItem, key: seq<byte>, cache: Table) returns (pos: int)
    requires cache.Valid() && WellFormed(it.meta)
    modifies it`meta, cache`refs, cache.hash, (set x | x in cache.refs)`refcount
    ensures cache.Valid()
    ensures pos == -1 <==> Find(View(old(it.meta)), key) < |old(it.meta)|
    ensures pos == -1 ==> it.meta == old(it.meta) && cache.refs == old(cache.refs)
    ensures pos != -1 ==> pos == Slot(View(old(it.meta)), key) && pos < |it.meta|
    ensures pos != -1 ==> it.meta == old(it.meta)[..pos] + [it.meta[pos]] + old(it.meta)[pos..]
    ensures pos != -1 ==> it.meta[pos].value == null && it.meta[pos].key.str == StoredKey(key) + [0]
    ensures pos != -1 ==> cache.refs == old(cache.refs) + multiset{it.meta[pos].key}
    ensures forall e :: e in cache.refs ==> e in old(cache.refs) || fresh(e)
  {
    pos := FindSlot(it.meta, key);
    if pos == -1 {
      return;
    }
    var lcKey := key;
    if First(key) != COLON {
      lcKey := LowerCase(key);
    }
    assert lcKey == StoredKey(key);
    hide StoredKey;
    InsertNode(it, pos, lcKey, cache);
  }

  method InsertNode(it: PlayItem, pos: nat, lcKey: seq<byte>, cache: Table)
    requires cache.Valid() && pos <= |it.meta|
    modifies it`meta, cache`refs, cache.hash, (set x | x in cache.refs)`refcount
    ensures cache.Valid()
    ensures pos < |it.meta| && it.meta == old(it.meta)[..pos] + [it.meta[pos]] + old(it.meta)[pos..]
    ensures it.meta[pos].value == null && it.meta[pos].key.str == lcKey + [0]
    ensures cache.refs == old(cache.refs) + multiset{it.meta[pos].key}
    ensures forall e :: e in cache.refs ==> e in old(cache.refs) || fresh(e)
  {
    hide cache.Valid;
    var k := cache.AddValue(lcKey + [0]);
    Inserted(it.meta, pos, Meta(k, null));
    it.meta := it.meta[..pos] + [Meta(k, null)] + it.meta[pos..];
  }

  /** _meta_set_value: of several strings, the empty ones are dropped. */
  method SetValue(it: PlayItem, pos: nat, value: seq<byte>, cache: Table)
    requires cache.Valid() && pos < |it.meta|
    requires Terminated(value) && value != []
    modifies it`meta, cache`refs, cache.hash, (set x | x in cache.refs)`refcount
    ensures cache.Valid() && |it.meta| == |old(it.meta)|
    ensures it.meta == old(it.meta)[pos := it.meta[pos]] && it.meta[pos].key == old(it.meta)[pos].key
    ensures var v := it.meta[pos].value;
      v != null && v.str == Stored(value) && cache.refs == old(cache.refs) + multiset{v}
    ensures forall e :: e in cache.refs ==> e in old(cache.refs) || fresh(e)
  {
    hide cache.Valid;
    var data := value;
    assert value[0..] == value;
    var len := StringLength(value, 0);
    if len + 1 != |value| {
      data := StripEmpty(value);
      if |data| == 0 {
        data := [0];
      }
    }
    var v := cache.AddValue(data);
    it.meta := it.meta[pos := Meta(it.meta[pos].key, v)];
  }

  /** pl_add_meta_full */
  method AddMetaFull(it: PlayItem, key: seq<byte>, value: seq<byte>, cache: Table)
    requires cache.Valid() && WellFormed(it.meta)
    requires 0 !in key && Terminated(value) && value != []
    modifies it`meta, cache`refs, cache.hash, (set x | x in cache.refs)`refcount
    ensures cache.Valid() && WellFormed(it.meta)
    ensures View(it.meta) == AddFull(View(old(it.meta)), key, value)
    ensures Balanced(old(cache.refs), Handles(old(it.meta)), cache.refs, Handles(it.meta))
    ensures forall e :: e in cache.refs ==> e in old(cache.refs) || fresh(e)
  {
    ghost var l := it.meta;
    assert Balanced(cache.refs, Handles(l), cache.refs, Handles(l));
    if value[0] == 0 {
      return;
    }
    hide cache.Valid, View, Find, Slot, WellFormed, Handles, Insert, Balanced;
    var pos := AddEmptyMetaForKey(it, key, cache);
    if pos == -1 {
      return;
    }
    ghost var m, refs := it.meta[pos], cache.refs;
    SetValue(it, pos, value, cache);
    Refilled(l, pos, m, it.meta[pos]);
    NodeAdded(l, key, it.meta[pos], value);
    RefsAdded(old(cache.refs), Handles(l), it.meta[pos].key, it.meta[pos].value);
  }

  lemma Inserted(l: seq<Meta>, p: nat, m: Meta)
    requires p <= |l|
    ensures |l[..p] + [m] + l[p..]| == |l| + 1 && (l[..p] + [m] + l[p..])[p] == m
  {
  }

  lemma Refilled(l: seq<Meta>, p: nat, x: Meta, y: Meta)
    requires p <= |l|
    ensures (l[..p] + [x] + l[p..])[p := y] == l[..p] + [y] + l[p..]
  {
  }

  lemma NodeAdded(l: seq<Meta>, key: seq<byte>, m: Meta, value: seq<byte>)
    requires WellFormed(l) && 0 !in key && Find(View(l), key) == |l|
    requires Terminated(value) && value != [] && value[0] != 0
    requires m.key.str == StoredKey(key) + [0] && m.value != null && m.value.str == Stored(value)
    ensures var p := Slot(View(l), key); var r := l[..p] + [m] + l[p..];
      && WellFormed(r) && View(r) == AddFull(View(l), key, value)
      && Handles(r) == Handles(l) + multiset{m.key, m.value}
  {
    hide *;
    StoredTerminated(value);
    AddFullAdds(View(l), key, value);
    NodeCopied(l, key, m);
  }

  lemma AddFullAdds(v: seq<Entry>, key: seq<byte>, value: seq<byte>)
    requires Terminated(value) && value != [] && value[0] != 0 && Find(v, key) == |v|
    ensures AddFull(v, key, value) == Insert(v, Slot(v, key), Entry(StoredKey(key), Stored(value)))
  {
  }

  lemma Halves<T>(l: seq<T>, p: nat)
    requires p <= |l|
    ensures l[..p] + l[p..] == l
  {
  }

  /** pl_add_meta, for a string with its terminating zero. */
  method AddMeta(it: PlayItem, key: seq<byte>, value: seq<byte>, cache: Table)
    requires cache.Valid() && WellFormed(it.meta)
    requires 0 !in key && Terminated(value) && value != [] && StrLen(value) + 1 == |value|
    modifies it`meta, cache`refs, cache.hash, (set x | x in cache.refs)`refcount
    ensures cache.Valid() && WellFormed(it.meta)
    ensures View(it.meta) == AddFull(View(old(it.meta)), key, value)
    ensures Balanced(old(cache.refs), Handles(old(it.meta)), cache.refs, Handles(it.meta))
    ensures forall e :: e in cache.refs ==> e in old(cache.refs) || fresh(e)
  {
    if value[0] == 0 {
      return;
    }
    AddMetaFull(it, key, value, cache);
  }

  /** One reference to the entry `s` less. */
  method DropRef(cache: Table, s: CacheStr)
    requires cache.Valid() && s in cache.refs
    modifies cache`refs, cache.hash, (set x | x in cache.refs)`refcount
    ensures cache.Valid() && cache.refs == old(cache.refs) - multiset{s}
  {
    forall x | x in cache.refs
      ensures x.str == s.str <==> x == s
    {
      cache.HandlesAreContents(x, s);
    }
    hide cache.Valid;
    ghost var e := cache.RemoveValue(s.str);
  }

  /** Takes node `i` out of the list and releases its key and value, as pl_delete_meta and
      pl_delete_all_meta do. */
  method RemoveNode(it: PlayItem, i: nat, cache: Table)
    requires Held(it, cache) && i < |it.meta|
    modifies it`meta, cache`refs, cache.hash, (set x | x in cache.refs)`refcount
    ensures Held(it, cache) && |it.meta| == |old(it.meta)| - 1 && View(it.meta) == Remove(View(old(it.meta)), i)
    ensures Balanced(old(cache.refs), Handles(old(it.meta)), cache.refs, Handles(it.meta))
    ensures forall e :: e in cache.refs ==> e in old(cache.refs)
  {
    hide *;
    NodeRemoved(it, i, cache);
    var m := it.meta[i];
    it.meta := it.meta[..i] + it.meta[i + 1..];
    DropNode(cache, m.key, m.value);
    Holds(it, cache);
  }

  lemma Holds(it: PlayItem, cache: Table)
    requires cache.Valid() && WellFormed(it.meta) && Handles(it.meta) <= cache.refs
    ensures Held(it, cache)
  {
  }

  lemma NodeRemoved(it: PlayItem, i: nat, cache: Table)
    requires Held(it, cache) && i < |it.meta|
    ensures cache.Valid()
    ensures var m, r, refs := it.meta[i], it.meta[..i] + it.meta[i + 1..], cache.refs;
      && |r| == |it.meta| - 1 && WellFormed(r) && View(r) == Remove(View(it.meta), i)
      && m.value != null && m.key in refs && m.value in refs - multiset{m.key}
      && Handles(r) <= refs - multiset{m.key} - multiset{m.value}
      && Balanced(refs, Handles(it.meta), refs - multiset{m.key} - multiset{m.value}, Handles(r))
  {
    var l, m := it.meta, it.meta[i];
    assert NodeOk(m) && m.value != null;
    hide cache.Valid, View, WellFormed, Handles, Remove, Balanced, NodeOk;
    RemovedHandles(l, i, cache.refs);
    ViewRemove(l, i);
    RemoveKeepsForm(l, i);
    RefsRemoved(cache.refs, Handles(l[..i] + l[i + 1..]), m.key, m.value);
  }

  method DropNode(cache: Table, key: CacheStr, value: CacheStr)
    requires cache.Valid() && key in cache.refs && value in cache.refs - multiset{key}
    modifies cache`refs, cache.hash, (set x | x in cache.refs)`refcount
    ensures cache.Valid() && cache.refs == old(cache.refs) - multiset{key} - multiset{value}
  {
    hide cache.Valid;
    DropRef(cache, key);
    DropRef(cache, value);
  }

  lemma RemovedHandles(l: seq<Meta>, i: nat, refs: multiset<CacheStr>)
    requires i < |l| && l[i].value != null && Handles(l) <= refs
    ensures var r := l[..i] + l[i + 1..]; Handles(l) == Handles(r) + multiset{l[i].key, l[i].value}
  {
    Split(l, i, l[i]);
    hide Handles;
    HandlesInsert(l[..i], l[i], l[i + 1..]);
  }

  /** pl_delete_meta */
  method DeleteMeta(it: PlayItem, key: seq<byte>, cache: Table)
    requires Held(it, cache)
    modifies it`meta, cache`refs, cache.hash, (set x | x in cache.refs)`refcount
    ensures Held(it, cache) && View(it.meta) == Delete(View(old(it.meta)), key)
    ensures Balanced(old(cache.refs), Handles(old(it.meta)), cache.refs, Handles(it.meta))
    ensures forall e :: e in cache.refs ==> e in old(cache.refs)
  {
    hide *;
    ghost var l := it.meta;
    var m := 0;
    while m < |it.meta|
      invariant Held(it, cache) && it.meta == l && cache.refs == old(cache.refs)
      invariant m <= |l| && forall i :: 0 <= i < m ==> !SameKey(View(l)[i].key, key)
    {
      ViewAt(l, m);
      if SameKey(key, KeyOf(it.meta[m])) {
        DeleteIs(View(l), key, m);
        RemoveNode(it, m, cache);
        return;
      }
      m := m + 1;
    }
    DeleteIs(View(l), key, m);
    BalancedSame(cache.refs, Handles(l));
  }

  lemma ViewAt(l: seq<Meta>, i: nat)
    requires i < |l|
    ensures forall key :: SameKey(key, KeyOf(l[i])) <==> SameKey(View(l)[i].key, key)
    ensures IsProp(KeyOf(l[i])) <==> IsProp(View(l)[i].key)
  {
  }

  lemma DeleteIs(v: seq<Entry>, key: seq<byte>, f: nat)
    requires f <= |v| && (f < |v| ==> SameKey(v[f].key, key)) && forall i :: 0 <= i < f ==> !SameKey(v[i].key, key)
    ensures Delete(v, key) == if f < |v| then Remove(v, f) else v
  {
    FindUnique(v, key, f);
  }

  /** pl_delete_all_meta up to the flags, which it resets last. */
  method DeleteAllMeta(it: PlayItem, cache: Table)
    requires Held(it, cache)
    modifies it`meta, cache`refs, cache.hash, (set x | x in cache.refs)`refcount
    ensures Held(it, cache) && View(it.meta) == DeleteAll(View(old(it.meta)))
    ensures Balanced(old(cache.refs), Handles(old(it.meta)), cache.refs, Handles(it.meta))
    ensures forall e :: e in cache.refs ==> e in old(cache.refs)
  {
    hide *;
    ghost var l := it.meta;
    RemovePlain(it, cache);
    DeleteAllIs(View(l));
    var keys := RG_KEYS;
    while keys != []
      invariant Held(it, cache) && DeleteKeys(View(it.meta), keys) == DeleteAll(View(l))
      invariant Balanced(old(cache.refs), Handles(l), cache.refs, Handles(it.meta))
      invariant forall e :: e in cache.refs ==> e in old(cache.refs)
      decreases |keys|
    {
      ghost var refs, held := cache.refs, Handles(it.meta);
      DeleteKeysStep(View(it.meta), keys);
      DeleteMeta(it, keys[0], cache);
      BalancedThen(old(cache.refs), Handles(l), refs, held, cache.refs, Handles(it.meta));
      keys := keys[1..];
    }
    DeleteKeysStep(View(it.meta), keys);
  }

  lemma DeleteAllIs(v: seq<Entry>)
    ensures DeleteAll(v) == DeleteKeys(OnlyProps(v), RG_KEYS)
  {
  }

  lemma DeleteKeysStep(v: seq<Entry>, keys: seq<seq<byte>>)
    ensures DeleteKeys(v, keys) == if keys == [] then v else DeleteKeys(Delete(v, keys[0]), keys[1..])
  {
  }

  method RemovePlain(it: PlayItem, cache: Table)
    requires Held(it, cache)
    modifies it`meta, cache`refs, cache.hash, (set x | x in cache.refs)`refcount
    ensures Held(it, cache) && View(it.meta) == OnlyProps(View(old(it.meta)))
    ensures Balanced(old(cache.refs), Handles(old(it.meta)), cache.refs, Handles(it.meta))
    ensures forall e :: e in cache.refs ==> e in old(cache.refs)
  {
    hide *;
    ghost var l := it.meta;
    var m := 0;
    OnlyPropsEnds(View(l));
    BalancedSame(cache.refs, Handles(l));
    while m < |it.meta|
      invariant m <= |it.meta| && Held(it, cache)
      invariant View(it.meta)[..m] + OnlyProps(View(it.meta)[m..]) == OnlyProps(View(l))
      invariant Balanced(old(cache.refs), Handles(l), cache.refs, Handles(it.meta))
      invariant forall e :: e in cache.refs ==> e in old(cache.refs)
      decreases |it.meta| - m
    {
      OnlyPropsStep(View(it.meta), m);
      ViewAt(it.meta, m);
      if IsProp(KeyOf(it.meta[m])) {
        m := m + 1;
      } else {
        ghost var refs, held := cache.refs, Handles(it.meta);
        RemoveNode(it, m, cache);
        BalancedThen(old(cache.refs), Handles(l), refs, held, cache.refs, Handles(it.meta));
      }
    }
    OnlyPropsEnds(View(it.meta));
  }

  lemma OnlyPropsEnds(v: seq<Entry>)
    ensures v[..0] + OnlyProps(v[0..]) == OnlyProps(v) && v[..|v|] + OnlyProps(v[|v|..]) == v
  {
    assert v[0..] == v && v[|v|..] == [];
  }

  lemma OnlyPropsStep(v: seq<Entry>, m: nat)
    requires m < |v|
    ensures IsProp(v[m].key) ==> v[..m] + OnlyProps(v[m..]) == v[..m + 1] + OnlyProps(v[m + 1..])
    ensures !IsProp(v[m].key) ==> v[..m] + OnlyProps(v[m..]) == Remove(v, m)[..m] + OnlyProps(Remove(v, m)[m..])
  {
    assert v[m..][1..] == v[m + 1..];
    assert Remove(v, m)[m..] == v[m + 1..];
  }

  /** Releases the value of node `f` and gives it the value `buf`. */
  method SwapValue(it: PlayItem, f: nat, buf: seq<byte>, cache: Table)
    requires Held(it, cache) && f < |it.meta| && Terminated(buf) && buf != []
    modifies it`meta, cache`refs, cache.hash, (set x | x in cache.refs)`refcount
    ensures Held(it, cache)
    ensures View(it.meta) == View(old(it.meta))[f := Entry(View(old(it.meta))[f].key, buf)]
    ensures Balanced(old(cache.refs), Handles(old(it.meta)), cache.refs, Handles(it.meta))
    ensures forall e :: e in cache.refs ==> e in old(cache.refs) || fresh(e)
  {
    hide *;
    ghost var l, refs := it.meta, cache.refs;
    ValueHeld(it, f, cache);
    DropRef(cache, it.meta[f].value);
    var w := cache.AddValue(buf);
    it.meta := it.meta[f := Meta(it.meta[f].key, w)];
    ValueSwapped(l, f, w, refs);
    Holds(it, cache);
  }

  lemma ValueHeld(it: PlayItem, f: nat, cache: Table)
    requires Held(it, cache) && f < |it.meta|
    ensures cache.Valid() && WellFormed(it.meta) && Handles(it.meta) <= cache.refs
    ensures it.meta[f].value != null && it.meta[f].value in cache.refs
  {
    assert NodeOk(it.meta[f]) && it.meta[f].value != null;
    var l, refs := it.meta, cache.refs;
    hide NodeOk, Handles;
    RemovedHandles(l, f, refs);
    RefsSwapped(refs, Handles(l[..f] + l[f + 1..]), l[f].key, l[f].value, l[f].value);
  }

  lemma ValueSwapped(l: seq<Meta>, f: nat, w: CacheStr, refs: multiset<CacheStr>)
    requires WellFormed(l) && f < |l| && l[f].value != null && Handles(l) <= refs
    requires Terminated(w.str) && w.str != []
    ensures var r, next := l[f := Meta(l[f].key, w)], refs - multiset{l[f].value} + multiset{w};
      && WellFormed(r) && View(r) == View(l)[f := Entry(View(l)[f].key, w.str)]
      && Handles(r) <= next && Balanced(refs, Handles(l), next, Handles(r))
  {
    var m := Meta(l[f].key, w);
    SwappedForm(l, f, m);
    var rest := l[..f] + l[f + 1..];
    hide WellFormed, View, Handles, Balanced, Terminated;
    RemovedHandles(l, f, refs);
    SwappedHandles(l, f, m);
    RefsSwapped(refs, Handles(rest), m.key, l[f].value, w);
  }

  lemma SwappedForm(l: seq<Meta>, f: nat, m: Meta)
    requires WellFormed(l) && f < |l| && m.key == l[f].key
    requires m.value != null && Terminated(m.value.str) && m.value.str != []
    ensures WellFormed(l[f := m]) && View(l[f := m]) == View(l)[f := Entry(View(l)[f].key, m.value.str)]
  {
    assert NodeOk(l[f]) && KeyOf(m) == KeyOf(l[f]);
    hide WellFormed, View, Terminated;
    UpdateKeepsForm(l, f, m);
    ViewUpdate(l, f, m);
  }

  lemma SwappedHandles(l: seq<Meta>, f: nat, m: Meta)
    requires f < |l| && m.value != null
    ensures Handles(l[f := m]) == Handles(l[..f] + l[f + 1..]) + multiset{m.key, m.value}
  {
    hide Handles;
    Split(l, f, m);
    HandlesInsert(l[..f], m, l[f + 1..]);
  }

  /** pl_replace_meta */
  method ReplaceMeta(it: PlayItem, key: seq<byte>, value: seq<byte>, cache: Table)
    requires Held(it, cache)
    requires 0 !in key && Terminated(value) && value != [] && StrLen(value) + 1 == |value|
    modifies it`meta, cache`refs, cache.hash, (set x | x in cache.refs)`refcount
    ensures Held(it, cache) && View(it.meta) == Replace(View(old(it.meta)), key, value)
    ensures Balanced(old(cache.refs), Handles(old(it.meta)), cache.refs, Handles(it.meta))
    ensures forall e :: e in cache.refs ==> e in old(cache.refs) || fresh(e)
  {
    hide *;
    ReplaceIs(View(it.meta), key, value);
    var f := MetaForKey(it.meta, key);
    if f < |it.meta| {
      SwapValue(it, f, value, cache);
    } else {
      HeldParts(it, cache);
      ghost var l := it.meta;
      AddMeta(it, key, value, cache);
      HeldAfter(it, l, old(cache.refs), cache);
    }
  }

  lemma ReplaceIs(v: seq<Entry>, key: seq<byte>, value: seq<byte>)
    requires Terminated(value) && value != [] && StrLen(value) + 1 == |value|
    ensures var f := Find(v, key);
      Replace(v, key, value) == if f < |v| then v[f := Entry(v[f].key, value)] else AddFull(v, key, value)
  {
  }

  lemma HeldParts(it: PlayItem, cache: Table)
    requires Held(it, cache)
    ensures cache.Valid() && WellFormed(it.meta) && Handles(it.meta) <= cache.refs
  {
  }

  lemma HeldAfter(it: PlayItem, l: seq<Meta>, refs: multiset<CacheStr>, cache: Table)
    requires cache.Valid() && WellFormed(it.meta)
    requires Handles(l) <= refs && Balanced(refs, Handles(l), cache.refs, Handles(it.meta))
    ensures Held(it, cache)
  {
    hide *;
    StillHeld(refs, Handles(l), cache.refs, Handles(it.meta));
    Holds(it, cache);
  }

  lemma StillHeld(refs0: multiset<CacheStr>, held0: multiset<CacheStr>, refs1: multiset<CacheStr>,
                  held1: multiset<CacheStr>)
    requires held0 <= refs0 && Balanced(refs0, held0, refs1, held1)
    ensures held1 <= refs1
  {
    forall e
      ensures held1[e] <= refs1[e]
    {
      assert held0[e] <= refs0[e] && (refs1 + held0)[e] == (refs0 + held1)[e];
    }
  }

  /** pl_append_meta_full */
  method AppendMetaFull(it: PlayItem, key: seq<byte>, value: seq<byte>, cache: Table)
    requires Held(it, cache) && 0 !in key && Terminated(value)
    modifies it`meta, cache`refs, cache.hash, (set x | x in cache.refs)`refcount
    ensures Held(it, cache) && ValuesTerminated(View(old(it.meta)))
    ensures View(it.meta) == Append(View(old(it.meta)), key, value)
    ensures Balanced(old(cache.refs), Handles(old(it.meta)), cache.refs, Handles(it.meta))
    ensures forall e :: e in cache.refs ==> e in old(cache.refs) || fresh(e)
  {
    hide *;
    ghost var l := it.meta;
    HeldParts(it, cache);
    AppendIs(l, key, value);
    BalancedSame(cache.refs, Handles(l));
    if |value| == 0 || value[0] == 0 {
      return;
    }
    var f := MetaForKey(it.meta, key);
    if f == |it.meta| {
      var p := AddEmptyMetaForKey(it, key, cache);
      ghost var m := it.meta[p];
      SetValue(it, p, value, cache);
      Refilled(l, p, m, it.meta[p]);
      NodeAdded(l, key, it.meta[p], value);
      RefsAdded(old(cache.refs), Handles(l), it.meta[p].key, it.meta[p].value);
      HeldAfter(it, l, old(cache.refs), cache);
      return;
    }
    ValueHeld(it, f, cache);
    ValueAt(it.meta, f);
    var changed, buf := CombineUnique(it.meta[f].value.str, value);
    if !changed {
      return;
    }
    SwapValue(it, f, buf, cache);
  }

  lemma ValueAt(l: seq<Meta>, f: nat)
    requires WellFormed(l) && f < |l|
    ensures var v := l[f].value; v != null && Terminated(v.str) && v.str != [] && v.str == View(l)[f].value
    ensures View(l)[f := Entry(View(l)[f].key, View(l)[f].value)] == View(l)
  {
    assert NodeOk(l[f]);
  }

  lemma AppendIs(l: seq<Meta>, key: seq<byte>, value: seq<byte>)
    requires WellFormed(l) && Terminated(value)
    ensures ValuesTerminated(View(l))
    ensures var v := View(l); var f := Find(v, key);
      && (value == [] || value[0] == 0 ==> Append(v, key, value) == v)
      && (value != [] && value[0] != 0 && f == |v| ==> Append(v, key, value) == AddFull(v, key, value))
      && (value != [] && value[0] != 0 && f < |v| ==>
            var buf := Combined(v[f].value, value);
            Append(v, key, value) == v[f := Entry(v[f].key, buf)] && Terminated(buf) && buf != [])
  {
    forall i | 0 <= i < |l|
      ensures Terminated(View(l)[i].value) && View(l)[i].value != []
    {
      assert NodeOk(l[i]);
    }
    var f := Find(View(l), key);
    if f < |l| {
      CombinedTerminated(View(l)[f].value, value);
    }
  }

  /** pl_add_meta_copy */
  method AddMetaCopy(it: PlayItem, meta: Meta, cache: Table)
    requires Held(it, cache) && NodeOk(meta)
    modifies it`meta, cache`refs, cache.hash, (set x | x in cache.refs)`refcount
    ensures Held(it, cache) && View(it.meta) == AddCopy(View(old(it.meta)), Entry(KeyOf(meta), ValueOf(meta)))
    ensures Balanced(old(cache.refs), Handles(old(it.meta)), cache.refs, Handles(it.meta))
    ensures forall e :: e in cache.refs ==> e in old(cache.refs) || fresh(e)
  {
    hide *;
    ghost var l := it.meta;
    HeldParts(it, cache);
    CopyOk(View(l), meta);
    BalancedSame(cache.refs, Handles(l));
    var key := meta.key.str[..|meta.key.str| - 1];
    var p := AddEmptyMetaForKey(it, key, cache);
    if p == -1 {
      Holds(it, cache);
      return;
    }
    ghost var m := it.meta[p];
    var w := cache.AddValue(meta.value.str);
    it.meta := it.meta[p := Meta(it.meta[p].key, w)];
    Refilled(l, p, m, it.meta[p]);
    NodeCopied(l, key, it.meta[p]);
    RefsAdded(old(cache.refs), Handles(l), it.meta[p].key, w);
    HeldAfter(it, l, old(cache.refs), cache);
  }

  lemma CopyOk(v: seq<Entry>, meta: Meta)
    requires NodeOk(meta)
    ensures meta.key.str != [] && meta.key.str[..|meta.key.str| - 1] == KeyOf(meta) && 0 !in KeyOf(meta)
    ensures meta.value != null && meta.value.str == ValueOf(meta) && meta.value.str != [] && Terminated(meta.value.str)
    ensures var e := Entry(KeyOf(meta), ValueOf(meta));
      AddCopy(v, e) == if Find(v, e.key) < |v| then v else Insert(v, Slot(v, e.key), Entry(StoredKey(e.key), e.value))
  {
  }

  lemma NodeCopied(l: seq<Meta>, key: seq<byte>, m: Meta)
    requires WellFormed(l) && 0 !in key && Find(View(l), key) == |l|
    requires m.key.str == StoredKey(key) + [0] && m.value != null && m.value.str != [] && Terminated(m.value.str)
    ensures var p := Slot(View(l), key); var r := l[..p] + [m] + l[p..];
      && WellFormed(r) && View(r) == Insert(View(l), p, Entry(StoredKey(key), m.value.str))
      && Handles(r) == Handles(l) + multiset{m.key, m.value}
  {
    var p := Slot(View(l), key);
    StoredKeyNoZero(key);
    assert KeyOf(m) == StoredKey(key);
    Halves(l, p);
    hide View, Find, Slot, Insert, WellFormed, Handles, StoredKey, Terminated;
    InsertKeepsForm(l, key, m);
    ViewInsert(l, p, m);
    HandlesInsert(l[..p], m, l[p..]);
  }
}
