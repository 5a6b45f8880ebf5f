/** Any number of tracks sharing one intern table: through every run of metadata operations the
    table holds exactly the strings the tracks use, counted exactly as often as they use them. */
module MetaRuns {
  import opened PlayItems
  import opened MetaSpec
  import opened Metacache
  import opened PlMeta
  import opened MetaOps

  /** An operation on track number `t`. */
  datatype Op =
    | Add(t: nat, key: seq<byte>, value: seq<byte>)
    | Append(t: nat, key: seq<byte>, value: seq<byte>)
    | Replace(t: nat, key: seq<byte>, value: seq<byte>)
    | Delete(t: nat, key: seq<byte>)
    | DeleteAll(t: nat)
    | Copy(t: nat, from: nat, node: nat)

  function Metas(tracks: seq<PlayItem>): (r: seq<seq<Meta>>)
    reads tracks`meta
    ensures |r| == |tracks| && forall i :: 0 <= i < |r| ==> r[i] == tracks[i].meta
  {
    if tracks == [] then [] else Metas(tracks[..|tracks| - 1]) + [tracks[|tracks| - 1].meta]
  }

  function Views(metas: seq<seq<Meta>>): (r: seq<seq<Entry>>)
    ensures |r| == |metas|
  {
    seq(|metas|, i requires 0 <= i < |metas| => View(metas[i]))
  }

  /** The references all tracks together hold. */
  ghost function Total(metas: seq<seq<Meta>>): multiset<CacheStr> {
    if metas == [] then multiset{} else Handles(metas[0]) + Total(metas[1..])
  }

  lemma {:induction false} TotalUpdate(metas: seq<seq<Meta>>, t: nat, l: seq<Meta>)
    requires t < |metas|
    ensures Balanced(Total(metas), Handles(metas[t]), Total(metas[t := l]), Handles(l))
    ensures Handles(metas[t]) <= Total(metas)
  {
    hide Handles;
    var rest, next := metas[1..], metas[t := l];
    if t == 0 {
      assert next[1..] == rest;
    } else {
      assert next[1..] == rest[t - 1 := l];
      TotalUpdate(rest, t - 1, l);
      Shift(Handles(metas[0]), Total(rest), Handles(metas[t]), Total(next[1..]), Handles(l));
    }
  }

  lemma Shift(a: multiset<CacheStr>, refs0: multiset<CacheStr>, held0: multiset<CacheStr>,
              refs1: multiset<CacheStr>, held1: multiset<CacheStr>)
    requires Balanced(refs0, held0, refs1, held1)
    ensures Balanced(a + refs0, held0, a + refs1, held1)
  {
    forall e
      ensures (a + refs1 + held0)[e] == (a + refs0 + held1)[e]
    {
      assert (refs1 + held0)[e] == (refs0 + held1)[e];
    }
  }

  lemma BalancedUnique(refs0: multiset<CacheStr>, held0: multiset<CacheStr>, a: multiset<CacheStr>,
                       b: multiset<CacheStr>, held1: multiset<CacheStr>)
    requires Balanced(refs0, held0, a, held1) && Balanced(refs0, held0, b, held1)
    ensures a == b
  {
    forall e
      ensures a[e] == b[e]
    {
      assert (a + held0)[e] == (b + held0)[e];
    }
  }

  /** Every list is well formed, and the table counts exactly the references of the tracks. */
  ghost predicate Library(tracks: seq<PlayItem>, cache: Table)
    reads tracks`meta, cache, cache.hash, (set e | e in cache.refs)`refcount
  {
    && cache.Valid() && cache.refs == Total(Metas(tracks))
    && (forall i :: 0 <= i < |tracks| ==> WellFormed(tracks[i].meta))
    && (forall i, j :: 0 <= i < j < |tracks| ==> tracks[i] != tracks[j])
  }

  ghost predicate OpOk(op: Op, views: seq<seq<Entry>>) {
    && op.t < |views|
    && match op
       case Add(_, key, value) => 0 !in key && Terminated(value) && value != []
       case Append(_, key, value) => 0 !in key && Terminated(value)
       case Replace(_, key, value) => 0 !in key && Terminated(value) && value != [] && StrLen(value) + 1 == |value|
       case Copy(_, from, node) => from < |views| && node < |views[from]|
       case _ => true
  }

  /** What an operation does to the list of its track. */
  ghost function Effect(op: Op, views: seq<seq<Entry>>): seq<Entry>
    requires OpOk(op, views) && ValuesTerminated(views[op.t])
  {
    var v := views[op.t];
    match op
    case Add(_, key, value) => AddFull(v, key, value)
    case Append(_, key, value) => MetaSpec.Append(v, key, value)
    case Replace(_, key, value) => MetaSpec.Replace(v, key, value)
    case Delete(_, key) => MetaSpec.Delete(v, key)
    case DeleteAll(_) => MetaSpec.DeleteAll(v)
    case Copy(_, from, node) => AddCopy(v, views[from][node])
  }

  function ViewsOf(tracks: seq<PlayItem>): (r: seq<seq<Entry>>)
    reads tracks`meta
    ensures |r| == |tracks|
  {
    Views(Metas(tracks))
  }

  method Perform(tracks: seq<PlayItem>, op: Op, cache: Table)
    requires Library(tracks, cache) && OpOk(op, ViewsOf(tracks))
    modifies {tracks[op.t]}`meta, cache`refs, cache.hash, (set x | x in cache.refs)`refcount
    ensures Library(tracks, cache) && ValuesTerminated(old(ViewsOf(tracks))[op.t])
    ensures ViewsOf(tracks) == old(ViewsOf(tracks))[op.t := Effect(op, old(ViewsOf(tracks)))]
    ensures forall e :: e in cache.refs ==> e in old(cache.refs) || fresh(e)
  {
    hide *;
    Before(tracks, op, cache);
    if op.Copy? { BeforeCopy(tracks, op, cache); }
    EffectIs(op, ViewsOf(tracks));
    ghost var metas := Metas(tracks);
    var it := tracks[op.t];
    match op {
      case Add(_, key, value) =>
        AddMetaFull(it, key, value, cache);
        HeldAfter(it, metas[op.t], old(cache.refs), cache);
      case Append(_, key, value) =>
        AppendMetaFull(it, key, value, cache);
      case Replace(_, key, value) =>
        ReplaceMeta(it, key, value, cache);
      case Delete(_, key) =>
        DeleteMeta(it, key, cache);
      case DeleteAll(_) =>
        DeleteAllMeta(it, cache);
      case Copy(_, from, node) =>
        AddMetaCopy(it, tracks[from].meta[node], cache);
    }
    HeldParts(it, cache);
    After(tracks, op, metas, old(cache.refs), cache);
  }

  /** What the operation on its track may rely on. */
  lemma Before(tracks: seq<PlayItem>, op: Op, cache: Table)
    requires Library(tracks, cache) && OpOk(op, ViewsOf(tracks))
    ensures op.t < |tracks| && Held(tracks[op.t], cache) && cache.Valid() && cache.refs == Total(Metas(tracks))
    ensures Handles(tracks[op.t].meta) <= cache.refs
    ensures forall i :: 0 <= i < |tracks| ==> WellFormed(tracks[i].meta)
    ensures forall i, j :: 0 <= i < j < |tracks| ==> tracks[i] != tracks[j]
    ensures ViewsOf(tracks) == Views(Metas(tracks)) && ViewsOf(tracks)[op.t] == View(tracks[op.t].meta)
    ensures ValuesTerminated(ViewsOf(tracks)[op.t])
  {
    assert op.t < |tracks|;
    hide *;
    Parts(tracks, cache);
    ViewsAt(tracks, op.t);
    TermView(tracks[op.t].meta);
    TotalUpdate(Metas(tracks), op.t, []);
    Holds(tracks[op.t], cache);
  }

  lemma ViewsAt(tracks: seq<PlayItem>, t: nat)
    ensures ViewsOf(tracks) == Views(Metas(tracks)) && |ViewsOf(tracks)| == |tracks|
    ensures t < |tracks| ==> ViewsOf(tracks)[t] == View(tracks[t].meta)
  {
    hide View;
  }

  lemma TermView(l: seq<Meta>)
    requires WellFormed(l)
    ensures ValuesTerminated(View(l))
  {
    AppendIs(l, [], []);
  }

  lemma BeforeCopy(tracks: seq<PlayItem>, op: Op, cache: Table)
    requires Library(tracks, cache) && OpOk(op, ViewsOf(tracks)) && op.Copy?
    ensures op.from < |tracks| && op.node < |tracks[op.from].meta|
    ensures var m := tracks[op.from].meta[op.node];
      NodeOk(m) && ViewsOf(tracks)[op.from][op.node] == Entry(KeyOf(m), ValueOf(m))
  {
    Parts(tracks, cache);
    var from := tracks[op.from].meta;
    assert Metas(tracks)[op.from] == from;
    hide cache.Valid, Library, Total, WellFormed;
    NodeAt(from, op.node);
  }

  lemma Parts(tracks: seq<PlayItem>, cache: Table)
    requires Library(tracks, cache)
    ensures cache.Valid() && cache.refs == Total(Metas(tracks))
    ensures forall i :: 0 <= i < |tracks| ==> WellFormed(tracks[i].meta)
    ensures forall i, j :: 0 <= i < j < |tracks| ==> tracks[i] != tracks[j]
  {
  }

  lemma NodeAt(l: seq<Meta>, i: nat)
    requires WellFormed(l) && i < |l|
    ensures NodeOk(l[i]) && View(l)[i] == Entry(KeyOf(l[i]), ValueOf(l[i]))
  {
  }

  lemma EffectIs(op: Op, views: seq<seq<Entry>>)
    requires OpOk(op, views) && ValuesTerminated(views[op.t])
    ensures op.Add? || op.Append? || op.Replace? ==> 0 !in op.key && Terminated(op.value)
    ensures op.Add? || op.Replace? ==> op.value != []
    ensures op.Replace? ==> StrLen(op.value) + 1 == |op.value|
    ensures op.Copy? ==> op.from < |views| && op.node < |views[op.from]|
    ensures var v, e := views[op.t], Effect(op, views);
      && (op.Add? ==> e == AddFull(v, op.key, op.value))
      && (op.Append? ==> e == MetaSpec.Append(v, op.key, op.value))
      && (op.Replace? ==> e == MetaSpec.Replace(v, op.key, op.value))
      && (op.Delete? ==> e == MetaSpec.Delete(v, op.key))
      && (op.DeleteAll? ==> e == MetaSpec.DeleteAll(v))
      && (op.Copy? ==> e == AddCopy(v, views[op.from][op.node]))
  {
  }

  lemma After(tracks: seq<PlayItem>, op: Op, metas: seq<seq<Meta>>, refs: multiset<CacheStr>, cache: Table)
    requires |metas| == |tracks| && op.t < |tracks| && refs == Total(metas)
    requires forall i :: 0 <= i < |tracks| ==> (i != op.t ==> tracks[i].meta == metas[i]) && WellFormed(tracks[i].meta)
    requires forall i, j :: 0 <= i < j < |tracks| ==> tracks[i] != tracks[j]
    requires cache.Valid() && Balanced(refs, Handles(metas[op.t]), cache.refs, Handles(tracks[op.t].meta))
    ensures Library(tracks, cache) && ViewsOf(tracks) == Views(metas)[op.t := View(tracks[op.t].meta)]
  {
    hide cache.Valid, Total, Handles, WellFormed, View, Balanced;
    var l := tracks[op.t].meta;
    assert Metas(tracks) == metas[op.t := l];
    TotalUpdate(metas, op.t, l);
    BalancedUnique(refs, Handles(metas[op.t]), cache.refs, Total(Metas(tracks)), Handles(l));
  }

  // ----- runs ------------------------------------------------------------------------------

  /** The lists after the operations, on keys and values alone. */
  ghost function Effects(ops: seq<Op>, views: seq<seq<Entry>>): seq<seq<Entry>>
    requires RunOk(ops, views)
  {
    if ops == [] then views else Effects(ops[1..], views[ops[0].t := Effect(ops[0], views)])
  }

  ghost predicate RunOk(ops: seq<Op>, views: seq<seq<Entry>>) {
    ops == [] || (
      && OpOk(ops[0], views) && ValuesTerminated(views[ops[0].t])
      && RunOk(ops[1..], views[ops[0].t := Effect(ops[0], views)]))
  }

  /** Any run of operations over any number of tracks does to the lists what the specification
      says, and the table stays exactly the strings in use, counted exactly. */
  method Run(tracks: seq<PlayItem>, ops: seq<Op>, cache: Table)
    requires Library(tracks, cache) && RunOk(ops, ViewsOf(tracks))
    modifies tracks`meta, cache`refs, cache.hash, (set x | x in cache.refs)`refcount
    ensures Library(tracks, cache) && ViewsOf(tracks) == Effects(ops, old(ViewsOf(tracks)))
  {
    hide Library, ViewsOf, Effect;
    var rest := ops;
    while rest != []
      invariant Library(tracks, cache) && RunOk(rest, ViewsOf(tracks))
      invariant Effects(rest, ViewsOf(tracks)) == Effects(ops, old(ViewsOf(tracks)))
      invariant forall e :: e in cache.refs ==> e in old(cache.refs) || fresh(e)
      decreases |rest|
    {
      Perform(tracks, rest[0], cache);
      rest := rest[1..];
    }
  }

  /** The intern table of a library: a string has an entry exactly when some key or value uses it,
      one entry only, in the bucket of its hash, counted once per use; handles are equal exactly
      when their bytes are. */
  lemma TableIsUse(tracks: seq<PlayItem>, cache: Table, e: CacheStr, f: CacheStr)
    requires Library(tracks, cache)
    ensures var chains, uses := cache.hash[..], Total(Metas(tracks));
      && |chains| == HASH_SIZE
      && (e in uses <==> exists h, i :: 0 <= h < HASH_SIZE && 0 <= i < |chains[h]| && chains[h][i] == e)
      && (forall h, i :: 0 <= h < HASH_SIZE && 0 <= i < |chains[h]| && chains[h][i] == e ==> h == Bucket(e.str))
      && (e in uses ==> e.refcount == uses[e])
      && (e in uses && f in uses ==> (e == f <==> e.str == f.str))
  {
    var chains := cache.hash[..];
    hide Bucket;
    if e in cache.refs && f in cache.refs {
      cache.HandlesAreContents(e, f);
    }
    if e in cache.refs {
      var i :| 0 <= i < |chains[Bucket(e.str)]| && chains[Bucket(e.str)][i] == e;
    }
  }

  // ----- the leak of pl_item_free ----------------------------------------------------------

  ghost function Keys(l: seq<Meta>): multiset<CacheStr> {
    if l == [] then multiset{} else multiset{l[0].key} + Keys(l[1..])
  }

  /** pl_item_free releases the values of a track, but not its keys. */
  method ItemFree(it: PlayItem, cache: Table)
    requires Held(it, cache)
    modifies it`meta, cache`refs, cache.hash, (set x | x in cache.refs)`refcount
    ensures cache.Valid() && it.meta == []
    ensures Balanced(old(cache.refs), Handles(old(it.meta)), cache.refs, Keys(old(it.meta)))
  {
    hide *;
    HeldParts(it, cache);
    ghost var l, refs := it.meta, cache.refs;
    NothingFreed(l, refs);
    while it.meta != []
      invariant cache.Valid() && Leaking(refs, Handles(l), cache.refs, it.meta, Keys(l))
      invariant forall i :: 0 <= i < |it.meta| ==> it.meta[i].value != null
      invariant forall e :: e in cache.refs ==> e in old(cache.refs)
      decreases |it.meta|
    {
      ValueFreed(refs, Handles(l), cache.refs, it.meta, Keys(l));
      DropRef(cache, it.meta[0].value);
      it.meta := it.meta[1..];
    }
    AllFreed(refs, Handles(l), cache.refs, Keys(l));
  }

  /** `rest` is still to be freed: its references are held, and what is gone is made up of values. */
  ghost predicate Leaking(refs0: multiset<CacheStr>, held0: multiset<CacheStr>, refs: multiset<CacheStr>,
                          rest: seq<Meta>, keys: multiset<CacheStr>)
  {
    && Handles(rest) <= refs
    && refs + held0 + Keys(rest) == refs0 + Handles(rest) + keys
  }

  lemma NothingFreed(l: seq<Meta>, refs: multiset<CacheStr>)
    requires WellFormed(l) && Handles(l) <= refs
    ensures Leaking(refs, Handles(l), refs, l, Keys(l))
    ensures forall i :: 0 <= i < |l| ==> l[i].value != null
  {
    assert forall i :: 0 <= i < |l| ==> NodeOk(l[i]);
  }

  lemma ValueFreed(refs0: multiset<CacheStr>, held0: multiset<CacheStr>, refs: multiset<CacheStr>,
                   rest: seq<Meta>, keys: multiset<CacheStr>)
    requires rest != [] && rest[0].value != null && Leaking(refs0, held0, refs, rest, keys)
    ensures rest[0].value in refs && Leaking(refs0, held0, refs - multiset{rest[0].value}, rest[1..], keys)
  {
    var k, v := rest[0].key, rest[0].value;
    assert Handles(rest) == multiset{k, v} + Handles(rest[1..]) && Keys(rest) == multiset{k} + Keys(rest[1..]);
    FreeStep(refs0, held0, refs, Handles(rest[1..]), Keys(rest[1..]), keys, k, v);
  }

  lemma FreeStep(refs0: multiset<CacheStr>, held0: multiset<CacheStr>, refs: multiset<CacheStr>,
                 held: multiset<CacheStr>, left: multiset<CacheStr>, keys: multiset<CacheStr>, k: CacheStr, v: CacheStr)
    requires multiset{k, v} + held <= refs
    requires refs + held0 + (multiset{k} + left) == refs0 + (multiset{k, v} + held) + keys
    ensures v in refs && held <= refs - multiset{v}
    ensures refs - multiset{v} + held0 + left == refs0 + held + keys
  {
    assert forall e :: (multiset{k, v} + held)[e] <= refs[e];
    assert multiset{k, v}[v] >= 1;
    forall e
      ensures (refs - multiset{v} + held0 + left)[e] == (refs0 + held + keys)[e]
    {
      assert (refs + held0 + (multiset{k} + left))[e] == (refs0 + (multiset{k, v} + held) + keys)[e];
      assert multiset{k, v}[e] == multiset{k}[e] + multiset{v}[e];
    }
  }

  lemma AllFreed(refs0: multiset<CacheStr>, held0: multiset<CacheStr>, refs: multiset<CacheStr>,
                 keys: multiset<CacheStr>)
    requires Leaking(refs0, held0, refs, [], keys)
    ensures Balanced(refs0, held0, refs, keys)
  {
    assert refs + held0 + multiset{} == refs + held0 && refs0 + multiset{} + keys == refs0 + keys;
  }

  /** Freeing track `t` leaves the table counting exactly the other tracks if and only if the track
      had no metadata; otherwise its keys stay behind. */
  lemma FreeLeaks(metas: seq<seq<Meta>>, t: nat, refs: multiset<CacheStr>)
    requires t < |metas| && Balanced(Total(metas), Handles(metas[t]), refs, Keys(metas[t]))
    ensures refs == Total(metas[t := []]) + Keys(metas[t])
    ensures refs == Total(metas[t := []]) <==> metas[t] == []
  {
    TotalUpdate(metas, t, []);
    if metas[t] != [] {
      assert Keys(metas[t])[metas[t][0].key] >= 1;
    } else {
      assert Keys(metas[t]) == multiset{};
    }
    var keys, rest := Keys(metas[t]), Total(metas[t := []]);
    assert Handles([]) == multiset{};
    hide *;
    LeftOver(Total(metas), Handles(metas[t]), refs, rest, keys);
  }

  lemma LeftOver(total: multiset<CacheStr>, held: multiset<CacheStr>, refs: multiset<CacheStr>,
                 rest: multiset<CacheStr>, keys: multiset<CacheStr>)
    requires Balanced(total, held, refs, keys) && Balanced(total, held, rest, multiset{})
    ensures refs == rest + keys && (refs == rest <==> keys == multiset{})
  {
    forall e
      ensures refs[e] == (rest + keys)[e]
    {
      assert (refs + held)[e] == (total + keys)[e] && (rest + held)[e] == (total + multiset{})[e];
    }
    assert refs == rest + keys;
    if refs == rest {
      assert forall e :: refs[e] == rest[e] + keys[e];
    }
  }

  /** The only track there is gets a key, and it is freed: the table still holds the key. */
  method KeyLeaks(key: seq<byte>, value: seq<byte>) returns (cache: Table)
    requires 0 !in key && Terminated(value) && value != [] && value[0] != 0
    ensures cache.Valid() && |cache.refs| > 0
  {
    hide *;
    cache := new Table();
    var it := new PlayItem();
    NewTrack(it.meta, key, value);
    AddMetaFull(it, key, value, cache);
    ghost var l := it.meta;
    OneKey(l, cache.refs, key, value);
    Holds(it, cache);
    ItemFree(it, cache);
    FreeLeaks([l], 0, cache.refs);
    assert [l][0 := []] == [[]];
    assert cache.refs != multiset{};
  }

  lemma NewTrack(l: seq<Meta>, key: seq<byte>, value: seq<byte>)
    requires l == [] && Terminated(value) && value != [] && value[0] != 0
    ensures WellFormed(l) && View(l) == [] && Handles(l) == multiset{} && |AddFull([], key, value)| == 1
  {
    hide Stored, StoredKey;
  }

  lemma OneKey(l: seq<Meta>, refs: multiset<CacheStr>, key: seq<byte>, value: seq<byte>)
    requires Terminated(value) && value != [] && View(l) == AddFull([], key, value) && |AddFull([], key, value)| == 1
    requires Balanced(multiset{}, multiset{}, refs, Handles(l))
    ensures l != [] && refs == Total([l]) && Total([[]]) == multiset{} && Handles(l) <= refs
  {
    hide AddFull;
    var none: seq<seq<Meta>> := [];
    assert [l][1..] == none && [[]][1..] == none;
    assert refs + multiset{} == refs && multiset{} + Handles(l) == Handles(l) == Handles(l) + multiset{};
    assert Total(none) == multiset{} && Total([l]) == Handles(l) + Total(none);
  }

  /** With a title, say. */
  method TitleLeaks() returns (cache: Table)
    ensures cache.Valid() && |cache.refs| > 0
  {
    cache := KeyLeaks([116, 105, 116, 108, 101], [65, 0]);
  }

  // ----- comparing handles instead of strings ----------------------------------------------

  datatype Option<T> = None | Some(value: T)

  function Raw(v: seq<Entry>, key: seq<byte>): Option<seq<byte>> {
    if Find(v, key) < |v| then Some(v[Find(v, key)].value) else None
  }

  /** The value of the first of the keys that is there. */
  function FirstOf(v: seq<Entry>, keys: seq<seq<byte>>): Option<seq<byte>> {
    if keys == [] then None
    else if Raw(v, keys[0]).Some? then Raw(v, keys[0])
    else FirstOf(v, keys[1..])
  }

  const ALBUM_KEY := Ascii("album")
  const ARTIST_KEYS := [Ascii("band"), Ascii("album artist"), Ascii("albumartist"), Ascii("artist")]

  ghost predicate Denotes(h: CacheStr?, value: Option<seq<byte>>, cache: Table)
    reads cache
  {
    if h == null then value.None? else h in cache.refs && value == Some(h.str)
  }

  /** pl_find_meta_raw */
  method FindMetaRaw(tracks: seq<PlayItem>, t: nat, key: seq<byte>, cache: Table) returns (h: CacheStr?)
    requires Library(tracks, cache) && t < |tracks|
    ensures Denotes(h, Raw(View(tracks[t].meta), key), cache)
  {
    var f := MetaForKey(tracks[t].meta, key);
    if f == |tracks[t].meta| {
      return null;
    }
    InUse(tracks, t, cache);
    hide cache.Valid, Total, Ordered, Find;
    ValueHeld(tracks[t], f, cache);
    ValueAt(tracks[t].meta, f);
    return tracks[t].meta[f].value;
  }

  lemma InUse(tracks: seq<PlayItem>, t: nat, cache: Table)
    requires Library(tracks, cache) && t < |tracks|
    ensures Held(tracks[t], cache)
  {
    assert Metas(tracks)[t] == tracks[t].meta;
    TotalUpdate(Metas(tracks), t, []);
  }

  lemma SameHandle(a: CacheStr?, b: CacheStr?, va: Option<seq<byte>>, vb: Option<seq<byte>>, cache: Table)
    requires cache.Valid() && Denotes(a, va, cache) && Denotes(b, vb, cache)
    ensures a == b <==> va == vb
  {
    if a != null && b != null {
      cache.HandlesAreContents(a, b);
    }
  }

  method SameRaw(tracks: seq<PlayItem>, a: nat, b: nat, key: seq<byte>, cache: Table) returns (same: bool)
    requires Library(tracks, cache) && a < |tracks| && b < |tracks|
    ensures same <==> Raw(View(tracks[a].meta), key) == Raw(View(tracks[b].meta), key)
  {
    assert cache.Valid();
    hide *;
    var x := FindMetaRaw(tracks, a, key, cache);
    var y := FindMetaRaw(tracks, b, key, cache);
    SameHandle(x, y, Raw(View(tracks[a].meta), key), Raw(View(tracks[b].meta), key), cache);
    return x == y;
  }

  /** The search through `all` has `keys` left: `h` is what it found so far. */
  ghost predicate Searching(h: CacheStr?, v: seq<Entry>, all: seq<seq<byte>>, keys: seq<seq<byte>>, cache: Table)
    reads cache
  {
    && (h != null ==> Denotes(h, FirstOf(v, all), cache))
    && (h == null ==> FirstOf(v, all) == FirstOf(v, keys))
  }

  lemma NotYet(v: seq<Entry>, all: seq<seq<byte>>, cache: Table)
    ensures Searching(null, v, all, all, cache)
  {
  }

  lemma NextKey(h: CacheStr?, v: seq<Entry>, all: seq<seq<byte>>, keys: seq<seq<byte>>, cache: Table)
    requires keys != [] && Searching(null, v, all, keys, cache) && Denotes(h, Raw(v, keys[0]), cache)
    ensures Searching(h, v, all, keys[1..], cache)
  {
    hide Raw;
  }

  lemma AlreadyFound(h: CacheStr, v: seq<Entry>, all: seq<seq<byte>>, keys: seq<seq<byte>>, cache: Table)
    requires keys != [] && Searching(h, v, all, keys, cache)
    ensures Searching(h, v, all, keys[1..], cache)
  {
  }

  lemma Searched(h: CacheStr?, v: seq<Entry>, all: seq<seq<byte>>, keys: seq<seq<byte>>, cache: Table)
    requires Searching(h, v, all, keys, cache) && (keys == [] || h != null)
    ensures Denotes(h, FirstOf(v, all), cache)
  {
  }

  method TryKey(tracks: seq<PlayItem>, t: nat, h: CacheStr?, all: seq<seq<byte>>, keys: seq<seq<byte>>, cache: Table)
    returns (r: CacheStr?)
    requires Library(tracks, cache) && t < |tracks| && keys != []
    requires Searching(h, View(tracks[t].meta), all, keys, cache)
    ensures Searching(r, View(tracks[t].meta), all, keys[1..], cache)
  {
    hide *;
    r := h;
    if r == null {
      r := FindMetaRaw(tracks, t, keys[0], cache);
      NextKey(r, View(tracks[t].meta), all, keys, cache);
    } else {
      AlreadyFound(r, View(tracks[t].meta), all, keys, cache);
    }
  }

  lemma Compared(a: CacheStr?, b: CacheStr?, va: seq<Entry>, vb: seq<Entry>, all: seq<seq<byte>>,
                 keys: seq<seq<byte>>, cache: Table)
    requires cache.Valid() && Searching(a, va, all, keys, cache) && Searching(b, vb, all, keys, cache)
    requires keys == [] || (a != null && b != null)
    ensures a == b <==> FirstOf(va, all) == FirstOf(vb, all)
  {
    hide *;
    Searched(a, va, all, keys, cache);
    Searched(b, vb, all, keys, cache);
    SameHandle(a, b, FirstOf(va, all), FirstOf(vb, all), cache);
  }

  /** The loop over the artist keys, for both tracks at once. */
  method SameFirst(tracks: seq<PlayItem>, a: nat, b: nat, all: seq<seq<byte>>, cache: Table) returns (same: bool)
    requires Library(tracks, cache) && a < |tracks| && b < |tracks|
    ensures same <==> FirstOf(View(tracks[a].meta), all) == FirstOf(View(tracks[b].meta), all)
  {
    hide *;
    Parts(tracks, cache);
    ghost var va, vb := View(tracks[a].meta), View(tracks[b].meta);
    var aArtist: CacheStr?, bArtist: CacheStr? := null, null;
    var keys := all;
    NotYet(va, all, cache);
    NotYet(vb, all, cache);
    while keys != []
      invariant Searching(aArtist, va, all, keys, cache) && Searching(bArtist, vb, all, keys, cache)
      decreases |keys|
    {
      aArtist := TryKey(tracks, a, aArtist, all, keys, cache);
      bArtist := TryKey(tracks, b, bArtist, all, keys, cache);
      keys := keys[1..];
      if aArtist != null && bArtist != null {
        break;
      }
    }
    Compared(aArtist, bArtist, va, vb, all, keys, cache);
    return aArtist == bArtist;
  }

  /** pl_items_from_same_album compares pointers, and so compares the strings. */
  method ItemsFromSameAlbum(tracks: seq<PlayItem>, a: nat, b: nat, cache: Table) returns (same: bool)
    requires Library(tracks, cache) && a < |tracks| && b < |tracks|
    ensures var va, vb := View(tracks[a].meta), View(tracks[b].meta);
      var artists := [Ascii("band"), Ascii("album artist"), Ascii("albumartist"), Ascii("artist")];
      same <==> Raw(va, Ascii("album")) == Raw(vb, Ascii("album")) && FirstOf(va, artists) == FirstOf(vb, artists)
  {
    hide *;
    AlbumKeys();
    var sameArtist := SameFirst(tracks, a, b, ARTIST_KEYS, cache);
    var sameAlbum := SameRaw(tracks, a, b, ALBUM_KEY, cache);
    return sameAlbum && sameArtist;
  }

  lemma AlbumKeys()
    ensures ALBUM_KEY == Ascii("album")
    ensures ARTIST_KEYS == [Ascii("band"), Ascii("album artist"), Ascii("albumartist"), Ascii("artist")]
  {
  }
}
