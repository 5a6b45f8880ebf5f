/** Metadata lists as values: what the operations of src/plmeta.c do to the keys and values of a
    track, and the ordering discipline they keep. */
module MetaSpec {
  import opened PlayItems

  /** A key without its terminating zero, a value with all its zeros. */
  datatype Entry = Entry(key: seq<byte>, value: seq<byte>)

  // ----- keys -----------------------------------------------------------------------------

  function ToLower(b: byte): byte {
    if 65 <= b <= 90 then b + 32 else b
  }

  function Fold(s: seq<byte>): (r: seq<byte>)
    ensures |r| == |s|
  {
    seq(|s|, i requires 0 <= i < |s| => ToLower(s[i]))
  }

  /** strcasecmp finds the keys equal. */
  predicate SameKey(a: seq<byte>, b: seq<byte>) {
    Fold(a) == Fold(b)
  }

  const COLON: byte := 58
  const UNDERSCORE: byte := 95
  const BANG: byte := 33

  function First(key: seq<byte>): byte {
    if key == [] then 0 else key[0]
  }

  /** Properties and overrides start with one of ':', '_', '!'; all other keys are plain. */
  predicate IsProp(key: seq<byte>) {
    First(key) == COLON || First(key) == UNDERSCORE || First(key) == BANG
  }

  function StoredKey(key: seq<byte>): seq<byte> {
    if First(key) == COLON then key else Fold(key)
  }

  lemma FoldTwice(s: seq<byte>)
    ensures Fold(Fold(s)) == Fold(s)
  {
  }

  lemma FoldKeepsKind(a: seq<byte>, b: seq<byte>)
    requires SameKey(a, b)
    ensures IsProp(a) == IsProp(b) && (First(a) == COLON <==> First(b) == COLON)
  {
    if a != [] {
      assert Fold(a)[0] == Fold(b)[0];
    }
  }

  lemma StoredKeySame(key: seq<byte>)
    ensures SameKey(StoredKey(key), key) && IsProp(StoredKey(key)) == IsProp(key)
    ensures First(StoredKey(key)) != COLON ==> StoredKey(key) == Fold(StoredKey(key))
  {
    FoldTwice(key);
    FoldKeepsKind(StoredKey(key), key);
  }

  // ----- multi-values ---------------------------------------------------------------------

  /** The length of the C string at the front of `v`. */
  function StrLen(v: seq<byte>): (n: nat)
    ensures n <= |v|
    ensures forall i :: 0 <= i < n ==> v[i] != 0
    ensures n < |v| ==> v[n] == 0
  {
    if v == [] || v[0] == 0 then 0 else 1 + StrLen(v[1..])
  }

  /** A buffer of zero-terminated strings. */
  predicate Terminated(v: seq<byte>) {
    v != [] ==> v[|v| - 1] == 0
  }

  lemma StrLenInside(v: seq<byte>)
    requires Terminated(v) && v != []
    ensures StrLen(v) < |v| && Terminated(v[StrLen(v) + 1..])
  {
  }

  function Parts(v: seq<byte>): seq<seq<byte>>
    requires Terminated(v)
  {
    if v == [] then []
    else
      StrLenInside(v);
      [v[..StrLen(v)]] + Parts(v[StrLen(v) + 1..])
  }

  function Join(parts: seq<seq<byte>>): seq<byte> {
    if parts == [] then [] else parts[0] + [0] + Join(parts[1..])
  }

  function NonEmpty(parts: seq<seq<byte>>): seq<seq<byte>> {
    if parts == [] then []
    else if parts[0] == [] then NonEmpty(parts[1..])
    else [parts[0]] + NonEmpty(parts[1..])
  }

  function Unknown(known: seq<seq<byte>>, parts: seq<seq<byte>>): seq<seq<byte>> {
    if parts == [] then []
    else if parts[0] in known then Unknown(known, parts[1..])
    else [parts[0]] + Unknown(known, parts[1..])
  }

  /** What _meta_set_value stores: a single string as it is, of several only the non-empty ones. */
  function Stored(value: seq<byte>): seq<byte>
    requires Terminated(value) && value != []
  {
    if StrLen(value) + 1 == |value| then value
    else
      var kept := Join(NonEmpty(Parts(value)));
      if kept == [] then [0] else kept
  }

  /** The known strings, then the new ones that are not among them. */
  function Combined(old_: seq<byte>, new_: seq<byte>): seq<byte>
    requires Terminated(old_) && Terminated(new_)
  {
    old_ + Join(Unknown(Parts(old_), Parts(new_)))
  }

  lemma {:induction false} JoinTerminated(parts: seq<seq<byte>>)
    ensures Terminated(Join(parts))
    ensures Join(parts) == [] <==> parts == []
  {
    if parts != [] {
      JoinTerminated(parts[1..]);
    }
  }

  lemma StoredTerminated(value: seq<byte>)
    requires Terminated(value) && value != []
    ensures Terminated(Stored(value)) && Stored(value) != []
  {
    JoinTerminated(NonEmpty(Parts(value)));
  }

  lemma CombinedTerminated(a: seq<byte>, b: seq<byte>)
    requires Terminated(a) && Terminated(b) && a != []
    ensures Terminated(Combined(a, b)) && Combined(a, b) != []
  {
    JoinTerminated(Unknown(Parts(a), Parts(b)));
  }

  lemma {:induction false} PartsAppend(a: seq<byte>, b: seq<byte>)
    requires Terminated(a) && Terminated(b)
    ensures Terminated(a + b) && Parts(a + b) == Parts(a) + Parts(b)
    decreases |a|
  {
    if a == [] {
      assert a + b == b;
    } else {
      hide Parts, StrLen;
      PartsHead(a);
      var n, ab := StrLen(a), a + b;
      assert ab[|ab| - 1] == if b == [] then a[|a| - 1] else b[|b| - 1];
      PartsHead(ab);
      StrLenUnique(ab, n);
      AppendSlices(a, b, n);
      PartsAppend(a[n + 1..], b);
      PrefixAssoc([a[..n]], Parts(a[n + 1..]), Parts(b));
    }
  }

  lemma {:induction false} PartsHead(v: seq<byte>)
    requires Terminated(v) && v != []
    ensures StrLen(v) < |v| && Terminated(v[StrLen(v) + 1..])
    ensures Parts(v) == [v[..StrLen(v)]] + Parts(v[StrLen(v) + 1..])
  {
    StrLenInside(v);
    hide StrLen;
  }

  lemma AppendSlices<T>(a: seq<T>, b: seq<T>, n: nat)
    requires n < |a|
    ensures (a + b)[..n] == a[..n] && (a + b)[n + 1..] == a[n + 1..] + b
  {
  }

  lemma PrefixAssoc<T>(a: seq<T>, b: seq<T>, c: seq<T>)
    ensures a + (b + c) == (a + b) + c
  {
  }

  lemma StrLenUnique(v: seq<byte>, n: nat)
    requires n < |v| && v[n] == 0 && forall i :: 0 <= i < n ==> v[i] != 0
    ensures StrLen(v) == n
  {
  }

  /** Splitting undoes joining. */
  lemma {:induction false} PartsOfJoin(parts: seq<seq<byte>>)
    requires forall i :: 0 <= i < |parts| ==> 0 !in parts[i]
    ensures Terminated(Join(parts)) && Parts(Join(parts)) == parts
  {
    JoinTerminated(parts);
    if parts != [] {
      var v := Join(parts);
      StrLenUnique(v, |parts[0]|);
      assert v[..|parts[0]|] == parts[0] && v[|parts[0]| + 1..] == Join(parts[1..]);
      PartsOfJoin(parts[1..]);
    }
  }

  lemma {:induction false} PartsHaveNoZero(v: seq<byte>)
    requires Terminated(v)
    ensures forall i :: 0 <= i < |Parts(v)| ==> 0 !in Parts(v)[i]
    decreases |v|
  {
    if v != [] {
      StrLenInside(v);
      PartsHaveNoZero(v[StrLen(v) + 1..]);
    }
  }

  lemma {:induction false} FilterKeepsNoZero(known: seq<seq<byte>>, parts: seq<seq<byte>>)
    requires forall i :: 0 <= i < |parts| ==> 0 !in parts[i]
    ensures forall i :: 0 <= i < |NonEmpty(parts)| ==> 0 !in NonEmpty(parts)[i] && NonEmpty(parts)[i] != []
    ensures forall i :: 0 <= i < |Unknown(known, parts)| ==>
      0 !in Unknown(known, parts)[i] && Unknown(known, parts)[i] !in known
  {
    if parts != [] {
      FilterKeepsNoZero(known, parts[1..]);
    }
  }

  /** Appending keeps every string there was, in place, and adds exactly the unknown ones. */
  lemma CombinedParts(a: seq<byte>, b: seq<byte>)
    requires Terminated(a) && Terminated(b)
    ensures Terminated(Combined(a, b))
    ensures Parts(Combined(a, b)) == Parts(a) + Unknown(Parts(a), Parts(b))
  {
    var fresh_ := Unknown(Parts(a), Parts(b));
    PartsHaveNoZero(b);
    FilterKeepsNoZero(Parts(a), Parts(b));
    PartsOfJoin(fresh_);
    PartsAppend(a, Join(fresh_));
  }

  /** A stored multi-value has no empty string among its parts. */
  lemma StoredParts(value: seq<byte>)
    requires Terminated(value) && value != [] && value[0] != 0
    ensures Terminated(Stored(value)) && Parts(Stored(value)) == NonEmpty(Parts(value))
  {
    StrLenInside(value);
    PartsHaveNoZero(value);
    FilterKeepsNoZero([], Parts(value));
    PartsOfJoin(NonEmpty(Parts(value)));
    if StrLen(value) + 1 == |value| {
      assert value[StrLen(value) + 1..] == [];
      assert Parts(value) == [value[..StrLen(value)]];
      assert NonEmpty([]) == [];
    }
  }

  // ----- the list operations ---------------------------------------------------------------

  /** The first node whose key matches ignoring case, or the length of the list. */
  function Find(v: seq<Entry>, key: seq<byte>): (f: nat)
    ensures f <= |v|
    ensures f < |v| ==> SameKey(v[f].key, key)
    ensures forall i :: 0 <= i < f ==> !SameKey(v[i].key, key)
  {
    if v == [] || SameKey(v[0].key, key) then 0 else 1 + Find(v[1..], key)
  }

  /** The first node that is a property or the last of the list. */
  function Boundary(v: seq<Entry>): (b: nat)
    ensures b <= |v| && (v != [] ==> b < |v|)
    ensures forall i :: 0 <= i < b ==> !IsProp(v[i].key)
    ensures b < |v| ==> IsProp(v[b].key) || b == |v| - 1
  {
    if |v| <= 1 || IsProp(v[0].key) then 0 else 1 + Boundary(v[1..])
  }

  /** Where a new node goes: properties at the end; plain keys before the first property, or,
      when there is none, before the last node. */
  function Slot(v: seq<Entry>, key: seq<byte>): (p: nat)
    ensures p <= |v|
  {
    if IsProp(key) then |v| else Boundary(v)
  }

  function Insert(v: seq<Entry>, p: nat, e: Entry): seq<Entry>
    requires p <= |v|
  {
    v[..p] + [e] + v[p..]
  }

  function Remove(v: seq<Entry>, p: nat): seq<Entry>
    requires p < |v|
  {
    v[..p] + v[p + 1..]
  }

  /** pl_add_meta_full */
  function AddFull(v: seq<Entry>, key: seq<byte>, value: seq<byte>): seq<Entry>
    requires Terminated(value) && value != []
  {
    if value[0] == 0 || Find(v, key) < |v| then v
    else Insert(v, Slot(v, key), Entry(StoredKey(key), Stored(value)))
  }

  /** pl_replace_meta, for a single string with its terminating zero. */
  function Replace(v: seq<Entry>, key: seq<byte>, value: seq<byte>): seq<Entry>
    requires Terminated(value) && value != [] && StrLen(value) + 1 == |value|
  {
    var f := Find(v, key);
    if f < |v| then v[f := Entry(v[f].key, value)] else AddFull(v, key, value)
  }

  ghost predicate ValuesTerminated(v: seq<Entry>) {
    forall i :: 0 <= i < |v| ==> Terminated(v[i].value)
  }

  /** pl_append_meta_full */
  ghost function Append(v: seq<Entry>, key: seq<byte>, value: seq<byte>): seq<Entry>
    requires Terminated(value) && ValuesTerminated(v)
  {
    var f := Find(v, key);
    if value == [] || value[0] == 0 then v
    else if f < |v| then v[f := Entry(v[f].key, Combined(v[f].value, value))]
    else AddFull(v, key, value)
  }

  /** pl_delete_meta */
  function Delete(v: seq<Entry>, key: seq<byte>): seq<Entry> {
    if Find(v, key) < |v| then Remove(v, Find(v, key)) else v
  }

  function OnlyProps(v: seq<Entry>): seq<Entry> {
    if v == [] then []
    else if IsProp(v[0].key) then [v[0]] + OnlyProps(v[1..])
    else OnlyProps(v[1..])
  }

  /** pl_add_meta_copy: the value is taken as it is. */
  function AddCopy(v: seq<Entry>, e: Entry): seq<Entry> {
    if Find(v, e.key) < |v| then v else Insert(v, Slot(v, e.key), Entry(StoredKey(e.key), e.value))
  }

  function Ascii(s: string): seq<byte> {
    seq(|s|, i requires 0 <= i < |s| => s[i] as int % 256)
  }

  /** ddb_internal_rg_keys */
  const RG_KEYS := [Ascii(":REPLAYGAIN_ALBUMGAIN"), Ascii(":REPLAYGAIN_ALBUMPEAK"),
                    Ascii(":REPLAYGAIN_TRACKGAIN"), Ascii(":REPLAYGAIN_TRACKPEAK")]

  function DeleteKeys(v: seq<Entry>, keys: seq<seq<byte>>): seq<Entry> {
    if keys == [] then v else DeleteKeys(Delete(v, keys[0]), keys[1..])
  }

  /** pl_delete_all_meta before it resets the flags: every plain key goes, and the ReplayGain fields. */
  function DeleteAll(v: seq<Entry>): seq<Entry> {
    DeleteKeys(OnlyProps(v), RG_KEYS)
  }

  // ----- the ordering discipline ------------------------------------------------------------

  /** Plain keys come first; no two keys are equal ignoring case; all but ':' keys are lower-case. */
  ghost predicate Ordered(v: seq<Entry>) {
    && (forall i, j :: 0 <= i < j < |v| && IsProp(v[i].key) ==> IsProp(v[j].key))
    && (forall i, j :: 0 <= i < j < |v| ==> !SameKey(v[i].key, v[j].key))
    && (forall i :: 0 <= i < |v| && First(v[i].key) != COLON ==> v[i].key == Fold(v[i].key))
  }

  lemma InsertKeepsOrder(v: seq<Entry>, key: seq<byte>, value: seq<byte>)
    requires Ordered(v) && Find(v, key) == |v|
    ensures Ordered(Insert(v, Slot(v, key), Entry(StoredKey(key), value)))
  {
    StoredKeySame(key);
    var p, e := Slot(v, key), Entry(StoredKey(key), value);
    assert if IsProp(key) then p == |v| else forall i :: 0 <= i < p ==> !IsProp(v[i].key);
    assert forall i :: 0 <= i < |v| ==> !SameKey(v[i].key, key);
    hide Fold, First, IsProp, Find, Slot, StoredKey;
    InsertInOrder(v, p, e);
  }

  lemma InsertInOrder(v: seq<Entry>, p: nat, e: Entry)
    requires Ordered(v) && p <= |v|
    requires if IsProp(e.key) then p == |v| else forall i :: 0 <= i < p ==> !IsProp(v[i].key)
    requires forall i :: 0 <= i < |v| ==> !SameKey(v[i].key, e.key)
    requires First(e.key) != COLON ==> e.key == Fold(e.key)
    ensures Ordered(Insert(v, p, e))
  {
    hide Fold, First, IsProp;
    var r := Insert(v, p, e);
    forall i | 0 <= i < |r|
      ensures r[i] == if i < p then v[i] else if i == p then e else v[i - 1]
    {
    }
  }

  lemma RemoveKeepsOrder(v: seq<Entry>, p: nat)
    requires Ordered(v) && p < |v|
    ensures Ordered(Remove(v, p))
  {
    hide Fold, First, IsProp;
    var r := Remove(v, p);
    assert forall i :: 0 <= i < |r| ==> r[i] == v[if i < p then i else i + 1];
  }

  lemma UpdateKeepsOrder(v: seq<Entry>, p: nat, value: seq<byte>)
    requires Ordered(v) && p < |v|
    ensures Ordered(v[p := Entry(v[p].key, value)])
  {
    hide Fold, First, IsProp;
    var r := v[p := Entry(v[p].key, value)];
    assert forall i :: 0 <= i < |r| ==> r[i].key == v[i].key;
  }

  lemma {:induction false} OnlyPropsKeepsOrder(v: seq<Entry>)
    requires Ordered(v)
    ensures Ordered(OnlyProps(v))
    ensures forall e :: e in OnlyProps(v) <==> e in v && IsProp(e.key)
  {
    hide Fold, First, IsProp;
    if v != [] {
      OnlyPropsKeepsOrder(v[1..]);
      if IsProp(v[0].key) {
        var rest := OnlyProps(v[1..]);
        forall i | 0 <= i < |rest|
          ensures !SameKey(v[0].key, rest[i].key) && IsProp(rest[i].key)
        {
          assert rest[i] in v[1..];
        }
        PropInFront(v[0], rest);
      }
    }
  }

  lemma PropInFront(e: Entry, rest: seq<Entry>)
    requires Ordered(rest) && forall i :: 0 <= i < |rest| ==> !SameKey(e.key, rest[i].key) && IsProp(rest[i].key)
    requires First(e.key) != COLON ==> e.key == Fold(e.key)
    ensures Ordered([e] + rest)
  {
    hide Fold, First, IsProp;
    var r := [e] + rest;
    forall i | 0 <= i < |r|
      ensures r[i] == if i == 0 then e else rest[i - 1]
    {
    }
  }
}
