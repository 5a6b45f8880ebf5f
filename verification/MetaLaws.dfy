/** What each operation of src/plmeta.c does to the list of a track, said of bytes and places alone. */
module MetaLaws {
  import opened PlayItems
  import opened MetaSpec
  import opened Selections
  import MetaRuns

  // ----- keys ------------------------------------------------------------------------------

  /** Two letters that differ in case at most, or the same byte. */
  predicate SameLetter(a: byte, b: byte) {
    a == b || (65 <= a <= 90 && b == a + 32) || (65 <= b <= 90 && a == b + 32)
  }

  lemma SameKeyIs(a: seq<byte>, b: seq<byte>)
    ensures SameKey(a, b) <==> |a| == |b| && forall i :: 0 <= i < |a| ==> SameLetter(a[i], b[i])
  {
    if SameKey(a, b) {
      assert |Fold(a)| == |Fold(b)|;
      forall i | 0 <= i < |a| ensures SameLetter(a[i], b[i]) {
        assert Fold(a)[i] == Fold(b)[i];
      }
    }
    if |a| == |b| && forall i :: 0 <= i < |a| ==> SameLetter(a[i], b[i]) {
      forall i | 0 <= i < |a| ensures Fold(a)[i] == Fold(b)[i] {
        assert SameLetter(a[i], b[i]);
      }
      assert Fold(a) == Fold(b);
    }
  }

  /** Properties start with ':', '_' or '!'. */
  predicate Special(key: seq<byte>) {
    key != [] && (key[0] == 58 || key[0] == 95 || key[0] == 33)
  }

  lemma SpecialIs(key: seq<byte>)
    ensures Special(key) <==> IsProp(key)
  {
  }

  /** A key as it is stored: in lower case, unless it starts with ':'. */
  lemma StoredKeyIs(key: seq<byte>)
    ensures |StoredKey(key)| == |key| && (key != [] && key[0] == 58 ==> StoredKey(key) == key)
    ensures key != [] && key[0] != 58 ==>
      forall i :: 0 <= i < |key| ==> StoredKey(key)[i] == if 65 <= key[i] <= 90 then key[i] + 32 else key[i]
  {
  }

  // ----- values ----------------------------------------------------------------------------

  /** Of several strings the non-empty ones are stored, of a single string all of it. */
  lemma StoredIs(value: seq<byte>)
    requires Terminated(value) && value != [] && value[0] != 0
    ensures Terminated(Stored(value))
    ensures Picks(Parts(value), (p: seq<byte>) => p != [], Parts(Stored(value)))
  {
    StoredParts(value);
    NonEmptyPicks(Parts(value));
  }

  lemma {:induction false} NonEmptyPicks(parts: seq<seq<byte>>)
    ensures Picks(parts, (p: seq<byte>) => p != [], NonEmpty(parts))
  {
    hide Picks;
    var keep := (p: seq<byte>) => p != [];
    if parts == [] {
      PicksNone(parts, keep);
    } else {
      NonEmptyPicks(parts[1..]);
      if parts[0] == [] {
        PicksDrop(parts, keep, NonEmpty(parts[1..]));
      } else {
        PicksTake(parts, keep, NonEmpty(parts[1..]));
      }
    }
  }

  /** Appending keeps the strings there were and adds, in their order, those that are not among them. */
  lemma CombinedIs(a: seq<byte>, b: seq<byte>)
    requires Terminated(a) && Terminated(b)
    ensures Terminated(Combined(a, b))
    ensures var n, r := |Parts(a)|, Parts(Combined(a, b));
      n <= |r| && r[..n] == Parts(a) && Picks(Parts(b), (p: seq<byte>) => p !in Parts(a), r[n..])
  {
    CombinedParts(a, b);
    UnknownPicks(Parts(a), Parts(b));
    var known, new_, r := Parts(a), Unknown(Parts(a), Parts(b)), Parts(Combined(a, b));
    assert r[..|known|] == known && r[|known|..] == new_;
    hide Picks, Parts, Combined, Unknown;
  }

  lemma {:induction false} UnknownPicks(known: seq<seq<byte>>, parts: seq<seq<byte>>)
    ensures Picks(parts, (p: seq<byte>) => p !in known, Unknown(known, parts))
  {
    hide Picks;
    var keep := (p: seq<byte>) => p !in known;
    if parts == [] {
      PicksNone(parts, keep);
    } else {
      UnknownPicks(known, parts[1..]);
      if parts[0] in known {
        PicksDrop(parts, keep, Unknown(known, parts[1..]));
      } else {
        PicksTake(parts, keep, Unknown(known, parts[1..]));
      }
    }
  }

  // ----- one operation ---------------------------------------------------------------------

  predicate There(v: seq<Entry>, key: seq<byte>) {
    exists i :: 0 <= i < |v| && SameKey(v[i].key, key)
  }

  /** A new node: properties go to the end; a plain key goes before the first property, or, when there is none,
      before the last node. */
  ghost predicate PutIn(v: seq<Entry>, e: Entry, r: seq<Entry>) {
    exists p :: 0 <= p <= |v| && r == v[..p] + [e] + v[p..] && PlaceFor(v, e.key, p)
  }

  predicate PlaceFor(v: seq<Entry>, key: seq<byte>, p: nat)
    requires p <= |v|
  {
    if Special(key) then p == |v|
    else
      && (forall i :: 0 <= i < p ==> !Special(v[i].key))
      && (v != [] ==> p < |v| && (Special(v[p].key) || p == |v| - 1))
  }

  lemma FoundOrNot(v: seq<Entry>, key: seq<byte>)
    ensures There(v, key) <==> Find(v, key) < |v|
  {
    hide SameKey;
  }

  lemma SlotFor(v: seq<Entry>, key: seq<byte>)
    ensures PlaceFor(v, key, Slot(v, key))
  {
    forall k ensures Special(k) <==> IsProp(k) {
      SpecialIs(k);
    }
    hide IsProp, Special;
  }

  lemma Inserted(v: seq<Entry>, key: seq<byte>, value: seq<byte>)
    ensures PutIn(v, Entry(StoredKey(key), value), Insert(v, Slot(v, key), Entry(StoredKey(key), value)))
  {
    SlotFor(v, key);
    StoredKeySame(key);
    SpecialIs(key);
    SpecialIs(StoredKey(key));
    hide IsProp, StoredKey, Slot, Special;
    assert PlaceFor(v, StoredKey(key), Slot(v, key));
  }

  /** pl_add_meta_full does nothing for an empty string or a key that is there, and else adds a node. */
  lemma AddLaw(v: seq<Entry>, key: seq<byte>, value: seq<byte>)
    requires Terminated(value) && value != []
    ensures value[0] == 0 || There(v, key) ==> AddFull(v, key, value) == v
    ensures value[0] != 0 && !There(v, key) ==>
      PutIn(v, Entry(StoredKey(key), Stored(value)), AddFull(v, key, value))
  {
    hide PutIn, Stored, StoredKey, Slot, Insert, There, Find;
    FoundOrNot(v, key);
    Inserted(v, key, Stored(value));
  }

  /** pl_replace_meta changes the value of a key that is there, and else adds it. */
  lemma ReplaceLaw(v: seq<Entry>, key: seq<byte>, value: seq<byte>)
    requires Terminated(value) && value != [] && StrLen(value) + 1 == |value|
    ensures There(v, key) ==>
      exists i :: 0 <= i < |v| && FirstAt(v, key, i) && Replace(v, key, value) == v[i := Entry(v[i].key, value)]
    ensures !There(v, key) ==> Replace(v, key, value) == AddFull(v, key, value)
  {
    FoundOrNot(v, key);
    if Find(v, key) < |v| {
      assert FirstAt(v, key, Find(v, key));
    }
    hide SameKey, There, AddFull;
  }

  /** Replacing twice is replacing once, with the second value. */
  lemma ReplaceTwice(v: seq<Entry>, key: seq<byte>, a: seq<byte>, b: seq<byte>)
    requires Terminated(a) && a != [] && StrLen(a) + 1 == |a| && Terminated(b) && b != [] && StrLen(b) + 1 == |b|
    requires a[0] != 0 && b[0] != 0
    ensures Replace(Replace(v, key, a), key, b) == Replace(v, key, b)
  {
    hide *;
    ReplaceIs(v, key, a);
    ReplaceIs(v, key, b);
    ReplaceIs(Replace(v, key, a), key, b);
    if Find(v, key) < |v| {
      FoundAgain(v, key, a);
    } else {
      AddedAgain(v, key, a, b);
    }
  }

  lemma ReplaceIs(v: seq<Entry>, key: seq<byte>, value: seq<byte>)
    requires Terminated(value) && value != [] && StrLen(value) + 1 == |value| && value[0] != 0
    ensures var f := Find(v, key);
      Replace(v, key, value) ==
        if f < |v| then v[f := Entry(v[f].key, value)]
        else Insert(v, Slot(v, key), Entry(StoredKey(key), value))
  {
    hide StoredKey, Slot, Insert;
  }

  lemma FoundAgain(v: seq<Entry>, key: seq<byte>, a: seq<byte>)
    requires Find(v, key) < |v|
    ensures var f := Find(v, key); Find(v[f := Entry(v[f].key, a)], key) == f
  {
    hide SameKey;
    FindAt(v[Find(v, key) := Entry(v[Find(v, key)].key, a)], key, Find(v, key));
  }

  lemma AddedAgain(v: seq<Entry>, key: seq<byte>, a: seq<byte>, b: seq<byte>)
    requires Find(v, key) == |v|
    ensures var p, e, g := Slot(v, key), Entry(StoredKey(key), a), Entry(StoredKey(key), b);
      var r := Insert(v, p, e);
      && p <= |v| && Find(r, key) == p < |r| && r[p] == e
      && r[p := Entry(r[p].key, b)] == Insert(v, p, g)
  {
    StoredKeySame(key);
    hide SameKey, StoredKey, Slot;
    var p := Slot(v, key);
    var r := Insert(v, p, Entry(StoredKey(key), a));
    assert forall i :: 0 <= i < p ==> r[i] == v[i];
    FindAt(r, key, p);
  }

  /** Adding a key a second time does nothing. */
  lemma AddTwice(v: seq<Entry>, key: seq<byte>, a: seq<byte>, b: seq<byte>)
    requires Terminated(a) && a != [] && Terminated(b) && b != [] && a[0] != 0
    ensures AddFull(AddFull(v, key, a), key, b) == AddFull(v, key, a)
  {
    hide SameKey, StoredKey, Slot, Stored;
    if Find(v, key) == |v| {
      StoredKeySame(key);
      var p := Slot(v, key);
      var r := Insert(v, p, Entry(StoredKey(key), Stored(a)));
      assert forall i :: 0 <= i < p ==> r[i] == v[i];
      FindAt(r, key, p);
    }
  }

  lemma FindAt(v: seq<Entry>, key: seq<byte>, f: nat)
    requires f < |v| && SameKey(v[f].key, key) && forall i :: 0 <= i < f ==> !SameKey(v[i].key, key)
    ensures Find(v, key) == f
  {
  }

  /** The first node that has the key ignoring case. */
  predicate FirstAt(v: seq<Entry>, key: seq<byte>, i: nat)
    requires i < |v|
  {
    SameKey(v[i].key, key) && forall j :: 0 <= j < i ==> !SameKey(v[j].key, key)
  }

  /** pl_append_meta_full combines with the value of a key that is there, and else adds it. */
  lemma AppendLaw(v: seq<Entry>, key: seq<byte>, value: seq<byte>)
    requires Terminated(value) && ValuesTerminated(v)
    ensures value == [] || value[0] == 0 ==> Append(v, key, value) == v
    ensures value != [] && value[0] != 0 && There(v, key) ==>
      exists i :: 0 <= i < |v| && FirstAt(v, key, i)
        && Append(v, key, value) == v[i := Entry(v[i].key, Combined(v[i].value, value))]
    ensures value != [] && value[0] != 0 && !There(v, key) ==> Append(v, key, value) == AddFull(v, key, value)
  {
    FoundOrNot(v, key);
    if Find(v, key) < |v| {
      assert FirstAt(v, key, Find(v, key));
    }
    hide SameKey, There, AddFull, Combined;
  }

  /** pl_add_meta_copy does nothing if the key is there, and else adds the value as it is. */
  lemma CopyLaw(v: seq<Entry>, e: Entry)
    ensures There(v, e.key) ==> AddCopy(v, e) == v
    ensures !There(v, e.key) ==> PutIn(v, Entry(StoredKey(e.key), e.value), AddCopy(v, e))
  {
    hide PutIn, StoredKey, Slot, Insert, There, Find;
    FoundOrNot(v, e.key);
    Inserted(v, e.key, e.value);
  }

  /** pl_delete_meta takes out the node that has the key and leaves the others. */
  lemma DeleteLaw(v: seq<Entry>, key: seq<byte>)
    requires Ordered(v)
    ensures Picks(v, (e: Entry) => !SameKey(e.key, key), Delete(v, key))
    ensures Ordered(Delete(v, key))
  {
    hide Picks, Find, SameKey;
    var f, keep := Find(v, key), (e: Entry) => !SameKey(e.key, key);
    if f < |v| {
      OnlyOne(v, key, f);
      RemoveKeepsOrder(v, f);
      RemovePicks(v, keep, f);
    } else {
      assert forall i :: 0 <= i < |v| ==> keep(v[i]);
      AllPicked(v, keep);
    }
  }

  lemma OnlyOne(v: seq<Entry>, key: seq<byte>, f: nat)
    requires Ordered(v) && f < |v| && SameKey(v[f].key, key)
    ensures forall i :: 0 <= i < |v| && i != f ==> !SameKey(v[i].key, key)
  {
  }

  lemma {:induction false} AllPicked(v: seq<Entry>, keep: Entry -> bool)
    requires forall i :: 0 <= i < |v| ==> keep(v[i])
    ensures Picks(v, keep, v)
  {
    hide Picks;
    if v == [] {
      PicksNone(v, keep);
    } else {
      AllPicked(v[1..], keep);
      PicksTake(v, keep, v[1..]);
      assert [v[0]] + v[1..] == v;
    }
  }

  lemma {:induction false} RemovePicks(v: seq<Entry>, keep: Entry -> bool, f: nat)
    requires f < |v| && !keep(v[f]) && forall i :: 0 <= i < |v| && i != f ==> keep(v[i])
    ensures Picks(v, keep, Remove(v, f))
    decreases |v|
  {
    hide Picks;
    if f == 0 {
      assert Remove(v, 0) == v[1..];
      AllPicked(v[1..], keep);
      PicksDrop(v, keep, v[1..]);
    } else {
      RemovePicks(v[1..], keep, f - 1);
      PicksTake(v, keep, Remove(v[1..], f - 1));
      assert [v[0]] + Remove(v[1..], f - 1) == Remove(v, f);
    }
  }

  lemma {:induction false} OnlyPropsPicks(v: seq<Entry>)
    ensures Picks(v, (e: Entry) => Special(e.key), OnlyProps(v))
  {
    hide Picks, Special, IsProp;
    var keep := (e: Entry) => Special(e.key);
    if v == [] {
      PicksNone(v, keep);
    } else {
      SpecialIs(v[0].key);
      OnlyPropsPicks(v[1..]);
      if Special(v[0].key) {
        PicksTake(v, keep, OnlyProps(v[1..]));
      } else {
        PicksDrop(v, keep, OnlyProps(v[1..]));
      }
    }
  }

  lemma {:induction false} DeleteKeysPicks(v: seq<Entry>, keys: seq<seq<byte>>)
    requires Ordered(v)
    ensures Picks(v, (e: Entry) => forall i :: 0 <= i < |keys| ==> !SameKey(e.key, keys[i]), DeleteKeys(v, keys))
    decreases |keys|
  {
    hide Picks, SameKey, Delete, Ordered;
    var none := (e: Entry) => forall i :: 0 <= i < |keys| ==> !SameKey(e.key, keys[i]);
    if keys == [] {
      assert forall i :: 0 <= i < |v| ==> none(v[i]);
      AllPicked(v, none);
    } else {
      var r, rest := Delete(v, keys[0]), keys[1..];
      var first := (e: Entry) => !SameKey(e.key, keys[0]);
      var later := (e: Entry) => forall i :: 0 <= i < |rest| ==> !SameKey(e.key, rest[i]);
      DeleteLaw(v, keys[0]);
      DeleteKeysPicks(r, rest);
      forall i | 0 <= i < |v| ensures none(v[i]) == (first(v[i]) && later(v[i])) {
        assert forall j :: 0 < j < |keys| ==> keys[j] == rest[j - 1];
        assert forall j :: 0 <= j < |rest| ==> rest[j] == keys[j + 1];
      }
      PicksTwice(v, first, r, later, DeleteKeys(r, rest), none);
    }
  }

  /** A ReplayGain field. */
  predicate IsGain(key: seq<byte>) {
    || SameKey(key, Ascii(":REPLAYGAIN_ALBUMGAIN")) || SameKey(key, Ascii(":REPLAYGAIN_ALBUMPEAK"))
    || SameKey(key, Ascii(":REPLAYGAIN_TRACKGAIN")) || SameKey(key, Ascii(":REPLAYGAIN_TRACKPEAK"))
  }

  lemma NoGain(key: seq<byte>)
    ensures (forall i :: 0 <= i < |RG_KEYS| ==> !SameKey(key, RG_KEYS[i])) <==> !IsGain(key)
  {
    assert |RG_KEYS| == 4 && RG_KEYS[0] == Ascii(":REPLAYGAIN_ALBUMGAIN")
      && RG_KEYS[1] == Ascii(":REPLAYGAIN_ALBUMPEAK")
      && RG_KEYS[2] == Ascii(":REPLAYGAIN_TRACKGAIN") && RG_KEYS[3] == Ascii(":REPLAYGAIN_TRACKPEAK");
    hide Ascii, SameKey;
  }

  /** pl_delete_all_meta keeps the properties but the ReplayGain fields. */
  lemma DeleteAllLaw(v: seq<Entry>)
    requires Ordered(v)
    ensures Picks(v, (e: Entry) => Special(e.key) && !IsGain(e.key), DeleteAll(v))
  {
    OnlyPropsPicks(v);
    OnlyPropsKeepsOrder(v);
    DeleteKeysPicks(OnlyProps(v), RG_KEYS);
    hide Picks, Special, IsGain, DeleteKeys, OnlyProps, SameKey, RG_KEYS, Ascii, Ordered;
    var keep := (e: Entry) => Special(e.key);
    var none := (e: Entry) => forall i :: 0 <= i < |RG_KEYS| ==> !SameKey(e.key, RG_KEYS[i]);
    var both := (e: Entry) => Special(e.key) && !IsGain(e.key);
    forall i | 0 <= i < |v| ensures both(v[i]) == (keep(v[i]) && none(v[i])) {
      NoGain(v[i].key);
    }
    PicksTwice(v, keep, OnlyProps(v), none, DeleteAll(v), both);
  }

  // ----- looking up ------------------------------------------------------------------------

  /** pl_find_meta_raw finds the value of the first node that has the key. */
  lemma RawIs(v: seq<Entry>, key: seq<byte>)
    ensures var r := MetaRuns.Raw(v, key);
      if There(v, key) then exists i :: 0 <= i < |v| && FirstAt(v, key, i) && r == MetaRuns.Some(v[i].value)
      else r == MetaRuns.None
  {
    FoundOrNot(v, key);
    if Find(v, key) < |v| {
      assert FirstAt(v, key, Find(v, key));
    }
    hide There, SameKey;
  }

  /** The first of several keys that is there. */
  predicate FirstThere(v: seq<Entry>, keys: seq<seq<byte>>, k: nat)
    requires k < |keys|
  {
    There(v, keys[k]) && forall j :: 0 <= j < k ==> !There(v, keys[j])
  }

  /** Of several keys the first that is there decides. */
  lemma {:induction false} FirstOfIs(v: seq<Entry>, keys: seq<seq<byte>>)
    ensures var r := MetaRuns.FirstOf(v, keys);
      if forall k :: 0 <= k < |keys| ==> !There(v, keys[k]) then r == MetaRuns.None
      else exists k :: 0 <= k < |keys| && FirstThere(v, keys, k) && r == MetaRuns.Raw(v, keys[k])
    decreases |keys|
  {
    hide There, FirstAt, MetaRuns.Raw;
    if keys != [] {
      RawIs(v, keys[0]);
      FirstOfIs(v, keys[1..]);
      var rest := keys[1..];
      assert forall k :: 0 <= k < |rest| ==> rest[k] == keys[k + 1];
      assert forall k :: 0 < k < |keys| ==> keys[k] == rest[k - 1];
      var r := MetaRuns.FirstOf(v, rest);
      if There(v, keys[0]) {
        assert FirstThere(v, keys, 0);
      } else if k :| 0 <= k < |rest| && FirstThere(v, rest, k) && r == MetaRuns.Raw(v, rest[k]) {
        assert FirstThere(v, keys, k + 1);
      }
    }
  }
}
