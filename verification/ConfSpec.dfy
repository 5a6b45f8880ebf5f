/** The configuration store of src/conf.c as values: a list of keys in strict order, and its two files. */
module ConfSpec {
  import opened PlayItems
  import opened MetaSpec

  datatype Option<T> = None | Some(value: T)

  /** Keys and values are C strings without their zeros. */
  datatype Item = Item(key: seq<byte>, value: seq<byte>)

  // ----- the order -------------------------------------------------------------------------

  /** Bytes are compared one after the other; a string comes before its continuations. */
  predicate Less(a: seq<byte>, b: seq<byte>) {
    if b == [] then false
    else if a == [] then true
    else if a[0] != b[0] then a[0] < b[0]
    else Less(a[1..], b[1..])
  }

  /** strcasecmp (a, b) < 0 */
  predicate Before(a: seq<byte>, b: seq<byte>) {
    Less(Fold(a), Fold(b))
  }

  lemma {:induction false} LessIsOrder(a: seq<byte>, b: seq<byte>)
    ensures Less(a, b) ==> !Less(b, a) && a != b
    ensures Less(a, b) || Less(b, a) || a == b
  {
    if a != [] && b != [] && a[0] == b[0] {
      LessIsOrder(a[1..], b[1..]);
      assert a == [a[0]] + a[1..] && b == [b[0]] + b[1..];
    }
  }

  lemma {:induction false} LessChains(a: seq<byte>, b: seq<byte>, c: seq<byte>)
    requires Less(a, b) && Less(b, c)
    ensures Less(a, c)
  {
    if a != [] && a[0] == b[0] && b[0] == c[0] {
      LessChains(a[1..], b[1..], c[1..]);
    }
  }

  ghost predicate Sorted(s: seq<Item>) {
    forall i, j :: 0 <= i < j < |s| ==> Before(s[i].key, s[j].key)
  }

  // ----- looking up and changing -----------------------------------------------------------

  /** conf_get_str_fast */
  function Lookup(s: seq<Item>, key: seq<byte>): Option<seq<byte>> {
    if s == [] then None
    else if SameKey(key, s[0].key) then Some(s[0].value)
    else Lookup(s[1..], key)
  }

  /** The first item that does not come before `key`. */
  function Place(s: seq<Item>, key: seq<byte>): (p: nat)
    ensures p <= |s|
    ensures forall i :: 0 <= i < p ==> Before(s[i].key, key)
    ensures p < |s| ==> !Before(s[p].key, key)
  {
    if s == [] || !Before(s[0].key, key) then 0 else 1 + Place(s[1..], key)
  }

  predicate HasKey(s: seq<Item>, key: seq<byte>) {
    Place(s, key) < |s| && SameKey(key, s[Place(s, key)].key)
  }

  /** conf_set_str; None deletes. */
  function Set(s: seq<Item>, key: seq<byte>, value: Option<seq<byte>>): seq<Item> {
    var p := Place(s, key);
    if HasKey(s, key) then
      if value.None? then s[..p] + s[p + 1..] else s[p := Item(s[p].key, value.value)]
    else if value.None? then s
    else s[..p] + [Item(key, value.value)] + s[p..]
  }

  predicate HasPrefix(prefix: seq<byte>, key: seq<byte>) {
    |prefix| <= |key| && SameKey(prefix, key[..|prefix|])
  }

  /** All items whose key does not have the prefix. */
  function Without(s: seq<Item>, prefix: seq<byte>): seq<Item> {
    if s == [] then []
    else if HasPrefix(prefix, s[0].key) then Without(s[1..], prefix)
    else [s[0]] + Without(s[1..], prefix)
  }

  // ----- the order is kept -----------------------------------------------------------------

  /** All items from the place on come after the key, or the first of them has it. */
  lemma PlaceSplits(s: seq<Item>, key: seq<byte>)
    requires Sorted(s)
    ensures var p := Place(s, key);
      && (forall i :: 0 <= i < p ==> Before(s[i].key, key))
      && (forall i :: p < i < |s| ==> Before(key, s[i].key))
      && (p < |s| ==> SameKey(key, s[p].key) || Before(key, s[p].key))
  {
    var p := Place(s, key);
    if p < |s| {
      LessIsOrder(Fold(key), Fold(s[p].key));
      forall i | p < i < |s|
        ensures Before(key, s[i].key)
      {
        if Before(key, s[p].key) {
          LessChains(Fold(key), Fold(s[p].key), Fold(s[i].key));
        }
      }
    }
  }

  lemma SetKeepsOrder(s: seq<Item>, key: seq<byte>, value: Option<seq<byte>>)
    requires Sorted(s)
    ensures Sorted(Set(s, key, value))
  {
    var p := Place(s, key);
    PlaceSplits(s, key);
    hide Fold, Place, Before, Sorted;
    if HasKey(s, key) {
      if value.None? {
        DropKeepsOrder(s, p);
      } else {
        UpdateKeepsOrder(s, p, Item(s[p].key, value.value));
      }
    } else if value.Some? {
      InsertKeepsOrder(s, p, Item(key, value.value));
    }
  }

  lemma DropKeepsOrder(s: seq<Item>, p: nat)
    requires Sorted(s) && p < |s|
    ensures Sorted(s[..p] + s[p + 1..])
  {
    hide Before;
    var r := s[..p] + s[p + 1..];
    assert forall i :: 0 <= i < |r| ==> r[i] == s[if i < p then i else i + 1];
  }

  lemma UpdateKeepsOrder(s: seq<Item>, p: nat, n: Item)
    requires Sorted(s) && p < |s| && n.key == s[p].key
    ensures Sorted(s[p := n])
  {
    hide Before;
    assert forall i :: 0 <= i < |s| ==> s[p := n][i].key == s[i].key;
  }

  lemma InsertKeepsOrder(s: seq<Item>, p: nat, n: Item)
    requires Sorted(s) && p <= |s| && (forall i :: 0 <= i < p ==> Before(s[i].key, n.key))
    requires forall i :: p <= i < |s| ==> Before(n.key, s[i].key)
    ensures Sorted(s[..p] + [n] + s[p..])
  {
    hide Before;
    var r := s[..p] + [n] + s[p..];
    assert forall i :: 0 <= i < |r| ==> r[i] == if i < p then s[i] else if i == p then n else s[i - 1];
  }

  // ----- a case-insensitive map ------------------------------------------------------------

  lemma {:induction false} LookupFirst(s: seq<Item>, key: seq<byte>, f: nat)
    requires f <= |s| && (forall i :: 0 <= i < f ==> !SameKey(key, s[i].key)) && (f < |s| ==> SameKey(key, s[f].key))
    ensures Lookup(s, key) == if f < |s| then Some(s[f].value) else None
  {
    if f > 0 {
      LookupFirst(s[1..], key, f - 1);
    }
  }

  lemma {:induction false} FirstMatch(s: seq<Item>, key: seq<byte>) returns (f: nat)
    ensures f <= |s| && (forall i :: 0 <= i < f ==> !SameKey(key, s[i].key)) && (f < |s| ==> SameKey(key, s[f].key))
  {
    if s == [] || SameKey(key, s[0].key) {
      f := 0;
    } else {
      f := FirstMatch(s[1..], key);
      f := f + 1;
    }
  }

  /** No two keys of a sorted list are the same ignoring case. */
  lemma SortedDistinct(s: seq<Item>, i: nat, j: nat)
    requires Sorted(s) && i < j < |s|
    ensures !SameKey(s[i].key, s[j].key)
  {
    LessIsOrder(Fold(s[i].key), Fold(s[j].key));
  }

  lemma SetHere(s: seq<Item>, key: seq<byte>, value: Option<seq<byte>>)
    requires Sorted(s)
    ensures Lookup(Set(s, key, value), key) == value
  {
    PlaceSplits(s, key);
    var p, r := Place(s, key), Set(s, key, value);
    NotSame(s, key);
    hide Fold, Place, Less, Lookup, Before, Sorted;
    if HasKey(s, key) && value.None? {
      assert forall i :: 0 <= i < |r| ==> r[i] == s[if i < p then i else i + 1];
      LookupFirst(r, key, |r|);
    } else if value.None? {
      LookupFirst(r, key, |r|);
    } else {
      assert forall i :: 0 <= i < p ==> r[i] == s[i];
      Reflexive(key);
      LookupFirst(r, key, p);
    }
  }

  lemma Reflexive(key: seq<byte>)
    ensures SameKey(key, key)
  {
  }

  lemma NotSame(s: seq<Item>, key: seq<byte>)
    requires Sorted(s)
    ensures forall i :: 0 <= i < |s| && i != Place(s, key) ==> !SameKey(key, s[i].key)
  {
    PlaceSplits(s, key);
    forall i | 0 <= i < |s| && i != Place(s, key)
      ensures !SameKey(key, s[i].key)
    {
      LessIsOrder(Fold(key), Fold(s[i].key));
    }
  }

  lemma SetElsewhere(s: seq<Item>, key: seq<byte>, value: Option<seq<byte>>, other: seq<byte>)
    requires Sorted(s) && !SameKey(key, other)
    ensures Lookup(Set(s, key, value), other) == Lookup(s, other)
  {
    var p := Place(s, key);
    SameSwaps(key, other);
    hide Fold, Place, Lookup, Sorted;
    if HasKey(s, key) {
      SameTrans(key, s[p].key, other);
      if value.None? {
        DropElsewhere(s, p, other);
      } else {
        UpdateElsewhere(s, p, Item(s[p].key, value.value), other);
      }
    } else if value.Some? {
      InsertElsewhere(s, p, Item(key, value.value), other);
    }
  }

  lemma DropElsewhere(s: seq<Item>, p: nat, other: seq<byte>)
    requires p < |s| && !SameKey(other, s[p].key)
    ensures Lookup(s[..p] + s[p + 1..], other) == Lookup(s, other)
  {
    hide Fold, Lookup;
    var f := FirstMatch(s, other);
    var r := s[..p] + s[p + 1..];
    LookupFirst(s, other, f);
    assert forall i :: 0 <= i < |r| ==> r[i] == s[if i < p then i else i + 1];
    LookupFirst(r, other, if f < p then f else f - 1);
  }

  lemma UpdateElsewhere(s: seq<Item>, p: nat, n: Item, other: seq<byte>)
    requires p < |s| && n.key == s[p].key && !SameKey(other, n.key)
    ensures Lookup(s[p := n], other) == Lookup(s, other)
  {
    hide Fold, Lookup;
    var f := FirstMatch(s, other);
    LookupFirst(s, other, f);
    LookupFirst(s[p := n], other, f);
  }

  lemma InsertElsewhere(s: seq<Item>, p: nat, n: Item, other: seq<byte>)
    requires p <= |s| && !SameKey(other, n.key)
    ensures Lookup(s[..p] + [n] + s[p..], other) == Lookup(s, other)
  {
    hide Fold, Lookup;
    var f := FirstMatch(s, other);
    var r := s[..p] + [n] + s[p..];
    LookupFirst(s, other, f);
    assert forall i :: 0 <= i < |r| ==> r[i] == if i < p then s[i] else if i == p then n else s[i - 1];
    LookupFirst(r, other, if f < p then f else f + 1);
  }

  lemma SameSwaps(a: seq<byte>, b: seq<byte>)
    ensures SameKey(a, b) == SameKey(b, a)
  {
  }

  lemma SameTrans(a: seq<byte>, b: seq<byte>, c: seq<byte>)
    requires SameKey(a, b)
    ensures SameKey(a, c) == SameKey(b, c) && SameKey(c, a) == SameKey(c, b)
  {
  }

  // ----- removing by prefix ----------------------------------------------------------------

  lemma FoldPrefix(prefix: seq<byte>, key: seq<byte>)
    ensures HasPrefix(prefix, key) <==> Fold(prefix) <= Fold(key)
  {
    if |prefix| <= |key| {
      assert Fold(key[..|prefix|]) == Fold(key)[..|prefix|];
    }
  }

  /** What lies between two strings with a prefix has the prefix too. */
  lemma {:induction false} PrefixBetween(p: seq<byte>, a: seq<byte>, b: seq<byte>, c: seq<byte>)
    requires p <= a && p <= c && Less(a, b) && Less(b, c)
    ensures p <= b
  {
    if p != [] {
      assert p[0] == a[0] == c[0] && b != [] && a[0] <= b[0] <= c[0];
      assert p[1..] <= a[1..] && p[1..] <= c[1..];
      PrefixBetween(p[1..], a[1..], b[1..], c[1..]);
      assert b == [b[0]] + b[1..] && p == [p[0]] + p[1..];
    }
  }

  /** The keys with a prefix are contiguous in a sorted list. */
  lemma PrefixRun(s: seq<Item>, prefix: seq<byte>, i: nat, j: nat, k: nat)
    requires Sorted(s) && i < j < k < |s| && HasPrefix(prefix, s[i].key) && HasPrefix(prefix, s[k].key)
    ensures HasPrefix(prefix, s[j].key)
  {
    FoldPrefix(prefix, s[i].key);
    FoldPrefix(prefix, s[j].key);
    FoldPrefix(prefix, s[k].key);
    PrefixBetween(Fold(prefix), Fold(s[i].key), Fold(s[j].key), Fold(s[k].key));
  }

  lemma {:induction false} WithoutIs(s: seq<Item>, prefix: seq<byte>)
    ensures forall x :: x in Without(s, prefix) <==> x in s && !HasPrefix(prefix, x.key)
  {
    hide HasPrefix;
    if s != [] {
      WithoutIs(s[1..], prefix);
    }
  }

  lemma {:induction false} WithoutNone(s: seq<Item>, prefix: seq<byte>)
    requires forall i :: 0 <= i < |s| ==> !HasPrefix(prefix, s[i].key)
    ensures Without(s, prefix) == s
  {
    hide HasPrefix;
    if s != [] {
      WithoutNone(s[1..], prefix);
    }
  }

  lemma {:induction false} WithoutAll(s: seq<Item>, prefix: seq<byte>)
    requires forall i :: 0 <= i < |s| ==> HasPrefix(prefix, s[i].key)
    ensures Without(s, prefix) == []
  {
    hide HasPrefix;
    if s != [] {
      WithoutAll(s[1..], prefix);
    }
  }

  lemma {:induction false} WithoutConcat(a: seq<Item>, b: seq<Item>, prefix: seq<byte>)
    ensures Without(a + b, prefix) == Without(a, prefix) + Without(b, prefix)
  {
    hide HasPrefix;
    if a == [] {
      assert a + b == b;
    } else {
      assert (a + b)[1..] == a[1..] + b;
      WithoutConcat(a[1..], b, prefix);
    }
  }

  /** One run from i to j holds all matches, if the keys before i do not match, those up to j do, and
      the one at j does not. */
  lemma OneRun(s: seq<Item>, prefix: seq<byte>, i: nat, j: nat)
    requires Sorted(s) && i <= j <= |s| && (forall k :: 0 <= k < i ==> !HasPrefix(prefix, s[k].key))
    requires (forall k :: i <= k < j ==> HasPrefix(prefix, s[k].key)) && (j < |s| ==> !HasPrefix(prefix, s[j].key))
    requires i == j ==> j == |s|
    ensures s[..i] + s[j..] == Without(s, prefix)
  {
    hide *;
    var a, b, c := s[..i], s[i..j], s[j..];
    NoneAfter(s, prefix, i, j);
    ThreeParts(s, i, j);
    WithoutConcat(a, b + c, prefix);
    WithoutConcat(b, c, prefix);
    WithoutNone(a, prefix);
    WithoutAll(b, prefix);
    WithoutNone(c, prefix);
  }

  lemma ThreeParts(s: seq<Item>, i: nat, j: nat)
    requires i <= j <= |s|
    ensures s == s[..i] + (s[i..j] + s[j..]) && [] + s[j..] == s[j..]
  {
  }

  lemma NoneAfter(s: seq<Item>, prefix: seq<byte>, i: nat, j: nat)
    requires Sorted(s) && i <= j <= |s| && (i == j ==> j == |s|)
    requires (forall k :: i <= k < j ==> HasPrefix(prefix, s[k].key)) && (j < |s| ==> !HasPrefix(prefix, s[j].key))
    ensures forall k :: j <= k < |s| ==> !HasPrefix(prefix, s[k].key)
  {
    hide HasPrefix, Sorted;
    forall k | j <= k < |s|
      ensures !HasPrefix(prefix, s[k].key)
    {
      if HasPrefix(prefix, s[k].key) && k > j {
        PrefixRun(s, prefix, i, j, k);
      }
    }
  }

  lemma {:induction false} WithoutKeepsOrder(s: seq<Item>, prefix: seq<byte>)
    requires Sorted(s)
    ensures Sorted(Without(s, prefix))
  {
    hide HasPrefix, Fold, Less;
    if s != [] {
      WithoutKeepsOrder(s[1..], prefix);
      if !HasPrefix(prefix, s[0].key) {
        var rest := Without(s[1..], prefix);
        WithoutIs(s[1..], prefix);
        forall i | 0 <= i < |rest|
          ensures Before(s[0].key, rest[i].key)
        {
          assert rest[i] in s[1..];
        }
      }
    }
  }

  lemma LookupWithout(s: seq<Item>, prefix: seq<byte>, key: seq<byte>)
    requires Sorted(s)
    ensures Lookup(Without(s, prefix), key) == if HasPrefix(prefix, key) then None else Lookup(s, key)
  {
    var r := Without(s, prefix);
    WithoutIs(s, prefix);
    var f := FirstMatch(s, key);
    LookupFirst(s, key, f);
    hide Without, Lookup, Before, HasPrefix, Fold;
    if f == |s| || HasPrefix(prefix, key) {
      forall i | 0 <= i < |r|
        ensures !SameKey(key, r[i].key)
      {
        assert r[i] in s;
        Matching(s, prefix, key, r[i]);
      }
      LookupFirst(r, key, |r|);
    } else {
      PrefixOfSame(prefix, key, s[f].key);
      assert s[f] in r;
      var i :| 0 <= i < |r| && r[i] == s[f];
      var g := FirstMatch(r, key);
      LookupFirst(r, key, g);
      assert g <= i && r[g] in s;
      OnlyOne(s, key, f, r[g]);
    }
  }

  lemma Matching(s: seq<Item>, prefix: seq<byte>, key: seq<byte>, x: Item)
    requires x in s && !HasPrefix(prefix, x.key)
    requires (forall i :: 0 <= i < |s| ==> !SameKey(key, s[i].key)) || HasPrefix(prefix, key)
    ensures !SameKey(key, x.key)
  {
    if SameKey(key, x.key) {
      PrefixOfSame(prefix, key, x.key);
    }
  }

  lemma OnlyOne(s: seq<Item>, key: seq<byte>, f: nat, x: Item)
    requires Sorted(s) && f <= |s| && (forall i :: 0 <= i < f ==> !SameKey(key, s[i].key))
      && (f < |s| ==> SameKey(key, s[f].key))
    requires x in s && SameKey(key, x.key)
    ensures f < |s| && s[f] == x
  {
    var i :| 0 <= i < |s| && s[i] == x;
    if f < i {
      SortedDistinct(s, f, i);
    }
  }

  lemma PrefixOfSame(prefix: seq<byte>, a: seq<byte>, b: seq<byte>)
    requires SameKey(a, b)
    ensures HasPrefix(prefix, a) == HasPrefix(prefix, b)
  {
    FoldPrefix(prefix, a);
    FoldPrefix(prefix, b);
  }

  // ----- any run of changes ----------------------------------------------------------------

  datatype Op = SetOp(key: seq<byte>, value: seq<byte>) | DeleteOp(key: seq<byte>) | RemoveOp(prefix: seq<byte>)

  function Apply(s: seq<Item>, op: Op): seq<Item> {
    match op
    case SetOp(key, value) => Set(s, key, Some(value))
    case DeleteOp(key) => Set(s, key, None)
    case RemoveOp(prefix) => Without(s, prefix)
  }

  function Run(s: seq<Item>, ops: seq<Op>): seq<Item>
    decreases |ops|
  {
    if ops == [] then s else Run(Apply(s, ops[0]), ops[1..])
  }

  /** The same changes on a map from folded keys to values. */
  type Store = map<seq<byte>, seq<byte>>

  function ApplyToMap(m: Store, op: Op): Store {
    match op
    case SetOp(key, value) => m[Fold(key) := value]
    case DeleteOp(key) => m - {Fold(key)}
    case RemoveOp(prefix) => map k | k in m && !(Fold(prefix) <= k) :: m[k]
  }

  function RunOnMap(m: Store, ops: seq<Op>): Store
    decreases |ops|
  {
    if ops == [] then m else RunOnMap(ApplyToMap(m, ops[0]), ops[1..])
  }

  /** The list is sorted and finds what the map holds, whatever the case of the key. */
  ghost predicate Represents(s: seq<Item>, m: Store) {
    Sorted(s) && forall key: seq<byte> :: Lookup(s, key) == Held(m, key)
  }

  function Held(m: Store, key: seq<byte>): Option<seq<byte>> {
    if Fold(key) in m then Some(m[Fold(key)]) else None
  }

  lemma ApplyRepresents(s: seq<Item>, m: Store, op: Op)
    requires Represents(s, m)
    ensures Represents(Apply(s, op), ApplyToMap(m, op))
  {
    hide Sorted, Lookup, Set, Without, Fold, Held;
    match op {
      case SetOp(key, value) =>
        SetKeepsOrder(s, key, Some(value));
        forall other: seq<byte>
          ensures Lookup(Apply(s, op), other) == Held(ApplyToMap(m, op), other)
        {
          SetLookup(s, m, key, Some(value), other);
        }
      case DeleteOp(key) =>
        SetKeepsOrder(s, key, None);
        forall other: seq<byte>
          ensures Lookup(Apply(s, op), other) == Held(ApplyToMap(m, op), other)
        {
          SetLookup(s, m, key, None, other);
        }
      case RemoveOp(prefix) =>
        WithoutKeepsOrder(s, prefix);
        forall other: seq<byte>
          ensures Lookup(Apply(s, op), other) == Held(ApplyToMap(m, op), other)
        {
          LookupWithout(s, prefix, other);
          RemoveHeld(m, prefix, other);
        }
    }
  }

  lemma SetLookup(s: seq<Item>, m: Store, key: seq<byte>, value: Option<seq<byte>>, other: seq<byte>)
    requires Sorted(s) && Lookup(s, other) == Held(m, other)
    ensures Lookup(Set(s, key, value), other)
      == Held(if value.Some? then m[Fold(key) := value.value] else m - {Fold(key)}, other)
  {
    hide Sorted, Lookup, Set, Fold;
    if SameKey(key, other) {
      SetHere(s, key, value);
      LookupSame(Set(s, key, value), key, other);
    } else {
      SetElsewhere(s, key, value, other);
    }
  }

  lemma {:induction false} LookupSame(s: seq<Item>, a: seq<byte>, b: seq<byte>)
    requires SameKey(a, b)
    ensures Lookup(s, a) == Lookup(s, b)
  {
    hide Fold;
    if s != [] {
      LookupSame(s[1..], a, b);
    }
  }

  lemma RemoveHeld(m: Store, prefix: seq<byte>, key: seq<byte>)
    ensures Held(map k | k in m && !(Fold(prefix) <= k) :: m[k], key)
      == if HasPrefix(prefix, key) then None else Held(m, key)
  {
    FoldPrefix(prefix, key);
  }

  /** Through any run of sets, deletes and removals by prefix the list stays strictly sorted and
      behaves as a map that ignores the case of keys. */
  lemma {:induction false} RunRepresents(s: seq<Item>, m: Store, ops: seq<Op>)
    requires Represents(s, m)
    ensures Represents(Run(s, ops), RunOnMap(m, ops))
    decreases |ops|
  {
    hide Represents, Apply, ApplyToMap;
    if ops != [] {
      ApplyRepresents(s, m, ops[0]);
      RunRepresents(Apply(s, ops[0]), ApplyToMap(m, ops[0]), ops[1..]);
    }
  }

  // ----- files -----------------------------------------------------------------------------

  const HASH_SIGN: byte := 35
  const BLANK: byte := 32
  const NEWLINE: byte := 10
  const SECRET := Ascii(".secret.")

  function Line(i: Item): (r: seq<byte>)
    ensures |r| == |i.key| + |i.value| + 2
  {
    i.key + [BLANK] + i.value + [NEWLINE]
  }

  /** strstr (key, ".secret.") */
  predicate IsSecret(key: seq<byte>) {
    exists i: nat :: i <= |key| - |SECRET| && SecretAt(key, i)
  }

  predicate SecretAt(key: seq<byte>, i: nat)
    requires i + |SECRET| <= |key|
  {
    key[i..i + |SECRET|] == SECRET
  }

  function Part(s: seq<Item>, secrets: bool): (r: seq<Item>)
    ensures forall x :: x in r <==> x in s && IsSecret(x.key) == secrets
  {
    if s == [] then []
    else if IsSecret(s[0].key) == secrets then [s[0]] + Part(s[1..], secrets)
    else Part(s[1..], secrets)
  }

  function Lines(s: seq<Item>): seq<byte> {
    if s == [] then [] else Line(s[0]) + Lines(s[1..])
  }

  /** _conf_save_with_secrets */
  function FileOf(s: seq<Item>, secrets: bool): seq<byte> {
    Lines(Part(s, secrets))
  }

  /** Where the line at `p` ends: at a control character or the end of the buffer. */
  function LineEnd(b: seq<byte>, p: nat): (q: nat)
    requires p <= |b|
    ensures p <= q <= |b| && (q < |b| ==> b[q] < 0x20) && forall i :: p <= i < q ==> b[i] >= 0x20
    decreases |b| - p
  {
    if p == |b| || b[p] < 0x20 then p else LineEnd(b, p + 1)
  }

  /** The first blank, or the length. */
  function KeyEnd(l: seq<byte>): (n: nat)
    ensures n <= |l| && (n < |l| ==> l[n] <= 0x20) && forall i :: 0 <= i < n ==> l[i] > 0x20
  {
    if l == [] || l[0] <= 0x20 then 0 else 1 + KeyEnd(l[1..])
  }

  function SkipBlanks(l: seq<byte>): (r: seq<byte>)
    ensures r != [] ==> r[0] > 0x20
    ensures forall x :: x in r ==> x in l
  {
    if l != [] && l[0] <= 0x20 then SkipBlanks(l[1..]) else l
  }

  /** A line without its end; comments, blank lines and lines without a value are ignored. */
  function ParseLine(l: seq<byte>): Option<Item> {
    if l == [] || l[0] == HASH_SIGN || l[0] <= 0x20 then None
    else if KeyEnd(l) == |l| then None
    else Some(Item(l[..KeyEnd(l)], SkipBlanks(l[KeyEnd(l) + 1..])))
  }

  function Take(s: seq<Item>, item: Option<Item>): seq<Item> {
    if item.None? then s else Set(s, item.value.key, Some(item.value.value))
  }

  /** _conf_load_buffer, from position `p` on. The buffer ends with a zero. */
  function Load(s: seq<Item>, b: seq<byte>, p: nat): seq<Item>
    decreases if p <= |b| then |b| - p else 0
  {
    if p >= |b| || b[p] == 0 then s
    else Load(Take(s, ParseLine(b[p..LineEnd(b, p)])), b, LineEnd(b, p) + 1)
  }

  function LoadFile(s: seq<Item>, b: seq<byte>): seq<Item> {
    Load(s, b, 0)
  }

  /** conf_load: ordinary keys, then secrets. */
  function LoadBoth(config: seq<byte>, secrets: seq<byte>): seq<Item> {
    LoadFile(LoadFile([], config), secrets)
  }

  // ----- loading what was saved ------------------------------------------------------------

  /** An item the file format can hold. */
  predicate Good(i: Item) {
    && i.key != [] && i.key[0] != HASH_SIGN && (forall k :: 0 <= k < |i.key| ==> i.key[k] > 0x20)
    && (forall k :: 0 <= k < |i.value| ==> i.value[k] >= 0x20) && (i.value != [] ==> i.value[0] != BLANK)
  }

  ghost predicate AllGood(s: seq<Item>) {
    forall i :: 0 <= i < |s| ==> Good(s[i])
  }

  lemma ParsedIsGood(l: seq<byte>)
    requires forall k :: 0 <= k < |l| ==> l[k] >= 0x20
    ensures ParseLine(l).Some? ==> Good(ParseLine(l).value)
  {
    if ParseLine(l).Some? {
      var rest := l[KeyEnd(l) + 1..];
      var value := SkipBlanks(rest);
      assert forall k :: 0 <= k < |rest| ==> rest[k] == l[KeyEnd(l) + 1 + k];
      assert forall k :: 0 <= k < |value| ==> value[k] in rest;
    }
  }

  lemma TakeKeepsGood(s: seq<Item>, item: Option<Item>)
    requires AllGood(s) && (item.Some? ==> Good(item.value))
    ensures AllGood(Take(s, item))
  {
    hide Place, Fold;
  }

  /** Whatever a file holds, everything loaded could have been saved. */
  lemma {:induction false} LoadedIsGood(s: seq<Item>, b: seq<byte>, p: nat)
    requires AllGood(s)
    ensures AllGood(Load(s, b, p))
    decreases if p <= |b| then |b| - p else 0
  {
    hide AllGood, Take, Good;
    if p < |b| && b[p] != 0 {
      var l := b[p..LineEnd(b, p)];
      ParsedIsGood(l);
      TakeKeepsGood(s, ParseLine(l));
      LoadedIsGood(Take(s, ParseLine(l)), b, LineEnd(b, p) + 1);
    }
  }

  lemma {:induction false} KeyEndIs(l: seq<byte>, n: nat)
    requires n < |l| && l[n] <= 0x20 && forall i :: 0 <= i < n ==> l[i] > 0x20
    ensures KeyEnd(l) == n
  {
  }

  lemma {:induction false} LineEndIs(b: seq<byte>, p: nat, q: nat)
    requires p <= q < |b| && b[q] < 0x20 && forall i :: p <= i < q ==> b[i] >= 0x20
    ensures LineEnd(b, p) == q
  {
  }

  lemma LineParses(i: Item)
    requires Good(i)
    ensures ParseLine(i.key + [BLANK] + i.value) == Some(i)
  {
    var l := i.key + [BLANK] + i.value;
    KeyEndIs(l, |i.key|);
    assert l[..|i.key|] == i.key && l[|i.key| + 1..] == i.value;
    assert SkipBlanks(i.value) == i.value;
  }

  /** One line of a saved file. */
  lemma LineBack(s: seq<Item>, pre: seq<byte>, i: Item, post: seq<byte>)
    requires Good(i)
    ensures Load(s, pre + Line(i) + post, |pre|)
      == Load(Set(s, i.key, Some(i.value)), pre + Line(i) + post, |pre| + |Line(i)|)
  {
    hide ParseLine, Set, LineEnd, Good, Load;
    LineParses(i);
    LineAt(pre, i, post);
    LoadRound(s, pre + Line(i) + post, |pre|);
  }

  lemma LoadRound(s: seq<Item>, b: seq<byte>, p: nat)
    requires p < |b| && b[p] != 0
    ensures Load(s, b, p) == Load(Take(s, ParseLine(b[p..LineEnd(b, p)])), b, LineEnd(b, p) + 1)
  {
    hide Take, ParseLine, LineEnd;
  }

  lemma LineAt(pre: seq<byte>, i: Item, post: seq<byte>)
    requires Good(i)
    ensures var b, p, l := pre + Line(i) + post, |pre|, i.key + [BLANK] + i.value;
      && p < |b| && b[p] != 0 && LineEnd(b, p) == p + |l| && b[p..p + |l|] == l
  {
    var b, p, l := pre + Line(i) + post, |pre|, i.key + [BLANK] + i.value;
    var q := p + |l|;
    assert b[p..q] == l && b[q] == NEWLINE && b[p] == i.key[0];
    assert forall k :: p <= k < q ==> b[k] == l[k - p];
    assert forall k :: 0 <= k < |l| ==> l[k] >= 0x20;
    LineEndIs(b, p, q);
  }

  function SetAll(s: seq<Item>, items: seq<Item>): seq<Item>
    decreases |items|
  {
    if items == [] then s else SetAll(Set(s, items[0].key, Some(items[0].value)), items[1..])
  }

  lemma {:induction false} LinesBack(s: seq<Item>, pre: seq<byte>, items: seq<Item>)
    requires AllGood(items)
    ensures Load(s, pre + Lines(items), |pre|) == SetAll(s, items)
    decreases |items|
  {
    hide *;
    LinesAre(s, pre, items);
    if items != [] {
      var i, rest := items[0], items[1..];
      LineBack(s, pre, i, Lines(rest));
      LinesBack(Set(s, i.key, Some(i.value)), pre + Line(i), rest);
    }
  }

  lemma LinesAre(s: seq<Item>, pre: seq<byte>, items: seq<Item>)
    requires AllGood(items)
    ensures items == [] ==> Load(s, pre + Lines(items), |pre|) == s && SetAll(s, items) == s
    ensures items != [] ==>
      && pre + Lines(items) == pre + Line(items[0]) + Lines(items[1..]) && Good(items[0]) && AllGood(items[1..])
      && SetAll(s, items) == SetAll(Set(s, items[0].key, Some(items[0].value)), items[1..])
      && |pre + Line(items[0])| == |pre| + |Line(items[0])|
  {
    hide Good, Set, Line;
  }

  // ----- the same store again --------------------------------------------------------------

  ghost predicate Distinct(s: seq<Item>) {
    forall i, j :: 0 <= i < j < |s| ==> !SameKey(s[i].key, s[j].key)
  }

  /** No item of `s` has a key of `t`. */
  ghost predicate Apart(s: seq<Item>, t: seq<Item>) {
    forall x, y :: x in s && y in t ==> !SameKey(x.key, y.key)
  }

  lemma DistinctCons(n: Item, rest: seq<Item>)
    ensures Distinct([n] + rest) <==> Distinct(rest) && Apart([n], rest)
  {
    hide SameKey;
    var s := [n] + rest;
    assert forall j :: 0 <= j < |rest| ==> rest[j] == s[j + 1];
    if Distinct(s) {
      forall x, y | x in [n] && y in rest
        ensures !SameKey(x.key, y.key)
      {
        var j :| 0 <= j < |rest| && rest[j] == y;
        assert s[0] == x && s[j + 1] == y;
      }
    }
    if Distinct(rest) && Apart([n], rest) {
      forall i, j | 0 <= i < j < |s|
        ensures !SameKey(s[i].key, s[j].key)
      {
        assert s[j] == rest[j - 1];
        if i > 0 {
          assert s[i] == rest[i - 1];
        } else {
          assert s[0] in [n] && s[j] in rest;
        }
      }
    }
  }

  /** Setting keys that are new adds exactly these items. */
  lemma {:induction false} SetAllAdds(s: seq<Item>, items: seq<Item>)
    requires Sorted(s) && Distinct(items) && Apart(s, items)
    ensures Sorted(SetAll(s, items))
    ensures forall x :: x in SetAll(s, items) <==> x in s || x in items
    decreases |items|
  {
    if items != [] {
      var n, rest := items[0], items[1..];
      assert items == [n] + rest && n in items;
      hide SameKey, Set, Sorted, Distinct;
      DistinctCons(n, rest);
      SetNew(s, n);
      SetKeepsOrder(s, n.key, Some(n.value));
      assert Apart(Set(s, n.key, Some(n.value)), rest) by {
        forall x, y | x in Set(s, n.key, Some(n.value)) && y in rest
          ensures !SameKey(x.key, y.key)
        {
          assert y in items && (x == n ==> x in [n]);
        }
      }
      hide Apart;
      SetAllAdds(Set(s, n.key, Some(n.value)), rest);
    }
  }

  lemma SetNew(s: seq<Item>, n: Item)
    requires Sorted(s) && forall x :: x in s ==> !SameKey(x.key, n.key)
    ensures forall x :: x in Set(s, n.key, Some(n.value)) <==> x in s || x == n
  {
    var p := Place(s, n.key);
    hide Fold, Place;
    if p < |s| {
      assert s[p] in s;
      SameSwaps(s[p].key, n.key);
    }
    assert s == s[..p] + s[p..];
  }

  lemma {:induction false} SortedUnique(a: seq<Item>, b: seq<Item>)
    requires Sorted(a) && Sorted(b) && forall x :: x in a <==> x in b
    ensures a == b
  {
    SameEmpty(a, b);
    if a != [] {
      assert a[0] in b && b != [] && b[0] in a;
      SameHead(a, b);
      RestMembers(a, b);
      SortedUnique(a[1..], b[1..]);
      assert a == [a[0]] + a[1..] && b == [b[0]] + b[1..];
    }
  }

  lemma SameEmpty(a: seq<Item>, b: seq<Item>)
    requires forall x :: x in a <==> x in b
    ensures a == [] ==> b == []
  {
    if b != [] {
      assert b[0] in a;
    }
  }

  lemma SameHead(a: seq<Item>, b: seq<Item>)
    requires Sorted(a) && Sorted(b) && a != [] && b != [] && a[0] in b && b[0] in a
    ensures a[0] == b[0]
  {
    var i :| 0 <= i < |b| && b[i] == a[0];
    var j :| 0 <= j < |a| && a[j] == b[0];
    LessIsOrder(Fold(a[0].key), Fold(b[0].key));
  }

  lemma RestMembers(a: seq<Item>, b: seq<Item>)
    requires Sorted(a) && Sorted(b) && a != [] && b != [] && a[0] == b[0] && forall x :: x in a <==> x in b
    ensures forall x :: x in a[1..] <==> x in b[1..]
  {
    HeadOnce(a);
    HeadOnce(b);
    hide Sorted;
    Members(a);
    Members(b);
  }

  lemma Members(a: seq<Item>)
    requires a != []
    ensures forall x :: x in a <==> x == a[0] || x in a[1..]
  {
    assert a == [a[0]] + a[1..];
  }

  lemma HeadOnce(a: seq<Item>)
    requires Sorted(a) && a != []
    ensures a[0] !in a[1..]
  {
    if a[0] in a[1..] {
      var i :| 0 <= i < |a[1..]| && a[1..][i] == a[0];
      LessIsOrder(Fold(a[0].key), Fold(a[i + 1].key));
    }
  }

  lemma {:induction false} PartDistinct(s: seq<Item>, secrets: bool)
    requires Distinct(s)
    ensures Distinct(Part(s, secrets))
  {
    if s != [] {
      var n, rest := s[0], Part(s[1..], secrets);
      assert s == [n] + s[1..];
      assert IsSecret(n.key) == secrets ==> Part(s, secrets) == [n] + rest;
      assert forall x :: x in rest ==> x in s[1..];
      hide SameKey, IsSecret, Distinct;
      DistinctCons(n, s[1..]);
      PartDistinct(s[1..], secrets);
      DistinctCons(n, rest);
    }
  }

  lemma BothParts(s: seq<Item>)
    requires Sorted(s)
    ensures SetAll(SetAll([], Part(s, false)), Part(s, true)) == s
  {
    SortedIsDistinct(s);
    var a, b := Part(s, false), Part(s, true);
    assert Sorted([]) && Apart([], a);
    hide SameKey, IsSecret, SetAll, Sorted, Distinct;
    PartDistinct(s, false);
    PartDistinct(s, true);
    SetAllAdds([], a);
    PartsApart(s);
    assert forall x :: x in SetAll([], a) <==> x in a;
    assert Apart(SetAll([], a), b);
    hide Apart;
    SetAllAdds(SetAll([], a), b);
    SortedUnique(SetAll(SetAll([], a), b), s);
  }

  lemma SortedIsDistinct(s: seq<Item>)
    requires Sorted(s)
    ensures Distinct(s)
  {
    forall i, j | 0 <= i < j < |s|
      ensures !SameKey(s[i].key, s[j].key)
    {
      SortedDistinct(s, i, j);
    }
  }

  lemma PartsApart(s: seq<Item>)
    requires Distinct(s)
    ensures forall x, y :: x in s && y in s && IsSecret(x.key) != IsSecret(y.key) ==> !SameKey(x.key, y.key)
  {
    hide IsSecret, Fold;
    forall x, y | x in s && y in s && IsSecret(x.key) != IsSecret(y.key)
      ensures !SameKey(x.key, y.key)
    {
      var i :| 0 <= i < |s| && s[i] == x;
      var j :| 0 <= j < |s| && s[j] == y;
      SameSwaps(x.key, y.key);
    }
  }

  /** Saving both files and loading them into an empty store gives the store back if and only if the
      file format can hold every item. */
  lemma SavedAndLoaded(s: seq<Item>)
    requires Sorted(s)
    ensures LoadBoth(FileOf(s, false), FileOf(s, true)) == s <==> AllGood(s)
  {
    hide *;
    var a, b := Part(s, false), Part(s, true);
    var config, secrets := FileOf(s, false), FileOf(s, true);
    FilesAre(s);
    if AllGood(s) {
      PartGood(s, false);
      PartGood(s, true);
      LinesBack([], [], a);
      LinesBack(SetAll([], a), [], b);
      BothParts(s);
    } else {
      LoadedIsGood([], config, 0);
      LoadedIsGood(Load([], config, 0), secrets, 0);
    }
  }

  lemma FilesAre(s: seq<Item>)
    ensures LoadBoth(FileOf(s, false), FileOf(s, true)) == Load(Load([], FileOf(s, false), 0), FileOf(s, true), 0)
    ensures [] + Lines(Part(s, false)) == FileOf(s, false) && [] + Lines(Part(s, true)) == FileOf(s, true)
      && AllGood([])
  {
    hide Load, Lines, Part, Good;
  }

  lemma PartGood(s: seq<Item>, secrets: bool)
    requires AllGood(s)
    ensures AllGood(Part(s, secrets))
  {
    hide Good, IsSecret;
    var r := Part(s, secrets);
    forall i | 0 <= i < |r|
      ensures Good(r[i])
    {
      assert r[i] in s;
    }
  }
}
