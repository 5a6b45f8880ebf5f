/** What a search finds, said of the bytes of keys and values alone. */
module SearchMeaning {
  import opened PlayItems
  import opened MetaSpec
  import opened PlMeta
  import opened Playlists
  import opened TrackSearch
  import opened SearchLaws

  // ----- strings ---------------------------------------------------------------------------

  ghost predicate Within(v: seq<byte>, text: seq<byte>) {
    exists a, b :: v == a + text + b
  }

  /** The bytes from p to q are one of the zero-terminated strings of a value. */
  predicate StringAt(v: seq<byte>, p: nat, q: nat) {
    p <= q < |v| && v[q] == 0 && 0 !in v[p..q] && (p == 0 || v[p - 1] == 0)
  }

  /** The bytes from p to q are compared with the text: of a URI the file name, that is what follows the last slash
      of its first string, of all other strings everything. */
  predicate Compared(v: seq<byte>, uri: bool, p: nat, q: nat) {
    && p <= q < |v| && v[q] == 0 && 0 !in v[p..q]
    && if uri && 0 !in v[..p] then 47 !in v[p..q] && (p == 0 || v[p - 1] == 47) else p == 0 || v[p - 1] == 0
  }

  /** The bytes from p to q, of a value that has them. */
  function Cut(v: seq<byte>, p: nat, q: nat): seq<byte> {
    if p <= q <= |v| then v[p..q] else []
  }

  ghost predicate ValueHolds(v: seq<byte>, uri: bool, lower: Lower, text: seq<byte>) {
    exists p: nat, q: nat :: Compared(v, uri, p, q) && Within(lower(Cut(v, p, q)), text)
  }

  ghost predicate FieldHolds(m: Meta, lower: Lower, text: seq<byte>) {
    m.value != null && ValueHolds(m.value.str, UriKey(m), lower, text)
  }

  lemma {:induction false} PartsAre(v: seq<byte>, x: seq<byte>)
    requires Terminated(v)
    ensures x in Parts(v) <==> exists p: nat, q: nat :: StringAt(v, p, q) && x == Cut(v, p, q)
    decreases |v|
  {
    hide Parts, StrLen, Terminated;
    if v == [] {
      NoParts(v);
    } else {
      PartsHead(v);
      var n := StrLen(v);
      var rest := v[n + 1..];
      PartsAre(rest, x);
      FirstString(v, n);
      hide StringAt;
      if p: nat, q: nat :| StringAt(rest, p, q) && x == rest[p..q] {
        LaterString(v, n, p, q);
      }
      if p: nat, q: nat :| StringAt(v, p, q) && x == v[p..q] {
        EarlierString(v, n, p, q);
      }
      PartsOfHead(v, n, x);
    }
  }

  lemma NoParts(v: seq<byte>)
    requires v == []
    ensures Terminated(v) && Parts(v) == []
  {
  }

  lemma FirstString(v: seq<byte>, n: nat)
    requires n < |v| && v[n] == 0 && forall i :: 0 <= i < n ==> v[i] != 0
    ensures StringAt(v, 0, n) && v[0..n] == v[..n]
  {
  }

  lemma InSlice(v: seq<byte>, p: nat, q: nat, n: nat)
    requires p <= n < q <= |v|
    ensures v[n] in v[p..q]
  {
    assert v[p..q][n - p] == v[n];
  }

  lemma LaterString(v: seq<byte>, n: nat, p: nat, q: nat)
    requires n < |v| && v[n] == 0 && StringAt(v[n + 1..], p, q)
    ensures StringAt(v, p + n + 1, q + n + 1) && v[n + 1..][p..q] == v[p + n + 1..q + n + 1]
  {
    assert v[n + 1..][q] == v[q + n + 1] && p > 0 ==> v[n + 1..][p - 1] == v[p + n];
    assert v[n + 1..][p..q] == v[p + n + 1..q + n + 1];
  }

  lemma EarlierString(v: seq<byte>, n: nat, p: nat, q: nat)
    requires n < |v| && v[n] == 0 && (forall i :: 0 <= i < n ==> v[i] != 0) && StringAt(v, p, q)
    ensures (p == 0 && q == n)
      || (n < p && StringAt(v[n + 1..], p - n - 1, q - n - 1) && v[n + 1..][p - n - 1..q - n - 1] == v[p..q])
  {
    if p <= n {
      assert p == 0;
      if q > n {
        InSlice(v, p, q, n);
      }
    } else {
      var rest := v[n + 1..];
      assert rest[q - n - 1] == v[q];
      assert rest[p - n - 1..q - n - 1] == v[p..q];
      assert p > n + 1 ==> rest[p - n - 2] == v[p - 1];
    }
  }

  lemma PartsOfHead(v: seq<byte>, n: nat, x: seq<byte>)
    requires n < |v| && Terminated(v) && Terminated(v[n + 1..]) && Parts(v) == [v[..n]] + Parts(v[n + 1..])
    ensures x in Parts(v) <==> x == v[..n] || x in Parts(v[n + 1..])
  {
    hide Parts, Terminated;
  }

  /** The strings behind position k of a value, as positions in the value. */
  lemma StringsBehind(v: seq<byte>, k: nat, p: nat, q: nat)
    requires k <= p <= q
    ensures k <= |v| ==> (StringAt(v[k..], p - k, q - k) <==>
      p <= q < |v| && v[q] == 0 && 0 !in v[p..q] && (p == k || v[p - 1] == 0))
  {
    if k <= |v| && p <= q < |v| {
      assert v[k..][q - k] == v[q] && v[k..][p - k..q - k] == v[p..q];
      assert p > k ==> v[k..][p - k - 1] == v[p - 1];
    }
  }

  /** What is compared of a value are the strings from the file name, or from the front, on. */
  lemma ComparedIs(v: seq<byte>, uri: bool, k: nat, p: nat, q: nat)
    requires Terminated(v) && v != [] && k <= StrLen(v)
    requires if uri then 47 !in v[k..StrLen(v)] && (k == 0 || v[k - 1] == 47) else k == 0
    ensures Compared(v, uri, p, q) <==> k <= p <= q && StringAt(v[k..], p - k, q - k)
  {
    var n := StrLen(v);
    StrLenInside(v);
    hide StrLen, Terminated;
    if k <= p <= q {
      StringsBehind(v, k, p, q);
    }
    if uri && p <= q < |v| {
      if p <= n {
        assert 0 !in v[..p];
        OneFileName(v, n, k, p, q);
      } else {
        assert v[..p][n] == 0;
      }
    }
  }

  lemma MaybeIn(v: seq<byte>, p: nat, q: nat, n: nat)
    ensures p <= n < q <= |v| ==> v[n] in v[p..q]
  {
    if p <= n < q <= |v| {
      InSlice(v, p, q, n);
    }
  }

  lemma OneFileName(v: seq<byte>, n: nat, k: nat, p: nat, q: nat)
    requires k <= n < |v| && v[n] == 0 && (forall i :: 0 <= i < n ==> v[i] != 0) && p <= n && p <= q < |v|
    requires 47 !in v[k..n] && (k == 0 || v[k - 1] == 47)
    ensures v[q] == 0 && 0 !in v[p..q] ==> q == n
    ensures v[q] == 0 && 0 !in v[p..q] && 47 !in v[p..q] && (p == 0 || v[p - 1] == 47) ==> p == k
  {
    MaybeIn(v, p, q, n);
    MaybeIn(v, p, n, if k > 0 then k - 1 else n);
    MaybeIn(v, k, n, if p > 0 then p - 1 else n);
  }

  // ----- fields ----------------------------------------------------------------------------

  ghost predicate UriKey(m: Meta) {
    m.key.str == [58, 85, 82, 73, 0]
  }

  /** A key spelt like a word, in letters of either case. */
  predicate Spells(key: seq<byte>, word: seq<byte>) {
    |key| == |word| && forall j :: 0 <= j < |word| ==>
      key[j] == word[j] || (97 <= word[j] <= 122 && key[j] == word[j] - 32)
  }

  ghost predicate NameKey(m: Meta) {
    UriKey(m) || (m.key.str != [] && m.key.str[0] != 58 && m.key.str[0] != 95 && m.key.str[0] != 33)
  }

  /** A search looks at the fields before the first whose key starts with ':', '_' or '!', the URI excepted, but
      not at those with the keys "cuesheet" and "log". */
  ghost predicate LookedAt(l: seq<Meta>, i: nat) {
    && i < |l| && (forall j :: 0 <= j <= i ==> NameKey(l[j]))
    && !Spells(l[i].key.str, [99, 117, 101, 115, 104, 101, 101, 116, 0]) && !Spells(l[i].key.str, [108, 111, 103, 0])
  }

  lemma UriKeyIs(m: Meta)
    requires NodeOk(m)
    ensures UriKey(m) <==> IsUri(m)
  {
    assert URI == [58, 85, 82, 73];
    assert UriKey(m) ==> KeyOf(m) == m.key.str[..4];
    assert [58, 85, 82, 73] + [0] == [58, 85, 82, 73, 0];
  }

  lemma SpellsIs(key: seq<byte>, word: seq<byte>)
    requires forall j :: 0 <= j < |word| ==> 97 <= word[j] <= 122
    ensures Spells(key + [0], word + [0]) <==> SameKey(key, word)
  {
    var a, b := key + [0], word + [0];
    if |key| == |word| {
      if SameKey(key, word) {
        forall j | 0 <= j < |word| ensures key[j] == word[j] || key[j] == word[j] - 32 {
          assert Fold(key)[j] == Fold(word)[j];
        }
      }
      if Spells(a, b) {
        forall j | 0 <= j < |word| ensures Fold(key)[j] == Fold(word)[j] {
          assert a[j] == key[j] && b[j] == word[j];
        }
        assert Fold(key) == Fold(word);
      }
    } else {
      assert |Fold(key)| != |Fold(word)|;
    }
  }

  lemma SkippedIs(m: Meta)
    requires NodeOk(m)
    ensures Skipped(m) <==> (Spells(m.key.str, [99, 117, 101, 115, 104, 101, 101, 116, 0])
      || Spells(m.key.str, [108, 111, 103, 0]))
  {
    hide Spells, SameKey;
    var c: seq<byte>, g: seq<byte> := [99, 117, 101, 115, 104, 101, 101, 116], [108, 111, 103];
    assert CUESHEET == c && LOG == g;
    assert c + [0] == [99, 117, 101, 115, 104, 101, 101, 116, 0] && g + [0] == [108, 111, 103, 0];
    SpellsIs(KeyOf(m), c);
    SpellsIs(KeyOf(m), g);
  }

  lemma EndsScanIs(m: Meta)
    requires NodeOk(m)
    ensures EndsScan(m) <==> !NameKey(m)
  {
    UriKeyIs(m);
    hide IsUri, UriKey;
    assert m.key.str[0] == First(KeyOf(m));
    assert UriKey(m) ==> m.key.str[0] == 58 by {
      assert UriKey(m) ==> m.key.str == [58, 85, 82, 73, 0];
    }
  }

  lemma {:induction false} SearchedIs(l: seq<Meta>, m: Meta)
    requires forall x :: x in l ==> NodeOk(x)
    ensures m in Searched(l) <==> exists i :: 0 <= i < |l| && LookedAt(l, i) && l[i] == m
    decreases |l|
  {
    if l != [] {
      EndsScanIs(l[0]);
      SkippedIs(l[0]);
      SearchedIs(l[1..], m);
      FirstLooked(l);
      hide EndsScan, Skipped, LookedAt, NodeOk;
      if i :| 0 <= i < |l| - 1 && LookedAt(l[1..], i) && l[1..][i] == m && !EndsScan(l[0]) {
        NextLooked(l, i);
      }
      if i :| 0 <= i < |l| && LookedAt(l, i) && l[i] == m && i != 0 {
        NextLooked(l, i - 1);
      }
    }
  }

  lemma FirstLooked(l: seq<Meta>)
    requires l != [] && NodeOk(l[0])
    ensures LookedAt(l, 0) <==> !EndsScan(l[0]) && !Skipped(l[0])
    ensures forall i: nat :: LookedAt(l, i) ==> !EndsScan(l[0])
  {
    EndsScanIs(l[0]);
    SkippedIs(l[0]);
    hide EndsScan, Skipped, NameKey, Spells;
  }

  lemma NextLooked(l: seq<Meta>, i: nat)
    requires l != [] && NodeOk(l[0])
    ensures !EndsScan(l[0]) ==> (LookedAt(l, i + 1) <==> LookedAt(l[1..], i))
    ensures i < |l| - 1 ==> l[1..][i] == l[i + 1]
    ensures LookedAt(l, i + 1) ==> !EndsScan(l[0])
  {
    EndsScanIs(l[0]);
    hide EndsScan, NameKey, Spells;
    var rest := l[1..];
    if !EndsScan(l[0]) && LookedAt(rest, i) {
      forall j | 0 <= j <= i + 1 ensures NameKey(l[j]) {
        assert j > 0 ==> rest[j - 1] == l[j];
      }
    }
    if LookedAt(l, i + 1) {
      forall j | 0 <= j <= i ensures NameKey(rest[j]) {
        assert rest[j] == l[j + 1];
      }
    }
  }

  // ----- one field -------------------------------------------------------------------------

  lemma {:induction false} FileNameIs(v: seq<byte>, n: nat)
    requires n <= |v|
    ensures var k := FileName(v, n); 47 !in v[k..n] && (k == 0 || v[k - 1] == 47)
  {
    if n > 0 && v[n - 1] != 47 {
      FileNameIs(v, n - 1);
      var k := FileName(v, n);
      assert v[k..n] == v[k..n - 1] + [v[n - 1]];
    }
  }

  lemma WithinIs(v: seq<byte>, text: seq<byte>)
    ensures Within(v, text) <==> Contains(v, text)
  {
    if i :| 0 <= i <= |v| && text <= v[i..] {
      assert v == v[..i] + text + v[i + |text|..] by {
        assert v[i..][|text|..] == v[i + |text|..];
        assert v[i..] == text + v[i..][|text|..];
      }
    }
    if a, b :| v == a + text + b {
      assert v[|a|..] == text + b;
    }
  }

  lemma FieldHoldsIs(m: Meta, lower: Lower, text: seq<byte>)
    requires NodeOk(m)
    ensures FieldMatches(m, Containing(lower, text)) <==> FieldHolds(m, lower, text)
  {
    var v, uri, hit := m.value.str, IsUri(m), Containing(lower, text);
    var k := if uri then FileName(v, StrLen(v)) else 0;
    UriKeyIs(m);
    FileNameIs(v, StrLen(v));
    FieldMatchesIs(m, hit);
    SearchedTerminated(v, uri);
    assert FieldParts(m) == Parts(v[k..]);
    PartsHold(FieldParts(m), v, uri, k, lower, text);
  }

  lemma PartsHold(parts: seq<seq<byte>>, v: seq<byte>, uri: bool, k: nat, lower: Lower, text: seq<byte>)
    requires v != [] && Terminated(v) && k <= StrLen(v) && Terminated(v[k..]) && parts == Parts(v[k..])
    requires if uri then 47 !in v[k..StrLen(v)] && (k == 0 || v[k - 1] == 47) else k == 0
    ensures (exists i :: 0 <= i < |parts| && Containing(lower, text)(parts[i])) <==> ValueHolds(v, uri, lower, text)
  {
    hide Parts, StrLen, Terminated, Compared, Within, Contains;
    if i :| 0 <= i < |parts| && Containing(lower, text)(parts[i]) {
      ComparedParts(v, uri, k, parts[i]);
      WithinIs(lower(parts[i]), text);
    }
    if ValueHolds(v, uri, lower, text) {
      var p: nat, q: nat :| Compared(v, uri, p, q) && Within(lower(Cut(v, p, q)), text);
      var x := Cut(v, p, q);
      ComparedParts(v, uri, k, x);
      WithinIs(lower(x), text);
      var i :| 0 <= i < |parts| && parts[i] == x;
    }
  }

  lemma ComparedInside(v: seq<byte>, uri: bool, p: nat, q: nat)
    requires Compared(v, uri, p, q)
    ensures p <= q < |v| && Cut(v, p, q) == v[p..q]
  {
  }

  lemma ComparedParts(v: seq<byte>, uri: bool, k: nat, x: seq<byte>)
    requires v != [] && Terminated(v) && k <= StrLen(v) && Terminated(v[k..])
    requires if uri then 47 !in v[k..StrLen(v)] && (k == 0 || v[k - 1] == 47) else k == 0
    ensures x in Parts(v[k..]) <==> exists p: nat, q: nat :: Compared(v, uri, p, q) && x == Cut(v, p, q)
  {
    hide Parts, StrLen, Terminated, Compared, StringAt;
    PartsAre(v[k..], x);
    if p: nat, q: nat :| StringAt(v[k..], p, q) && x == Cut(v[k..], p, q) {
      StringIn(v[k..], p, q);
      Shifted(v, k, p, q);
      ComparedIs(v, uri, k, p + k, q + k);
    }
    if p: nat, q: nat :| Compared(v, uri, p, q) && x == Cut(v, p, q) {
      ComparedInside(v, uri, p, q);
      ComparedIs(v, uri, k, p, q);
      StringIn(v[k..], p - k, q - k);
      Shifted(v, k, p - k, q - k);
    }
  }

  lemma StringIn(v: seq<byte>, p: nat, q: nat)
    requires StringAt(v, p, q)
    ensures p <= q < |v| && Cut(v, p, q) == v[p..q]
  {
  }

  lemma Shifted(v: seq<byte>, k: nat, p: nat, q: nat)
    requires k <= |v| && p <= q < |v| - k
    ensures v[k..][p..q] == v[p + k..q + k]
  {
  }

  // ----- one track -------------------------------------------------------------------------

  /** Some field that a search looks at holds the text in what is compared of it. */
  ghost predicate TrackHolds(l: seq<Meta>, lower: Lower, text: seq<byte>) {
    exists i :: 0 <= i < |l| && LookedAt(l, i) && FieldHolds(l[i], lower, text)
  }

  lemma TrackHoldsIs(l: seq<Meta>, lower: Lower, text: seq<byte>)
    requires forall m :: m in l ==> NodeOk(m)
    ensures TrackMatches(l, Containing(lower, text)) <==> TrackHolds(l, lower, text)
  {
    var hit := Containing(lower, text);
    MatchesAre(l, hit);
    hide LookedAt, FieldHolds, FieldMatches, Searched, NodeOk;
    forall m | m in l
      ensures FieldMatches(m, hit) <==> FieldHolds(m, lower, text)
      ensures m in Searched(l) <==> exists i :: 0 <= i < |l| && LookedAt(l, i) && l[i] == m
    {
      FieldHoldsIs(m, lower, text);
      SearchedIs(l, m);
    }
    if i :| 0 <= i < |l| && LookedAt(l, i) && FieldHolds(l[i], lower, text) {
      assert l[i] in l && l[i] in Searched(l);
    }
  }

  /** A track whose only field that is looked at is a URI is found by the file name and not by the directories. */
  lemma FoundByFileName(l: seq<Meta>, u: nat, dir: seq<byte>, name: seq<byte>, lower: Lower, text: seq<byte>)
    requires forall m :: m in l ==> NodeOk(m)
    requires u < |l| && l[u].value != null && UriKey(l[u])
    requires forall i :: 0 <= i < |l| ==> (LookedAt(l, i) <==> i == u)
    requires l[u].value.str == dir + [47] + name + [0] && 0 !in dir && 0 !in name && 47 !in name
    ensures TrackMatches(l, Containing(lower, text)) <==> Within(lower(name), text)
  {
    TrackHoldsIs(l, lower, text);
    hide LookedAt, Within, NodeOk, UriKey, TrackMatches, Containing;
    var v, k, n := l[u].value.str, |dir| + 1, |dir| + 1 + |name|;
    assert v[k..n] == name && v[n] == 0 && v[k - 1] == 47 && v[..k] == dir + [47];
    assert Compared(v, true, k, n);
    forall p: nat, q: nat | Compared(v, true, p, q)
      ensures p == k && q == n
    {
      FileNameOnly(v, dir, name, p, q);
    }
  }

  lemma FileNameOnly(v: seq<byte>, dir: seq<byte>, name: seq<byte>, p: nat, q: nat)
    requires v == dir + [47] + name + [0] && 0 !in dir && 0 !in name && 47 !in name && Compared(v, true, p, q)
    ensures p == |dir| + 1 && q == |dir| + 1 + |name|
  {
    var k, n := |dir| + 1, |dir| + 1 + |name|;
    assert v[n] == 0 && v[k - 1] == 47;
    forall i | 0 <= i < n ensures v[i] != 0 {
      assert i < |dir| ==> v[i] == dir[i];
      assert i > |dir| ==> v[i] == name[i - k];
    }
    assert 0 !in v[..p];
    assert v[k..n] == name;
    OneFileName(v, n, k, p, q);
  }

  // ----- a whole search --------------------------------------------------------------------

  /** A search without memory finds exactly the tracks that hold the text, in the order of the list. */
  lemma FoundHolds(s: seq<PlayItem>, strs: set<CacheStr>, lower: Lower, text: seq<byte>)
    requires AllFields(s, strs)
    ensures var r := Found(s, Containing(lower, text));
      && (forall i :: 0 <= i < |s| ==> (s[i] in r <==> TrackHolds(s[i].meta, lower, text)))
      && InOrder(s, r)
  {
    hide TrackHolds, TrackMatches, NodeOk, InOrder;
    var hit := Containing(lower, text);
    FoundOrdered(s, hit);
    forall i | 0 <= i < |s|
      ensures s[i] in Found(s, hit) <==> TrackHolds(s[i].meta, lower, text)
    {
      FoundIs(s, hit, s[i]);
      TrackHoldsIs(s[i].meta, lower, text);
    }
  }

  ghost predicate Before(s: seq<PlayItem>, x: PlayItem, y: PlayItem) {
    exists i, j :: 0 <= i < j < |s| && s[i] == x && s[j] == y
  }

  ghost predicate InOrder(s: seq<PlayItem>, r: seq<PlayItem>) {
    forall a, b :: 0 <= a < b < |r| ==> Before(s, r[a], r[b])
  }

  lemma BeforeMore(s: seq<PlayItem>, n: nat, x: PlayItem, y: PlayItem)
    requires n < |s|
    ensures Before(s[..n], x, y) ==> Before(s, x, y)
    ensures x in s[..n] ==> Before(s, x, s[n])
  {
    if i, j :| 0 <= i < j < n && s[..n][i] == x && s[..n][j] == y {
      assert s[i] == x && s[j] == y;
    }
    if x in s[..n] {
      var i :| 0 <= i < n && s[..n][i] == x;
      assert s[i] == x;
    }
  }

  lemma InOrderMore(s: seq<PlayItem>, n: nat, r: seq<PlayItem>)
    requires n < |s| && InOrder(s[..n], r) && forall x :: x in r ==> x in s[..n]
    ensures InOrder(s, r) && InOrder(s, r + [s[n]])
  {
    hide Before;
    var r1 := r + [s[n]];
    forall a, b | 0 <= a < b < |r1|
      ensures Before(s, r1[a], r1[b])
    {
      BeforeMore(s, n, r1[a], r1[b]);
    }
    assert forall a, b :: 0 <= a < b < |r| ==> r[a] == r1[a] && r[b] == r1[b];
  }

  lemma {:induction false} FoundOrdered(s: seq<PlayItem>, hit: Hit)
    ensures InOrder(s, Found(s, hit))
    decreases |s|
  {
    hide TrackMatches, Before;
    if s != [] {
      FoundOrdered(s[..|s| - 1], hit);
      InOrderMore(s, |s| - 1, Found(s[..|s| - 1], hit));
    }
  }

  /** Of the strings that are looked at, exactly `uris` are looked at as URI. */
  ghost predicate OneUse(l: seq<Meta>, uris: set<CacheStr>) {
    forall i :: 0 <= i < |l| && LookedAt(l, i) ==> (UriKey(l[i]) <==> l[i].value in uris)
  }

  lemma RoleIs(l: seq<Meta>, uris: set<CacheStr>)
    requires forall m :: m in l ==> NodeOk(m)
    ensures OneRole(Searched(l), uris) <==> OneUse(l, uris)
  {
    hide LookedAt, UriKey, IsUri, Searched, NodeOk;
    forall m | m in l
      ensures UriKey(m) <==> IsUri(m)
      ensures m in Searched(l) <==> exists i :: 0 <= i < |l| && LookedAt(l, i) && l[i] == m
    {
      UriKeyIs(m);
      SearchedIs(l, m);
    }
    if OneRole(Searched(l), uris) {
      forall i | 0 <= i < |l| && LookedAt(l, i)
        ensures UriKey(l[i]) <==> l[i].value in uris
      {
        assert l[i] in l && l[i] in Searched(l);
      }
    }
  }

  lemma RolesAre(s: seq<PlayItem>, strs: set<CacheStr>, uris: set<CacheStr>)
    requires AllFields(s, strs)
    ensures AllRoles(s, uris) <==> forall i :: 0 <= i < |s| ==> OneUse(s[i].meta, uris)
  {
    hide OneRole, OneUse, Searched, NodeOk;
    forall i | 0 <= i < |s|
      ensures OneRole(Searched(s[i].meta), uris) <==> OneUse(s[i].meta, uris)
    {
      RoleIs(s[i].meta, uris);
    }
  }

  /** A search whose number no string carries yet finds exactly the tracks that hold the text, in the order of the
      list; without a text it finds nothing and leaves the strings alone. */
  lemma FreshSearch(s: seq<PlayItem>, q: Query, uris: set<CacheStr>, lower: Lower, text: seq<byte>)
    requires AllFields(s, q.memo.Keys) && (forall i :: 0 <= i < |s| ==> OneUse(s[i].meta, uris))
    requires 0 < q.idx && q.hit == Containing(lower, text)
    requires forall e :: e in q.memo ==> q.memo[e] != q.idx && q.memo[e] != -q.idx
    ensures q.text == [] ==> Outcome(s, q) == Results([], q.memo)
    ensures q.text != [] ==> var r := Outcome(s, q).found;
      && (forall i :: 0 <= i < |s| ==> (s[i] in r <==> TrackHolds(s[i].meta, lower, text)))
      && InOrder(s, r)
  {
    RolesAre(s, q.memo.Keys, uris);
    FoundHolds(s, q.memo.Keys, lower, text);
    NoVerdictsYet(s, q.memo, q.idx);
    SearchRight(s, q.memo, uris, q.idx);
    hide ListWalk, Found, TrackHolds, InOrder, AllHarmless, AllRoles, OneUse, Fields;
    assert ListWalk(s, q.memo, q.idx, q.hit).found == Found(s, q.hit);
  }

  // ----- what a search leaves on the strings -----------------------------------------------

  /** Strings of fields up to the first that matches. */
  ghost function Passed(fields: seq<Meta>, hit: Hit): (r: set<CacheStr?>) {
    if fields == [] then {}
    else if FieldMatches(fields[0], hit) then {fields[0].value}
    else {fields[0].value} + Passed(fields[1..], hit)
  }

  ghost function AllPassed(s: seq<PlayItem>, hit: Hit): (r: set<CacheStr?>)
    reads s`meta
  {
    if s == [] then {} else AllPassed(s[..|s| - 1], hit) + Passed(Searched(s[|s| - 1].meta), hit)
  }

  /** Strings in `seen` carry the verdict of this search, all others what they carried before. */
  ghost predicate Marked(memo0: Memo, memo: Memo, seen: set<CacheStr?>, uris: set<CacheStr>, idx: int, hit: Hit) {
    && memo.Keys == memo0.Keys
    && forall e :: e in memo0 ==>
        memo[e] == if e !in seen then memo0[e] else if ValueMatches(e.str, e in uris, hit) then idx else -idx
  }

  ghost predicate Unused(memo: Memo, idx: int) {
    forall e :: e in memo ==> memo[e] != idx && memo[e] != -idx
  }

  lemma FieldMarks(m: Meta, memo0: Memo, memo: Memo, seen: set<CacheStr?>, uris: set<CacheStr>, idx: int, hit: Hit)
    requires NodeOk(m) && m.value in memo0 && (IsUri(m) <==> m.value in uris) && 0 < idx && Unused(memo0, idx)
    requires Marked(memo0, memo, seen, uris, idx, hit)
    ensures var w := FieldWalk(m, memo, idx, hit);
      (w.found <==> FieldMatches(m, hit)) && Marked(memo0, w.memo, seen + {m.value}, uris, idx, hit)
  {
    hide ValueMatches, IsUri;
  }

  lemma {:induction false} TrackMarks(fields: seq<Meta>, memo0: Memo, memo: Memo, seen: set<CacheStr?>,
                                      uris: set<CacheStr>, idx: int, hit: Hit)
    requires Fields(fields, memo0.Keys) && OneRole(fields, uris) && 0 < idx && Unused(memo0, idx)
    requires Marked(memo0, memo, seen, uris, idx, hit)
    ensures Marked(memo0, TrackWalk(fields, memo, idx, hit).memo, seen + Passed(fields, hit), uris, idx, hit)
  {
    hide FieldWalk, FieldMatches, IsUri, NodeOk, Unused;
    if fields == [] {
      assert seen + {} == seen;
    } else {
      var m, rest := fields[0], fields[1..];
      assert m in fields && Fields(rest, memo0.Keys) && OneRole(rest, uris);
      FieldMarks(m, memo0, memo, seen, uris, idx, hit);
      var w := FieldWalk(m, memo, idx, hit);
      if !w.found {
        TrackMarks(rest, memo0, w.memo, seen + {m.value}, uris, idx, hit);
        assert seen + ({m.value} + Passed(rest, hit)) == seen + {m.value} + Passed(rest, hit);
      }
    }
  }

  lemma {:induction false} ListMarks(s: seq<PlayItem>, memo: Memo, uris: set<CacheStr>, idx: int, hit: Hit)
    requires AllFields(s, memo.Keys) && AllRoles(s, uris) && 0 < idx && Unused(memo, idx)
    ensures Marked(memo, ListWalk(s, memo, idx, hit).memo, AllPassed(s, hit), uris, idx, hit)
    decreases |s|
  {
    hide Passed, TrackWalk, Unused, OneRole, Searched, ValueMatches;
    if s != [] {
      var n := |s| - 1;
      ListMarks(s[..n], memo, uris, idx, hit);
      var r := ListWalk(s[..n], memo, idx, hit);
      TrackMarks(Searched(s[n].meta), memo, r.memo, AllPassed(s[..n], hit), uris, idx, hit);
    }
  }

  /** A search comes to a field if it looks at it and no field before it holds the text. */
  ghost predicate Reached(l: seq<Meta>, i: nat, lower: Lower, text: seq<byte>) {
    i < |l| && LookedAt(l, i) && forall j :: 0 <= j < i && LookedAt(l, j) ==> !FieldHolds(l[j], lower, text)
  }

  lemma FirstReached(l: seq<Meta>, lower: Lower, text: seq<byte>)
    ensures Reached(l, 0, lower, text) <==> l != [] && LookedAt(l, 0)
  {
    hide LookedAt, FieldHolds;
  }

  lemma NextReached(l: seq<Meta>, i: nat, lower: Lower, text: seq<byte>)
    requires l != [] && NodeOk(l[0]) && i < |l| - 1
    ensures Reached(l, i + 1, lower, text) <==>
      !EndsScan(l[0]) && (Skipped(l[0]) || !FieldHolds(l[0], lower, text)) && Reached(l[1..], i, lower, text)
  {
    FirstLooked(l);
    forall j | 0 <= j < |l| - 1
      ensures !EndsScan(l[0]) ==> (LookedAt(l, j + 1) <==> LookedAt(l[1..], j))
      ensures l[1..][j] == l[j + 1] && (LookedAt(l, j + 1) ==> !EndsScan(l[0]))
    {
      NextLooked(l, j);
    }
    hide LookedAt, FieldHolds, EndsScan, Skipped;
    if !EndsScan(l[0]) && Reached(l[1..], i, lower, text) && (Skipped(l[0]) || !FieldHolds(l[0], lower, text)) {
      forall j | 0 <= j < i + 1 && LookedAt(l, j) ensures !FieldHolds(l[j], lower, text) {
        assert j > 0 ==> LookedAt(l[1..], j - 1);
      }
    }
    if Reached(l, i + 1, lower, text) {
      forall j | 0 <= j < i && LookedAt(l[1..], j) ensures !FieldHolds(l[1..][j], lower, text) {
        assert LookedAt(l, j + 1);
      }
    }
  }

  lemma {:induction false} PassedIs(l: seq<Meta>, lower: Lower, text: seq<byte>, e: CacheStr)
    requires forall m :: m in l ==> NodeOk(m)
    ensures e in Passed(Searched(l), Containing(lower, text)) <==>
      exists i :: 0 <= i < |l| && Reached(l, i, lower, text) && l[i].value == e
    decreases |l|
  {
    hide EndsScan, Skipped, FieldMatches, FieldHolds, Reached, NodeOk, Containing;
    var hit := Containing(lower, text);
    if l == [] {
    } else {
      PassedIs(l[1..], lower, text, e);
      PassedFirst(l, hit);
      FirstReached(l, lower, text);
      FirstLooked(l);
      FieldHoldsIs(l[0], lower, text);
      hide Passed, Searched, LookedAt;
      forall i | 0 <= i < |l| - 1
        ensures l[1..][i] == l[i + 1]
        ensures Reached(l, i + 1, lower, text) <==>
          !EndsScan(l[0]) && (Skipped(l[0]) || !FieldHolds(l[0], lower, text)) && Reached(l[1..], i, lower, text)
      {
        NextReached(l, i, lower, text);
      }
      if i :| 0 <= i < |l| - 1 && Reached(l[1..], i, lower, text) && l[1..][i].value == e {
        assert Reached(l, i + 1, lower, text) ==> l[i + 1].value == e;
      }
      if i :| 0 <= i < |l| && Reached(l, i, lower, text) && l[i].value == e && i != 0 {
        assert l[1..][i - 1] == l[i];
      }
    }
  }

  lemma PassedFirst(l: seq<Meta>, hit: Hit)
    requires l != []
    ensures Passed(Searched(l), hit) ==
      if EndsScan(l[0]) then {}
      else if Skipped(l[0]) then Passed(Searched(l[1..]), hit)
      else if FieldMatches(l[0], hit) then {l[0].value}
      else {l[0].value} + Passed(Searched(l[1..]), hit)
  {
    hide EndsScan, Skipped, FieldMatches;
    assert !EndsScan(l[0]) && !Skipped(l[0]) ==> Searched(l)[0] == l[0] && Searched(l)[1..] == Searched(l[1..]);
  }

  /** A search comes to the string as the value of some field. */
  ghost predicate ComesTo(s: seq<PlayItem>, e: CacheStr, lower: Lower, text: seq<byte>)
    reads s`meta
  {
    exists i, j :: 0 <= i < |s| && 0 <= j < |s[i].meta| && Reached(s[i].meta, j, lower, text) && s[i].meta[j].value == e
  }

  lemma {:induction false} AllPassedIs(s: seq<PlayItem>, strs: set<CacheStr>, lower: Lower, text: seq<byte>,
                                       e: CacheStr)
    requires AllFields(s, strs)
    ensures e in AllPassed(s, Containing(lower, text)) <==> ComesTo(s, e, lower, text)
    decreases |s|
  {
    hide Passed, Reached, Searched, NodeOk, Containing;
    if s != [] {
      var n := |s| - 1;
      AllPassedIs(s[..n], strs, lower, text, e);
      PassedIs(s[n].meta, lower, text, e);
      var p := s[..n];
      if i, j :| 0 <= i < n && 0 <= j < |p[i].meta| && Reached(p[i].meta, j, lower, text) && p[i].meta[j].value == e {
        assert s[i] == p[i];
      }
      if i, j :| 0 <= i < |s| && 0 <= j < |s[i].meta| && Reached(s[i].meta, j, lower, text) && s[i].meta[j].value == e {
        if i < n {
          assert p[i] == s[i];
        }
      }
    }
  }

  /** What such a search leaves on the strings: exactly those that it comes to carry its number, with the sign that
      says whether they hold the text. */
  lemma FreshVerdicts(s: seq<PlayItem>, q: Query, uris: set<CacheStr>, lower: Lower, text: seq<byte>, e: CacheStr)
    requires AllFields(s, q.memo.Keys) && (forall i :: 0 <= i < |s| ==> OneUse(s[i].meta, uris))
    requires 0 < q.idx && q.hit == Containing(lower, text) && q.text != [] && e in q.memo
    requires forall e :: e in q.memo ==> q.memo[e] != q.idx && q.memo[e] != -q.idx
    ensures Outcome(s, q).memo[e] ==
      if !ComesTo(s, e, lower, text) then q.memo[e]
      else if ValueHolds(e.str, e in uris, lower, text) then q.idx else -q.idx
  {
    RolesAre(s, q.memo.Keys, uris);
    ListMarks(s, q.memo, uris, q.idx, q.hit);
    AllPassedIs(s, q.memo.Keys, lower, text, e);
    hide ListWalk, AllPassed, ComesTo, AllRoles, OneUse, Fields, Containing, ValueHolds, ValueMatches;
    if ComesTo(s, e, lower, text) {
      Comes(s, q.memo.Keys, e, uris, lower, text);
    }
  }

  lemma Comes(s: seq<PlayItem>, strs: set<CacheStr>, e: CacheStr, uris: set<CacheStr>, lower: Lower, text: seq<byte>)
    requires AllFields(s, strs) && (forall i :: 0 <= i < |s| ==> OneUse(s[i].meta, uris))
    requires ComesTo(s, e, lower, text)
    ensures ValueMatches(e.str, e in uris, Containing(lower, text)) <==> ValueHolds(e.str, e in uris, lower, text)
  {
    hide LookedAt, FieldHolds, Containing, ValueMatches, ValueHolds, NodeOk, UriKey, IsUri;
    var i, j :| 0 <= i < |s| && 0 <= j < |s[i].meta| && Reached(s[i].meta, j, lower, text) && s[i].meta[j].value == e;
    var m := s[i].meta[j];
    assert m in s[i].meta && OneUse(s[i].meta, uris);
    SameField(m, e in uris, lower, text);
  }

  lemma SameField(m: Meta, uri: bool, lower: Lower, text: seq<byte>)
    requires NodeOk(m) && (UriKey(m) <==> uri)
    ensures ValueMatches(m.value.str, uri, Containing(lower, text)) <==> ValueHolds(m.value.str, uri, lower, text)
  {
    FieldHoldsIs(m, lower, text);
    UriKeyIs(m);
    hide Containing, ValueMatches, ValueHolds, UriKey, IsUri;
  }
}
