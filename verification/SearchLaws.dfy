/** When remembering verdicts does not change what a search finds. */
module SearchLaws {
  import opened PlayItems
  import opened MetaSpec
  import opened PlMeta
  import opened TrackSearch

  // ----- one field -------------------------------------------------------------------------

  /** The strings of a field that are compared with the text. */
  ghost function FieldParts(m: Meta): seq<seq<byte>>
    requires NodeOk(m)
  {
    SearchedTerminated(m.value.str, IsUri(m));
    Parts(SearchedPart(m.value.str, IsUri(m)))
  }

  lemma FieldMatchesIs(m: Meta, hit: Hit)
    requires NodeOk(m)
    ensures FieldMatches(m, hit) <==> exists i :: 0 <= i < |FieldParts(m)| && hit(FieldParts(m)[i])
  {
    SearchedTerminated(m.value.str, IsUri(m));
    hide Parts, SearchedPart, IsUri;
    var v := SearchedPart(m.value.str, IsUri(m));
    assert FieldParts(m) == Parts(v);
    assert FieldMatches(m, hit) == AnyHit(v, hit);
    assert AnyHit(v, hit) <==> exists i :: 0 <= i < |Parts(v)| && hit(Parts(v)[i]);
  }

  lemma SomeString(v: seq<byte>, uri: bool)
    requires Terminated(v) && v != []
    ensures !ValueMatches(v, uri, Never()) && ValueMatches(v, uri, Always())
  {
    SearchedTerminated(v, uri);
    var part := SearchedPart(v, uri);
    PartsHead(part);
    assert Always()(Parts(part)[0]);
  }

  function Never(): Hit {
    _ => false
  }

  function Always(): Hit {
    _ => true
  }

  function Just(p: seq<byte>): Hit {
    x => x == p
  }

  /** A field is answered correctly, for every predicate on strings, if and only if its string carries no
      verdict with the number of this search. */
  lemma AnswerRight(cmpidx: int, idx: int, v: seq<byte>, uri: bool)
    requires Terminated(v) && v != []
    ensures (forall hit: Hit :: Answer(cmpidx, idx, ValueMatches(v, uri, hit)) == ValueMatches(v, uri, hit))
      <==> Abs(cmpidx) != idx
  {
    SomeString(v, uri);
    if Abs(cmpidx) == idx {
      assert Answer(cmpidx, idx, ValueMatches(v, uri, Never())) == Answer(cmpidx, idx, ValueMatches(v, uri, Always()));
    }
  }

  // ----- one track -------------------------------------------------------------------------

  /** Some field of the track answers yes, with the verdicts from before the search. */
  ghost predicate Remembered(fields: seq<Meta>, memo: Memo, idx: int, hit: Hit)
    requires Fields(fields, memo.Keys)
  {
    exists i :: 0 <= i < |fields| && FieldAnswer(fields[i], memo, idx, hit)
  }

  ghost predicate FieldAnswer(m: Meta, memo: Memo, idx: int, hit: Hit) {
    NodeOk(m) && m.value in memo && Answer(memo[m.value], idx, FieldMatches(m, hit))
  }

  /** The string of the field carries a verdict with the number of this search. */
  ghost predicate Stale(m: Meta, memo: Memo, idx: int) {
    NodeOk(m) && m.value in memo && Abs(memo[m.value]) == idx
  }

  /** No verdict of this number says yes, and every string of a field with one also stands in a field
      without. */
  ghost predicate Harmless(fields: seq<Meta>, memo: Memo, idx: int)
    requires Fields(fields, memo.Keys)
  {
    && (forall m :: m in fields && Stale(m, memo, idx) ==> memo[m.value] <= 0)
    && (forall m, p :: m in fields && Stale(m, memo, idx) && p in FieldParts(m) ==> Elsewhere(fields, memo, idx, p))
  }

  ghost predicate Elsewhere(fields: seq<Meta>, memo: Memo, idx: int, p: seq<byte>)
    requires Fields(fields, memo.Keys)
  {
    exists m :: m in fields && !Stale(m, memo, idx) && p in FieldParts(m)
  }

  ghost predicate SomeField(fields: seq<Meta>, hit: Hit) {
    exists m :: m in fields && FieldMatches(m, hit)
  }

  lemma MatchesAre(l: seq<Meta>, hit: Hit)
    ensures TrackMatches(l, hit) <==> SomeField(Searched(l), hit)
  {
    hide FieldMatches, Searched;
  }

  lemma RememberedIs(fields: seq<Meta>, memo: Memo, idx: int, hit: Hit)
    requires Fields(fields, memo.Keys)
    ensures Remembered(fields, memo, idx, hit) <==> exists m :: m in fields && FieldAnswer(m, memo, idx, hit)
  {
    hide FieldAnswer;
    if m :| m in fields && FieldAnswer(m, memo, idx, hit) {
      var i :| 0 <= i < |fields| && fields[i] == m;
      assert FieldAnswer(fields[i], memo, idx, hit);
    }
  }

  lemma HarmlessAnswers(fields: seq<Meta>, memo: Memo, idx: int, hit: Hit)
    requires Fields(fields, memo.Keys) && Harmless(fields, memo, idx)
    ensures Remembered(fields, memo, idx, hit) <==> SomeField(fields, hit)
  {
    RememberedIs(fields, memo, idx, hit);
    hide FieldParts, FieldMatches;
    if m :| m in fields && FieldMatches(m, hit) {
      if Stale(m, memo, idx) {
        FieldMatchesIs(m, hit);
        var i :| 0 <= i < |FieldParts(m)| && hit(FieldParts(m)[i]);
        var p := FieldParts(m)[i];
        assert p in FieldParts(m) && Elsewhere(fields, memo, idx, p);
        var n :| n in fields && !Stale(n, memo, idx) && p in FieldParts(n);
        FieldMatchesIs(n, hit);
        var k :| 0 <= k < |FieldParts(n)| && FieldParts(n)[k] == p;
        assert FieldAnswer(n, memo, idx, hit);
      } else {
        assert FieldAnswer(m, memo, idx, hit);
      }
    }
  }

  lemma HarmfulYes(fields: seq<Meta>, memo: Memo, idx: int, m: Meta)
    requires Fields(fields, memo.Keys) && m in fields && Stale(m, memo, idx) && memo[m.value] > 0
    ensures Remembered(fields, memo, idx, Never()) && !SomeField(fields, Never())
  {
    RememberedIs(fields, memo, idx, Never());
    forall n | n in fields ensures !FieldMatches(n, Never()) {
      SomeString(n.value.str, IsUri(n));
    }
    hide FieldMatches;
    assert FieldAnswer(m, memo, idx, Never());
  }

  lemma HarmfulNo(fields: seq<Meta>, memo: Memo, idx: int, m: Meta, p: seq<byte>)
    requires Fields(fields, memo.Keys) && m in fields && Stale(m, memo, idx) && p in FieldParts(m)
    requires !Elsewhere(fields, memo, idx, p) && forall n :: n in fields && Stale(n, memo, idx) ==> memo[n.value] <= 0
    ensures !Remembered(fields, memo, idx, Just(p)) && SomeField(fields, Just(p))
  {
    hide FieldParts, FieldMatches;
    FieldMatchesIs(m, Just(p));
    var k :| 0 <= k < |FieldParts(m)| && FieldParts(m)[k] == p;
    assert Just(p)(FieldParts(m)[k]);
    RememberedIs(fields, memo, idx, Just(p));
    forall n | n in fields ensures !FieldAnswer(n, memo, idx, Just(p)) {
      if !Stale(n, memo, idx) {
        FieldMatchesIs(n, Just(p));
      }
    }
  }

  /** Remembering changes nothing for a track, for every predicate on strings, if and only if the verdicts its
      strings carry are harmless. */
  lemma TrackRight(l: seq<Meta>, memo: Memo, idx: int)
    requires Fields(l, memo.Keys)
    ensures Fields(Searched(l), memo.Keys)
    ensures (forall hit: Hit :: Remembered(Searched(l), memo, idx, hit) == TrackMatches(l, hit))
      <==> Harmless(Searched(l), memo, idx)
  {
    var fields := Searched(l);
    assert Fields(fields, memo.Keys);
    hide Fields, TrackMatches, Searched, Remembered;
    if Harmless(fields, memo, idx) {
      forall hit: Hit ensures Remembered(fields, memo, idx, hit) == TrackMatches(l, hit) {
        HarmlessAnswers(fields, memo, idx, hit);
        MatchesAre(l, hit);
      }
    } else if m :| m in fields && Stale(m, memo, idx) && memo[m.value] > 0 {
      HarmfulYes(fields, memo, idx, m);
      MatchesAre(l, Never());
    } else {
      var m, p :| m in fields && Stale(m, memo, idx) && p in FieldParts(m) && !Elsewhere(fields, memo, idx, p);
      HarmfulNo(fields, memo, idx, m, p);
      MatchesAre(l, Just(p));
    }
  }

  // ----- a whole list ----------------------------------------------------------------------

  /** A string is a URI in all searched fields or in none. */
  ghost predicate OneRole(fields: seq<Meta>, uris: set<CacheStr>) {
    forall m :: m in fields ==> (IsUri(m) <==> m.value in uris)
  }

  ghost predicate AllRoles(s: seq<PlayItem>, uris: set<CacheStr>)
    reads s`meta
  {
    forall i :: 0 <= i < |s| ==> OneRole(Searched(s[i].meta), uris)
  }

  /** Part way through a search: verdicts of its number from before are as they were, all others of its
      number are right. */
  ghost predicate Consistent(memo0: Memo, memo: Memo, uris: set<CacheStr>, idx: int, hit: Hit) {
    && memo.Keys == memo0.Keys
    && forall e :: e in memo0 ==>
        || memo[e] == memo0[e]
        || (Abs(memo0[e]) != idx && Abs(memo[e]) == idx && (memo[e] > 0 <==> ValueMatches(e.str, e in uris, hit)))
  }

  lemma FieldWalkIs(m: Meta, memo0: Memo, memo: Memo, uris: set<CacheStr>, idx: int, hit: Hit)
    requires NodeOk(m) && m.value in memo0 && (IsUri(m) <==> m.value in uris) && 0 < idx
    requires Consistent(memo0, memo, uris, idx, hit)
    ensures var w := FieldWalk(m, memo, idx, hit);
      (w.found <==> FieldAnswer(m, memo0, idx, hit)) && Consistent(memo0, w.memo, uris, idx, hit)
  {
    hide ValueMatches, IsUri;
  }

  lemma {:induction false} TrackWalkIs(fields: seq<Meta>, memo0: Memo, memo: Memo, uris: set<CacheStr>, idx: int,
                                       hit: Hit)
    requires Fields(fields, memo0.Keys) && OneRole(fields, uris) && 0 < idx && Consistent(memo0, memo, uris, idx, hit)
    ensures var w := TrackWalk(fields, memo, idx, hit);
      (w.found <==> Remembered(fields, memo0, idx, hit)) && Consistent(memo0, w.memo, uris, idx, hit)
  {
    if fields != [] {
      var m, rest := fields[0], fields[1..];
      assert m in fields && NodeOk(m);
      FieldWalkIs(m, memo0, memo, uris, idx, hit);
      var w := FieldWalk(m, memo, idx, hit);
      assert w.memo.Keys == memo0.Keys;
      assert Fields(rest, memo0.Keys) && OneRole(rest, uris);
      if !w.found {
        TrackWalkIs(rest, memo0, w.memo, uris, idx, hit);
      }
      hide Consistent, FieldAnswer, FieldWalk, NodeOk;
      RememberedFirst(fields, memo0, idx, hit);
    }
  }

  lemma RememberedFirst(fields: seq<Meta>, memo: Memo, idx: int, hit: Hit)
    requires Fields(fields, memo.Keys) && fields != []
    ensures Fields(fields[1..], memo.Keys)
    ensures Remembered(fields, memo, idx, hit) <==>
      FieldAnswer(fields[0], memo, idx, hit) || Remembered(fields[1..], memo, idx, hit)
  {
    hide FieldAnswer;
    var rest := fields[1..];
    if i :| 0 <= i < |rest| && FieldAnswer(rest[i], memo, idx, hit) {
      assert fields[i + 1] == rest[i];
    }
    if i :| 0 < i < |fields| && FieldAnswer(fields[i], memo, idx, hit) {
      assert rest[i - 1] == fields[i];
    }
  }

  /** The tracks that answer yes with the verdicts from before the search. */
  ghost function FoundWith(s: seq<PlayItem>, memo: Memo, idx: int, hit: Hit): (r: seq<PlayItem>)
    requires AllFields(s, memo.Keys)
    reads s`meta
  {
    if s == [] then []
    else
      var n := |s| - 1;
      var r := FoundWith(s[..n], memo, idx, hit);
      if TrackRemembered(s[n], memo, idx, hit) then r + [s[n]] else r
  }

  ghost predicate TrackRemembered(it: PlayItem, memo: Memo, idx: int, hit: Hit)
    requires Fields(it.meta, memo.Keys)
    reads it`meta
  {
    assert Fields(Searched(it.meta), memo.Keys);
    Remembered(Searched(it.meta), memo, idx, hit)
  }

  lemma {:induction false} ListWalkIs(s: seq<PlayItem>, memo: Memo, uris: set<CacheStr>, idx: int, hit: Hit)
    requires AllFields(s, memo.Keys) && AllRoles(s, uris) && 0 < idx
    ensures var r := ListWalk(s, memo, idx, hit);
      r.found == FoundWith(s, memo, idx, hit) && Consistent(memo, r.memo, uris, idx, hit)
    decreases |s|
  {
    if s != [] {
      var n := |s| - 1;
      ListWalkIs(s[..n], memo, uris, idx, hit);
      var r := ListWalk(s[..n], memo, idx, hit);
      TrackWalkIs(Searched(s[n].meta), memo, r.memo, uris, idx, hit);
      hide TrackWalk, Remembered, Consistent, Searched;
    } else {
      hide ValueMatches;
    }
  }

  /** All tracks are harmless. */
  ghost predicate AllHarmless(s: seq<PlayItem>, memo: Memo, idx: int)
    requires AllFields(s, memo.Keys)
    reads s`meta
  {
    forall i :: 0 <= i < |s| ==> TrackHarmless(s[i], memo, idx)
  }

  ghost predicate TrackHarmless(it: PlayItem, memo: Memo, idx: int)
    requires Fields(it.meta, memo.Keys)
    reads it`meta
  {
    assert Fields(Searched(it.meta), memo.Keys);
    Harmless(Searched(it.meta), memo, idx)
  }

  lemma {:induction false} FoundMembers(s: seq<PlayItem>, memo: Memo, idx: int, hit: Hit, i: nat)
    requires AllFields(s, memo.Keys) && i < |s|
    ensures s[i] in FoundWith(s, memo, idx, hit) <==> TrackRemembered(s[i], memo, idx, hit)
    ensures s[i] in Found(s, hit) <==> TrackMatches(s[i].meta, hit)
  {
    FoundWithIs(s, memo, idx, hit, s[i]);
    FoundIs(s, hit, s[i]);
  }

  lemma {:induction false} FoundWithIs(s: seq<PlayItem>, memo: Memo, idx: int, hit: Hit, x: PlayItem)
    requires AllFields(s, memo.Keys)
    ensures x in FoundWith(s, memo, idx, hit) ==> x in s
    ensures forall i :: 0 <= i < |s| && s[i] == x ==>
      (x in FoundWith(s, memo, idx, hit) <==> TrackRemembered(s[i], memo, idx, hit))
    decreases |s|
  {
    hide TrackRemembered, Fields;
    if s != [] {
      var n := |s| - 1;
      FoundWithIs(s[..n], memo, idx, hit, x);
      if x in s[..n] {
        var i :| 0 <= i < n && s[..n][i] == x;
        assert s[i] == x;
      }
    }
  }

  lemma {:induction false} FoundIs(s: seq<PlayItem>, hit: Hit, x: PlayItem)
    ensures forall i :: 0 <= i < |s| && s[i] == x ==> (x in Found(s, hit) <==> TrackMatches(s[i].meta, hit))
    decreases |s|
  {
    hide TrackMatches;
    if s != [] {
      var n := |s| - 1;
      FoundIs(s[..n], hit, x);
      if x in s[..n] {
        var i :| 0 <= i < n && s[..n][i] == x;
        assert s[i] == x;
      }
    }
  }

  lemma {:induction false} SameFound(s: seq<PlayItem>, memo: Memo, idx: int, hit: Hit)
    requires AllFields(s, memo.Keys)
    requires forall i :: 0 <= i < |s| ==> TrackRemembered(s[i], memo, idx, hit) == TrackMatches(s[i].meta, hit)
    ensures FoundWith(s, memo, idx, hit) == Found(s, hit)
    decreases |s|
  {
    hide TrackRemembered, TrackMatches, Fields;
    if s != [] {
      SameFound(s[..|s| - 1], memo, idx, hit);
    }
  }

  /** A search finds exactly what a search without memory finds, for every predicate on strings, if and only if
      in every track the verdicts of its number are harmless. */
  lemma SearchRight(s: seq<PlayItem>, memo: Memo, uris: set<CacheStr>, idx: int)
    requires AllFields(s, memo.Keys) && AllRoles(s, uris) && 0 < idx
    ensures (forall hit: Hit :: ListWalk(s, memo, idx, hit).found == Found(s, hit)) <==> AllHarmless(s, memo, idx)
  {
    hide ListWalk, Found, AllRoles, TrackRemembered, TrackMatches, TrackHarmless, Fields;
    forall i | 0 <= i < |s|
      ensures (forall hit: Hit :: TrackRemembered(s[i], memo, idx, hit) == TrackMatches(s[i].meta, hit))
        <==> TrackHarmless(s[i], memo, idx)
    {
      OneTrack(s[i], memo, idx);
    }
    if AllHarmless(s, memo, idx) {
      forall hit: Hit ensures ListWalk(s, memo, idx, hit).found == Found(s, hit) {
        ListWalkIs(s, memo, uris, idx, hit);
        SameFound(s, memo, idx, hit);
      }
    } else {
      var i :| 0 <= i < |s| && !TrackHarmless(s[i], memo, idx);
      var hit: Hit :| TrackRemembered(s[i], memo, idx, hit) != TrackMatches(s[i].meta, hit);
      ListWalkIs(s, memo, uris, idx, hit);
      FoundMembers(s, memo, idx, hit, i);
    }
  }

  lemma OneTrack(it: PlayItem, memo: Memo, idx: int)
    requires Fields(it.meta, memo.Keys)
    ensures (forall hit: Hit :: TrackRemembered(it, memo, idx, hit) == TrackMatches(it.meta, hit))
      <==> TrackHarmless(it, memo, idx)
  {
    TrackRight(it.meta, memo, idx);
    hide Remembered, TrackMatches, Harmless, Fields, Searched;
  }

  // ----- verdicts that are right -----------------------------------------------------------

  /** When no string carries the number of the search, every track is harmless. */
  lemma NoVerdictsYet(s: seq<PlayItem>, memo: Memo, idx: int)
    requires AllFields(s, memo.Keys) && forall e :: e in memo ==> Abs(memo[e]) != idx
    ensures AllHarmless(s, memo, idx)
  {
    hide FieldParts;
  }

  /** Whatever verdict of search `idx` a string carries is right; `uris` are the strings that serve as URI. */
  ghost predicate Verdicts(memo: Memo, uris: set<CacheStr>, idx: int, hit: Hit) {
    forall e :: e in memo && Abs(memo[e]) == idx ==> (memo[e] > 0 <==> ValueMatches(e.str, e in uris, hit))
  }

  /** With right verdicts the result is right too, and right verdicts are what the search leaves. */
  lemma VerdictsRight(s: seq<PlayItem>, memo: Memo, uris: set<CacheStr>, idx: int, hit: Hit)
    requires AllFields(s, memo.Keys) && AllRoles(s, uris) && 0 < idx && Verdicts(memo, uris, idx, hit)
    ensures var r := ListWalk(s, memo, idx, hit); r.found == Found(s, hit) && Verdicts(r.memo, uris, idx, hit)
  {
    ListWalkIs(s, memo, uris, idx, hit);
    forall i | 0 <= i < |s|
      ensures TrackRemembered(s[i], memo, idx, hit) == TrackMatches(s[i].meta, hit)
    {
      FieldsRight(Searched(s[i].meta), memo, uris, idx, hit);
      RememberedIs(Searched(s[i].meta), memo, idx, hit);
      MatchesAre(s[i].meta, hit);
    }
    hide Searched, TrackRemembered, TrackMatches, ListWalk, ValueMatches;
    SameFound(s, memo, idx, hit);
  }

  lemma FieldsRight(fields: seq<Meta>, memo: Memo, uris: set<CacheStr>, idx: int, hit: Hit)
    requires Fields(fields, memo.Keys) && OneRole(fields, uris) && Verdicts(memo, uris, idx, hit)
    ensures forall m :: m in fields ==> (FieldAnswer(m, memo, idx, hit) <==> FieldMatches(m, hit))
  {
    hide ValueMatches, IsUri;
  }

  // ----- verdicts that are wrong -----------------------------------------------------------

  lemma PlainField(m: Meta, name: seq<byte>, text: seq<byte>, hit: Hit)
    requires name == Ascii("title") || name == Ascii("album")
    requires m.key.str == name + [0] && m.value != null && m.value.str == text + [0] && 0 !in text
    ensures NodeOk(m) && !IsUri(m) && !EndsScan(m) && !Skipped(m) && (FieldMatches(m, hit) <==> hit(text))
  {
    assert KeyOf(m) == name && name[0] != COLON && name[0] != UNDERSCORE && name[0] != BANG && name[0] != 0;
    assert |Fold(name)| == 5 && |CUESHEET| == 8 && |LOG| == 3;
    OneString(text);
    FieldMatchesIs(m, hit);
    assert FieldParts(m) == [text] && FieldParts(m)[0] == text;
  }

  lemma OneString(text: seq<byte>)
    requires 0 !in text
    ensures Parts(text + [0]) == [text]
  {
    var v := text + [0];
    StrLenUnique(v, |text|);
    assert v[|text| + 1..] == [] && v[..|text|] == text;
  }

  lemma OneField(m: Meta, memo: Memo, idx: int, hit: Hit)
    requires NodeOk(m) && m.value in memo && !EndsScan(m) && !Skipped(m)
    ensures Searched([m]) == [m] && TrackWalk([m], memo, idx, hit) == FieldWalk(m, memo, idx, hit)
    ensures TrackMatches([m], hit) <==> FieldMatches(m, hit)
  {
    hide EndsScan, Skipped, FieldMatches, Answer, NodeOk;
    var none: seq<Meta> := [];
    assert [m][1..] == none && Searched(none) == none;
    assert [m] + none == [m];
    assert Searched([m])[0] == m;
  }

  lemma TwoFields(m: Meta, n: Meta, memo: Memo, idx: int, hit: Hit)
    requires NodeOk(m) && m.value in memo && !EndsScan(m) && !Skipped(m)
    requires NodeOk(n) && n.value in memo && !EndsScan(n) && !Skipped(n)
    ensures Searched([m, n]) == [m, n]
    ensures var w := FieldWalk(m, memo, idx, hit);
      TrackWalk([m, n], memo, idx, hit) == if w.found then w else FieldWalk(n, w.memo, idx, hit)
    ensures TrackMatches([m, n], hit) <==> FieldMatches(m, hit) || FieldMatches(n, hit)
  {
    OneField(n, FieldWalk(m, memo, idx, hit).memo, idx, hit);
    hide EndsScan, Skipped, FieldMatches, Answer, NodeOk;
    assert [m, n][1..] == [n] && [m] + [n] == [m, n];
    assert Searched([m, n])[0] == m && Searched([m, n])[1] == n;
  }

  lemma Single(t: PlayItem, memo: Memo, idx: int, hit: Hit)
    requires Fields(t.meta, memo.Keys)
    ensures Fields(Searched(t.meta), memo.Keys) && AllFields([t], memo.Keys)
    ensures var w := TrackWalk(Searched(t.meta), memo, idx, hit);
      ListWalk([t], memo, idx, hit) == Results(if w.found then [t] else [], w.memo)
    ensures Found([t], hit) == if TrackMatches(t.meta, hit) then [t] else []
  {
    hide TrackWalk, Searched, TrackMatches;
    var none: seq<PlayItem> := [];
    assert [t][..0] == none && none + [t] == [t];
    assert ListWalk(none, memo, idx, hit) == Results(none, memo) && Found(none, hit) == none;
  }

  /** Searches are numbered by playlist but verdicts are kept on shared strings. The first search in one
      playlist, for "y", says no to the title "x"; the first search in another, for "x", then misses its
      track with that title. */
  lemma StaleVerdict(t: PlayItem, u: PlayItem, key: CacheStr, value: CacheStr, lower: Lower)
    requires key.str == Ascii("title") + [0] && value.str == Ascii("x") + [0]
    requires t.meta == [Meta(key, value)] && u.meta == [Meta(key, value)] && lower(Ascii("x")) == Ascii("x")
    ensures AllFields([t], {value}) && AllFields([u], {value})
    ensures var first := ListWalk([t], map[value := 0], NextIndex(0), Containing(lower, Ascii("y")));
      && ListWalk([u], first.memo, NextIndex(0), Containing(lower, Ascii("x"))).found == []
      && Found([u], Containing(lower, Ascii("x"))) == [u]
  {
    var m, x, y := Meta(key, value), Containing(lower, Ascii("x")), Containing(lower, Ascii("y"));
    assert Ascii("x") == [120] && Ascii("y") == [121];
    ContainsLetter(120, 120);
    ContainsLetter(120, 121);
    PlainField(m, Ascii("title"), Ascii("x"), x);
    PlainField(m, Ascii("title"), Ascii("x"), y);
    var memo0: Memo, memo1: Memo := map[value := 0], map[value := -1];
    OneField(m, memo0, 1, y);
    OneField(m, memo1, 1, x);
    Single(t, memo0, 1, y);
    Single(u, memo1, 1, x);
    hide FieldMatches, NodeOk, EndsScan, Skipped, ListWalk, Found, TrackMatches, Searched, TrackWalk, Containing;
    assert FieldWalk(m, memo0, 1, y) == Walk(false, memo1);
  }

  lemma ContainsLetter(a: byte, b: byte)
    ensures Contains([a], [b]) <==> a == b
  {
    var v, text := [a], [b];
    assert v[0..] == v;
    if i :| 0 <= i <= |v| && text <= v[i..] {
      assert |v[i..]| == 1 - i && text[0] == v[i..][0] == v[i];
    }
  }

  // ----- the number comes round again ------------------------------------------------------

  datatype Log = Log(memo: Memo, idx: int)

  /** Searches one after the other in one playlist. */
  ghost function Searches(s: seq<PlayItem>, log: Log, hits: seq<Hit>): (r: Log)
    requires AllFields(s, log.memo.Keys) && 0 <= log.idx <= MAX_INDEX
    reads s`meta
    ensures r.memo.Keys == log.memo.Keys && 0 <= r.idx <= MAX_INDEX
  {
    if hits == [] then log
    else
      var n := |hits| - 1;
      var r := Searches(s, log, hits[..n]);
      Log(ListWalk(s, r.memo, NextIndex(r.idx), hits[n]).memo, NextIndex(r.idx))
  }

  function Repeated(hit: Hit, n: nat): (r: seq<Hit>)
    ensures |r| == n
  {
    if n == 0 then [] else Repeated(hit, n - 1) + [hit]
  }

  /** A track with the title "a" and the album "b". */
  ghost predicate TitleAndAlbum(t: PlayItem, title: CacheStr, album: CacheStr)
    reads t`meta
  {
    && title.str == Ascii("a") + [0] && album.str == Ascii("b") + [0] && |t.meta| == 2
    && t.meta[0].key.str == Ascii("title") + [0] && t.meta[0].value == title
    && t.meta[1].key.str == Ascii("album") + [0] && t.meta[1].value == album
  }

  /** Lower case letters stay what they are. */
  ghost predicate KeepsLetters(lower: Lower) {
    lower(Ascii("a")) == Ascii("a") && lower(Ascii("b")) == Ascii("b")
  }

  lemma OneSearch(t: PlayItem, title: CacheStr, album: CacheStr, memo: Memo, idx: int, lower: Lower, text: seq<byte>)
    requires TitleAndAlbum(t, title, album) && title in memo && album in memo && 0 < idx
    requires KeepsLetters(lower) && |text| == 1
    ensures title != album && AllFields([t], memo.Keys)
    ensures Found([t], Containing(lower, text)) == if text == Ascii("a") || text == Ascii("b") then [t] else []
    ensures var r := ListWalk([t], memo, idx, Containing(lower, text));
      && (Abs(memo[title]) != idx && text == Ascii("a") ==> r.found == [t] && r.memo == memo[title := idx])
      && (Abs(memo[title]) != idx && Abs(memo[album]) != idx && text == Ascii("b") ==>
           r.found == [t] && r.memo == memo[title := -idx][album := idx])
      && (Abs(memo[title]) != idx && memo[album] == idx && text != Ascii("a") ==> r.found == [t])
  {
    var m, n, a, b := t.meta[0], t.meta[1], Ascii("a"), Ascii("b");
    assert a == [97] && b == [98] && title.str[0] != album.str[0] && text == [text[0]];
    ContainsLetter(97, text[0]);
    ContainsLetter(98, text[0]);
    PlainField(m, Ascii("title"), a, Containing(lower, text));
    PlainField(n, Ascii("album"), b, Containing(lower, text));
    TwoFields(m, n, memo, idx, Containing(lower, text));
    assert t.meta == [m, n];
    assert forall x :: x in t.meta ==> x == m || x == n;
    Single(t, memo, idx, Containing(lower, text));
    hide FieldMatches, NodeOk, EndsScan, Skipped, ListWalk, Found, TrackMatches, Searched, TrackWalk, Fields,
         Containing;
  }

  /** No string has been looked at. */
  function Untouched(title: CacheStr, album: CacheStr): (log: Log)
    ensures log.memo.Keys == {title, album} && log.idx == 0
  {
    Log(map[title := 0, album := 0], 0)
  }

  /** A search for "b", then n for "a". */
  function ThenRepeated(lower: Lower, n: nat): seq<Hit> {
    [Containing(lower, Ascii("b"))] + Repeated(Containing(lower, Ascii("a")), n)
  }

  /** What the strings carry after them. */
  ghost predicate After(log: Log, title: CacheStr, album: CacheStr, n: nat) {
    && log.idx == n + 1 && log.memo.Keys == {title, album}
    && log.memo[title] == (if n == 0 then -1 else n + 1) && log.memo[album] == 1
  }

  lemma FirstSearch(t: PlayItem, title: CacheStr, album: CacheStr, lower: Lower)
    requires TitleAndAlbum(t, title, album) && KeepsLetters(lower)
    ensures title != album && AllFields([t], {title, album})
    ensures After(Searches([t], Untouched(title, album), ThenRepeated(lower, 0)), title, album, 0)
  {
    var hits, none: seq<Hit> := ThenRepeated(lower, 0), [];
    assert hits == [Containing(lower, Ascii("b"))] && hits[..0] == none;
    OneSearch(t, title, album, Untouched(title, album).memo, 1, lower, Ascii("b"));
    SearchesStep([t], Untouched(title, album), hits);
    SearchesStep([t], Untouched(title, album), none);
    hide ListWalk, TitleAndAlbum, Searches, Containing, Ascii, Found;
  }

  lemma Letters()
    ensures |Ascii("a")| == 1 && |Ascii("c")| == 1 && Ascii("c") != Ascii("a") && Ascii("c") != Ascii("b")
  {
    assert Ascii("a") == [97] && Ascii("b") == [98] && Ascii("c") == [99];
  }

  lemma NextSearch(t: PlayItem, title: CacheStr, album: CacheStr, lower: Lower, log: Log, n: nat)
    requires TitleAndAlbum(t, title, album) && KeepsLetters(lower) && 0 < n < MAX_INDEX
      && After(log, title, album, n - 1)
    ensures title != album && AllFields([t], log.memo.Keys) && 0 <= log.idx <= MAX_INDEX
    ensures var memo := ListWalk([t], log.memo, NextIndex(log.idx), Containing(lower, Ascii("a"))).memo;
      After(Log(memo, NextIndex(log.idx)), title, album, n)
  {
    hide ListWalk, TitleAndAlbum, Containing, Ascii, Found, AllFields, Fields, KeepsLetters;
    Letters();
    OneSearch(t, title, album, log.memo, n + 1, lower, Ascii("a"));
    assert NextIndex(log.idx) == n + 1 && Abs(log.memo[title]) != n + 1;
  }

  lemma RepeatedGrows(lower: Lower, n: nat)
    requires 0 < n
    ensures var hits := ThenRepeated(lower, n);
      |hits| == n + 1 && hits[n] == Containing(lower, Ascii("a")) && hits[..n] == ThenRepeated(lower, n - 1)
  {
    hide Containing, Ascii;
  }

  lemma {:induction false} AfterSearches(t: PlayItem, title: CacheStr, album: CacheStr, lower: Lower, n: nat)
    requires TitleAndAlbum(t, title, album) && KeepsLetters(lower) && n < MAX_INDEX
    ensures AllFields([t], {title, album})
    ensures After(Searches([t], Untouched(title, album), ThenRepeated(lower, n)), title, album, n)
    decreases n
  {
    FirstSearch(t, title, album, lower);
    if n > 0 {
      AfterSearches(t, title, album, lower, n - 1);
      RepeatedGrows(lower, n);
      SearchesStep([t], Untouched(title, album), ThenRepeated(lower, n));
      hide *;
      NextSearch(t, title, album, lower, Searches([t], Untouched(title, album), ThenRepeated(lower, n - 1)), n);
    }
  }

  lemma SearchesStep(s: seq<PlayItem>, log: Log, hits: seq<Hit>)
    requires AllFields(s, log.memo.Keys) && 0 <= log.idx <= MAX_INDEX
    ensures Searches(s, log, hits) ==
      if hits == [] then log
      else
        var r := Searches(s, log, hits[..|hits| - 1]);
        Log(ListWalk(s, r.memo, NextIndex(r.idx), hits[|hits| - 1]).memo, NextIndex(r.idx))
  {
    hide ListWalk;
  }

  /** One playlist is enough. A search for "b" finds the album and says no to the title; 126 searches for
      "a" stop at the title, so the album keeps its old verdict; the next search has number 1 again and
      finds the track whatever it is for. */
  lemma NumberComesRound(t: PlayItem, title: CacheStr, album: CacheStr, lower: Lower)
    requires TitleAndAlbum(t, title, album) && KeepsLetters(lower)
    ensures AllFields([t], {title, album})
    ensures var log := Searches([t], Untouched(title, album), ThenRepeated(lower, 126));
      && NextIndex(log.idx) == 1 && ListWalk([t], log.memo, 1, Containing(lower, Ascii("c"))).found == [t]
      && Found([t], Containing(lower, Ascii("c"))) == []
  {
    hide ListWalk, Found, Searches, Containing, Ascii, TitleAndAlbum, ThenRepeated, Untouched, KeepsLetters, AllFields;
    Letters();
    AfterSearches(t, title, album, lower, 126);
    FirstSearch(t, title, album, lower);
    OneSearch(t, title, album, Searches([t], Untouched(title, album), ThenRepeated(lower, 126)).memo, 1, lower,
      Ascii("c"));
  }
}
