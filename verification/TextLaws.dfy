/** When remembering verdicts does not change what a search for a text finds: fewer verdicts do harm than for
    predicates on strings in general, because a string that contains another contains every text in it. */
module TextLaws {
  import opened PlayItems
  import opened MetaSpec
  import opened PlMeta
  import opened TrackSearch
  import opened SearchLaws

  // ----- containment -----------------------------------------------------------------------

  lemma ContainsTransitive(v: seq<byte>, p: seq<byte>, text: seq<byte>)
    requires Contains(v, p) && Contains(p, text)
    ensures Contains(v, text)
  {
    var i :| 0 <= i <= |v| && p <= v[i..];
    var j :| 0 <= j <= |p| && text <= p[j..];
    assert v[i..][j..] == v[i + j..];
    assert forall k :: 0 <= k < |text| ==> text[k] == p[j..][k] == p[j + k] == v[i..][j + k] == v[i + j..][k];
    assert text <= v[i + j..];
  }

  lemma ContainsItself(v: seq<byte>)
    ensures Contains(v, v)
  {
    assert v[0..] == v;
  }

  lemma ContainedShorter(v: seq<byte>, text: seq<byte>)
    requires Contains(v, text)
    ensures |text| <= |v|
  {
  }

  /** Some string of the field contains the text. */
  ghost predicate Holds(m: Meta, lower: Lower, text: seq<byte>)
    requires NodeOk(m)
  {
    exists p :: p in FieldParts(m) && Contains(lower(p), text)
  }

  lemma HoldsIs(m: Meta, lower: Lower, text: seq<byte>)
    requires NodeOk(m)
    ensures FieldMatches(m, Containing(lower, text)) <==> Holds(m, lower, text)
  {
    var hit := Containing(lower, text);
    FieldMatchesIs(m, hit);
    hide FieldParts, FieldMatches, Contains;
    assert forall p :: hit(p) <==> Contains(lower(p), text);
    if p :| p in FieldParts(m) && Contains(lower(p), text) {
      var i :| 0 <= i < |FieldParts(m)| && FieldParts(m)[i] == p;
      assert hit(FieldParts(m)[i]);
    }
  }

  // ----- a text that is nowhere ------------------------------------------------------------

  function Longest(parts: seq<seq<byte>>, lower: Lower): (n: nat)
    ensures forall p :: p in parts ==> |lower(p)| <= n
  {
    if parts == [] then 0
    else
      var n := Longest(parts[1..], lower);
      assert forall p :: p in parts ==> p == parts[0] || p in parts[1..];
      if |lower(parts[0])| > n then |lower(parts[0])| else n
  }

  ghost function Bound(fields: seq<Meta>, lower: Lower): (n: nat)
    requires forall m :: m in fields ==> NodeOk(m)
    ensures forall m, p :: m in fields && p in FieldParts(m) ==> |lower(p)| <= n
  {
    if fields == [] then 0
    else
      var n, k := Bound(fields[1..], lower), Longest(FieldParts(fields[0]), lower);
      assert forall m :: m in fields ==> m == fields[0] || m in fields[1..];
      if k > n then k else n
  }

  /** A text longer than all strings of the fields. */
  ghost function TooLong(fields: seq<Meta>, lower: Lower): (text: seq<byte>)
    requires forall m :: m in fields ==> NodeOk(m)
    ensures text != []
  {
    seq(Bound(fields, lower) + 1, _ => 0)
  }

  lemma TooLongNowhere(fields: seq<Meta>, lower: Lower)
    requires forall m :: m in fields ==> NodeOk(m)
    ensures forall m :: m in fields ==> !Holds(m, lower, TooLong(fields, lower))
  {
    var text := TooLong(fields, lower);
    assert |text| == Bound(fields, lower) + 1;
    hide TooLong, FieldParts, Bound, Contains, NodeOk;
    forall m, p | m in fields && p in FieldParts(m)
      ensures !Contains(lower(p), text)
    {
      if Contains(lower(p), text) {
        ContainedShorter(lower(p), text);
      }
    }
  }

  // ----- one field -------------------------------------------------------------------------

  /** A field is answered correctly for every text if and only if its string carries no verdict of this number,
      or carries a no and all its strings are empty. */
  lemma AnswerRightText(m: Meta, cmpidx: int, idx: int, lower: Lower)
    requires NodeOk(m)
    ensures (forall text {:trigger Containing(lower, text)} :: text != [] ==>
        Answer(cmpidx, idx, FieldMatches(m, Containing(lower, text))) == FieldMatches(m, Containing(lower, text)))
      <==> Abs(cmpidx) != idx || (cmpidx <= 0 && forall p :: p in FieldParts(m) ==> lower(p) == [])
  {
    var long := TooLong([m], lower);
    TooLongNowhere([m], lower);
    HoldsIs(m, lower, long);
    hide FieldMatches, FieldParts, Contains, Containing, TooLong, NodeOk;
    if Abs(cmpidx) == idx && cmpidx <= 0 {
      if p :| p in FieldParts(m) && lower(p) != [] {
        ContainsItself(lower(p));
        HoldsIs(m, lower, lower(p));
      } else {
        forall text | text != []
          ensures !FieldMatches(m, Containing(lower, text))
        {
          EmptyHolds(m, lower, text);
          HoldsIs(m, lower, text);
        }
      }
    }
  }

  lemma EmptyHolds(m: Meta, lower: Lower, text: seq<byte>)
    requires NodeOk(m) && text != [] && forall p :: p in FieldParts(m) ==> lower(p) == []
    ensures !Holds(m, lower, text)
  {
    hide FieldParts, Contains, NodeOk;
    if p :| p in FieldParts(m) && Contains(lower(p), text) {
      ContainedShorter(lower(p), text);
    }
  }

  // ----- one track -------------------------------------------------------------------------

  /** No verdict of this number says yes, and every string of a field with one is empty or contained in a string
      of a field without. */
  ghost predicate HarmlessText(fields: seq<Meta>, memo: Memo, idx: int, lower: Lower)
    requires Fields(fields, memo.Keys)
  {
    && (forall m :: m in fields && Stale(m, memo, idx) ==> memo[m.value] <= 0)
    && (forall m, p :: m in fields && Stale(m, memo, idx) && p in FieldParts(m) ==>
          lower(p) == [] || Covered(fields, memo, idx, lower, lower(p)))
  }

  ghost predicate Covered(fields: seq<Meta>, memo: Memo, idx: int, lower: Lower, text: seq<byte>)
    requires Fields(fields, memo.Keys)
  {
    exists m :: m in fields && !Stale(m, memo, idx) && Holds(m, lower, text)
  }

  lemma FreshAnswers(m: Meta, memo: Memo, idx: int, hit: Hit)
    requires NodeOk(m) && m.value in memo
    ensures FieldAnswer(m, memo, idx, hit) <==>
      if Stale(m, memo, idx) then memo[m.value] > 0 else FieldMatches(m, hit)
  {
    hide FieldMatches, NodeOk;
  }

  lemma HarmlessAnswersText(fields: seq<Meta>, memo: Memo, idx: int, lower: Lower, text: seq<byte>)
    requires Fields(fields, memo.Keys) && HarmlessText(fields, memo, idx, lower) && text != []
    ensures Remembered(fields, memo, idx, Containing(lower, text)) <==> SomeField(fields, Containing(lower, text))
  {
    hide FieldAnswer, FieldMatches, FieldParts, Contains, Containing, Remembered, NodeOk, HarmlessText, Stale;
    var hit := Containing(lower, text);
    RememberedIs(fields, memo, idx, hit);
    forall m | m in fields
      ensures FieldAnswer(m, memo, idx, hit) ==> FieldMatches(m, hit)
      ensures FieldMatches(m, hit) ==> exists n :: n in fields && FieldAnswer(n, memo, idx, hit)
    {
      HarmlessField(fields, memo, idx, lower, text, m);
    }
  }

  lemma HarmlessField(fields: seq<Meta>, memo: Memo, idx: int, lower: Lower, text: seq<byte>, m: Meta)
    requires Fields(fields, memo.Keys) && HarmlessText(fields, memo, idx, lower) && text != [] && m in fields
    ensures FieldAnswer(m, memo, idx, Containing(lower, text)) ==> FieldMatches(m, Containing(lower, text))
    ensures FieldMatches(m, Containing(lower, text)) ==>
      exists n :: n in fields && FieldAnswer(n, memo, idx, Containing(lower, text))
  {
    hide FieldAnswer, FieldMatches, FieldParts, Contains, Containing, NodeOk, Stale;
    var hit := Containing(lower, text);
    FreshAnswers(m, memo, idx, hit);
    if FieldMatches(m, hit) && Stale(m, memo, idx) {
      HoldsIs(m, lower, text);
      var p :| p in FieldParts(m) && Contains(lower(p), text);
      ContainedShorter(lower(p), text);
      var n :| n in fields && !Stale(n, memo, idx) && Holds(n, lower, lower(p));
      HoldsMore(n, lower, lower(p), text);
      HoldsIs(n, lower, text);
      FreshAnswers(n, memo, idx, hit);
    }
  }

  lemma HoldsMore(m: Meta, lower: Lower, p: seq<byte>, text: seq<byte>)
    requires NodeOk(m) && Holds(m, lower, p) && Contains(p, text)
    ensures Holds(m, lower, text)
  {
    hide FieldParts, Contains, NodeOk;
    var q :| q in FieldParts(m) && Contains(lower(q), p);
    ContainsTransitive(lower(q), p, text);
  }

  lemma HarmfulYesText(fields: seq<Meta>, memo: Memo, idx: int, lower: Lower, m: Meta)
    requires Fields(fields, memo.Keys) && m in fields && Stale(m, memo, idx) && memo[m.value] > 0
    ensures var hit := Containing(lower, TooLong(fields, lower));
      Remembered(fields, memo, idx, hit) && !SomeField(fields, hit)
  {
    var text := TooLong(fields, lower);
    var hit := Containing(lower, text);
    TooLongNowhere(fields, lower);
    RememberedIs(fields, memo, idx, hit);
    FreshAnswers(m, memo, idx, hit);
    hide FieldAnswer, FieldMatches, FieldParts, Contains, Containing, Remembered, NodeOk, TooLong, Holds;
    forall n | n in fields ensures !FieldMatches(n, hit) {
      HoldsIs(n, lower, text);
    }
  }

  lemma HarmfulNoText(fields: seq<Meta>, memo: Memo, idx: int, lower: Lower, m: Meta, p: seq<byte>)
    requires Fields(fields, memo.Keys) && m in fields && Stale(m, memo, idx) && p in FieldParts(m)
    requires lower(p) != [] && !Covered(fields, memo, idx, lower, lower(p))
    requires forall n :: n in fields && Stale(n, memo, idx) ==> memo[n.value] <= 0
    ensures var hit := Containing(lower, lower(p)); !Remembered(fields, memo, idx, hit) && SomeField(fields, hit)
  {
    var hit := Containing(lower, lower(p));
    ContainsItself(lower(p));
    HoldsIs(m, lower, lower(p));
    RememberedIs(fields, memo, idx, hit);
    hide FieldAnswer, FieldMatches, FieldParts, Contains, Containing, Remembered, NodeOk;
    forall n | n in fields ensures !FieldAnswer(n, memo, idx, hit) {
      FreshAnswers(n, memo, idx, hit);
      HoldsIs(n, lower, lower(p));
    }
  }

  /** Remembering changes nothing for a track, whatever text is searched for, if and only if no verdict of this
      number says yes and every string with a no is contained in a string without a verdict. */
  lemma TrackRightText(l: seq<Meta>, memo: Memo, idx: int, lower: Lower)
    requires Fields(l, memo.Keys)
    ensures Fields(Searched(l), memo.Keys)
    ensures (forall text {:trigger Containing(lower, text)} :: text != [] ==>
        Remembered(Searched(l), memo, idx, Containing(lower, text)) == TrackMatches(l, Containing(lower, text)))
      <==> HarmlessText(Searched(l), memo, idx, lower)
  {
    var fields := Searched(l);
    assert Fields(fields, memo.Keys);
    hide TrackMatches, Searched, Remembered, Containing, FieldParts, Covered, TooLong;
    if HarmlessText(fields, memo, idx, lower) {
      forall text | text != []
        ensures Remembered(fields, memo, idx, Containing(lower, text)) == TrackMatches(l, Containing(lower, text))
      {
        HarmlessAnswersText(fields, memo, idx, lower, text);
        MatchesAre(l, Containing(lower, text));
      }
    } else if m :| m in fields && Stale(m, memo, idx) && memo[m.value] > 0 {
      HarmfulYesText(fields, memo, idx, lower, m);
      MatchesAre(l, Containing(lower, TooLong(fields, lower)));
    } else {
      var m, p :| m in fields && Stale(m, memo, idx) && p in FieldParts(m) && lower(p) != []
        && !Covered(fields, memo, idx, lower, lower(p));
      HarmfulNoText(fields, memo, idx, lower, m, p);
      MatchesAre(l, Containing(lower, lower(p)));
    }
  }

  // ----- a whole list ----------------------------------------------------------------------

  ghost predicate TrackHarmlessText(it: PlayItem, memo: Memo, idx: int, lower: Lower)
    requires Fields(it.meta, memo.Keys)
    reads it`meta
  {
    assert Fields(Searched(it.meta), memo.Keys);
    HarmlessText(Searched(it.meta), memo, idx, lower)
  }

  lemma OneTrackText(it: PlayItem, memo: Memo, idx: int, lower: Lower)
    requires Fields(it.meta, memo.Keys)
    ensures (forall text {:trigger Containing(lower, text)} :: text != [] ==>
        TrackRemembered(it, memo, idx, Containing(lower, text)) == TrackMatches(it.meta, Containing(lower, text)))
      <==> TrackHarmlessText(it, memo, idx, lower)
  {
    TrackRightText(it.meta, memo, idx, lower);
    hide Remembered, TrackMatches, HarmlessText, Fields, Searched, Containing;
  }

  /** A search finds exactly what a search without memory finds, whatever text is searched for, if and only if in
      every track the verdicts of its number are harmless for texts. */
  lemma SearchRightText(s: seq<PlayItem>, memo: Memo, uris: set<CacheStr>, idx: int, lower: Lower)
    requires AllFields(s, memo.Keys) && AllRoles(s, uris) && 0 < idx
    ensures (forall text {:trigger Containing(lower, text)} :: text != [] ==>
        ListWalk(s, memo, idx, Containing(lower, text)).found == Found(s, Containing(lower, text)))
      <==> forall i :: 0 <= i < |s| ==> TrackHarmlessText(s[i], memo, idx, lower)
  {
    hide ListWalk, Found, AllRoles, TrackRemembered, TrackMatches, TrackHarmlessText, Fields, Containing;
    forall i | 0 <= i < |s|
      ensures (forall text {:trigger Containing(lower, text)} :: text != [] ==>
          TrackRemembered(s[i], memo, idx, Containing(lower, text))
            == TrackMatches(s[i].meta, Containing(lower, text)))
        <==> TrackHarmlessText(s[i], memo, idx, lower)
    {
      OneTrackText(s[i], memo, idx, lower);
    }
    if forall i :: 0 <= i < |s| ==> TrackHarmlessText(s[i], memo, idx, lower) {
      forall text | text != []
        ensures ListWalk(s, memo, idx, Containing(lower, text)).found == Found(s, Containing(lower, text))
      {
        ListWalkIs(s, memo, uris, idx, Containing(lower, text));
        SameFound(s, memo, idx, Containing(lower, text));
      }
    } else {
      var i :| 0 <= i < |s| && !TrackHarmlessText(s[i], memo, idx, lower);
      var text :| text != [] && TrackRemembered(s[i], memo, idx, Containing(lower, text))
        != TrackMatches(s[i].meta, Containing(lower, text));
      ListWalkIs(s, memo, uris, idx, Containing(lower, text));
      FoundMembers(s, memo, idx, Containing(lower, text), i);
    }
  }

  /** A no on the title "foo" harms no search for a text when the album is "foobar", though it harms some predicate
      on strings. */
  lemma FooInFoobar(title: Meta, album: Meta, memo: Memo, idx: int, lower: Lower)
    requires title.key.str == Ascii("title") + [0] && title.value != null && title.value.str == Ascii("foo") + [0]
    requires album.key.str == Ascii("album") + [0] && album.value != null && album.value.str == Ascii("foobar") + [0]
    requires title.value in memo && album.value in memo && memo[title.value] == -idx && memo[album.value] == 0
    requires 0 < idx && lower(Ascii("foo")) == Ascii("foo") && lower(Ascii("foobar")) == Ascii("foobar")
    ensures Fields([title, album], memo.Keys)
    ensures HarmlessText([title, album], memo, idx, lower) && !Harmless([title, album], memo, idx)
  {
    hide FieldParts, Ascii, NodeOk, Contains, Elsewhere, Covered, Harmless, HarmlessText;
    var foo, foobar := Ascii("foo"), Ascii("foobar");
    FooAndFoobar();
    PlainParts(title, Ascii("title"), foo);
    PlainParts(album, Ascii("album"), foobar);
    FooFields(title, album, memo, idx, lower, foo, foobar);
  }

  lemma FooAndFoobar()
    ensures var foo, foobar := Ascii("foo"), Ascii("foobar");
      Contains(foobar, foo) && foo != [] && 0 !in foo && 0 !in foobar && foo != foobar
  {
    var foo, foobar := Ascii("foo"), Ascii("foobar");
    assert foo == [102, 111, 111] && foobar == [102, 111, 111, 98, 97, 114];
    hide Ascii;
    assert foo <= foobar[0..];
  }

  lemma FooFields(title: Meta, album: Meta, memo: Memo, idx: int, lower: Lower, foo: seq<byte>, foobar: seq<byte>)
    requires NodeOk(title) && FieldParts(title) == [foo] && NodeOk(album) && FieldParts(album) == [foobar]
    requires title.value in memo && album.value in memo && memo[title.value] == -idx && memo[album.value] == 0
      && 0 < idx
    requires Contains(foobar, foo) && foo != foobar && lower(foo) == foo && lower(foobar) == foobar
    ensures Fields([title, album], memo.Keys)
    ensures HarmlessText([title, album], memo, idx, lower) && !Harmless([title, album], memo, idx)
  {
    hide FieldParts, NodeOk, Contains;
    var fields := [title, album];
    assert title in fields && album in fields && forall m :: m in fields ==> m == title || m == album;
    assert foobar in FieldParts(album) && Holds(album, lower, foo);
    assert foo in FieldParts(title) && !Elsewhere(fields, memo, idx, foo);
  }

  lemma PlainParts(m: Meta, name: seq<byte>, text: seq<byte>)
    requires name == Ascii("title") || name == Ascii("album")
    requires m.key.str == name + [0] && m.value != null && m.value.str == text + [0] && 0 !in text
    ensures NodeOk(m) && FieldParts(m) == [text]
  {
    PlainField(m, name, text, Never());
    OneString(text);
  }
}
