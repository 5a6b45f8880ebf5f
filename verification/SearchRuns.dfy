/** Searches and removals one after the other: what becomes of the search list when tracks outside it are
    removed, and of search links that a search leaves on tracks it does not find. */
module SearchRuns {
  import opened PlayItems
  import opened MetaSpec
  import opened PlMeta
  import opened Playlists
  import opened SearchList
  import opened TrackSearch
  import opened SearchLaws

  // ----- what the searches find ------------------------------------------------------------

  /** The track has just this title. */
  ghost predicate Titled(it: PlayItem, title: CacheStr, name: seq<byte>)
    reads it`meta
  {
    && title.str == name + [0] && 0 !in name
    && |it.meta| == 1 && it.meta[0].key.str == Ascii("title") + [0] && it.meta[0].value == title
  }

  lemma TitledIs(it: PlayItem, title: CacheStr, name: seq<byte>, strs: set<CacheStr>, hit: Hit)
    requires Titled(it, title, name) && title in strs
    ensures Fields(it.meta, strs) && OneRole(Searched(it.meta), {}) && (TrackMatches(it.meta, hit) <==> hit(name))
  {
    var m := it.meta[0];
    PlainField(m, Ascii("title"), name, hit);
    assert it.meta == [m];
    var memo: Memo := map e | e in strs :: 0;
    OneField(m, memo, 1, hit);
    hide FieldMatches, NodeOk, EndsScan, Skipped, Searched, TrackMatches;
  }

  /** A search whose number no string carries finds the tracks that match, and strings carry its number or what
      they carried. */
  lemma FreshSearch(s: seq<PlayItem>, q: Query)
    requires AllFields(s, q.memo.Keys) && AllRoles(s, {}) && 0 < q.idx && q.text != []
    requires forall e :: e in q.memo ==> Abs(q.memo[e]) != q.idx
    ensures var r := Outcome(s, q);
      && r.found == Found(s, q.hit)
      && forall e :: e in q.memo ==> r.memo[e] == q.memo[e] || Abs(r.memo[e]) == q.idx
  {
    hide AllRoles, AllHarmless, ListWalk, Found, Fields, ValueMatches;
    NoVerdictsYet(s, q.memo, q.idx);
    SearchRight(s, q.memo, {}, q.idx);
    ListWalkIs(s, q.memo, {}, q.idx, q.hit);
  }

  lemma FoundNext(s: seq<PlayItem>, it: PlayItem, hit: Hit)
    ensures Found(s + [it], hit) == if TrackMatches(it.meta, hit) then Found(s, hit) + [it] else Found(s, hit)
  {
    hide TrackMatches;
    assert (s + [it])[..|s|] == s;
  }

  /** Tracks with the titles "x", "xy" and "z". */
  ghost predicate Three(a: PlayItem, b: PlayItem, c: PlayItem, x: CacheStr, xy: CacheStr, z: CacheStr)
    reads a`meta, b`meta, c`meta
  {
    Titled(a, x, Ascii("x")) && Titled(b, xy, Ascii("xy")) && Titled(c, z, Ascii("z"))
  }

  ghost predicate KeepsNames(lower: Lower) {
    lower(Ascii("x")) == Ascii("x") && lower(Ascii("xy")) == Ascii("xy") && lower(Ascii("z")) == Ascii("z")
  }

  lemma NamesContain(lower: Lower)
    requires KeepsNames(lower)
    ensures var x, xy, z, y := Ascii("x"), Ascii("xy"), Ascii("z"), Ascii("y");
      && x != [] && y != []
      && Containing(lower, x)(x) && Containing(lower, x)(xy) && !Containing(lower, x)(z)
      && !Containing(lower, y)(x) && Containing(lower, y)(xy)
  {
    var x, xy, z, y := Ascii("x"), Ascii("xy"), Ascii("z"), Ascii("y");
    assert x == [120] && xy == [120, 121] && z == [122] && y == [121];
    ContainsLetter(120, 120);
    ContainsLetter(122, 120);
    ContainsLetter(120, 121);
    assert x <= xy[0..] && xy[1..] == y;
  }

  lemma Finds(a: PlayItem, b: PlayItem, c: PlayItem, x: CacheStr, xy: CacheStr, z: CacheStr, lower: Lower)
    requires Three(a, b, c, x, xy, z) && KeepsNames(lower)
    ensures Found([a, b, c], Containing(lower, Ascii("x"))) == [a, b]
    ensures Found([a, b], Containing(lower, Ascii("y"))) == [b]
    ensures AllFields([a, b, c], {x, xy, z}) && AllRoles([a, b, c], {})
    ensures AllFields([a, b], {x, xy, z}) && AllRoles([a, b], {})
  {
    hide Found, TrackMatches, Searched, Fields, OneRole, Ascii, Containing, Titled, KeepsNames;
    var hx, hy, strs := Containing(lower, Ascii("x")), Containing(lower, Ascii("y")), {x, xy, z};
    NamesContain(lower);
    TitledIs(a, x, Ascii("x"), strs, hx);
    TitledIs(b, xy, Ascii("xy"), strs, hx);
    TitledIs(c, z, Ascii("z"), strs, hx);
    TitledIs(a, x, Ascii("x"), strs, hy);
    TitledIs(b, xy, Ascii("xy"), strs, hy);
    FoundThree(a, b, c, hx);
    FoundTwo(a, b, hy);
  }

  lemma FoundTwo(a: PlayItem, b: PlayItem, hit: Hit)
    ensures Found([a, b], hit)
      == (if TrackMatches(a.meta, hit) then [a] else []) + (if TrackMatches(b.meta, hit) then [b] else [])
  {
    var none: seq<PlayItem> := [];
    assert Found(none, hit) == none;
    hide Found, TrackMatches;
    FoundNext(none, a, hit);
    FoundNext([a], b, hit);
    assert none + [a] == [a] && [a] + [b] == [a, b];
  }

  lemma FoundThree(a: PlayItem, b: PlayItem, c: PlayItem, hit: Hit)
    ensures Found([a, b, c], hit)
      == (if TrackMatches(a.meta, hit) then [a] else []) + (if TrackMatches(b.meta, hit) then [b] else [])
       + (if TrackMatches(c.meta, hit) then [c] else [])
  {
    hide Found, TrackMatches;
    FoundTwo(a, b, hit);
    FoundNext([a, b], c, hit);
    assert [a, b] + [c] == [a, b, c];
  }

  // ----- a found track and another one -----------------------------------------------------

  /** plt_insert_item at the end of a playlist. */
  method Add(pl: Playlist, last: PlayItem?, it: PlayItem)
    requires pl.Valid() && pl.SearchIs([], pl.main) && it !in pl.main && last == Last(pl.main)
    requires it.next == Pair(null, null) && it.prev == Pair(null, null) && it.refc >= 1
    modifies pl`head, pl`tail, pl`count, pl`main, pl.main`next, pl.main`prev, it`next, it`prev, it`refc, it`added
    ensures pl.Valid() && pl.main == old(pl.main) + [it] && pl.SearchIs([], pl.main) && it.refc >= 1
  {
    assert InsertAt(pl.main, |pl.main|, it) == pl.main + [it];
    assert Last(pl.main) == ItemBefore(pl.main, |pl.main|);
    hide *;
    pl.InsertItem(last, it, |pl.main|, [], {});
  }

  /** A playlist of two tracks. */
  method TwoTracks() returns (pl: Playlist, first: PlayItem, second: PlayItem)
    ensures fresh(pl) && fresh(first) && fresh(second) && first != second
    ensures pl.Valid() && pl.main == [first, second] && pl.SearchIs([], pl.main) && pl.searchCmpidx == 0
  {
    pl := new Playlist();
    first := new PlayItem();
    second := new PlayItem();
    hide Playlist.Valid, Playlist.SearchIs;
    Add(pl, null, first);
    Add(pl, first, second);
    assert [] + [first] + [second] == [first, second];
  }

  /** A search that found nothing, then one result: the list is well formed. */
  lemma OneResult(pl: Playlist, it: PlayItem, all: set<PlayItem>, n: Links, p: Links)
    requires Listed(pl, [it]) && Appended(it, [], all, n, p) && Among(pl.main, all)
    requires forall i :: 0 <= i < |pl.main| ==> pl.main[i] in n && n[pl.main[i]].search == null
    requires forall i :: 0 <= i < |pl.main| ==> pl.main[i] in p && p[pl.main[i]].search == null
    ensures pl.SearchIs([it], pl.main)
  {
    hide Linked;
  }

  /** Two tracks, the second one found by a search. Removing the first one loses the ends of the search
      list, while its count stays. */
  method FoundTrackLost() returns (pl: Playlist, found: PlayItem)
    ensures pl.Valid() && pl.main == [found] && pl.count.search == 1 && pl.head.search == null
    ensures !exists s: seq<PlayItem> :: pl.SearchIs(s, pl.main)
  {
    var other: PlayItem;
    pl, other, found := TwoTracks();
    ghost var all, n, p := {other, found}, Nexts({other, found}), Prevs({other, found});
    hide Linked, Playlist.CutOut, SameMain;
    AppendResult(pl, found, [], all);
    assert [] + [found] == [found];
    OneResult(pl, found, all, n, p);
    hide Playlist.SearchIs, Playlist.Valid;
    pl.RemoveItem(other, 0, [found], all);
    assert pl.main == [found];
    pl.SearchSurvives(other, [found], pl.main);
  }

  // ----- a track that a search left behind -------------------------------------------------

  method NewTrack(key: CacheStr, title: CacheStr) returns (it: PlayItem)
    ensures fresh(it) && it.meta == [Meta(key, title)] && it.refc == 1
    ensures it.next == Pair(null, null) && it.prev == Pair(null, null)
  {
    it := new PlayItem();
    it.meta := [Meta(key, title)];
  }

  method Strings() returns (key: CacheStr, x: CacheStr, xy: CacheStr, z: CacheStr)
    ensures key.str == Ascii("title") + [0] && x.str == Ascii("x") + [0] && xy.str == Ascii("xy") + [0]
    ensures z.str == Ascii("z") + [0] && fresh(x) && fresh(xy) && fresh(z)
    ensures x.cmpidx == xy.cmpidx == z.cmpidx == 0
  {
    hide *;
    key := new CacheStr(Ascii("title") + [0]);
    x := new CacheStr(Ascii("x") + [0]);
    xy := new CacheStr(Ascii("xy") + [0]);
    z := new CacheStr(Ascii("z") + [0]);
  }

  /** A playlist of three tracks, with strings that no search has looked at. */
  method ThreeTracks()
    returns (pl: Playlist, a: PlayItem, b: PlayItem, c: PlayItem, x: CacheStr, xy: CacheStr, z: CacheStr)
    ensures fresh(pl) && fresh(a) && fresh(b) && fresh(c) && a != b && a != c && b != c
    ensures fresh(x) && fresh(xy) && fresh(z)
    ensures pl.Valid() && pl.main == [a, b, c] && pl.SearchIs([], pl.main) && pl.searchCmpidx == 0
    ensures Three(a, b, c, x, xy, z) && x.cmpidx == xy.cmpidx == z.cmpidx == 0
  {
    hide *;
    var key;
    key, x, xy, z := Strings();
    pl := new Playlist();
    a := NewTrack(key, x);
    b := NewTrack(key, xy);
    c := NewTrack(key, z);
    Fill(pl, a, b, c);
    Names(a, b, c, key, x, xy, z);
  }

  lemma Names(a: PlayItem, b: PlayItem, c: PlayItem, key: CacheStr, x: CacheStr, xy: CacheStr, z: CacheStr)
    requires key.str == Ascii("title") + [0] && x.str == Ascii("x") + [0] && xy.str == Ascii("xy") + [0]
    requires z.str == Ascii("z") + [0]
    requires a.meta == [Meta(key, x)] && b.meta == [Meta(key, xy)] && c.meta == [Meta(key, z)]
    ensures Three(a, b, c, x, xy, z)
  {
    assert Ascii("x") == [120] && Ascii("xy") == [120, 121] && Ascii("z") == [122];
    hide Ascii;
  }

  method Fill(pl: Playlist, a: PlayItem, b: PlayItem, c: PlayItem)
    requires pl.Valid() && pl.main == [] && pl.SearchIs([], []) && a != b && a != c && b != c
    requires a.next == Pair(null, null) && a.prev == Pair(null, null) && a.refc >= 1
    requires b.next == Pair(null, null) && b.prev == Pair(null, null) && b.refc >= 1
    requires c.next == Pair(null, null) && c.prev == Pair(null, null) && c.refc >= 1
    modifies pl`head, pl`tail, pl`count, pl`main, a, b, c
    ensures pl.Valid() && pl.main == [a, b, c] && pl.SearchIs([], pl.main)
    ensures a.meta == old(a.meta) && b.meta == old(b.meta) && c.meta == old(c.meta)
  {
    hide Playlist.Valid, Playlist.SearchIs;
    Add(pl, null, a);
    assert pl.main == [a];
    Add(pl, a, b);
    assert pl.main == [a, b];
    Add(pl, b, c);
    assert pl.main == [a, b, c];
  }

  ghost predicate SearchLinks(it: PlayItem, next: PlayItem?, prev: PlayItem?)
    reads it`next, it`prev
  {
    it.next.search == next && it.prev.search == prev
  }

  /** The two tracks "x" and "xy" as a search for "x" found them. */
  lemma TwoListed(pl: Playlist, a: PlayItem, b: PlayItem)
    requires Listed(pl, [a, b])
    ensures SearchLinks(a, b, null) && SearchLinks(b, null, a) && pl.count.search == 2
  {
    var s := [a, b];
    assert s[0].next.search == s[1] && s[0].prev.search == null && s[1].next.search == null && s[1].prev.search == s[0];
  }

  lemma EmptyListed(pl: Playlist)
    requires pl.SearchIs([], pl.main)
    ensures Listed(pl, [])
  {
  }

  /** The first search, for "x". */
  method FindTwo(pl: Playlist, a: PlayItem, b: PlayItem, c: PlayItem, x: CacheStr, xy: CacheStr, z: CacheStr,
                 lower: Lower)
    requires pl.Valid() && pl.main == [a, b, c] && pl.SearchIs([], pl.main) && pl.searchCmpidx == 0
    requires Three(a, b, c, x, xy, z) && KeepsNames(lower) && x.cmpidx == xy.cmpidx == z.cmpidx == 0
    modifies pl`head, pl`tail, pl`count, pl`searchCmpidx, a`next, a`prev, b`next, b`prev, c`next, c`prev, x, xy, z
    ensures pl.Valid() && pl.main == [a, b, c] && pl.SearchIs([a, b], pl.main) && pl.searchCmpidx == 1
    ensures SearchLinks(a, b, null) && SearchLinks(b, null, a)
    ensures forall e :: e in {x, xy, z} ==> e.cmpidx == 0 || Abs(e.cmpidx) == 1
  {
    hide *;
    ghost var all, strs := {a, b, c}, {x, xy, z};
    var text, hit := Ascii("x"), Containing(lower, Ascii("x"));
    Finds(a, b, c, x, xy, z, lower);
    NamesContain(lower);
    EmptyListed(pl);
    InAll(pl, a, b, c);
    ListedWalkable(pl, [], all);
    NextIs();
    ghost var q := Query(text, hit, 1, MemoOf(strs));
    MemoIs(strs);
    FreshSearch(pl.main, q);
    SearchProcess(pl, text, hit, [], all, strs);
    TwoListed(pl, a, b);
    MemoIs(strs);
  }

  lemma NextIs()
    ensures NextIndex(0) == 1 && NextIndex(1) == 2 && MAX_INDEX > 1 && Abs(0) == 0
  {
  }

  lemma InAll(pl: Playlist, a: PlayItem, b: PlayItem, c: PlayItem)
    requires pl.main == [a, b, c]
    ensures Among(pl.main, {a, b, c})
  {
  }

  lemma MemoIs(strs: set<CacheStr>)
    ensures MemoOf(strs).Keys == strs && forall e :: e in strs ==> MemoOf(strs)[e] == e.cmpidx
  {
  }

  /** Cutting out a track without search links takes both ends away and leaves the other links. */
  lemma CutStranger(pl: Playlist, it: PlayItem, all: set<PlayItem>, was: Shot, x: PlayItem)
    requires pl.CutOut(Search, it, all, was) && x in all && x != it
    requires was.next[it].search == null && was.prev[it].search == null
    ensures pl.head.search == null && pl.tail.search == null
    ensures SearchLinks(x, was.next[x].search, was.prev[x].search)
  {
  }

  /** Cutting out a track that has a search link although it counts for nobody. */
  lemma CutStray(pl: Playlist, it: PlayItem, all: set<PlayItem>, was: Shot, x: PlayItem)
    requires pl.CutOut(Search, it, all, was) && x in all && x != it
    ensures pl.head.search == if was.prev[it].search == null then was.next[it].search else was.ends.head.search
    ensures pl.tail.search == if was.next[it].search == null then was.prev[it].search else was.ends.tail.search
    ensures (was.next[it].search != null || was.prev[it].search != null || was.ends.head.search == it
        || was.ends.tail.search == it) ==> pl.count.search == was.ends.count.search - 1
    ensures SearchLinks(x, if x == was.prev[it].search then was.next[it].search else was.next[x].search,
                        if x == was.next[it].search then was.prev[it].search else was.prev[x].search)
  {
  }

  lemma ShotIs(pl: Playlist, all: set<PlayItem>, x: PlayItem)
    requires x in all
    ensures var was := pl.Taken(all);
      && was.next.Keys == all && was.prev.Keys == all
      && SearchLinks(x, was.next[x].search, was.prev[x].search)
      && was.ends.head.search == pl.head.search && was.ends.tail.search == pl.tail.search
      && was.ends.count.search == pl.count.search
  {
  }

  lemma ThirdOut(a: PlayItem, b: PlayItem, c: PlayItem)
    ensures RemoveAt([a, b, c], 2) == [a, b]
  {
  }

  lemma NoLinks(pl: Playlist, a: PlayItem, b: PlayItem, c: PlayItem)
    requires pl.main == [a, b, c] && pl.SearchIs([a, b], pl.main) && c != a && c != b
    ensures SearchLinks(c, null, null) && Leads(Search, c, {a, b, c}) && pl.count.search == 2
  {
    assert c in pl.main && c !in [a, b];
    hide Linked;
  }

  /** Then the track that was not found is removed. */
  method DropThird(pl: Playlist, a: PlayItem, b: PlayItem, c: PlayItem)
    requires pl.Valid() && pl.main == [a, b, c] && pl.SearchIs([a, b], pl.main) && a != b && a != c && b != c
    requires SearchLinks(a, b, null) && SearchLinks(b, null, a)
    modifies pl`head, pl`tail, pl`count, pl`main, a`next, a`prev, b`next, b`prev, c`next, c`prev, c`refc
    ensures pl.Valid() && pl.main == [a, b] && SearchLinks(a, b, null) && SearchLinks(b, null, a)
    ensures pl.head.search == null && pl.tail.search == null
  {
    hide *;
    ghost var all, was := {a, b, c}, pl.Taken({a, b, c});
    NoLinks(pl, a, b, c);
    InAll(pl, a, b, c);
    ThirdOut(a, b, c);
    ShotIs(pl, all, a);
    ShotIs(pl, all, b);
    ShotIs(pl, all, c);
    SameLinks(a, b, null, was.next[a].search, was.prev[a].search);
    SameLinks(b, null, a, was.next[b].search, was.prev[b].search);
    SameLinks(c, null, null, was.next[c].search, was.prev[c].search);
    pl.RemoveItem(c, 2, [a, b], all);
    CutStranger(pl, c, all, was, a);
    CutStranger(pl, c, all, was, b);
  }

  lemma SameLinks(it: PlayItem, n: PlayItem?, p: PlayItem?, n1: PlayItem?, p1: PlayItem?)
    requires SearchLinks(it, n, p) && SearchLinks(it, n1, p1)
    ensures n == n1 && p == p1
  {
  }

  lemma PairAmong(pl: Playlist, a: PlayItem, b: PlayItem)
    requires pl.main == [a, b] && pl.head.search == null
    ensures Among(pl.main, {a, b}) && Walkable(pl, {a, b}) && StartOf(pl, {a, b}).trail == {}
  {
  }

  lemma LeftBehind(pl: Playlist, a: PlayItem, b: PlayItem, was: Start)
    requires Listed(pl, [b]) && Rest([b], was) && a in was.all && a != b && was.trail == {}
    requires a in was.next && a in was.prev && was.next[a].search == b && was.prev[a].search == null
    ensures SearchLinks(a, b, null) && SearchLinks(b, null, null)
    ensures pl.head.search == b && pl.tail.search == b && pl.count.search == 1
  {
    assert [b][0].next.search == null && [b][0].prev.search == null;
  }

  lemma StartLinks(pl: Playlist, all: set<PlayItem>, x: PlayItem, n: PlayItem?, p: PlayItem?)
    requires x in all && SearchLinks(x, n, p)
    ensures var was := StartOf(pl, all);
      was.all == all && x in was.next && x in was.prev && was.next[x].search == n && was.prev[x].search == p
  {
  }

  /** Then a search, for "y", that finds only the second track. */
  method FindOne(pl: Playlist, a: PlayItem, b: PlayItem, ghost c: PlayItem, x: CacheStr, xy: CacheStr, z: CacheStr,
                 lower: Lower)
    requires pl.Valid() && pl.main == [a, b] && a != b && pl.searchCmpidx == 1
    requires Three(a, b, c, x, xy, z) && KeepsNames(lower)
    requires forall e :: e in {x, xy, z} ==> e.cmpidx == 0 || Abs(e.cmpidx) == 1
    requires SearchLinks(a, b, null) && SearchLinks(b, null, a) && pl.head.search == null && pl.tail.search == null
    modifies pl`head, pl`tail, pl`count, pl`searchCmpidx, a`next, a`prev, b`next, b`prev, x, xy, z
    ensures pl.Valid() && pl.main == [a, b] && SearchLinks(a, b, null) && SearchLinks(b, null, null)
    ensures pl.head.search == b && pl.tail.search == b && pl.count.search == 1
  {
    hide *;
    ghost var all, strs := {a, b}, {x, xy, z};
    var text, hit := Ascii("y"), Containing(lower, Ascii("y"));
    Finds(a, b, c, x, xy, z, lower);
    NamesContain(lower);
    PairAmong(pl, a, b);
    StartLinks(pl, all, a, b, null);
    NextIs();
    ghost var q, was := Query(text, hit, 2, MemoOf(strs)), StartOf(pl, all);
    MemoIs(strs);
    FreshSearch(pl.main, q);
    SearchProcess(pl, text, hit, [], all, strs);
    LeftBehind(pl, a, b, was);
  }

  /** Three tracks; a search finds the first two; the third is removed, which loses the ends of the search list; a
      search finds only the second. Then the first track still leads to it. */
  method LeftTrack(lower: Lower) returns (pl: Playlist, a: PlayItem, b: PlayItem)
    requires KeepsNames(lower)
    ensures fresh(pl) && fresh(a) && fresh(b) && a != b && pl.Valid() && pl.main == [a, b]
    ensures pl.head.search == b && pl.tail.search == b && pl.count.search == 1
    ensures SearchLinks(a, b, null) && SearchLinks(b, null, null)
  {
    hide *;
    var c, x, xy, z;
    pl, a, b, c, x, xy, z := ThreeTracks();
    FindTwo(pl, a, b, c, x, xy, z, lower);
    DropThird(pl, a, b, c);
    FindOne(pl, a, b, c, x, xy, z, lower);
  }

  lemma OneOut(a: PlayItem, b: PlayItem)
    ensures RemoveAt([a, b], 0) == [b] && RemoveAt([a, b], 1) == [a]
  {
  }

  lemma PairLeads(pl: Playlist, a: PlayItem, b: PlayItem)
    requires pl.main == [a, b] && SearchLinks(a, b, null) && SearchLinks(b, null, null)
    ensures Leads(Search, a, {a, b}) && Leads(Search, b, {a, b}) && Among(pl.main, {a, b})
  {
  }

  lemma CountWrong(pl: Playlist)
    requires pl.head.search != null && pl.count.search == 0
    ensures !exists s: seq<PlayItem> :: pl.SearchIs(s, pl.main)
  {
  }

  /** Removing that first track there: the result counts nothing, though the other track is still found. */
  method FoundNotCounted(lower: Lower) returns (pl: Playlist, found: PlayItem)
    requires KeepsNames(lower)
    ensures pl.Valid() && pl.main == [found] && pl.head.search == found && pl.count.search == 0
    ensures !exists s: seq<PlayItem> :: pl.SearchIs(s, pl.main)
  {
    hide *;
    var a;
    pl, a, found := LeftTrack(lower);
    ghost var all, was := {a, found}, pl.Taken({a, found});
    PairLeads(pl, a, found);
    OneOut(a, found);
    ShotIs(pl, all, a);
    SameLinks(a, found, null, was.next[a].search, was.prev[a].search);
    pl.RemoveItem(a, 0, [], all);
    CutStray(pl, a, all, was, found);
    CountWrong(pl);
  }

  lemma LeadsOut(pl: Playlist, a: PlayItem, b: PlayItem)
    requires pl.main == [a] && SearchLinks(a, b, null) && a != b
    ensures b !in pl.main && !pl.Inside(Items(pl.main))
  {
    assert a in pl.main && a.next.search !in Items(pl.main);
  }

  /** Removing the second one instead: the first leads to a track that has left the playlist. */
  method LinkLeftDangling(lower: Lower) returns (pl: Playlist, a: PlayItem, gone: PlayItem)
    requires KeepsNames(lower)
    ensures pl.Valid() && pl.main == [a] && gone !in pl.main && SearchLinks(a, gone, null)
    ensures !pl.Inside(Items(pl.main))
  {
    hide *;
    pl, a, gone := LeftTrack(lower);
    ghost var all, was := {a, gone}, pl.Taken({a, gone});
    PairLeads(pl, a, gone);
    OneOut(a, gone);
    ShotIs(pl, all, a);
    ShotIs(pl, all, gone);
    SameLinks(a, gone, null, was.next[a].search, was.prev[a].search);
    SameLinks(gone, null, null, was.next[gone].search, was.prev[gone].search);
    pl.RemoveItem(gone, 1, [], all);
    CutStray(pl, gone, all, was, a);
    LeadsOut(pl, a, gone);
  }
}
