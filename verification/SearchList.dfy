/** The search results of src/playlist.c: a second list through the tracks of a playlist, which every search
    takes apart and builds again. */
module SearchList {
  import opened PlayItems
  import opened Playlists

  /** The items that a walk along search links from `h` comes to; `left` are those where it has not been. */
  ghost function Trail(h: PlayItem?, n: Links, left: set<PlayItem>): (r: set<PlayItem>)
    ensures forall x :: x in r ==> x in left && x in n
    decreases left
  {
    if h == null || h !in left || h !in n then {} else {h} + Trail(n[h].search, n, left - {h})
  }

  /** The walk does not leave `all`. */
  ghost predicate Stays(h: PlayItem?, n: Links, all: set<PlayItem>) {
    (h == null || h in all) && forall x :: x in Trail(h, n, all) ==> n[x].search == null || n[x].search in all
  }

  /** The items of `all` are there, and what the reset of a search follows leads from one of them to another. */
  ghost predicate Walkable(pl: Playlist, all: set<PlayItem>)
    reads pl`head, pl`main, all`next
  {
    Among(pl.main, all) && Stays(pl.head.search, Nexts(all), all)
  }

  /** Since the snapshot the items of `gone` lost their search links, and nothing else happened. */
  ghost predicate Cleared(gone: set<PlayItem>, all: set<PlayItem>, n0: Links, p0: Links)
    reads all`next, all`prev
  {
    && (forall x :: x in gone ==> x in all) && (forall x :: x in all ==> x in n0 && x in p0)
    && (forall x {:trigger x.next} {:trigger n0[x]} :: x in all ==>
          x.next == if x in gone then n0[x].Set(Search, null) else n0[x])
    && (forall x {:trigger x.prev} {:trigger p0[x]} :: x in all ==>
          x.prev == if x in gone then p0[x].Set(Search, null) else p0[x])
  }

  /** Part way through a reset: `gone` are the items the walk has been to. */
  ghost predicate Resetting(h: PlayItem?, gone: set<PlayItem>, trail: set<PlayItem>, all: set<PlayItem>, n0: Links) {
    && n0.Keys == all && (h == null || h in all) && trail == gone + Trail(h, n0, all - gone)
    && forall x :: x in trail ==> x in n0 && (n0[x].search == null || n0[x].search in all)
  }

  lemma ResetStart(h: PlayItem?, all: set<PlayItem>, n0: Links)
    requires n0.Keys == all && Stays(h, n0, all)
    ensures Resetting(h, {}, Trail(h, n0, all), all, n0)
  {
    assert all - {} == all;
  }

  lemma ResetStep(h: PlayItem, gone: set<PlayItem>, trail: set<PlayItem>, all: set<PlayItem>, n0: Links)
    requires Resetting(h, gone, trail, all, n0)
    ensures h in all
    ensures Resetting(if h in gone then null else n0[h].search, gone + {h}, trail, all, n0)
    ensures h !in gone ==> h in all - gone && all - (gone + {h}) == all - gone - {h}
    ensures h in gone ==> gone + {h} == gone
  {
    assert all - (gone + {h}) == all - gone - {h};
    if h !in gone {
      assert h in Trail(h, n0, all - gone);
      assert trail == gone + {h} + Trail(n0[h].search, n0, all - gone - {h});
    } else {
      assert gone + {h} == gone;
    }
  }

  lemma ResetEnd(gone: set<PlayItem>, trail: set<PlayItem>, all: set<PlayItem>, n0: Links)
    requires Resetting(null, gone, trail, all, n0)
    ensures gone == trail
  {
  }

  /** One round of the loop of plt_search_reset_int. */
  method DropHead(pl: Playlist, ghost gone: set<PlayItem>, ghost all: set<PlayItem>, ghost n0: Links, ghost p0: Links)
    requires pl.head.search != null && pl.head.search in all && Cleared(gone, all, n0, p0)
    modifies pl`head, all`next, all`prev
    ensures Cleared(gone + {old(pl.head.search)}, all, n0, p0)
    ensures var h := old(pl.head.search);
      h in n0 && pl.head == old(pl.head).Set(Search, if h in gone then null else n0[h].search)
  {
    var it := pl.head.search;
    var next := it.next.search;
    assert it.next == if it in gone then n0[it].Set(Search, null) else n0[it];
    it.next := it.next.Set(Search, null);
    it.prev := it.prev.Set(Search, null);
    pl.head := pl.head.Set(Search, next);
  }

  lemma ClearedStart(all: set<PlayItem>)
    ensures Cleared({}, all, Nexts(all), Prevs(all))
  {
  }

  lemma ClearedMain(s: seq<PlayItem>, gone: set<PlayItem>, all: set<PlayItem>, h: PlayItem?, t: PlayItem?, n0: Links,
                    p0: Links)
    requires WasLinked(Main, s, h, t, n0, p0) && Among(s, all) && Cleared(gone, all, n0, p0)
    ensures Linked(Main, s, h, t)
  {
    hide Distinct;
    forall i | 0 <= i < |s|
      ensures s[i].next.main == n0[s[i]].main && s[i].prev.main == p0[s[i]].main
    {
      assert s[i] in all;
    }
    hide Cleared;
  }

  /** The loop of plt_search_reset_int. */
  method ClearTrail(pl: Playlist, ghost all: set<PlayItem>)
    requires Stays(pl.head.search, Nexts(all), all)
    modifies pl`head, all`next, all`prev
    ensures pl.head == old(pl.head).Set(Search, null)
    ensures Cleared(old(Trail(pl.head.search, Nexts(all), all)), all, old(Nexts(all)), old(Prevs(all)))
  {
    ghost var n0, p0 := Nexts(all), Prevs(all);
    ghost var trail, gone := Trail(pl.head.search, n0, all), {};
    ResetStart(pl.head.search, all, n0);
    ClearedStart(all);
    hide Trail, Stays, Resetting, Cleared, Nexts, Prevs;
    while pl.head.search != null
      invariant pl.head.main == old(pl.head).main && Cleared(gone, all, n0, p0)
      invariant Resetting(pl.head.search, gone, trail, all, n0)
      decreases all - gone, if pl.head.search == null then 0 else 1
    {
      ghost var h: PlayItem := pl.head.search;
      ResetStep(h, gone, trail, all, n0);
      DropHead(pl, gone, all, n0, p0);
      gone := gone + {h};
    }
    ResetEnd(gone, trail, all, n0);
  }

  /** plt_search_reset_int: all items the walk from the head comes to lose their search links, whatever these
      were. Search links of other items stay. */
  method ResetSearch(pl: Playlist, ghost all: set<PlayItem>)
    requires pl.Valid() && Walkable(pl, all)
    modifies pl`head, pl`tail, pl`count, all`next, all`prev
    ensures pl.main == old(pl.main) && pl.Valid()
    ensures pl.head.search == null && pl.tail.search == null && pl.count.search == 0
    ensures Cleared(old(Trail(pl.head.search, Nexts(all), all)), all, old(Nexts(all)), old(Prevs(all)))
  {
    hide Linked, WasLinked, Among, Trail, Stays, Cleared, Nexts, Prevs;
    ghost var n0, p0, was := Nexts(all), Prevs(all), pl.Now();
    ghost var trail := Trail(pl.head.search, n0, all);
    LinkedSnapshot(Main, pl.main, all, pl.head.main, pl.tail.main);
    ClearTrail(pl, all);
    pl.tail := pl.tail.Set(Search, null);
    pl.count := pl.count.Set(Search, 0);
    ClearedAll(pl, trail, all, n0, p0, was);
  }

  lemma ClearedAll(pl: Playlist, trail: set<PlayItem>, all: set<PlayItem>, n0: Links, p0: Links, was: Ends)
    requires WasLinked(Main, pl.main, was.head.main, was.tail.main, n0, p0) && was.count.main == |pl.main|
    requires pl.head.main == was.head.main && pl.tail.main == was.tail.main && pl.count.main == was.count.main
    requires Among(pl.main, all) && Cleared(trail, all, n0, p0) && forall x :: x in pl.main ==> x.refc >= 1
    ensures pl.Valid()
  {
    ClearedMain(pl.main, trail, all, was.head.main, was.tail.main, n0, p0);
    hide Linked, WasLinked, Cleared;
  }

  /** `s` is the list between the ends of the search list, and the count is its length. */
  ghost predicate Listed(pl: Playlist, s: seq<PlayItem>)
    reads pl`head, pl`tail, pl`count, pl`main, pl.main`next, pl.main`prev
  {
    && (forall i :: 0 <= i < |s| ==> s[i] in pl.main)
    && Linked(Search, s, pl.head.search, pl.tail.search) && pl.count.search == |s|
  }

  /** Since the snapshot, `it` was linked behind the last of the results `s`. */
  ghost predicate Appended(it: PlayItem, s: seq<PlayItem>, all: set<PlayItem>, n0: Links, p0: Links)
    reads all`next, all`prev
  {
    && it in all && (forall x :: x in all ==> x in n0 && x in p0)
    && it.next == n0[it].Set(Search, null) && it.prev == p0[it].Set(Search, Last(s))
    && (forall x {:trigger x.next} {:trigger n0[x]} :: x in all && x != it ==>
          x.next == if x == Last(s) then n0[x].Set(Search, it) else n0[x])
    && (forall x {:trigger x.prev} {:trigger p0[x]} :: x in all && x != it ==> x.prev == p0[x])
  }

  lemma AppendedMain(it: PlayItem, s: seq<PlayItem>, main: seq<PlayItem>, all: set<PlayItem>, head: PlayItem?,
                     tail: PlayItem?, n0: Links, p0: Links)
    requires WasLinked(Main, main, head, tail, n0, p0) && Among(main, all) && Appended(it, s, all, n0, p0)
    ensures Linked(Main, main, head, tail)
  {
    hide Distinct;
    forall i | 0 <= i < |main|
      ensures main[i].next.main == n0[main[i]].main && main[i].prev.main == p0[main[i]].main
    {
      assert main[i] in all;
    }
    hide Appended;
  }

  lemma AppendedSearch(it: PlayItem, s: seq<PlayItem>, all: set<PlayItem>, head: PlayItem?, tail: PlayItem?,
                       n0: Links, p0: Links)
    requires WasLinked(Search, s, head, tail, n0, p0) && Appended(it, s, all, n0, p0)
    requires it !in s && Among(s, all)
    ensures Linked(Search, s + [it], if s == [] then it else head, it)
  {
    var r := s + [it];
    forall i | 0 <= i < |r|
      ensures r[i].next.search == if i < |r| - 1 then r[i + 1] else null
      ensures r[i].prev.search == if 0 < i then r[i - 1] else null
    {
      if i < |s| {
        assert r[i] == s[i] && s[i] in all && s[i] != it;
        assert n0[s[i]].search == if i < |s| - 1 then s[i + 1] else null;
        assert p0[s[i]].search == if 0 < i then s[i - 1] else null;
        assert s[i] == s[|s| - 1] ==> i == |s| - 1;
      }
    }
  }

  /** The pointer updates of _plsearch_append; the selection is not modelled. */
  method AppendLinks(pl: Playlist, it: PlayItem, ghost s: seq<PlayItem>, ghost all: set<PlayItem>)
    requires it in all && it !in s && pl.tail.search == Last(s) && Among(s, all)
    modifies pl`head, pl`tail, pl`count, all`next, all`prev
    ensures Appended(it, s, all, old(Nexts(all)), old(Prevs(all)))
    ensures pl.head == (if s == [] then old(pl.head).Set(Search, it) else old(pl.head))
      && pl.tail == old(pl.tail).Set(Search, it)
    ensures pl.count == old(pl.count).Set(Search, old(pl.count).search + 1)
  {
    assert s != [] ==> Last(s) in all && Last(s) in s;
    it.next := it.next.Set(Search, null);
    it.prev := it.prev.Set(Search, pl.tail.search);
    if pl.tail.search != null {
      pl.tail.search.next := pl.tail.search.next.Set(Search, it);
      pl.tail := pl.tail.Set(Search, it);
    } else {
      pl.head, pl.tail := pl.head.Set(Search, it), pl.tail.Set(Search, it);
    }
    pl.count := pl.count.Set(Search, pl.count.search + 1);
  }

  lemma Snapshots(pl: Playlist, s: seq<PlayItem>, all: set<PlayItem>)
    requires pl.Valid() && Listed(pl, s) && Among(pl.main, all)
    ensures WasLinked(Main, pl.main, pl.head.main, pl.tail.main, Nexts(all), Prevs(all))
    ensures WasLinked(Search, s, pl.head.search, pl.tail.search, Nexts(all), Prevs(all))
    ensures pl.tail.search == Last(s) && Among(s, all) && pl.count == Pair(|pl.main|, |s|)
    ensures forall i :: 0 <= i < |s| ==> s[i] in pl.main
  {
    AmongIn(pl.main, all);
    assert Among(s, all);
    LinkedSnapshot(Main, pl.main, all, pl.head.main, pl.tail.main);
    LinkedSnapshot(Search, s, all, pl.head.search, pl.tail.search);
  }

  /** _plsearch_append: the results grow by one track. Nothing is asked of the search links of that track or of
      tracks that are not results. */
  method AppendResult(pl: Playlist, it: PlayItem, ghost s: seq<PlayItem>, ghost all: set<PlayItem>)
    requires pl.Valid() && Listed(pl, s) && it in pl.main && it !in s && Among(pl.main, all)
    modifies pl`head, pl`tail, pl`count, all`next, all`prev
    ensures pl.main == old(pl.main) && pl.Valid() && Listed(pl, s + [it])
    ensures Appended(it, s, all, old(Nexts(all)), old(Prevs(all)))
  {
    ghost var n0, p0, was := Nexts(all), Prevs(all), pl.Now();
    AmongIn(pl.main, all);
    Snapshots(pl, s, all);
    hide Linked, WasLinked, Appended, Among, Nexts, Prevs, Listed;
    AppendLinks(pl, it, s, all);
    AppendedAll(pl, it, s, all, n0, p0, was);
  }

  lemma AppendedAll(pl: Playlist, it: PlayItem, s: seq<PlayItem>, all: set<PlayItem>, n0: Links, p0: Links, was: Ends)
    requires Among(pl.main, all) && Among(s, all) && it in pl.main && it !in s && Appended(it, s, all, n0, p0)
    requires WasLinked(Main, pl.main, was.head.main, was.tail.main, n0, p0) && was.count.main == |pl.main|
    requires WasLinked(Search, s, was.head.search, was.tail.search, n0, p0) && was.count.search == |s|
    requires pl.head == (if s == [] then was.head.Set(Search, it) else was.head)
    requires pl.tail == was.tail.Set(Search, it) && pl.count == was.count.Set(Search, was.count.search + 1)
    requires forall i :: 0 <= i < |s| ==> s[i] in pl.main
    requires forall x :: x in pl.main ==> x.refc >= 1
    ensures pl.Valid() && Listed(pl, s + [it])
  {
    AppendedMain(it, s, pl.main, all, was.head.main, was.tail.main, n0, p0);
    AppendedSearch(it, s, all, was.head.search, was.tail.search, n0, p0);
    hide Linked, WasLinked, Appended, Among;
  }

  // ----- the state of a search -------------------------------------------------------------

  /** Some items and their links at the start of a search, and the items its reset comes to. */
  datatype Start = Start(all: set<PlayItem>, next: Links, prev: Links, trail: set<PlayItem>)

  ghost function StartOf(pl: Playlist, all: set<PlayItem>): Start
    reads pl`head, all`next, all`prev
  {
    Start(all, Nexts(all), Prevs(all), Trail(pl.head.search, Nexts(all), all))
  }

  lemma StartIs(pl: Playlist, all: set<PlayItem>)
    ensures StartOf(pl, all).all == all
  {
  }

  /** The search links of the items that are not results: those the reset came to have none, the others have
      what they had. Main links are as they were. */
  ghost predicate Rest(s: seq<PlayItem>, was: Start)
    reads was.all`next, was.all`prev
  {
    && (forall x :: x in was.all ==> x in was.next && x in was.prev)
    && (forall x {:trigger x.next} {:trigger was.next[x]} :: x in was.all ==>
          && x.next.main == was.next[x].main
          && (x !in s ==> x.next.search == if x in was.trail then null else was.next[x].search))
    && (forall x {:trigger x.prev} {:trigger was.prev[x]} :: x in was.all ==>
          && x.prev.main == was.prev[x].main
          && (x !in s ==> x.prev.search == if x in was.trail then null else was.prev[x].search))
  }

  /** So it was in the snapshot n, p. */
  ghost predicate WasRest(s: seq<PlayItem>, was: Start, n: Links, p: Links) {
    && (forall x :: x in was.all ==> x in was.next && x in was.prev && x in n && x in p)
    && (forall x {:trigger n[x]} {:trigger was.next[x]} :: x in was.all ==>
          && n[x].main == was.next[x].main
          && (x !in s ==> n[x].search == if x in was.trail then null else was.next[x].search))
    && (forall x {:trigger p[x]} {:trigger was.prev[x]} :: x in was.all ==>
          && p[x].main == was.prev[x].main
          && (x !in s ==> p[x].search == if x in was.trail then null else was.prev[x].search))
  }

  /** The results so far are `s`, and nothing else changed since the start but what the reset did. */
  ghost predicate Searching(pl: Playlist, s: seq<PlayItem>, was: Start)
    reads pl`head, pl`tail, pl`count, pl`main, pl.main`next, pl.main`prev, pl.main`refc, was.all`next, was.all`prev
  {
    pl.Valid() && Among(pl.main, was.all) && Listed(pl, s) && Rest(s, was)
  }

  lemma SearchingValid(pl: Playlist, s: seq<PlayItem>, was: Start)
    requires Searching(pl, s, was)
    ensures pl.Valid() && Among(pl.main, was.all) && Listed(pl, s) && Rest(s, was)
  {
  }

  lemma RestStart(pl: Playlist, was: Start)
    requires Cleared(was.trail, was.all, was.next, was.prev)
    requires pl.head.search == null && pl.tail.search == null && pl.count.search == 0
    ensures Listed(pl, []) && Rest([], was)
  {
  }

  lemma RestGrows(it: PlayItem, s: seq<PlayItem>, was: Start, n: Links, p: Links)
    requires WasRest(s, was, n, p) && Appended(it, s, was.all, n, p)
    ensures Rest(s + [it], was)
  {
    assert Last(s) != null ==> Last(s) in s;
    hide Last;
    assert forall x :: x in s + [it] <==> x in s || x == it;
  }

  lemma RestSnapshot(s: seq<PlayItem>, was: Start)
    requires Rest(s, was)
    ensures WasRest(s, was, Nexts(was.all), Prevs(was.all))
  {
  }

  /** plt_search_reset_int, as the start of a search. */
  method ForgetResults(pl: Playlist, ghost was: Start)
    requires pl.Valid() && Walkable(pl, was.all) && was == StartOf(pl, was.all)
    modifies pl`head, pl`tail, pl`count, was.all`next, was.all`prev
    ensures pl.main == old(pl.main) && Searching(pl, [], was)
  {
    hide Playlist.Valid, Trail, Stays, Nexts, Prevs, Among, Cleared, Rest, Listed;
    ResetSearch(pl, was.all);
    RestStart(pl, was);
  }

  /** _plsearch_append, seen from the whole search. */
  method KeepResult(pl: Playlist, it: PlayItem, ghost s: seq<PlayItem>, ghost was: Start)
    requires Searching(pl, s, was) && it in pl.main && it !in s
    modifies pl`head, pl`tail, pl`count, was.all`next, was.all`prev
    ensures pl.main == old(pl.main) && Searching(pl, s + [it], was)
  {
    RestSnapshot(s, was);
    ghost var n, p := Nexts(was.all), Prevs(was.all);
    hide Playlist.Valid, Among, Listed, Rest, Nexts, Prevs, Appended, WasRest;
    AppendResult(pl, it, s, was.all);
    RestGrows(it, s, was, n, p);
  }

  // ----- what the search links are afterwards ----------------------------------------------

  /** Tracks outside the result that the reset did not come to had no search links at the start. */
  ghost predicate NoneLeft(s: seq<PlayItem>, main: seq<PlayItem>, was: Start) {
    forall x :: x in main && x !in s && x !in was.trail ==>
      x in was.next && x in was.prev && was.next[x].search == null && was.prev[x].search == null
  }

  /** The result is a well-formed search list if and only if no other track kept search links. */
  lemma CleanResult(pl: Playlist, s: seq<PlayItem>, was: Start)
    requires Listed(pl, s) && Rest(s, was) && Among(pl.main, was.all)
    ensures pl.SearchIs(s, pl.main) <==> NoneLeft(s, pl.main, was)
  {
    AmongIn(pl.main, was.all);
    assert forall x :: x in s ==> x in pl.main;
    hide Linked;
  }

  /** The walk along a well-formed list comes to its members and to nothing else. */
  lemma {:induction false} TrailIs(s: seq<PlayItem>, k: nat, n: Links, left: set<PlayItem>)
    requires Distinct(s) && k <= |s| && forall i :: k <= i < |s| ==> s[i] in left && s[i] in n
    requires forall i {:trigger n[s[i]]} :: k <= i < |s| ==> n[s[i]].search == ItemAt(s, i + 1)
    ensures forall x :: x in Trail(ItemAt(s, k), n, left) ==> x in s
    ensures forall i :: k <= i < |s| ==> s[i] in Trail(ItemAt(s, k), n, left)
    decreases |s| - k
  {
    if k < |s| {
      var rest := left - {s[k]};
      assert forall i :: k < i < |s| ==> s[i] in rest;
      TrailIs(s, k + 1, n, rest);
      assert n[s[k]].search == ItemAt(s, k + 1);
      assert Trail(s[k], n, left) == {s[k]} + Trail(ItemAt(s, k + 1), n, rest);
    }
  }

  lemma ListTrail(pl: Playlist, s: seq<PlayItem>, all: set<PlayItem>)
    requires Linked(Search, s, pl.head.search, pl.tail.search) && Among(s, all)
    ensures Stays(pl.head.search, Nexts(all), all)
    ensures forall x :: x in s ==> x in Trail(pl.head.search, Nexts(all), all)
  {
    assert forall i :: 0 <= i < |s| ==> Nexts(all)[s[i]] == s[i].next;
    TrailIs(s, 0, Nexts(all), all);
    assert pl.head.search == ItemAt(s, 0);
    hide Trail;
    forall x | x in Trail(pl.head.search, Nexts(all), all)
      ensures Nexts(all)[x].search == null || Nexts(all)[x].search in all
    {
      var i :| 0 <= i < |s| && s[i] == x;
      assert s[i].next.search == if i < |s| - 1 then s[i + 1] else null;
    }
  }

  /** After a well-formed search list none are left. */
  lemma CleanBefore(pl: Playlist, s: seq<PlayItem>, found: seq<PlayItem>, all: set<PlayItem>)
    requires Walkable(pl, all) && pl.SearchIs(s, pl.main)
    ensures NoneLeft(found, pl.main, StartOf(pl, all))
  {
    AmongIn(pl.main, all);
    assert forall i :: 0 <= i < |s| ==> s[i] in s && s[i] in pl.main;
    ListTrail(pl, s, all);
    hide Linked, Trail;
  }

  /** The next search can follow what this one leaves. */
  lemma ListedWalkable(pl: Playlist, s: seq<PlayItem>, all: set<PlayItem>)
    requires Listed(pl, s) && Among(pl.main, all)
    ensures Walkable(pl, all)
  {
    AmongIn(pl.main, all);
    assert Among(s, all);
    ListTrail(pl, s, all);
  }

  /** A reset can follow links that stay inside the playlist. */
  lemma InsideWalkable(pl: Playlist)
    requires pl.Inside(Items(pl.main))
    ensures Walkable(pl, Items(pl.main))
  {
    hide Trail;
    assert forall x :: x in pl.main ==> Leads(Search, x, Items(pl.main));
  }

  /** The search links of the playlist led to items of `all` at the start. */
  ghost predicate StartInside(main: seq<PlayItem>, all: set<PlayItem>, was: Start) {
    forall x {:trigger was.next[x]} {:trigger was.prev[x]} :: x in main ==>
      && x in was.next && x in was.prev && (was.next[x].search == null || was.next[x].search in all)
      && (was.prev[x].search == null || was.prev[x].search in all)
  }

  lemma InsideStart(pl: Playlist, all: set<PlayItem>)
    requires pl.Inside(all) && Walkable(pl, all)
    ensures StartInside(pl.main, all, StartOf(pl, all))
  {
    AmongIn(pl.main, all);
    hide Trail;
  }

  /** A search leaves links inside the items they led to. */
  lemma StillInside(pl: Playlist, s: seq<PlayItem>, was: Start)
    requires Listed(pl, s) && Rest(s, was) && Among(pl.main, was.all) && StartInside(pl.main, was.all, was)
    ensures pl.Inside(was.all)
  {
    AmongIn(pl.main, was.all);
    ListedLinks(pl, s, was.all);
    hide Linked, Among;
  }

  lemma ListedLinks(pl: Playlist, s: seq<PlayItem>, all: set<PlayItem>)
    requires Listed(pl, s) && Among(pl.main, all)
    ensures (pl.head.search == null || pl.head.search in all) && (pl.tail.search == null || pl.tail.search in all)
    ensures forall x :: x in s ==> Leads(Search, x, all)
  {
    AmongIn(pl.main, all);
    assert Among(s, all);
    forall x | x in s
      ensures Leads(Search, x, all)
    {
      var i :| 0 <= i < |s| && s[i] == x;
      LinkedLeads(Search, s, all, i, pl.head.search, pl.tail.search);
    }
  }
}
