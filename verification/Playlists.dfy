/** The doubly linked track lists of src/playlist.c: insert, remove and move. */
module Playlists {
  import opened PlayItems

  ghost predicate Distinct<T>(s: seq<T>) {
    forall i, j :: 0 <= i < j < |s| ==> s[i] != s[j]
  }

  /** `s` is the list from `head` to `tail`, linked in both directions. */
  ghost predicate Linked(iter: Iter, s: seq<PlayItem>, head: PlayItem?, tail: PlayItem?)
    reads s`next, s`prev
  {
    && Distinct(s)
    && head == (if s == [] then null else s[0])
    && tail == (if s == [] then null else s[|s| - 1])
    && (forall i {:trigger s[i].next} :: 0 <= i < |s| ==> s[i].next.At(iter) == if i < |s| - 1 then s[i + 1] else null)
    && (forall i {:trigger s[i].prev} :: 0 <= i < |s| ==> s[i].prev.At(iter) == if 0 < i then s[i - 1] else null)
  }

  /** The links of an item lead to items of `all`, if anywhere. */
  ghost predicate Leads(iter: Iter, x: PlayItem, all: set<PlayItem>)
    reads x`next, x`prev
  {
    && (x.next.At(iter) == null || x.next.At(iter) in all)
    && (x.prev.At(iter) == null || x.prev.At(iter) in all)
  }

  ghost predicate Held(s: seq<PlayItem>)
    reads s`refc
  {
    forall i :: 0 <= i < |s| ==> s[i].refc >= 1
  }

  /** All have an owner, and `it` is none of them. */
  ghost predicate Owned(s: seq<PlayItem>, it: PlayItem)
    reads s`refc
  {
    forall i :: 0 <= i < |s| ==> s[i].refc >= 1 && s[i] != it
  }

  ghost predicate Among(s: seq<PlayItem>, all: set<PlayItem>) {
    forall i :: 0 <= i < |s| ==> s[i] in all
  }

  lemma AmongIn(s: seq<PlayItem>, all: set<PlayItem>)
    requires Among(s, all)
    ensures forall x :: x in s ==> x in all
  {
  }

  /** `rest` has the elements of `s` but `x`. */
  ghost predicate AllBut(rest: seq<PlayItem>, s: seq<PlayItem>, x: PlayItem) {
    && (forall i :: 0 <= i < |rest| ==> rest[i] in s && rest[i] != x)
    && (forall i :: 0 <= i < |s| && s[i] != x ==> s[i] in rest)
  }

  function RemoveAt<T>(s: seq<T>, k: nat): (r: seq<T>)
    requires k < |s|
    ensures |r| == |s| - 1
  {
    s[..k] + s[k + 1..]
  }

  function InsertAt<T>(s: seq<T>, k: nat, x: T): (r: seq<T>)
    requires k <= |s|
    ensures |r| == |s| + 1
  {
    s[..k] + [x] + s[k..]
  }

  // A snapshot of links, to compare an earlier state with the current one.
  type Links = map<PlayItem, Pair<PlayItem?>>

  ghost function Items(s: seq<PlayItem>): (r: set<PlayItem>)
    ensures (forall x :: x in r ==> x in s) && forall x :: x in s ==> x in r
  {
    set x | x in s
  }

  ghost function Nexts(all: set<PlayItem>): (m: Links)
    reads all`next
    ensures m.Keys == all
  {
    map x | x in all :: x.next
  }

  ghost function Prevs(all: set<PlayItem>): (m: Links)
    reads all`prev
    ensures m.Keys == all
  {
    map x | x in all :: x.prev
  }

  /** Since the snapshot, the neighbours of `it` in list `iter` lead past it, and `it` has no links there. */
  ghost predicate Bypassed(iter: Iter, it: PlayItem, all: set<PlayItem>, n0: Links, p0: Links)
    reads all`next, all`prev
  {
    && it in all && (forall x :: x in all ==> x in n0 && x in p0)
    && it.next == n0[it].Set(iter, null) && it.prev == p0[it].Set(iter, null)
    && (forall x {:trigger x.next} {:trigger n0[x]} :: x in all && x != it ==>
          x.next == if x == p0[it].At(iter) then n0[x].Set(iter, n0[it].At(iter)) else n0[x])
    && (forall x {:trigger x.prev} {:trigger p0[x]} :: x in all && x != it ==>
          x.prev == if x == n0[it].At(iter) then p0[x].Set(iter, p0[it].At(iter)) else p0[x])
  }

  /** In the snapshot `s` was the list from `head` to `tail`. */
  ghost predicate WasLinked(iter: Iter, s: seq<PlayItem>, head: PlayItem?, tail: PlayItem?, n0: Links, p0: Links) {
    && Distinct(s) && (forall x :: x in s ==> x in n0 && x in p0)
    && head == (if s == [] then null else s[0])
    && tail == (if s == [] then null else s[|s| - 1])
    && (forall i {:trigger n0[s[i]]} :: 0 <= i < |s| ==> n0[s[i]].At(iter) == if i < |s| - 1 then s[i + 1] else null)
    && (forall i {:trigger p0[s[i]]} :: 0 <= i < |s| ==> p0[s[i]].At(iter) == if 0 < i then s[i - 1] else null)
  }

  /** Since the snapshot, the links of `iter` that led to `it` from its own neighbours lead past it. */
  ghost predicate Past(iter: Iter, it: PlayItem, all: set<PlayItem>, n0: Links, p0: Links)
    reads all`next, all`prev
  {
    && it in all && all <= n0.Keys && all <= p0.Keys && it.next.At(iter) == null && it.prev.At(iter) == null
    && (forall x {:trigger x.next} {:trigger n0[x]} :: x in all && x != it ==>
          x.next.At(iter) == if x == p0[it].At(iter) then n0[it].At(iter) else n0[x].At(iter))
    && (forall x {:trigger x.prev} {:trigger p0[x]} :: x in all && x != it ==>
          x.prev.At(iter) == if x == n0[it].At(iter) then p0[it].At(iter) else p0[x].At(iter))
  }

  /** So they did in the snapshot n1, p1, and search links were as in n0, p0. */
  ghost predicate WasPast(it: PlayItem, all: set<PlayItem>, n0: Links, p0: Links, n1: Links, p1: Links) {
    && it in all && all <= n0.Keys && all <= p0.Keys && all <= n1.Keys && all <= p1.Keys
    && n1[it].main == null && p1[it].main == null
    && (forall x {:trigger n1[x]} {:trigger n0[x]} :: x in all ==>
          && n1[x].search == n0[x].search
          && (x != it ==> n1[x].main == if x == p0[it].main then n0[it].main else n0[x].main))
    && (forall x {:trigger p1[x]} {:trigger p0[x]} :: x in all ==>
          && p1[x].search == p0[x].search
          && (x != it ==> p1[x].main == if x == n0[it].main then p0[it].main else p0[x].main))
  }

  lemma FirstPass(it: PlayItem, all: set<PlayItem>, n0: Links, p0: Links)
    requires Bypassed(Main, it, all, n0, p0)
    requires (n0[it].search == null || n0[it].search in all) && (p0[it].search == null || p0[it].search in all)
    ensures WasPast(it, all, n0, p0, Nexts(all), Prevs(all)) && Leads(Search, it, all)
    ensures it.next.search == n0[it].search && it.prev.search == p0[it].search
  {
  }

  lemma SecondPass(it: PlayItem, all: set<PlayItem>, n0: Links, p0: Links, n1: Links, p1: Links)
    requires WasPast(it, all, n0, p0, n1, p1) && Bypassed(Search, it, all, n1, p1)
    ensures Past(Main, it, all, n0, p0) && Past(Search, it, all, n0, p0)
    ensures it.next == Pair(null, null) && it.prev == Pair(null, null)
  {
  }

  ghost function After(s: seq<PlayItem>, j: nat): PlayItem? {
    if j + 1 < |s| then s[j + 1] else null
  }

  ghost function Ahead(s: seq<PlayItem>, j: nat): PlayItem?
    requires j <= |s|
  {
    if j > 0 then s[j - 1] else null
  }

  ghost function Last(s: seq<PlayItem>): PlayItem? {
    if s == [] then null else s[|s| - 1]
  }

  lemma WasDistinct(iter: Iter, s: seq<PlayItem>, head: PlayItem?, tail: PlayItem?, n0: Links, p0: Links)
    requires WasLinked(iter, s, head, tail, n0, p0)
    ensures Distinct(s)
  {
  }

  lemma RestIs(s: seq<PlayItem>, k: nat)
    requires Distinct(s) && k < |s|
    ensures Distinct(RemoveAt(s, k)) && AllBut(RemoveAt(s, k), s, s[k])
  {
    var r := RemoveAt(s, k);
    assert forall i :: 0 <= i < |r| ==> r[i] == s[if i < k then i else i + 1];
    assert forall j :: 0 <= j < |s| && j != k ==> s[j] == r[if j < k then j else j - 1];
  }

  lemma WasAt(iter: Iter, s: seq<PlayItem>, head: PlayItem?, tail: PlayItem?, n0: Links, p0: Links, j: nat)
    requires WasLinked(iter, s, head, tail, n0, p0) && j < |s|
    ensures s[j] in n0 && s[j] in p0 && n0[s[j]].At(iter) == After(s, j) && p0[s[j]].At(iter) == Ahead(s, j)
    ensures forall i :: 0 <= i < |s| && i != j ==> s[i] != s[j]
    ensures head == s[0] && tail == s[|s| - 1]
  {
  }

  lemma LinkAfter(iter: Iter, it: PlayItem, s: seq<PlayItem>, all: set<PlayItem>, k: nat, j: nat,
                  head: PlayItem?, tail: PlayItem?, n0: Links, p0: Links)
    requires k < |s| && s[k] == it && j < |s| && s[j] in all && j != k
    requires WasLinked(iter, s, head, tail, n0, p0) && Past(iter, it, all, n0, p0)
    ensures s[j].next.At(iter) == After(s, if j + 1 == k then k else j)
    ensures s[j].prev.At(iter) == Ahead(s, if j == k + 1 then k else j)
  {
    WasAt(iter, s, head, tail, n0, p0, k);
    WasAt(iter, s, head, tail, n0, p0, j);
    hide WasLinked;
  }

  lemma LinkedAfter(iter: Iter, it: PlayItem, s: seq<PlayItem>, all: set<PlayItem>, k: nat,
                    head: PlayItem?, tail: PlayItem?, n0: Links, p0: Links)
    requires k < |s| && s[k] == it && Among(s, all)
    requires WasLinked(iter, s, head, tail, n0, p0) && Past(iter, it, all, n0, p0)
    ensures it in n0 && it in p0
    ensures Linked(iter, RemoveAt(s, k),
                   if p0[it].At(iter) == null then n0[it].At(iter) else head,
                   if n0[it].At(iter) == null then p0[it].At(iter) else tail)
  {
    hide Past, WasLinked;
    WasAt(iter, s, head, tail, n0, p0, k);
    WasDistinct(iter, s, head, tail, n0, p0);
    RestIs(s, k);
    EndsAfter(s, k);
    hide Distinct, Linked, RemoveAt, After, Ahead, Last;
    var r := RemoveAt(s, k);
    forall i | 0 <= i < |r|
      ensures r[i].next.At(iter) == After(r, i) && r[i].prev.At(iter) == Ahead(r, i)
    {
      RestAt(s, k, i);
      LinkAfter(iter, it, s, all, k, if i < k then i else i + 1, head, tail, n0, p0);
    }
    LinkedBy(iter, r);
  }

  lemma EndsAfter(s: seq<PlayItem>, k: nat)
    requires k < |s|
    ensures ItemAt(RemoveAt(s, k), 0) == if Ahead(s, k) == null then After(s, k) else s[0]
    ensures Last(RemoveAt(s, k)) == if After(s, k) == null then Ahead(s, k) else s[|s| - 1]
  {
  }

  lemma RestAt(s: seq<PlayItem>, k: nat, i: nat)
    requires k < |s| && i < |s| - 1
    ensures var r, j := RemoveAt(s, k), if i < k then i else i + 1;
      && r[i] == s[j] && After(r, i) == After(s, if j + 1 == k then k else j)
      && Ahead(r, i) == Ahead(s, if j == k + 1 then k else j)
  {
  }

  lemma LinkedBy(iter: Iter, r: seq<PlayItem>)
    requires Distinct(r)
    requires forall i :: 0 <= i < |r| ==> r[i].next.At(iter) == After(r, i) && r[i].prev.At(iter) == Ahead(r, i)
    ensures Linked(iter, r, ItemAt(r, 0), Last(r))
  {
    hide Distinct;
    assert forall i {:trigger r[i].next} :: 0 <= i < |r| ==>
        r[i].next.At(iter) == if i < |r| - 1 then r[i + 1] else null;
    assert forall i {:trigger r[i].prev} :: 0 <= i < |r| ==> r[i].prev.At(iter) == if 0 < i then r[i - 1] else null;
  }

  /** Items outside the search list `srch` had no search links in the snapshot. */
  ghost predicate NoStray(srch: seq<PlayItem>, all: seq<PlayItem>, n0: Links, p0: Links) {
    forall x {:trigger x in srch} :: x in all && x !in srch ==>
      x in n0 && x in p0 && n0[x].search == null && p0[x].search == null
  }

  lemma SearchAfter(it: PlayItem, srch: seq<PlayItem>, s: seq<PlayItem>, all: set<PlayItem>, head: PlayItem?,
                    tail: PlayItem?, n0: Links, p0: Links) returns (j: nat)
    requires WasLinked(Search, srch, head, tail, n0, p0) && NoStray(srch, s, n0, p0)
    requires it in srch && Among(srch, all) && Among(s, all) && Past(Search, it, all, n0, p0)
    ensures j < |srch| && srch[j] == it
    ensures Linked(Search, RemoveAt(srch, j),
                   if p0[it].search == null then n0[it].search else head,
                   if n0[it].search == null then p0[it].search else tail)
    ensures forall x :: x in s && x !in RemoveAt(srch, j) ==> x.next.search == null && x.prev.search == null
    ensures p0[it].search != null || n0[it].search != null || head == it
  {
    j :| 0 <= j < |srch| && srch[j] == it;
    LinkedAfter(Search, it, srch, all, j, head, tail, n0, p0);
    StrayAfter(it, srch, s, all, j, head, tail, n0, p0);
  }

  lemma StrayAfter(it: PlayItem, srch: seq<PlayItem>, s: seq<PlayItem>, all: set<PlayItem>, j: nat, head: PlayItem?,
                   tail: PlayItem?, n0: Links, p0: Links)
    requires WasLinked(Search, srch, head, tail, n0, p0) && NoStray(srch, s, n0, p0)
    requires j < |srch| && srch[j] == it && Among(s, all) && Past(Search, it, all, n0, p0)
    ensures forall x :: x in s && x !in RemoveAt(srch, j) ==> x.next.search == null && x.prev.search == null
    ensures p0[it].search != null || n0[it].search != null || head == it
  {
    WasAt(Search, srch, head, tail, n0, p0, j);
    hide WasLinked, Among;
    AmongIn(s, all);
    var r := RemoveAt(srch, j);
    assert forall i :: 0 <= i < |srch| && i != j ==> srch[i] in r;
    forall x | x in s && x !in r
      ensures x.next.search == null && x.prev.search == null
    {
      if x != it {
        assert x !in srch;
        assert n0[x].search == null && p0[x].search == null;
        assert After(srch, j) == null || After(srch, j) in srch;
        assert Ahead(srch, j) == null || Ahead(srch, j) in srch;
      }
    }
  }

  /** Since the snapshot, `it` was put into list `iter` between items k-1 and k of `s`. */
  ghost predicate Spliced(iter: Iter, it: PlayItem, s: seq<PlayItem>, k: nat, n0: Links, p0: Links)
    requires k <= |s|
    reads s`next, s`prev, it`next, it`prev
  {
    && (forall x :: x in s ==> x in n0 && x in p0)
    && it.next.At(iter) == (if k < |s| then s[k] else null)
    && it.prev.At(iter) == (if 0 < k then s[k - 1] else null)
    && (forall x {:trigger x.next} {:trigger n0[x]} :: x in s ==>
          x.next == if 0 < k && x == s[k - 1] then n0[x].Set(iter, it) else n0[x])
    && (forall x {:trigger x.prev} {:trigger p0[x]} :: x in s ==>
          x.prev == if k < |s| && x == s[k] then p0[x].Set(iter, it) else p0[x])
  }

  lemma LinkedInserted(iter: Iter, it: PlayItem, s: seq<PlayItem>, k: nat,
                       head: PlayItem?, tail: PlayItem?, n0: Links, p0: Links)
    requires k <= |s| && it !in s
    requires WasLinked(iter, s, head, tail, n0, p0) && Spliced(iter, it, s, k, n0, p0)
    ensures Linked(iter, InsertAt(s, k, it), if k == 0 then it else head, if k == |s| then it else tail)
  {
    var r := InsertAt(s, k, it);
    forall i | 0 <= i < |r|
      ensures r[i].next.At(iter) == if i < |r| - 1 then r[i + 1] else null
      ensures r[i].prev.At(iter) == if i > 0 then r[i - 1] else null
    {
      if i != k {
        var j := if i < k then i else i - 1;
        assert r[i] == s[j] && s[j] in s;
        assert n0[s[j]].At(iter) == if j < |s| - 1 then s[j + 1] else null;
        assert p0[s[j]].At(iter) == if j > 0 then s[j - 1] else null;
        assert 0 < k && s[j] == s[k - 1] ==> j == k - 1;
        assert k < |s| && s[j] == s[k] ==> j == k;
      }
    }
  }

  lemma SpliceKeepsLinked(it: PlayItem, srch: seq<PlayItem>, all: seq<PlayItem>, k: nat,
                          head: PlayItem?, tail: PlayItem?, n0: Links, p0: Links)
    requires k <= |all| && it !in all && (forall x :: x in srch ==> x in all)
    requires WasLinked(Search, srch, head, tail, n0, p0) && Spliced(Main, it, all, k, n0, p0)
    ensures Linked(Search, srch, head, tail)
  {
    forall i | 0 <= i < |srch|
      ensures srch[i].next.At(Search) == n0[srch[i]].At(Search) && srch[i].prev.At(Search) == p0[srch[i]].At(Search)
    {
      assert srch[i] in all;
    }
    hide Spliced;
  }

  /** Since the snapshot, search links are as they were. */
  ghost predicate SameSearch(s: seq<PlayItem>, n0: Links, p0: Links)
    reads s`next, s`prev
  {
    forall x {:trigger x.next} {:trigger x.prev} :: x in s ==>
      x in n0 && x in p0 && x.next.search == n0[x].search && x.prev.search == p0[x].search
  }

  lemma SpliceLeavesSearch(it: PlayItem, s: seq<PlayItem>, k: nat, n0: Links, p0: Links)
    requires k <= |s| && Spliced(Main, it, s, k, n0, p0)
    ensures SameSearch(s, n0, p0)
  {
  }

  lemma SpliceNoStray(it: PlayItem, srch: seq<PlayItem>, all: seq<PlayItem>, k: nat, n0: Links, p0: Links)
    requires k <= |all| && it !in all && it.next.search == null && it.prev.search == null
    requires NoStray(srch, all, n0, p0) && Spliced(Main, it, all, k, n0, p0)
    ensures var r := InsertAt(all, k, it);
      && (forall x :: x in all ==> x in r)
      && (forall x :: x in r && x !in srch ==> x.next.search == null && x.prev.search == null)
  {
    var r := InsertAt(all, k, it);
    assert forall x :: x in r <==> x in all || x == it;
    hide InsertAt;
  }

  lemma InsertionPoint(s: seq<PlayItem>, k: nat, head: PlayItem?, tail: PlayItem?)
    requires Linked(Main, s, head, tail) && k <= |s|
    ensures var after, behind := ItemBefore(s, k), ItemAt(s, k);
      && behind == (if after == null then head else after.next.main)
      && (after != null ==> after in s) && (behind != null ==> behind in s && behind != after)
      && (k == |s| <==> if after == null then behind == null else after == tail)
  {
  }

  ghost function ItemAt(s: seq<PlayItem>, p: nat): PlayItem?
    requires p <= |s|
  {
    if p < |s| then s[p] else null
  }

  ghost function ItemBefore(s: seq<PlayItem>, q: nat): PlayItem?
    requires q <= |s|
  {
    if 0 < q then s[q - 1] else null
  }

  lemma LinkedLeads(iter: Iter, s: seq<PlayItem>, all: set<PlayItem>, k: nat, head: PlayItem?, tail: PlayItem?)
    requires Linked(iter, s, head, tail) && k < |s| && Among(s, all)
    ensures Leads(iter, s[k], all) && s[k] in all
    ensures s[k].prev.At(iter) == if 0 < k then s[k - 1] else null
    ensures s[k].prev.At(iter) != null || head == s[k]
  {
    AmongIn(s, all);
  }

  lemma LinkedSnapshot(iter: Iter, s: seq<PlayItem>, all: set<PlayItem>, head: PlayItem?, tail: PlayItem?)
    requires Linked(iter, s, head, tail) && Among(s, all)
    ensures WasLinked(iter, s, head, tail, Nexts(all), Prevs(all))
  {
    AmongIn(s, all);
    assert forall i :: 0 <= i < |s| ==> s[i] in s;
  }

  /** Since the snapshot, the main links of items outside `s` are as they were. */
  ghost predicate SameMain(all: set<PlayItem>, s: seq<PlayItem>, n0: Links, p0: Links)
    reads all`next, all`prev
  {
    forall x {:trigger x.next} {:trigger x.prev} :: x in all && x !in s ==>
      && x in n0 && x in p0 && x.next.main == n0[x].main && x.prev.main == p0[x].main
  }

  lemma OthersSame(it: PlayItem, s: seq<PlayItem>, all: set<PlayItem>, h: PlayItem?, t: PlayItem?, n0: Links, p0: Links)
    requires Past(Main, it, all, n0, p0) && WasLinked(Main, s, h, t, n0, p0) && it in s
    ensures SameMain(all, s, n0, p0)
  {
    var k :| 0 <= k < |s| && s[k] == it;
    assert n0[s[k]].main == if k < |s| - 1 then s[k + 1] else null;
    assert p0[s[k]].main == if 0 < k then s[k - 1] else null;
  }

  /** The search links there were, and the ends of the search list, led to items of `all`. */
  ghost predicate WasInside(s: seq<PlayItem>, all: set<PlayItem>, h: PlayItem?, t: PlayItem?, n0: Links, p0: Links) {
    && (h == null || h in all) && (t == null || t in all)
    && forall x {:trigger n0[x]} {:trigger p0[x]} :: x in s ==>
        && x in n0 && x in p0 && (n0[x].search == null || n0[x].search in all)
        && (p0[x].search == null || p0[x].search in all)
  }

  /** Only its neighbours, and an end of the list it is at, refer to the item. */
  ghost predicate WasFree(it: PlayItem, s: seq<PlayItem>, h: PlayItem?, t: PlayItem?, n0: Links, p0: Links) {
    && it in n0 && it in p0 && (h == it ==> p0[it].search == null) && (t == it ==> n0[it].search == null)
    && forall x {:trigger n0[x]} {:trigger p0[x]} :: x in s ==>
        && x in n0 && x in p0 && (n0[x].search == it ==> p0[it].search == x)
          && (p0[x].search == it ==> n0[it].search == x)
  }

  /** The ends and the counts of both lists. */
  datatype Ends = Ends(head: Pair<PlayItem?>, tail: Pair<PlayItem?>, count: Pair<int>)

  /** Links, ends and counts at some time. */
  datatype Shot = Shot(next: Links, prev: Links, ends: Ends)

  /** What the removal of `it` makes of them in one list, whatever they were. */
  ghost predicate EndsAre(iter: Iter, it: PlayItem, n0: Links, p0: Links, was: Ends, now: Ends) {
    && it in n0 && it in p0
    && now.head.At(iter) == (if p0[it].At(iter) == null then n0[it].At(iter) else was.head.At(iter))
    && now.tail.At(iter) == (if n0[it].At(iter) == null then p0[it].At(iter) else was.tail.At(iter))
    && now.count.At(iter) == was.count.At(iter) - (if Present(iter, it, n0, p0, was) then 1 else 0)
  }

  /** Whether the item counts as a member of the list. */
  ghost predicate Present(iter: Iter, it: PlayItem, n0: Links, p0: Links, was: Ends)
    requires it in n0 && it in p0
  {
    p0[it].At(iter) != null || n0[it].At(iter) != null || was.head.At(iter) == it || was.tail.At(iter) == it
  }

  /** One pass leaves the other list alone. */
  ghost predicate OnePass(iter: Iter, it: PlayItem, n0: Links, p0: Links, was: Ends, now: Ends) {
    && EndsAre(iter, it, n0, p0, was, now) && now.head == was.head.Set(iter, now.head.At(iter))
    && now.tail == was.tail.Set(iter, now.tail.At(iter)) && now.count == was.count.Set(iter, now.count.At(iter))
  }

  lemma BothEnds(it: PlayItem, all: set<PlayItem>, n0: Links, p0: Links, n1: Links, p1: Links, e0: Ends, e1: Ends,
                 e2: Ends)
    requires WasPast(it, all, n0, p0, n1, p1) && OnePass(Main, it, n0, p0, e0, e1)
      && OnePass(Search, it, n1, p1, e1, e2)
    ensures EndsAre(Main, it, n0, p0, e0, e2) && EndsAre(Search, it, n0, p0, e0, e2)
  {
  }

  class Playlist {
    var head: Pair<PlayItem?>
    var tail: Pair<PlayItem?>
    var count: Pair<int>
    var filesAdding: int
    /** The number of the last search in this playlist. */
    var searchCmpidx: int
    ghost var main: seq<PlayItem>

    /** The main list is well formed. Nothing is said of search links. */
    ghost predicate Valid()
      reads `head, `tail, `count, `main, main`next, main`prev, main`refc
    {
      && Linked(Main, main, head.main, tail.main)
      && count.main == |main|
      && (forall x :: x in main ==> x.refc >= 1)
    }

    /** Search links, and the ends of the search list, lead to items of `all`, if anywhere. */
    ghost predicate Inside(all: set<PlayItem>)
      reads `head, `tail, `main, main`next, main`prev
    {
      && (head.search == null || head.search in all) && (tail.search == null || tail.search in all)
      && forall x :: x in main ==> Leads(Search, x, all)
    }

    /** A well-formed list of items of `all` whose search links lead to items of `all`. */
    ghost predicate Within(all: set<PlayItem>)
      reads `head, `tail, `count, `main, main`next, main`prev, main`refc
    {
      Valid() && Inside(all) && Among(main, all)
    }

    /** Only the search neighbours of an item refer to it, and the ends of the search list if it has no
        neighbour there. */
    ghost predicate Free(it: PlayItem)
      reads `head, `tail, `main, main`next, main`prev, it`next, it`prev
    {
      && (head.search == it ==> it.prev.search == null) && (tail.search == it ==> it.next.search == null)
      && (forall x {:trigger x.next} :: x in main && x.next.search == it ==> it.prev.search == x)
      && (forall x {:trigger x.prev} :: x in main && x.prev.search == it ==> it.next.search == x)
    }

    /** `s` is the well-formed search result list over the items `all`: it selects from them, and
        none of the others has search links. */
    ghost predicate SearchIs(s: seq<PlayItem>, all: seq<PlayItem>)
      reads this`head, this`tail, this`count, s`next, s`prev, all`next, all`prev
    {
      && (forall x :: x in s ==> x in all)
      && (forall x :: x in all && x !in s ==> x.next.search == null && x.prev.search == null)
      && Linked(Search, s, head.search, tail.search) && count.search == |s|
    }

    constructor ()
      ensures Valid() && main == [] && SearchIs([], []) && searchCmpidx == 0
    {
      head, tail, count, filesAdding, main := Pair(null, null), Pair(null, null), Pair(0, 0), 0, [];
      searchCmpidx := 0;
    }

    /** The pointer updates of the loop body of plt_remove_item, for one of the two lists. */
    method Relink(iter: Iter, it: PlayItem, ghost all: set<PlayItem>)
      requires it in all && Leads(iter, it, all)
      modifies `head, `tail, all`next, all`prev
      ensures it.next == old(it.next).Set(iter, null) && it.prev == old(it.prev).Set(iter, null)
      ensures forall x {:trigger x.next} :: x in all && x != it ==>
        (x.next == if x == old(it.prev).At(iter) then old(x.next).Set(iter, old(it.next).At(iter)) else old(x.next))
      ensures forall x {:trigger x.prev} :: x in all && x != it ==>
        (x.prev == if x == old(it.next).At(iter) then old(x.prev).Set(iter, old(it.prev).At(iter)) else old(x.prev))
      ensures head == if old(it.prev).At(iter) == null then old(head).Set(iter, old(it.next).At(iter)) else old(head)
      ensures tail == if old(it.next).At(iter) == null then old(tail).Set(iter, old(it.prev).At(iter)) else old(tail)
    {
      var next := it.next.At(iter);
      var prev := it.prev.At(iter);
      if prev != null {
        prev.next := prev.next.Set(iter, next);
      } else {
        head := head.Set(iter, next);
      }
      if next != null {
        next.prev := next.prev.Set(iter, prev);
      } else {
        tail := tail.Set(iter, prev);
      }
      it.next := it.next.Set(iter, null);
      it.prev := it.prev.Set(iter, null);
    }

    ghost function Now(): Ends
      reads `head, `tail, `count
    {
      Ends(head, tail, count)
    }

    ghost function Taken(all: set<PlayItem>): (shot: Shot)
      reads `head, `tail, `count, all`next, all`prev
      ensures shot.next.Keys == shot.prev.Keys == all
    {
      Shot(Nexts(all), Prevs(all), Now())
    }

    /** In list `iter` the neighbours of `it` were joined, whatever the links, the ends and the count were. */
    ghost predicate CutOut(iter: Iter, it: PlayItem, all: set<PlayItem>, was: Shot)
      reads `head, `tail, `count, all`next, all`prev
    {
      Past(iter, it, all, was.next, was.prev) && EndsAre(iter, it, was.next, was.prev, was.ends, Now())
    }

    /** One pass of the loop of plt_remove_item. */
    method Unlink(iter: Iter, it: PlayItem, ghost all: set<PlayItem>)
      requires it in all && Leads(iter, it, all)
      modifies `head, `tail, `count, all`next, all`prev
      ensures Bypassed(iter, it, all, old(Nexts(all)), old(Prevs(all)))
      ensures OnePass(iter, it, old(Nexts(all)), old(Prevs(all)), old(Now()), Now())
    {
      hide Leads;
      if it.prev.At(iter) != null || it.next.At(iter) != null || head.At(iter) == it || tail.At(iter) == it {
        count := count.Set(iter, count.At(iter) - 1);
      }
      Relink(iter, it, all);
    }

    /** The loop of plt_remove_item over both lists. */
    method Detach(it: PlayItem, ghost all: set<PlayItem>)
      requires it in all && Leads(Main, it, all) && Leads(Search, it, all)
      modifies `head, `tail, `count, all`next, all`prev
      ensures it.next == Pair(null, null) && it.prev == Pair(null, null)
      ensures CutOut(Main, it, all, old(Taken(all))) && CutOut(Search, it, all, old(Taken(all)))
    {
      ghost var n0, p0, e0 := Nexts(all), Prevs(all), Now();
      assert it in n0 && it in p0 && n0[it] == it.next && p0[it] == it.prev;
      hide Bypassed, Past, WasPast, OnePass, EndsAre, Nexts, Prevs, Now;
      Unlink(Main, it, all);
      ghost var n1, p1, e1 := Nexts(all), Prevs(all), Now();
      FirstPass(it, all, n0, p0);
      Unlink(Search, it, all);
      SecondPass(it, all, n0, p0, n1, p1);
      BothEnds(it, all, n0, p0, n1, p1, e0, e1, Now());
    }

    ghost predicate SearchWas(srch: seq<PlayItem>, all: seq<PlayItem>, h: PlayItem?, t: PlayItem?, n0: Links,
                              p0: Links) {
      && (forall x :: x in srch ==> x in all)
      && WasLinked(Search, srch, h, t, n0, p0) && NoStray(srch, all, n0, p0)
    }

    lemma SearchSnapshot(srch: seq<PlayItem>, s: seq<PlayItem>, all: set<PlayItem>)
      requires SearchIs(srch, s) && Among(s, all)
      ensures SearchWas(srch, s, head.search, tail.search, Nexts(all), Prevs(all)) && count.search == |srch|
    {
      AmongIn(s, all);
      assert forall i :: 0 <= i < |srch| ==> srch[i] in srch;
    }

    /** What the second pass does to the search list `srch`: a member is cut out; a stranger
        wipes out both ends of a non-empty list and leaves its count. */
    ghost predicate SearchCut(it: PlayItem, srch: seq<PlayItem>, rest: seq<PlayItem>)
      reads this`head, this`tail, this`count, srch`next, srch`prev, rest`next, rest`prev
    {
      if it in srch then exists j :: 0 <= j < |srch| && srch[j] == it && SearchIs(RemoveAt(srch, j), rest)
      else
        && head.search == null && tail.search == null && count.search == |srch|
        && (srch == [] ==> SearchIs([], rest))
    }

    /** So removing an item leaves a well-formed search list if and only if the item was in it or it
        was empty. */
    lemma SearchSurvives(it: PlayItem, srch: seq<PlayItem>, rest: seq<PlayItem>)
      requires SearchCut(it, srch, rest)
      ensures (exists s: seq<PlayItem> :: SearchIs(s, rest)) <==> it in srch || srch == []
    {
      if exists s: seq<PlayItem> :: SearchIs(s, rest) {
        var s: seq<PlayItem> :| SearchIs(s, rest);
        assert it !in srch ==> s == [] && |srch| == |s|;
      }
    }

    /** In a list with a well-formed search list every track can be removed without leaving a link to it. */
    lemma ListedFree(srch: seq<PlayItem>)
      requires SearchIs(srch, main)
      ensures Inside(Items(main)) && forall x :: x in main ==> Free(x)
    {
      hide Leads, Items, LinksMirrored, Inside, Free;
      forall x | x in main
        ensures Leads(Search, x, Items(main)) && LinksMirrored(x)
        ensures (head.search == x ==> x.prev.search == null) && (tail.search == x ==> x.next.search == null)
      {
        ListedMirrored(srch, x);
      }
      assert srch != [] ==> srch[0] in srch && srch[|srch| - 1] in srch;
      hide Linked;
      MirroredFree();
    }

    lemma ListedMirrored(srch: seq<PlayItem>, x: PlayItem)
      requires SearchIs(srch, main) && x in main
      ensures Leads(Search, x, Items(main)) && LinksMirrored(x)
      ensures (head.search == x ==> x.prev.search == null) && (tail.search == x ==> x.next.search == null)
    {
      if x in srch {
        var i :| 0 <= i < |srch| && srch[i] == x;
        assert srch[i].next.search == (if i < |srch| - 1 then srch[i + 1] else null);
        assert srch[i].prev.search == (if 0 < i then srch[i - 1] else null);
        assert i < |srch| - 1 ==> srch[i + 1] in srch && srch[i + 1].prev.search == srch[i];
        assert 0 < i ==> srch[i - 1] in srch && srch[i - 1].next.search == srch[i];
        assert i == 0 || srch[0] != srch[i];
        assert i == |srch| - 1 || srch[|srch| - 1] != srch[i];
      } else {
        assert srch != [] ==> srch[0] in srch && srch[|srch| - 1] in srch;
      }
      hide Linked, Distinct;
    }

    lemma MirroredFree()
      requires forall x :: x in main ==> Leads(Search, x, Items(main)) && LinksMirrored(x)
      requires forall x :: x in main ==>
        (head.search == x ==> x.prev.search == null) && (tail.search == x ==> x.next.search == null)
      requires (head.search == null || head.search in main) && (tail.search == null || tail.search in main)
      ensures Inside(Items(main)) && forall x :: x in main ==> Free(x)
    {
      assert forall x :: x in main ==> LinksMirrored(x);
    }

    ghost predicate LinksMirrored(x: PlayItem)
      reads x`next, x`prev, `main, main`next, main`prev
    {
      && (x.next.search != null ==> x.next.search in main && x.next.search.prev.search == x)
      && (x.prev.search != null ==> x.prev.search in main && x.prev.search.next.search == x)
    }

    lemma SearchOutcome(it: PlayItem, srch: seq<PlayItem>, s: seq<PlayItem>, all: set<PlayItem>, rest: seq<PlayItem>,
                        e: Ends, n0: Links, p0: Links)
      requires SearchWas(srch, s, e.head.search, e.tail.search, n0, p0) && Past(Search, it, all, n0, p0)
        && e.count.search == |srch|
      requires EndsAre(Search, it, n0, p0, e, Now()) && it in s && Among(s, all) && AllBut(rest, s, it)
      ensures SearchCut(it, srch, rest)
    {
      hide Past, WasLinked, NoStray, Linked;
      AmongIn(s, all);
      SearchSelects(srch, s, e.head.search, e.tail.search, n0, p0);
      if it in srch {
        var j := SearchAfter(it, srch, s, all, e.head.search, e.tail.search, n0, p0);
        var r := RemoveAt(srch, j);
        DistinctPart(srch, j, e.head.search, e.tail.search, n0, p0);
        assert SearchIs(r, rest);
      } else {
        NotSelected(it, srch, s, all, rest, e, n0, p0);
      }
    }

    lemma SearchSelects(srch: seq<PlayItem>, s: seq<PlayItem>, h: PlayItem?, t: PlayItem?, n0: Links, p0: Links)
      requires SearchWas(srch, s, h, t, n0, p0)
      ensures forall x :: x in srch ==> x in s
      ensures h == (if srch == [] then null else srch[0]) && t == (if srch == [] then null else srch[|srch| - 1])
    {
    }

    lemma DistinctPart(srch: seq<PlayItem>, j: nat, h: PlayItem?, t: PlayItem?, n0: Links, p0: Links)
      requires WasLinked(Search, srch, h, t, n0, p0) && j < |srch|
      ensures forall x :: x in RemoveAt(srch, j) ==> x in srch && x != srch[j]
    {
    }

    /** A stranger has no search links, so both ends are taken for its place. */
    lemma NotSelected(it: PlayItem, srch: seq<PlayItem>, s: seq<PlayItem>, all: set<PlayItem>, rest: seq<PlayItem>,
                      e: Ends, n0: Links, p0: Links)
      requires SearchWas(srch, s, e.head.search, e.tail.search, n0, p0) && Past(Search, it, all, n0, p0)
        && e.count.search == |srch|
      requires EndsAre(Search, it, n0, p0, e, Now()) && it in s && it !in srch && Among(s, all) && AllBut(rest, s, it)
      ensures SearchCut(it, srch, rest)
    {
      AmongIn(s, all);
      assert e.head.search != it && e.tail.search != it;
    }

    /** What is known before a removal. */
    ghost predicate Before(it: PlayItem, k: nat, s: seq<PlayItem>, srch: seq<PlayItem>, all: set<PlayItem>,
                           searched: bool, inside: bool, alone: bool, free: bool, was: Shot)
    {
      var e, n0, p0 := was.ends, was.next, was.prev;
      && k < |s| && s[k] == it && Among(s, all)
      && WasLinked(Main, s, e.head.main, e.tail.main, n0, p0) && e.count.main == |s|
      && (searched ==> SearchWas(srch, s, e.head.search, e.tail.search, n0, p0) && e.count.search == |srch|)
      && (inside ==> WasInside(s, all, e.head.search, e.tail.search, n0, p0))
      && (alone ==> WasInside(s, Items(s), e.head.search, e.tail.search, n0, p0))
      && (free <==> WasFree(it, s, e.head.search, e.tail.search, n0, p0))
    }

    lemma BeforeRemoval(it: PlayItem, k: nat, srch: seq<PlayItem>, all: set<PlayItem>)
      requires Valid() && k < |main| && main[k] == it && Among(main, all)
      ensures it in all && Leads(Main, it, all)
      ensures Before(it, k, main, srch, all, SearchIs(srch, main), Inside(all), Inside(Items(main)), Free(it),
        Taken(all))
      ensures Owned(RemoveAt(main, k), it)
    {
      OwnedRest(it, k);
      assert it in main;
      hide Owned, Linked, WasLinked, SearchIs, SearchWas, Inside, WasInside, Free, WasFree, Nexts, Prevs, RemoveAt;
      LinkedLeads(Main, main, all, k, head.main, tail.main);
      LinkedSnapshot(Main, main, all, head.main, tail.main);
      LinksWere(it, all);
      if SearchIs(srch, main) {
        SearchSnapshot(srch, main, all);
      }
    }

    lemma OwnedRest(it: PlayItem, k: nat)
      requires Valid() && k < |main| && main[k] == it
      ensures Owned(RemoveAt(main, k), it)
    {
    }

    lemma LinksWere(it: PlayItem, all: set<PlayItem>)
      requires it in main && Among(main, all)
      ensures Inside(all) ==> WasInside(main, all, head.search, tail.search, Nexts(all), Prevs(all))
      ensures Inside(Items(main)) ==> WasInside(main, Items(main), head.search, tail.search, Nexts(all), Prevs(all))
      ensures Free(it) <==> WasFree(it, main, head.search, tail.search, Nexts(all), Prevs(all))
    {
      AmongIn(main, all);
      assert forall x :: x in main ==> Nexts(all)[x] == x.next && Prevs(all)[x] == x.prev;
    }

    lemma InsideAfter(it: PlayItem, s: seq<PlayItem>, all: set<PlayItem>,
                      e: Ends, n0: Links, p0: Links)
      requires Past(Search, it, all, n0, p0) && EndsAre(Search, it, n0, p0, e, Now())
      requires it in s && Among(s, all) && AllBut(main, s, it)
      ensures WasInside(s, all, e.head.search, e.tail.search, n0, p0) ==> Inside(all)
      ensures WasInside(s, Items(s), e.head.search, e.tail.search, n0, p0) ==>
        (Inside(Items(main)) <==> WasFree(it, s, e.head.search, e.tail.search, n0, p0))
    {
      AmongIn(s, all);
    }

    /** What is known after it. */
    lemma AfterRemoval(it: PlayItem, k: nat, s: seq<PlayItem>, srch: seq<PlayItem>, all: set<PlayItem>,
                       searched: bool, inside: bool, alone: bool, free: bool, was: Shot)
      requires Before(it, k, s, srch, all, searched, inside, alone, free, was) && main == RemoveAt(s, k)
      requires CutOut(Main, it, all, was) && CutOut(Search, it, all, was)
      requires Owned(main, it)
      ensures Valid() && it !in main && SameMain(all, s, was.next, was.prev)
      ensures inside ==> Inside(all)
      ensures alone ==> (Inside(Items(main)) <==> free)
      ensures searched ==> SearchCut(it, srch, main)
    {
      hide RemoveAt, Among, AllBut, Distinct, Past, EndsAre, Linked, WasLinked, SearchWas, SearchCut, SameMain, Inside,
           WasInside, WasFree, Items, Valid;
      var e, n0, p0 := was.ends, was.next, was.prev;
      WasAt(Main, s, e.head.main, e.tail.main, n0, p0, k);
      WasDistinct(Main, s, e.head.main, e.tail.main, n0, p0);
      RestIs(s, k);
      MainCount(it, k, s, e, n0, p0);
      LinkedAfter(Main, it, s, all, k, e.head.main, e.tail.main, n0, p0);
      OthersSame(it, s, all, e.head.main, e.tail.main, n0, p0);
      InsideAfter(it, s, all, e, n0, p0);
      if searched {
        SearchOutcome(it, srch, s, all, main, e, n0, p0);
      }
      ValidNow(it, e, n0, p0);
    }

    lemma MainCount(it: PlayItem, k: nat, s: seq<PlayItem>, e: Ends, n0: Links, p0: Links)
      requires k < |s| && s[k] == it && main == RemoveAt(s, k) && e.count.main == |s|
      requires WasLinked(Main, s, e.head.main, e.tail.main, n0, p0) && EndsAre(Main, it, n0, p0, e, Now())
      ensures count.main == |main|
    {
      assert p0[s[k]].main == if 0 < k then s[k - 1] else null;
    }

    lemma ValidNow(it: PlayItem, e: Ends, n0: Links, p0: Links)
      requires EndsAre(Main, it, n0, p0, e, Now()) && count.main == |main|
      requires Linked(Main, main, if p0[it].main == null then n0[it].main else e.head.main,
                      if n0[it].main == null then p0[it].main else e.tail.main)
      requires Owned(main, it)
      ensures Valid() && it !in main
    {
    }

    method Leave(it: PlayItem, ghost k: nat, ghost all: set<PlayItem>)
      requires k < |main| && Owned(RemoveAt(main, k), it) && it in all && Leads(Main, it, all) && Leads(Search, it, all)
      modifies `head, `tail, `count, `main, all`next, all`prev, it`refc
      ensures it.next == Pair(null, null) && it.prev == Pair(null, null) && it.refc == old(it.refc) - 1
      ensures main == RemoveAt(old(main), k) && Owned(main, it)
      ensures CutOut(Main, it, all, old(Taken(all))) && CutOut(Search, it, all, old(Taken(all)))
    {
      hide Leads, CutOut, Taken;
      ghost var rest := RemoveAt(main, k);
      assert forall i :: 0 <= i < |rest| ==> rest[i] != it;
      Detach(it, all);
      main := rest;
      it.refc := it.refc - 1;
    }

    /** plt_remove_item: leaves both lists and drops the playlist's reference; `all` are the items its search
        links may lead to. The search list `srch` survives if it held the item; if not, its ends are lost
        while its count stays. Nothing refers to the item afterwards if and only if it was free. */
    method RemoveItem(it: PlayItem, ghost k: nat, ghost srch: seq<PlayItem>, ghost all: set<PlayItem>)
      requires Valid() && k < |main| && main[k] == it && Leads(Search, it, all) && Among(main, all)
      modifies `head, `tail, `count, `main, all`next, all`prev, it`refc
      ensures main == RemoveAt(old(main), k) && it !in main && Valid()
      ensures it.next == Pair(null, null) && it.prev == Pair(null, null) && it.refc == old(it.refc) - 1
      ensures CutOut(Search, it, all, old(Taken(all)))
      ensures SameMain(all, old(main), old(Taken(all)).next, old(Taken(all)).prev)
      ensures old(Inside(all)) ==> Inside(all)
      ensures old(Inside(Items(main))) ==> (Inside(Items(main)) <==> old(Free(it)))
      ensures old(SearchIs(srch, main)) ==> SearchCut(it, srch, main)
    {
      ghost var s, was := main, Taken(all);
      ghost var searched, inside, alone, free := SearchIs(srch, main), Inside(all), Inside(Items(main)), Free(it);
      BeforeRemoval(it, k, srch, all);
      hide *;
      Leave(it, k, all);
      AfterRemoval(it, k, s, srch, all, searched, inside, alone, free, was);
    }

    /** The pointer updates of plt_insert_item; `k` is the position after `after`, and `before`
        and `behind` are the items that will surround the new one. */
    method LinkIn(after: PlayItem?, it: PlayItem, ghost s: seq<PlayItem>, ghost behind: PlayItem?)
      requires it !in s && (after != null ==> after in s) && (behind != null ==> behind in s && behind != after)
      requires behind == if after == null then head.main else after.next.main
      requires it.next == Pair(null, null) && it.prev == Pair(null, null)
      modifies `head, `tail, s`next, s`prev, it`next, it`prev
      ensures it.next == Pair(behind, null) && it.prev == Pair(after, null)
      ensures forall x {:trigger x.next} :: x in s ==>
        (x.next == if x == after then old(x.next).(main := it) else old(x.next))
      ensures forall x {:trigger x.prev} :: x in s ==>
        (x.prev == if x == behind then old(x.prev).(main := it) else old(x.prev))
      ensures head == if after == null then old(head).(main := it) else old(head)
      ensures tail == if (after == null && behind == null) || (after != null && after == old(tail).main)
                      then old(tail).(main := it) else old(tail)
    {
      if after == null {
        it.next := it.next.(main := head.main);
        it.prev := it.prev.(main := null);
        if head.main != null {
          head.main.prev := head.main.prev.(main := it);
        } else {
          tail := tail.(main := it);
        }
        head := head.(main := it);
      } else {
        it.prev := it.prev.(main := after);
        it.next := it.next.(main := after.next.main);
        if after.next.main != null {
          after.next.main.prev := after.next.main.prev.(main := it);
        }
        after.next := after.next.(main := it);
        if after == tail.main {
          tail := tail.(main := it);
        }
      }
    }

    lemma Snapshot(srch: seq<PlayItem>)
      requires Linked(Main, main, head.main, tail.main)
      ensures WasLinked(Main, main, head.main, tail.main, Nexts(Items(main)), Prevs(Items(main)))
      ensures SearchIs(srch, main) ==>
        SearchWas(srch, main, head.search, tail.search, Nexts(Items(main)), Prevs(Items(main)))
          && count.search == |srch|
    {
    }

    /** Linking an item into the main list leaves the search list alone. */
    lemma SpliceKeepsSearch(it: PlayItem, srch: seq<PlayItem>, all: seq<PlayItem>, k: nat, n0: Links, p0: Links)
      requires k <= |all| && it !in all && it.next.search == null && it.prev.search == null
      requires SearchWas(srch, all, head.search, tail.search, n0, p0) && Spliced(Main, it, all, k, n0, p0)
      requires count.search == |srch|
      ensures SearchIs(srch, InsertAt(all, k, it))
    {
      SpliceKeepsLinked(it, srch, all, k, head.search, tail.search, n0, p0);
      SpliceNoStray(it, srch, all, k, n0, p0);
      hide Linked, WasLinked, NoStray, Spliced;
    }

    /** plt_insert_item: the item joins the main list after `after` (first, if that is null). Search links
        stay as they are. */
    method InsertItem(after: PlayItem?, it: PlayItem, ghost k: nat, ghost srch: seq<PlayItem>, ghost all: set<PlayItem>)
      requires Valid() && it !in main && k <= |main|
      requires after == ItemBefore(main, k)
      requires it.next == Pair(null, null) && it.prev == Pair(null, null) && it.refc >= 1
      modifies `head, `tail, `count, `main, main`next, main`prev, it`next, it`prev, it`refc, it`added
      ensures Valid() && main == InsertAt(old(main), k, it)
      ensures it.refc == old(it.refc) + 1 && it.added == filesAdding
      ensures it.next.search == null && it.prev.search == null
      ensures SameSearch(old(main), old(Nexts(Items(main))), old(Prevs(Items(main))))
      ensures head.search == old(head).search && tail.search == old(tail).search && count.search == old(count).search
      ensures old(Inside(all)) ==> Inside(all)
      ensures old(SearchIs(srch, main)) ==> SearchIs(srch, main)
    {
      ghost var s, n0, p0, h, t := main, Nexts(Items(main)), Prevs(Items(main)), head.search, tail.search;
      InsideBefore(all);
      hide *;
      InsertHeld(after, it, k, srch);
      StillInside(it, s, k, all, h, t, n0, p0);
    }

    lemma InsideBefore(all: set<PlayItem>)
      ensures Inside(all) ==>
        WasInside(main, all, head.search, tail.search, Nexts(Items(main)), Prevs(Items(main)))
    {
    }

    method InsertHeld(after: PlayItem?, it: PlayItem, ghost k: nat, ghost srch: seq<PlayItem>)
      requires Valid() && it !in main && k <= |main|
      requires after == ItemBefore(main, k)
      requires it.next == Pair(null, null) && it.prev == Pair(null, null) && it.refc >= 1
      modifies `head, `tail, `count, `main, main`next, main`prev, it`next, it`prev, it`refc, it`added
      ensures Valid() && main == InsertAt(old(main), k, it)
      ensures it.refc == old(it.refc) + 1 && it.added == filesAdding
      ensures it.next.search == null && it.prev.search == null
      ensures SameSearch(old(main), old(Nexts(Items(main))), old(Prevs(Items(main))))
      ensures head.search == old(head).search && tail.search == old(tail).search && count.search == old(count).search
      ensures old(SearchIs(srch, main)) ==> SearchIs(srch, main)
    {
      BeforeInsertion(it, k);
      hide *;
      Join(it, InsertAt(main, k, it), srch);
      InsertLinks(after, it, k, srch, InsertAt(main, k, it));
      ValidAgain();
    }

    lemma BeforeInsertion(it: PlayItem, k: nat)
      requires Valid() && k <= |main| && it.refc >= 1
      ensures Linked(Main, main, head.main, tail.main) && count.main == |main| && Held(InsertAt(main, k, it))
      ensures ItemBefore(main, k) == if k == 0 then null else main[k - 1]
    {
    }

    lemma ValidAgain()
      requires Linked(Main, main, head.main, tail.main) && count.main == |main| && Held(main)
      ensures Valid()
    {
    }

    lemma StillInside(it: PlayItem, s: seq<PlayItem>, k: nat, all: set<PlayItem>, h: PlayItem?, t: PlayItem?,
                      n0: Links, p0: Links)
      requires SameSearch(s, n0, p0) && it.next.search == null && it.prev.search == null
      requires k <= |s| && main == InsertAt(s, k, it) && head.search == h && tail.search == t
      ensures WasInside(s, all, h, t, n0, p0) ==> Inside(all)
    {
      assert forall x :: x in main ==> x in s || x == it;
      hide InsertAt;
    }

    method Join(it: PlayItem, ghost s: seq<PlayItem>, ghost srch: seq<PlayItem>)
      requires Held(s) && Linked(Main, main, head.main, tail.main)
      modifies it`refc, it`added
      ensures it.refc == old(it.refc) + 1 && it.added == filesAdding && Held(s)
      ensures Linked(Main, main, head.main, tail.main) && SearchIs(srch, main) == old(SearchIs(srch, main))
      ensures Nexts(Items(main)) == old(Nexts(Items(main))) && Prevs(Items(main)) == old(Prevs(Items(main)))
    {
      hide Linked, SearchIs, Items;
      it.refc := it.refc + 1;
      it.added := filesAdding;
    }

    method SpliceIn(after: PlayItem?, it: PlayItem, ghost k: nat)
      requires Linked(Main, main, head.main, tail.main) && it !in main && k <= |main|
      requires after == if k == 0 then null else main[k - 1]
      requires it.next == Pair(null, null) && it.prev == Pair(null, null)
      modifies `head, `tail, main`next, main`prev, it`next, it`prev
      ensures Spliced(Main, it, main, k, old(Nexts(Items(main))), old(Prevs(Items(main))))
      ensures it.next.search == null && it.prev.search == null
      ensures head == if k == 0 then old(head).(main := it) else old(head)
      ensures tail == if k == |main| then old(tail).(main := it) else old(tail)
    {
      hide Linked, Distinct;
      InsertionPoint(main, k, head.main, tail.main);
      LinkIn(after, it, main, ItemAt(main, k));
    }

    method InsertLinks(after: PlayItem?, it: PlayItem, ghost k: nat, ghost srch: seq<PlayItem>, ghost r: seq<PlayItem>)
      requires Linked(Main, main, head.main, tail.main) && it !in main && k <= |main|
      requires after == if k == 0 then null else main[k - 1]
      requires it.next == Pair(null, null) && it.prev == Pair(null, null)
      requires r == InsertAt(main, k, it) && Held(r)
      modifies `head, `tail, `count, `main, main`next, main`prev, it`next, it`prev
      ensures main == r && Held(main)
      ensures count == old(count).(main := old(count).main + 1)
      ensures Linked(Main, main, head.main, tail.main)
      ensures it.next.search == null && it.prev.search == null
      ensures SameSearch(old(main), old(Nexts(Items(main))), old(Prevs(Items(main))))
      ensures head.search == old(head).search && tail.search == old(tail).search
      ensures old(SearchIs(srch, main)) ==> SearchIs(srch, main)
    {
      hide *;
      ghost var s, n0, p0, h0, t0 := main, Nexts(Items(main)), Prevs(Items(main)), head.main, tail.main;
      ghost var searched := SearchIs(srch, main);
      Snapshot(srch);
      SpliceIn(after, it, k);
      count := count.(main := count.main + 1);
      if searched {
        SpliceKeepsSearch(it, srch, s, k, n0, p0);
      }
      LinkedInserted(Main, it, s, k, h0, t0, n0, p0);
      SpliceLeavesSearch(it, s, k, n0, p0);
      main := r;
    }
  }

  // ----- plt_move_items -------------------------------------------------------------------

  /** Moves the element at `p` to the insertion point `q` (before element q of `s`). */
  function MoveTo<T>(s: seq<T>, p: nat, q: nat): (r: seq<T>)
    requires p < |s| && q <= |s|
    ensures |r| == |s|
  {
    InsertAt(RemoveAt(s, p), if p < q then q - 1 else q, s[p])
  }

  /** The walk of plt_move_items inside one list: `p` is the item looked at, `q` the insertion
      point, `idx` the counter that is compared with the requested indexes `ix`. */
  function Walk<T>(s: seq<T>, p: nat, q: nat, idx: nat, ix: seq<nat>): (r: seq<T>)
    requires p <= |s| && q <= |s|
    ensures |r| == |s|
    decreases |ix|, |s| - p
  {
    if p == |s| || ix == [] then s
    else if idx != ix[0] then Walk(s, p + 1, q, idx + 1, ix)
    else Walk(MoveTo(s, p, q), if p + 1 < q then p else p + 1, if p < q then q else q + 1, idx + 1, ix[1..])
  }

  /** The elements whose index, counted from `idx`, is requested; and the others. */
  function Picked<T>(s: seq<T>, idx: nat, ix: seq<nat>): seq<T> {
    if s == [] || ix == [] then []
    else if idx == ix[0] then [s[0]] + Picked(s[1..], idx + 1, ix[1..])
    else Picked(s[1..], idx + 1, ix)
  }

  function Kept<T>(s: seq<T>, idx: nat, ix: seq<nat>): seq<T> {
    if s == [] || ix == [] then s
    else if idx == ix[0] then Kept(s[1..], idx + 1, ix[1..])
    else [s[0]] + Kept(s[1..], idx + 1, ix)
  }

  /** `block` goes into `s` before its element `d`. */
  function InsertBlock<T>(s: seq<T>, d: nat, block: seq<T>): seq<T>
    requires d <= |s|
  {
    s[..d] + block + s[d..]
  }

  ghost predicate Disjoint(a: Playlist, b: Playlist)
    reads a`main, b`main
  {
    a != b ==> forall x :: x in a.main ==> x !in b.main
  }

  ghost function Counts(all: set<PlayItem>): (m: map<PlayItem, int>)
    reads all`refc
    ensures m.Keys == all
  {
    map x | x in all :: x.refc
  }

  ghost function Marks(all: set<PlayItem>): (m: map<PlayItem, int>)
    reads all`added
    ensures m.Keys == all
  {
    map x | x in all :: x.added
  }

  /** pl_item_ref: one more owner; playlists do not notice. */
  method ItemRef(it: PlayItem, ghost a: Playlist, ghost all: set<PlayItem>, ghost b: Playlist)
    requires a.Within(all) && b.Valid()
    modifies it`refc
    ensures it.refc == old(it.refc) + 1 && a.Within(all) && b.Valid()
  {
    hide Linked, Playlist.Inside;
    it.refc := it.refc + 1;
  }

  /** pl_item_unref while another owner is left. */
  method ItemUnref(it: PlayItem, ghost a: Playlist, ghost all: set<PlayItem>, ghost b: Playlist)
    requires a.Within(all) && b.Valid() && it.refc >= 2
    modifies it`refc
    ensures it.refc == old(it.refc) - 1 && a.Within(all) && b.Valid()
  {
    hide Linked, Playlist.Inside;
    it.refc := it.refc - 1;
  }

  lemma MovePoint(pl: Playlist, p: nat, q: nat)
    requires pl.Valid() && p < |pl.main| && q <= |pl.main|
    ensures var s, it, k := pl.main, pl.main[p], if p < q then q - 1 else q;
      && it in s && it.prev.main == ItemBefore(s, p) && it.refc >= 1
      && (ItemBefore(s, q) == it <==> p + 1 == q)
      && k < |s| && ItemBefore(RemoveAt(s, p), k) == (if p + 1 == q then ItemBefore(s, p) else ItemBefore(s, q))
      && MoveTo(s, p, q) == InsertAt(RemoveAt(s, p), k, it)
  {
  }

  method Reinsert(pl: Playlist, it: PlayItem, after: PlayItem?, ghost p: nat, ghost k: nat, ghost all: set<PlayItem>)
    requires pl.Within(all) && p < |pl.main| && pl.main[p] == it && it.refc >= 2
    requires k < |pl.main| && after == ItemBefore(RemoveAt(pl.main, p), k)
    modifies pl`head, pl`tail, pl`count, pl`main, all`next, all`prev, it`refc, it`added
    ensures pl.Within(all) && pl.main == InsertAt(RemoveAt(old(pl.main), p), k, it)
    ensures it.refc == old(it.refc)
  {
    RestAmong(pl, p, k, all);
    hide *;
    RemoveWithin(pl, it, p, all);
    InsertWithin(pl, it, after, k, all);
  }

  method InsertWithin(pl: Playlist, it: PlayItem, after: PlayItem?, ghost k: nat, ghost all: set<PlayItem>)
    requires pl.Within(all) && it !in pl.main && k <= |pl.main| && after == ItemBefore(pl.main, k)
    requires Among(InsertAt(pl.main, k, it), all)
    requires it.next == Pair(null, null) && it.prev == Pair(null, null) && it.refc >= 1
    modifies pl`head, pl`tail, pl`count, pl`main, pl.main`next, pl.main`prev, it`next, it`prev, it`refc, it`added
    ensures pl.Within(all) && pl.main == InsertAt(old(pl.main), k, it)
    ensures it.refc == old(it.refc) + 1 && it.added == pl.filesAdding
  {
    WithinGives(pl, all);
    hide *;
    pl.InsertItem(after, it, k, [], all);
    WithinWhole(pl, all);
  }

  lemma WithinParts(pl: Playlist, p: nat, all: set<PlayItem>)
    requires pl.Within(all) && p < |pl.main|
    ensures pl.Valid() && pl.Inside(all) && Among(pl.main, all) && Leads(Search, pl.main[p], all)
    ensures pl.main[p] in all && pl.main[p] in pl.main
  {
  }

  lemma WithinWhole(pl: Playlist, all: set<PlayItem>)
    requires pl.Valid() && pl.Inside(all) && Among(pl.main, all)
    ensures pl.Within(all)
  {
  }

  lemma RestAmong(pl: Playlist, p: nat, k: nat, all: set<PlayItem>)
    requires pl.Within(all) && p < |pl.main| && k < |pl.main|
    ensures var rest := RemoveAt(pl.main, p);
      Among(rest, all) && Among(InsertAt(rest, k, pl.main[p]), all) && forall x :: x in rest ==> x in all
  {
  }

  /** One hit of the loop of plt_move_items, when both playlists are the same one; `all` are the tracks that
      search links may lead to. */
  method MoveWithin(pl: Playlist, it: PlayItem, dropAfter: PlayItem?, ghost p: nat, ghost q: nat,
                    ghost all: set<PlayItem>)
    requires pl.Within(all) && p < |pl.main| && pl.main[p] == it
    requires q <= |pl.main| && dropAfter == ItemBefore(pl.main, q)
    modifies pl`head, pl`tail, pl`count, pl`main, all`next, all`prev, it`refc, it`added
    ensures pl.Within(all) && pl.main == MoveTo(old(pl.main), p, q)
    ensures it.refc == old(it.refc) && it.added == old(it.added)
  {
    ghost var k := if p < q then q - 1 else q;
    MovePoint(pl, p, q);
    WithinGives(pl, all);
    hide *;
    var after := dropAfter;
    ItemRef(it, pl, all, pl);
    if after == it {
      after := it.prev.main;
    }
    var wasAdded := it.added;
    Reinsert(pl, it, after, p, k, all);
    it.added := wasAdded;
    WithinGives(pl, all);
    ItemUnref(it, pl, all, pl);
  }

  /** One hit of the loop of plt_move_items, when the item changes playlists. */
  method MoveAcross(to: Playlist, from: Playlist, it: PlayItem, dropAfter: PlayItem?, ghost p: nat, ghost q: nat,
                    ghost all: set<PlayItem>)
    requires to != from && from.Within(all) && to.Valid() && Among(to.main, all) && Disjoint(from, to)
    requires p < |from.main| && from.main[p] == it
    requires q <= |to.main| && dropAfter == ItemBefore(to.main, q)
    modifies from, to, all`next, all`prev, it`refc, it`added
    ensures from.Within(all) && to.Valid() && Among(to.main, all) && Disjoint(from, to)
    ensures from.main == RemoveAt(old(from.main), p) && to.main == InsertAt(old(to.main), q, it)
    ensures it.refc == old(it.refc) && it.added == to.filesAdding == old(to.filesAdding)
  {
    AcrossFacts(from, to, it, p, q, all);
    hide Playlist.Within, Playlist.Valid, Among, RemoveAt, InsertAt, ItemBefore, Disjoint;
    ItemRef(it, from, all, to);
    TakeOut(from, to, it, p, all);
    PutIn(to, from, it, dropAfter, q, all);
    ItemUnref(it, from, all, to);
  }

  lemma AcrossFacts(from: Playlist, to: Playlist, it: PlayItem, p: nat, q: nat, all: set<PlayItem>)
    requires from.Within(all) && p < |from.main| && from.main[p] == it && Among(to.main, all) && q <= |to.main|
    ensures it in from.main && it in all && it.refc >= 1 && Among(InsertAt(to.main, q, it), all)
    ensures |RemoveAt(from.main, p)| == |from.main| - 1
  {
  }

  method RemoveWithin(pl: Playlist, it: PlayItem, ghost p: nat, ghost all: set<PlayItem>)
    requires pl.Within(all) && p < |pl.main| && pl.main[p] == it
    modifies pl`head, pl`tail, pl`count, pl`main, all`next, all`prev, it`refc
    ensures pl.Within(all) && pl.main == RemoveAt(old(pl.main), p) && it !in pl.main
    ensures it.next == Pair(null, null) && it.prev == Pair(null, null) && it.refc == old(it.refc) - 1
    ensures SameMain(all, old(pl.main), old(Nexts(all)), old(Prevs(all)))
  {
    WithinParts(pl, p, all);
    RestAmong(pl, p, 0, all);
    assert pl.Taken(all).next == Nexts(all) && pl.Taken(all).prev == Prevs(all);
    hide *;
    pl.RemoveItem(it, p, [], all);
    WithinWhole(pl, all);
  }

  /** Items of `all` outside `s`, each with an owner. */
  ghost predicate Strangers(o: seq<PlayItem>, s: seq<PlayItem>, all: set<PlayItem>)
    reads o`refc
  {
    forall i :: 0 <= i < |o| ==> o[i] in all && o[i] !in s && o[i].refc >= 1
  }

  method TakeOut(from: Playlist, other: Playlist, it: PlayItem, ghost p: nat, ghost all: set<PlayItem>)
    requires from != other && from.Within(all) && other.Valid() && Among(other.main, all) && Disjoint(from, other)
    requires p < |from.main| && from.main[p] == it
    modifies from`head, from`tail, from`count, from`main, all`next, all`prev, it`refc
    ensures from.Within(all) && other.Valid() && Disjoint(from, other)
    ensures from.main == RemoveAt(old(from.main), p) && it !in from.main && it !in other.main
    ensures it.next == Pair(null, null) && it.prev == Pair(null, null) && it.refc == old(it.refc) - 1
  {
    ghost var s, n0, p0 := from.main, Nexts(all), Prevs(all);
    OtherWas(from, other, all);
    assert it in s;
    hide Playlist.Within, Playlist.Valid, RemoveAt, Among, WasLinked, SameMain, Nexts, Prevs, Disjoint;
    RemoveWithin(from, it, p, all);
    OtherValid(other, s, all, n0, p0);
    RestDisjoint(from, other, s, p, all);
  }

  lemma OtherWas(from: Playlist, other: Playlist, all: set<PlayItem>)
    requires from != other && other.Valid() && Among(other.main, all) && Disjoint(from, other)
    ensures WasLinked(Main, other.main, other.head.main, other.tail.main, Nexts(all), Prevs(all))
    ensures other.count.main == |other.main| && Strangers(other.main, from.main, all)
  {
    LinkedSnapshot(Main, other.main, all, other.head.main, other.tail.main);
  }

  lemma RestDisjoint(from: Playlist, other: Playlist, s: seq<PlayItem>, p: nat, all: set<PlayItem>)
    requires p < |s| && from.main == RemoveAt(s, p) && Strangers(other.main, s, all)
    ensures Disjoint(from, other) && s[p] !in other.main
  {
  }

  /** A playlist none of whose main links changed is as valid as it was. */
  lemma OtherValid(other: Playlist, s: seq<PlayItem>, all: set<PlayItem>, n0: Links, p0: Links)
    requires WasLinked(Main, other.main, other.head.main, other.tail.main, n0, p0) && SameMain(all, s, n0, p0)
    requires Strangers(other.main, s, all) && other.count.main == |other.main|
    ensures other.Valid()
  {
  }

  method PutIn(to: Playlist, other: Playlist, it: PlayItem, after: PlayItem?, ghost q: nat, ghost all: set<PlayItem>)
    requires to != other && to.Valid() && Disjoint(other, to) && other.Within(all)
    requires it !in to.main && it !in other.main && q <= |to.main| && after == ItemBefore(to.main, q)
    requires it.next == Pair(null, null) && it.prev == Pair(null, null) && it.refc >= 1
    modifies to`head, to`tail, to`count, to`main, to.main`next, to.main`prev, it`next, it`prev, it`refc, it`added
    ensures to.Valid() && Disjoint(other, to) && other.Within(all)
    ensures to.main == InsertAt(old(to.main), q, it) && it.refc == old(it.refc) + 1
    ensures it.added == to.filesAdding
  {
    ghost var s, t := other.main, to.main;
    Apart(other, to, it);
    hide Playlist.Valid, Playlist.Within, InsertAt, ItemBefore, Disjoint;
    Join(to, it, after, q);
    StillApart(other, to, t, it, q);
  }

  method Join(pl: Playlist, it: PlayItem, after: PlayItem?, ghost k: nat)
    requires pl.Valid() && it !in pl.main && k <= |pl.main| && after == ItemBefore(pl.main, k)
    requires it.next == Pair(null, null) && it.prev == Pair(null, null) && it.refc >= 1
    modifies pl`head, pl`tail, pl`count, pl`main, pl.main`next, pl.main`prev, it`next, it`prev, it`refc, it`added
    ensures pl.Valid() && pl.main == InsertAt(old(pl.main), k, it)
    ensures it.refc == old(it.refc) + 1 && it.added == pl.filesAdding
  {
    hide *;
    pl.InsertItem(after, it, k, [], {});
  }

  lemma Apart(a: Playlist, b: Playlist, it: PlayItem)
    requires a != b && Disjoint(a, b) && it !in a.main
    ensures forall i :: 0 <= i < |a.main| ==> a.main[i] !in b.main && a.main[i] != it
  {
  }

  lemma StillApart(a: Playlist, b: Playlist, t: seq<PlayItem>, it: PlayItem, q: nat)
    requires q <= |t| && b.main == InsertAt(t, q, it)
    requires forall i :: 0 <= i < |a.main| ==> a.main[i] !in t && a.main[i] != it
    ensures Disjoint(a, b)
  {
    assert forall x :: x in b.main ==> x in t || x == it;
    hide InsertAt;
  }

  /** The loop of plt_move_items, part way: `now` is the list, `s` was the list at the start. */
  ghost predicate Walking(now: seq<PlayItem>, s: seq<PlayItem>, d: nat, indexes: seq<nat>,
                          it: PlayItem?, dropAfter: PlayItem?, p: nat, q: nat, idx: nat, processed: nat) {
    && processed <= |indexes| && p <= |now| && q <= |now| && d <= |s|
    && it == ItemAt(now, p) && dropAfter == ItemBefore(now, q)
    && Walk(now, p, q, idx, indexes[processed..]) == Walk(s, 0, d, 0, indexes)
    && forall i :: 0 <= i < |now| ==> now[i] in s
  }

  lemma WalkStart(pl: Playlist, d: nat, indexes: seq<nat>)
    requires pl.Valid() && d <= |pl.main|
    ensures ItemBefore(pl.main, d) == if d < |pl.main| then pl.main[d].prev.main else pl.tail.main
    ensures Walking(pl.main, pl.main, d, indexes, pl.head.main, ItemBefore(pl.main, d), 0, d, 0, 0)
  {
    assert indexes[0..] == indexes;
  }

  /** One turn of the loop: where the next item and the insertion point are afterwards. */
  lemma WalkTurn(now: seq<PlayItem>, s: seq<PlayItem>, d: nat, indexes: seq<nat>,
                 it: PlayItem, dropAfter: PlayItem?, p: nat, q: nat, idx: nat, processed: nat)
    requires Walking(now, s, d, indexes, it, dropAfter, p, q, idx, processed) && processed < |indexes|
    ensures p < |now| && now[p] == it && it in s && q <= |now| && dropAfter == ItemBefore(now, q)
    ensures idx != indexes[processed] ==>
      Walking(now, s, d, indexes, ItemAt(now, p + 1), dropAfter, p + 1, q, idx + 1, processed)
    ensures idx == indexes[processed] ==>
      Walking(MoveTo(now, p, q), s, d, indexes, ItemAt(now, p + 1), it,
              if p + 1 < q then p else p + 1, if p < q then q else q + 1, idx + 1, processed + 1)
  {
    assert indexes[processed..][1..] == indexes[processed + 1..];
  }

  lemma WalkEnd(now: seq<PlayItem>, s: seq<PlayItem>, d: nat, indexes: seq<nat>,
                it: PlayItem?, dropAfter: PlayItem?, p: nat, q: nat, idx: nat, processed: nat)
    requires Walking(now, s, d, indexes, it, dropAfter, p, q, idx, processed)
    requires it == null || processed == |indexes|
    ensures d <= |s| && now == Walk(s, 0, d, 0, indexes)
  {
  }

  lemma NextItem(pl: Playlist, p: nat)
    requires pl.Valid() && p < |pl.main|
    ensures pl.main[p].next.main == ItemAt(pl.main, p + 1)
  {
  }

  /** The loop of plt_move_items inside one playlist; `d` is the position of `dropBefore`. Search links may
      be anything as long as they lead to tracks of `all`. */
  method MoveItemsWithin(pl: Playlist, dropBefore: PlayItem?, indexes: seq<nat>, ghost d: nat, ghost all: set<PlayItem>)
    requires pl.Within(all) && d <= |pl.main| && dropBefore == ItemAt(pl.main, d)
    modifies pl`head, pl`tail, pl`count, pl`main, all`next, all`prev, all`refc, all`added
    ensures pl.Within(all) && pl.main == Walk(old(pl.main), 0, d, 0, indexes)
    ensures Counts(all) == old(Counts(all)) && Marks(all) == old(Marks(all))
  {
    ghost var s := pl.main;
    WithinGives(pl, all);
    WalkStart(pl, d, indexes);
    assert dropBefore != null <==> d < |s|;
    assert dropBefore != null ==> dropBefore == s[d];
    hide *;
    var dropAfter := if dropBefore != null then dropBefore.prev.main else pl.tail.main;
    var it := pl.head.main;
    var processed: nat, idx: nat := 0, 0;
    ghost var p: nat, q: nat := 0, d;
    while it != null && processed < |indexes|
      invariant pl.Within(all) && Walking(pl.main, s, d, indexes, it, dropAfter, p, q, idx, processed)
      invariant processed <= |indexes| && p <= |pl.main|
      invariant Counts(all) == old(Counts(all)) && Marks(all) == old(Marks(all))
      decreases |indexes| - processed, |pl.main| - p
    {
      it, dropAfter, processed, p, q :=
        TurnWithin(pl, s, d, indexes, it, dropAfter, p, q, idx, processed, all);
      idx := idx + 1;
    }
    WalkEnd(pl.main, s, d, indexes, it, dropAfter, p, q, idx, processed);
  }

  /** The body of the loop: the item looked at next, the drop point and the number of hits afterwards. */
  method TurnWithin(pl: Playlist, ghost s: seq<PlayItem>, ghost d: nat, indexes: seq<nat>, it: PlayItem,
                    dropAfter: PlayItem?, ghost p: nat, ghost q: nat, idx: nat, processed: nat,
                    ghost all: set<PlayItem>)
    returns (next: PlayItem?, drop: PlayItem?, done: nat, ghost p': nat, ghost q': nat)
    requires pl.Within(all) && Walking(pl.main, s, d, indexes, it, dropAfter, p, q, idx, processed)
    requires processed < |indexes|
    modifies pl`head, pl`tail, pl`count, pl`main, all`next, all`prev, all`refc, all`added
    ensures pl.Within(all) && Walking(pl.main, s, d, indexes, next, drop, p', q', idx + 1, done)
    ensures p' <= |pl.main| == |old(pl.main)| && processed <= done <= |indexes| && (done == processed ==> p < p')
    ensures Counts(all) == old(Counts(all)) && Marks(all) == old(Marks(all))
  {
    WalkTurn(pl.main, s, d, indexes, it, dropAfter, p, q, idx, processed);
    WithinParts(pl, p, all);
    NextItem(pl, p);
    hide *;
    if idx == indexes[processed] {
      next := HitWithin(pl, s, d, indexes, it, dropAfter, p, q, idx, processed, all);
      p', q' := if p + 1 < q then p else p + 1, if p < q then q else q + 1;
      drop, done := it, processed + 1;
    } else {
      next, drop, done, p', q' := it.next.main, dropAfter, processed, p + 1, q;
    }
  }

  method HitWithin(pl: Playlist, ghost s: seq<PlayItem>, ghost d: nat, indexes: seq<nat>, it: PlayItem,
                   dropAfter: PlayItem?, ghost p: nat, ghost q: nat, idx: nat, processed: nat, ghost all: set<PlayItem>)
    returns (next: PlayItem?)
    requires pl.Within(all) && Walking(pl.main, s, d, indexes, it, dropAfter, p, q, idx, processed)
    requires processed < |indexes| && idx == indexes[processed]
    modifies pl`head, pl`tail, pl`count, pl`main, all`next, all`prev, it`refc, it`added
    ensures pl.Within(all) && it in all && p < |pl.main| == |old(pl.main)|
    ensures Walking(pl.main, s, d, indexes, next, it, if p + 1 < q then p else p + 1, if p < q then q else q + 1,
                    idx + 1, processed + 1)
    ensures Counts(all) == old(Counts(all)) && Marks(all) == old(Marks(all))
  {
    hide *;
    WalkTurn(pl.main, s, d, indexes, it, dropAfter, p, q, idx, processed);
    WithinParts(pl, p, all);
    NextItem(pl, p);
    next := it.next.main;
    MovePlace(pl, it, dropAfter, p, q, all);
  }

  /** MoveWithin, with the reference counts and marks of all tracks. */
  method MovePlace(pl: Playlist, it: PlayItem, dropAfter: PlayItem?, ghost p: nat, ghost q: nat,
                   ghost all: set<PlayItem>)
    requires pl.Within(all) && p < |pl.main| && pl.main[p] == it
    requires q <= |pl.main| && dropAfter == ItemBefore(pl.main, q)
    modifies pl`head, pl`tail, pl`count, pl`main, all`next, all`prev, it`refc, it`added
    ensures pl.Within(all) && pl.main == MoveTo(old(pl.main), p, q)
    ensures Counts(all) == old(Counts(all)) && Marks(all) == old(Marks(all))
  {
    hide Playlist.Within, ItemBefore, MoveTo;
    MoveWithin(pl, it, dropAfter, p, q, all);
  }

  lemma WithinGives(pl: Playlist, all: set<PlayItem>)
    requires pl.Within(all)
    ensures pl.Valid() && pl.Inside(all)
  {
  }

  /** The same loop between two playlists: `f` and `t` are the lists now, `f0` and `t0` at the start. */
  ghost predicate Crossing(f: seq<PlayItem>, t: seq<PlayItem>, f0: seq<PlayItem>, t0: seq<PlayItem>, d: nat,
                           indexes: seq<nat>, it: PlayItem?, dropAfter: PlayItem?, p: nat, q: nat, idx: nat,
                           processed: nat) {
    && processed <= |indexes| && p <= |f| && q <= |t| && d <= |t0| && idx <= |f0|
    && it == ItemAt(f, p) && dropAfter == ItemBefore(t, q)
    && f[p..] == f0[idx..]
    && f[..p] + Kept(f0[idx..], idx, indexes[processed..]) == Kept(f0, 0, indexes)
    && t[..q] + Picked(f0[idx..], idx, indexes[processed..]) + t[q..] == t0[..d] + Picked(f0, 0, indexes) + t0[d..]
    && (forall i :: 0 <= i < |f| ==> f[i] in f0) && (forall i :: 0 <= i < |t| ==> t[i] in f0 || t[i] in t0)
  }

  lemma CrossStart(from: Playlist, to: Playlist, d: nat, indexes: seq<nat>)
    requires from.Valid() && to.Valid() && d <= |to.main|
    ensures ItemBefore(to.main, d) == if d < |to.main| then to.main[d].prev.main else to.tail.main
    ensures ItemAt(to.main, d) == if d < |to.main| then to.main[d] else null
    ensures Crossing(from.main, to.main, from.main, to.main, d, indexes, from.head.main, ItemBefore(to.main, d),
                     0, d, 0, 0)
  {
    assert indexes[0..] == indexes && from.main[0..] == from.main && from.main[..0] == [];
  }

  lemma CrossAt(f: seq<PlayItem>, t: seq<PlayItem>, f0: seq<PlayItem>, t0: seq<PlayItem>, d: nat, indexes: seq<nat>,
                it: PlayItem, dropAfter: PlayItem?, p: nat, q: nat, idx: nat, processed: nat)
    requires Crossing(f, t, f0, t0, d, indexes, it, dropAfter, p, q, idx, processed)
    ensures p < |f| && f[p] == it
  {
  }

  lemma CrossMiss(f: seq<PlayItem>, t: seq<PlayItem>, f0: seq<PlayItem>, t0: seq<PlayItem>, d: nat, indexes: seq<nat>,
                  it: PlayItem, dropAfter: PlayItem?, p: nat, q: nat, idx: nat, processed: nat)
    requires Crossing(f, t, f0, t0, d, indexes, it, dropAfter, p, q, idx, processed) && processed < |indexes|
    requires idx != indexes[processed]
    ensures p < |f| && f[p] == it
    ensures Crossing(f, t, f0, t0, d, indexes, ItemAt(f, p + 1), dropAfter, p + 1, q, idx + 1, processed)
  {
    assert f0[idx..][0] == f0[idx] == f[p..][0] == it;
    assert f0[idx..][1..] == f0[idx + 1..] == f[p..][1..] == f[p + 1..];
    assert f[..p + 1] == f[..p] + [it];
    assert f[..p] + ([it] + Kept(f0[idx + 1..], idx + 1, indexes[processed..]))
        == f[..p + 1] + Kept(f0[idx + 1..], idx + 1, indexes[processed..]);
  }

  lemma CrossHit(f: seq<PlayItem>, t: seq<PlayItem>, f0: seq<PlayItem>, t0: seq<PlayItem>, d: nat, indexes: seq<nat>,
                 it: PlayItem, dropAfter: PlayItem?, p: nat, q: nat, idx: nat, processed: nat)
    requires Crossing(f, t, f0, t0, d, indexes, it, dropAfter, p, q, idx, processed) && processed < |indexes|
    requires idx == indexes[processed]
    ensures p < |f| && f[p] == it && it in f0 && q <= |t| && dropAfter == ItemBefore(t, q)
    ensures (forall i :: 0 <= i < |f| ==> f[i] in f0) && (forall i :: 0 <= i < |t| ==> t[i] in f0 || t[i] in t0)
    ensures Crossing(RemoveAt(f, p), InsertAt(t, q, it), f0, t0, d, indexes, ItemAt(f, p + 1), it,
                     p, q + 1, idx + 1, processed + 1)
  {
    var f', t', ix := RemoveAt(f, p), InsertAt(t, q, it), indexes[processed + 1..];
    assert indexes[processed..][1..] == ix;
    assert f0[idx..][0] == f0[idx] == f[p..][0] == it;
    assert f0[idx..][1..] == f0[idx + 1..] == f[p..][1..] == f'[p..];
    assert f'[..p] == f[..p];
    var picked := Picked(f0[idx + 1..], idx + 1, ix);
    assert t'[..q + 1] == t[..q] + [it] && t'[q + 1..] == t[q..];
    assert t[..q] + ([it] + picked) + t[q..] == t'[..q + 1] + picked + t'[q + 1..];
  }

  lemma CrossEnd(f: seq<PlayItem>, t: seq<PlayItem>, f0: seq<PlayItem>, t0: seq<PlayItem>, d: nat, indexes: seq<nat>,
                 it: PlayItem?, dropAfter: PlayItem?, p: nat, q: nat, idx: nat, processed: nat)
    requires Crossing(f, t, f0, t0, d, indexes, it, dropAfter, p, q, idx, processed)
    requires it == null || processed == |indexes|
    ensures f == Kept(f0, 0, indexes)
    ensures d <= |t0| && t == InsertBlock(t0, d, Picked(f0, 0, indexes))
  {
    assert f == f[..p] + f[p..] && t == t[..q] + t[q..];
    assert t[..q] + [] == t[..q];
  }

  /** MoveAcross, with the reference counts of all tracks. */
  method SwitchLists(to: Playlist, from: Playlist, it: PlayItem, dropAfter: PlayItem?, ghost p: nat, ghost q: nat,
                     ghost all: set<PlayItem>)
    requires to != from && from.Within(all) && to.Valid() && Among(to.main, all) && Disjoint(from, to)
    requires p < |from.main| && from.main[p] == it
    requires q <= |to.main| && dropAfter == ItemBefore(to.main, q)
    modifies from, to, all`next, all`prev, it`refc, it`added
    ensures from.Within(all) && to.Valid() && Among(to.main, all) && Disjoint(from, to)
    ensures from.main == RemoveAt(old(from.main), p) && to.main == InsertAt(old(to.main), q, it)
    ensures Counts(all) == old(Counts(all))
  {
    hide Playlist.Within, Playlist.Valid, Among, RemoveAt, InsertAt, ItemBefore, Disjoint;
    MoveAcross(to, from, it, dropAfter, p, q, all);
  }

  method HitAcross(to: Playlist, from: Playlist, ghost f0: seq<PlayItem>, ghost t0: seq<PlayItem>, ghost d: nat,
                   indexes: seq<nat>, it: PlayItem, dropAfter: PlayItem?, ghost p: nat, ghost q: nat, idx: nat,
                   processed: nat, ghost all: set<PlayItem>)
    returns (next: PlayItem?)
    requires to != from && from.Within(all) && to.Valid() && Among(to.main, all) && Disjoint(from, to)
    requires Crossing(from.main, to.main, f0, t0, d, indexes, it, dropAfter, p, q, idx, processed)
    requires processed < |indexes| && idx == indexes[processed]
    modifies from, to, all`next, all`prev, it`refc, it`added
    ensures from.Within(all) && to.Valid() && Among(to.main, all) && Disjoint(from, to) && p <= |from.main| && it in all
    ensures Crossing(from.main, to.main, f0, t0, d, indexes, next, it, p, q + 1, idx + 1, processed + 1)
    ensures Counts(all) == old(Counts(all))
  {
    CrossHit(from.main, to.main, f0, t0, d, indexes, it, dropAfter, p, q, idx, processed);
    WithinParts(from, p, all);
    NextItem(from, p);
    hide *;
    next := it.next.main;
    SwitchLists(to, from, it, dropAfter, p, q, all);
  }

  /** The body of the loop between two playlists. */
  method TurnAcross(to: Playlist, from: Playlist, ghost f0: seq<PlayItem>, ghost t0: seq<PlayItem>, ghost d: nat,
                    indexes: seq<nat>, it: PlayItem, dropAfter: PlayItem?, ghost p: nat, ghost q: nat, idx: nat,
                    processed: nat, ghost all: set<PlayItem>)
    returns (next: PlayItem?, drop: PlayItem?, done: nat, ghost p': nat, ghost q': nat)
    requires to != from && from.Within(all) && to.Valid() && Among(to.main, all) && Disjoint(from, to)
    requires Crossing(from.main, to.main, f0, t0, d, indexes, it, dropAfter, p, q, idx, processed)
    requires processed < |indexes|
    modifies from, to, all`next, all`prev, all`refc, all`added
    ensures from.Within(all) && to.Valid() && Among(to.main, all) && Disjoint(from, to)
    ensures Crossing(from.main, to.main, f0, t0, d, indexes, next, drop, p', q', idx + 1, done)
    ensures p' <= |from.main| && processed <= done <= |indexes|
    ensures done == processed ==> p < p' && |from.main| == |old(from.main)|
    ensures Counts(all) == old(Counts(all))
  {
    CrossAt(from.main, to.main, f0, t0, d, indexes, it, dropAfter, p, q, idx, processed);
    WithinParts(from, p, all);
    NextItem(from, p);
    hide *;
    if idx == indexes[processed] {
      next := HitAcross(to, from, f0, t0, d, indexes, it, dropAfter, p, q, idx, processed, all);
      drop, done, p', q' := it, processed + 1, p, q + 1;
    } else {
      CrossMiss(from.main, to.main, f0, t0, d, indexes, it, dropAfter, p, q, idx, processed);
      next, drop, done, p', q' := it.next.main, dropAfter, processed, p + 1, q;
    }
  }

  /** The loop of plt_move_items between two playlists. */
  method MoveItemsAcross(to: Playlist, from: Playlist, dropBefore: PlayItem?, indexes: seq<nat>, ghost d: nat,
                         ghost all: set<PlayItem>)
    requires to != from && from.Within(all) && to.Valid() && Among(to.main, all) && Disjoint(from, to)
    requires d <= |to.main| && dropBefore == ItemAt(to.main, d)
    modifies from, to, all`next, all`prev, all`refc, all`added
    ensures from.Within(all) && to.Valid() && Among(to.main, all) && Disjoint(from, to)
    ensures from.main == Kept(old(from.main), 0, indexes)
    ensures to.main == InsertBlock(old(to.main), d, Picked(old(from.main), 0, indexes))
    ensures Counts(all) == old(Counts(all))
  {
    ghost var f0, t0 := from.main, to.main;
    WithinGives(from, all);
    CrossStart(from, to, d, indexes);
    hide *;
    var dropAfter := if dropBefore != null then dropBefore.prev.main else to.tail.main;
    var it := from.head.main;
    var processed: nat, idx: nat := 0, 0;
    ghost var p: nat, q: nat := 0, d;
    while it != null && processed < |indexes|
      invariant from.Within(all) && to.Valid() && Among(to.main, all) && Disjoint(from, to)
      invariant processed <= |indexes| && p <= |from.main|
      invariant Crossing(from.main, to.main, f0, t0, d, indexes, it, dropAfter, p, q, idx, processed)
      invariant Counts(all) == old(Counts(all))
      decreases |indexes| - processed, |from.main| - p
    {
      it, dropAfter, processed, p, q :=
        TurnAcross(to, from, f0, t0, d, indexes, it, dropAfter, p, q, idx, processed, all);
      idx := idx + 1;
    }
    CrossEnd(from.main, to.main, f0, t0, d, indexes, it, dropAfter, p, q, idx, processed);
  }
}
