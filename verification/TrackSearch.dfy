/** The incremental search of src/playlist.c: every shared string carries the verdict of the last search
    that looked at it, and the results are threaded through the tracks as a second list. */
module TrackSearch {
  import opened PlayItems
  import opened MetaSpec
  import opened PlMeta
  import opened Playlists
  import opened SearchList

  const URI := Ascii(":URI")
  const CUESHEET := Ascii("cuesheet")
  const LOG := Ascii("log")
  const SLASH: byte := 47
  const MAX_INDEX := 127

  // ----- what a search without memory finds ------------------------------------------------

  /** Whether a string is found. */
  type Hit = seq<byte> -> bool

  /** The lower case in which a string is compared, empty if it is not valid UTF-8 and so never found. */
  type Lower = seq<byte> -> seq<byte>

  predicate Contains(v: seq<byte>, text: seq<byte>) {
    exists i :: 0 <= i <= |v| && text <= v[i..]
  }

  /** utfcasestr_fast, for a text in lower case. */
  function Containing(lower: Lower, text: seq<byte>): Hit {
    v => Contains(lower(v), text)
  }

  predicate IsUri(m: Meta) {
    KeyOf(m) == URI
  }

  /** The scan of a track ends at the first key that is not searched. */
  predicate EndsScan(m: Meta) {
    (First(KeyOf(m)) == COLON && !IsUri(m)) || First(KeyOf(m)) == UNDERSCORE || First(KeyOf(m)) == BANG
  }

  predicate Skipped(m: Meta) {
    SameKey(KeyOf(m), CUESHEET) || SameKey(KeyOf(m), LOG)
  }

  /** The position after the last slash of the first string, or 0. */
  function FileName(v: seq<byte>, n: nat): (k: nat)
    requires n <= |v|
    ensures k <= n
  {
    if n == 0 then 0 else if v[n - 1] == SLASH then n else FileName(v, n - 1)
  }

  /** Of a URI only the file name is searched. */
  function SearchedPart(v: seq<byte>, uri: bool): seq<byte> {
    if uri then v[FileName(v, StrLen(v))..] else v
  }

  lemma SearchedTerminated(v: seq<byte>, uri: bool)
    requires Terminated(v) && v != []
    ensures Terminated(SearchedPart(v, uri)) && SearchedPart(v, uri) != []
  {
    StrLenInside(v);
  }

  /** Some string of a multi-value contains the text. */
  predicate AnyHit(v: seq<byte>, hit: Hit)
    requires Terminated(v)
  {
    exists i :: 0 <= i < |Parts(v)| && hit(Parts(v)[i])
  }

  predicate ValueMatches(v: seq<byte>, uri: bool, hit: Hit) {
    Terminated(v) && v != [] && (SearchedTerminated(v, uri); AnyHit(SearchedPart(v, uri), hit))
  }

  /** The fields of a track that a search looks at. */
  function Searched(l: seq<Meta>): (r: seq<Meta>)
    ensures forall m :: m in r ==> m in l
  {
    if l == [] || EndsScan(l[0]) then []
    else if Skipped(l[0]) then Searched(l[1..])
    else [l[0]] + Searched(l[1..])
  }

  predicate FieldMatches(m: Meta, hit: Hit) {
    ValueMatches(ValueOf(m), IsUri(m), hit)
  }

  /** Some searched field of the track contains the text. */
  predicate TrackMatches(l: seq<Meta>, hit: Hit) {
    exists i :: 0 <= i < |Searched(l)| && FieldMatches(Searched(l)[i], hit)
  }

  /** The tracks a search finds, in the order of the list. */
  ghost function Found(s: seq<PlayItem>, hit: Hit): (r: seq<PlayItem>)
    reads s`meta
    ensures forall x :: x in r ==> x in s
  {
    if s == [] then []
    else
      var n := |s| - 1;
      if TrackMatches(s[n].meta, hit) then Found(s[..n], hit) + [s[n]] else Found(s[..n], hit)
  }

  // ----- verdicts --------------------------------------------------------------------------

  function Abs(x: int): int {
    if x < 0 then -x else x
  }

  /** The answer for a field that matches or not, when its string carries `cmpidx`. */
  function Answer(cmpidx: int, idx: int, matches: bool): bool {
    if Abs(cmpidx) == idx then cmpidx > 0 else matches
  }

  /** What the strings carry. */
  type Memo = map<CacheStr, int>

  ghost function MemoOf(strs: set<CacheStr>): (m: Memo)
    reads strs`cmpidx
    ensures m.Keys == strs
  {
    map e | e in strs :: e.cmpidx
  }

  /** Every field has a value whose verdict is known. */
  ghost predicate Fields(l: seq<Meta>, strs: set<CacheStr>) {
    forall m :: m in l ==> NodeOk(m) && m.value in strs
  }

  datatype Walk = Walk(found: bool, memo: Memo)

  /** One field: the verdict it carries, or a new one that is kept. */
  ghost function FieldWalk(m: Meta, memo: Memo, idx: int, hit: Hit): (w: Walk)
    requires NodeOk(m) && m.value in memo
    ensures w.memo.Keys == memo.Keys
  {
    var found := Answer(memo[m.value], idx, FieldMatches(m, hit));
    Walk(found, if Abs(memo[m.value]) == idx then memo else memo[m.value := if found then idx else -idx])
  }

  /** The fields up to the first that answers yes. */
  ghost function TrackWalk(fields: seq<Meta>, memo: Memo, idx: int, hit: Hit): (w: Walk)
    requires Fields(fields, memo.Keys)
    ensures w.memo.Keys == memo.Keys
  {
    if fields == [] then Walk(false, memo)
    else
      var w := FieldWalk(fields[0], memo, idx, hit);
      if w.found then w else TrackWalk(fields[1..], w.memo, idx, hit)
  }

  datatype Results = Results(found: seq<PlayItem>, memo: Memo)

  ghost predicate AllFields(s: seq<PlayItem>, strs: set<CacheStr>)
    reads s`meta
  {
    forall i :: 0 <= i < |s| ==> Fields(s[i].meta, strs)
  }

  ghost function Extend(r: Results, it: PlayItem, idx: int, hit: Hit): (r1: Results)
    requires Fields(it.meta, r.memo.Keys)
    reads it`meta
    ensures r1.memo.Keys == r.memo.Keys && forall x :: x in r1.found ==> x in r.found || x == it
  {
    var w := TrackWalk(Searched(it.meta), r.memo, idx, hit);
    Results(if w.found then r.found + [it] else r.found, w.memo)
  }

  /** The tracks of a list one after the other. */
  ghost function ListWalk(s: seq<PlayItem>, memo: Memo, idx: int, hit: Hit): (r: Results)
    requires AllFields(s, memo.Keys)
    reads s`meta
    ensures r.memo.Keys == memo.Keys && forall x :: x in r.found ==> x in s
  {
    if s == [] then Results([], memo)
    else
      var n := |s| - 1;
      Extend(ListWalk(s[..n], memo, idx, hit), s[n], idx, hit)
  }

  /** strrchr */
  method AfterLastSlash(v: seq<byte>) returns (k: nat)
    requires Terminated(v) && v != []
    ensures k <= StrLen(v) && SLASH !in v[k..StrLen(v)] && (k == 0 || v[k - 1] == SLASH)
    ensures k == FileName(v, StrLen(v))
  {
    k := StringLength(v, 0);
    assert v[0..] == v;
    while k > 0 && v[k - 1] != SLASH
      invariant k <= StrLen(v) && SLASH !in v[k..StrLen(v)] && FileName(v, k) == FileName(v, StrLen(v))
    {
      k := k - 1;
    }
  }

  /** The loop over the strings of a value, from position `start`. */
  method AnyStringHits(v: seq<byte>, start: nat, hit: Hit) returns (found: bool)
    requires start < |v| && Terminated(v) && Terminated(v[start..])
    ensures found <==> AnyHit(v[start..], hit)
  {
    hide Parts, Terminated;
    var p := start;
    while p < |v|
      invariant start <= p <= |v| && Terminated(v[p..])
      invariant AnyHit(v[start..], hit) <==> AnyHit(v[p..], hit)
      decreases |v| - p
    {
      var len := StringLength(v, p);
      NextString(v, p, len, hit);
      if hit(v[p..p + len]) {
        return true;
      }
      p := p + len + 1;
    }
    NoString(v, p, hit);
    return false;
  }

  lemma NextString(v: seq<byte>, p: nat, len: nat, hit: Hit)
    requires p < |v| && Terminated(v[p..]) && len == StrLen(v[p..])
    ensures p + len < |v| && Terminated(v[p + len + 1..])
    ensures AnyHit(v[p..], hit) <==> hit(v[p..p + len]) || AnyHit(v[p + len + 1..], hit)
  {
    hide Parts;
    PartAt(v, p);
    var all, rest := Parts(v[p..]), Parts(v[p + len + 1..]);
    assert all == [v[p..p + len]] + rest;
    if i :| 0 <= i < |rest| && hit(rest[i]) {
      assert all[i + 1] == rest[i];
    }
    if hit(v[p..p + len]) {
      assert all[0] == v[p..p + len];
    }
  }

  lemma NoString(v: seq<byte>, p: nat, hit: Hit)
    requires p == |v|
    ensures Terminated(v[p..]) && !AnyHit(v[p..], hit)
  {
    assert v[p..] == [];
  }

  /** One field, whatever verdict its string carries: that one if it has the number of this search,
      otherwise a new one, which the string then carries. */
  method FieldVerdict(m: Meta, idx: int, hit: Hit) returns (found: bool)
    requires NodeOk(m) && 0 < idx
    modifies m.value`cmpidx
    ensures found == Answer(old(m.value.cmpidx), idx, FieldMatches(m, hit))
    ensures m.value.cmpidx ==
      (if Abs(old(m.value.cmpidx)) == idx then old(m.value.cmpidx) else if found then idx else -idx)
  {
    hide AnyHit;
    if Abs(m.value.cmpidx) == idx {
      return m.value.cmpidx > 0;
    }
    SearchedTerminated(m.value.str, IsUri(m));
    var start := 0;
    if IsUri(m) {
      start := AfterLastSlash(m.value.str);
    }
    assert m.value.str[start..] == SearchedPart(m.value.str, IsUri(m));
    found := AnyStringHits(m.value.str, start, hit);
    m.value.cmpidx := if found then idx else -idx;
  }

  method VisitField(m: Meta, idx: int, hit: Hit, ghost strs: set<CacheStr>) returns (found: bool)
    requires NodeOk(m) && m.value in strs && 0 < idx
    modifies strs`cmpidx
    ensures Walk(found, MemoOf(strs)) == FieldWalk(m, old(MemoOf(strs)), idx, hit)
  {
    hide FieldMatches, NodeOk;
    found := FieldVerdict(m, idx, hit);
  }

  lemma NextField(l: seq<Meta>, i: nat, memo: Memo, idx: int, hit: Hit)
    requires Fields(l, memo.Keys) && i < |l|
    ensures NodeOk(l[i]) && l[i].value in memo && Fields(Searched(l[i..]), memo.Keys)
      && Fields(Searched(l[i + 1..]), memo.Keys)
    ensures EndsScan(l[i]) ==> TrackWalk(Searched(l[i..]), memo, idx, hit) == Walk(false, memo)
    ensures !EndsScan(l[i]) && Skipped(l[i]) ==> Searched(l[i..]) == Searched(l[i + 1..])
    ensures !EndsScan(l[i]) && !Skipped(l[i]) ==>
      (var w := FieldWalk(l[i], memo, idx, hit);
       TrackWalk(Searched(l[i..]), memo, idx, hit) ==
         if w.found then w else TrackWalk(Searched(l[i + 1..]), w.memo, idx, hit))
  {
    assert l[i..][1..] == l[i + 1..] && l[i] in l && l[i..][0] == l[i];
    hide EndsScan, Skipped, FieldWalk, NodeOk;
    var rest := Searched(l[i + 1..]);
    assert !EndsScan(l[i]) && !Skipped(l[i]) ==> ([l[i]] + rest)[1..] == rest;
  }

  lemma NoField(l: seq<Meta>, memo: Memo, idx: int, hit: Hit)
    ensures TrackWalk(Searched(l[|l|..]), memo, idx, hit) == Walk(false, memo)
  {
  }

  /** The loop over the metadata of a track. */
  method TrackHit(l: seq<Meta>, idx: int, hit: Hit, ghost strs: set<CacheStr>) returns (found: bool)
    requires Fields(l, strs) && 0 < idx
    modifies strs`cmpidx
    ensures Walk(found, MemoOf(strs)) == TrackWalk(Searched(l), old(MemoOf(strs)), idx, hit)
  {
    hide FieldMatches, Answer, TrackWalk, Searched, FieldWalk, EndsScan, Skipped, NodeOk, MemoOf;
    var i := 0;
    assert l[0..] == l;
    ghost var all := TrackWalk(Searched(l), MemoOf(strs), idx, hit);
    while i < |l|
      invariant i <= |l| && Fields(Searched(l[i..]), strs)
      invariant TrackWalk(Searched(l[i..]), MemoOf(strs), idx, hit) == all
    {
      NextField(l, i, MemoOf(strs), idx, hit);
      if EndsScan(l[i]) {
        return false;
      }
      if !Skipped(l[i]) {
        found := VisitField(l[i], idx, hit, strs);
        if found {
          return true;
        }
      }
      i := i + 1;
    }
    NoField(l, MemoOf(strs), idx, hit);
    return false;
  }

  // ----- a search --------------------------------------------------------------------------

  /** The number of the next search. */
  function NextIndex(idx: int): (r: int)
    requires 0 <= idx <= MAX_INDEX
    ensures 0 < r <= MAX_INDEX
  {
    if idx + 1 > MAX_INDEX then 1 else idx + 1
  }

  method NextNumber(pl: Playlist)
    requires 0 <= pl.searchCmpidx <= MAX_INDEX
    modifies pl`searchCmpidx
    ensures 0 < pl.searchCmpidx == NextIndex(old(pl.searchCmpidx))
    ensures pl.searchCmpidx == if old(pl.searchCmpidx) == 127 then 1 else old(pl.searchCmpidx) + 1
  {
    pl.searchCmpidx := pl.searchCmpidx + 1;
    if pl.searchCmpidx > MAX_INDEX {
      pl.searchCmpidx := 1;
    }
  }

  /** The text and number of a search, and what strings carried at its start. */
  datatype Query = Query(text: seq<byte>, hit: Hit, idx: int, memo: Memo)

  /** What a search finds and leaves on the strings: the tracks of the walk with the verdicts that strings carry,
      whatever these are; none for an empty text. */
  ghost function Outcome(s: seq<PlayItem>, q: Query): (r: Results)
    requires AllFields(s, q.memo.Keys)
    reads s`meta
    ensures r.memo.Keys == q.memo.Keys
  {
    if q.text == [] then Results([], q.memo) else ListWalk(s, q.memo, q.idx, q.hit)
  }

  /** The results after the first k tracks. */
  ghost function SoFar(s: seq<PlayItem>, k: nat, q: Query): (r: Results)
    requires k <= |s| && AllFields(s, q.memo.Keys)
    reads s`meta
    ensures r.memo.Keys == q.memo.Keys
  {
    if q.text == [] then Results([], q.memo) else ListWalk(s[..k], q.memo, q.idx, q.hit)
  }

  lemma Grows(s: seq<PlayItem>, k: nat, q: Query)
    requires k < |s| && AllFields(s, q.memo.Keys) && Distinct(s)
    ensures Fields(s[k].meta, q.memo.Keys) && s[k] in s && s[k] !in SoFar(s, k, q).found
    ensures SoFar(s, k + 1, q) ==
      var r := SoFar(s, k, q); if q.text == [] then r else Extend(r, s[k], q.idx, q.hit)
  {
    assert s[..k + 1][..k] == s[..k] && s[k] !in s[..k];
    hide Extend;
  }

  lemma SoFarEnds(s: seq<PlayItem>, q: Query)
    requires AllFields(s, q.memo.Keys)
    ensures SoFar(s, 0, q) == Results([], q.memo)
    ensures SoFar(s, |s|, q) == Outcome(s, q)
  {
    var none: seq<PlayItem> := [];
    assert s[..|s|] == s && s[..0] == none;
    assert ListWalk(none, q.memo, q.idx, q.hit) == Results([], q.memo);
    hide ListWalk;
  }

  /** One track: append it if the walk says so. */
  method VisitTrack(pl: Playlist, it: PlayItem, idx: int, hit: Hit, ghost strs: set<CacheStr>, ghost r: Results,
                    ghost was: Start)
    requires Searching(pl, r.found, was) && it in pl.main && it !in r.found
    requires Fields(it.meta, strs) && 0 < idx && MemoOf(strs) == r.memo && r.memo.Keys == strs
    modifies pl`head, pl`tail, pl`count, was.all`next, was.all`prev, strs`cmpidx
    ensures pl.main == old(pl.main) && Searching(pl, Extend(r, it, idx, hit).found, was)
    ensures MemoOf(strs) == Extend(r, it, idx, hit).memo
  {
    hide TrackWalk, Searching, Searched, Fields, MemoOf;
    var found := TrackHit(it.meta, idx, hit, strs);
    if found {
      KeepResult(pl, it, r.found, was);
    }
  }

  lemma ThisTrack(pl: Playlist, k: nat, q: Query, r: Results, was: Start)
    requires k < |pl.main| && AllFields(pl.main, q.memo.Keys) && r == SoFar(pl.main, k, q)
    requires Searching(pl, r.found, was)
    ensures Fields(pl.main[k].meta, q.memo.Keys) && pl.main[k] in pl.main && pl.main[k] !in r.found
    ensures SoFar(pl.main, k + 1, q) == if q.text == [] then r else Extend(r, pl.main[k], q.idx, q.hit)
  {
    Grows(pl.main, k, q);
    hide Extend, SoFar, Fields, AllFields;
  }

  /** The body of the loop of plt_search_process2 over the tracks; `r` are the results of the first k tracks, and
      `r1` those of one more. */
  method SearchTrack(pl: Playlist, it: PlayItem, text: seq<byte>, hit: Hit, idx: int, ghost k: nat, ghost q: Query,
                     ghost strs: set<CacheStr>, ghost was: Start, ghost r: Results, ghost r1: Results)
    requires k < |pl.main| && it == pl.main[k] && 0 < idx && q.memo.Keys == strs && AllFields(pl.main, strs)
    requires q.text == text && q.hit == hit && q.idx == idx
    requires r == SoFar(pl.main, k, q) && r1 == SoFar(pl.main, k + 1, q)
    requires Searching(pl, r.found, was) && MemoOf(strs) == r.memo
    modifies pl`head, pl`tail, pl`count, was.all`next, was.all`prev, strs`cmpidx
    ensures pl.main == old(pl.main) && Searching(pl, r1.found, was) && MemoOf(strs) == r1.memo
  {
    hide *;
    ThisTrack(pl, k, q, r, was);
    if text != [] {
      VisitTrack(pl, it, idx, hit, strs, r, was);
    }
  }

  lemma NextTrack(pl: Playlist, s: seq<PlayItem>, k: nat, was: Start)
    requires Searching(pl, s, was) && k < |pl.main|
    ensures ItemAt(pl.main, k) == pl.main[k] && pl.main[k].next.main == ItemAt(pl.main, k + 1)
  {
  }

  lemma FirstTrack(pl: Playlist, s: seq<PlayItem>, was: Start)
    requires Searching(pl, s, was)
    ensures pl.head.main == ItemAt(pl.main, 0)
  {
  }

  lemma LastTrack(s: seq<PlayItem>, k: nat)
    requires k <= |s|
    ensures ItemAt(s, k) == null <==> k == |s|
  {
  }

  /** The loop of plt_search_process2 over the tracks; `r` is what it comes to. */
  method SearchTracks(pl: Playlist, text: seq<byte>, hit: Hit, ghost q: Query, ghost strs: set<CacheStr>,
                      ghost was: Start, ghost r: Results)
    requires Searching(pl, [], was) && 0 < pl.searchCmpidx && AllFields(pl.main, strs)
    requires q == Query(text, hit, pl.searchCmpidx, MemoOf(strs)) && r == SoFar(pl.main, |pl.main|, q)
    modifies pl`head, pl`tail, pl`count, was.all`next, was.all`prev, strs`cmpidx
    ensures pl.main == old(pl.main) && Searching(pl, r.found, was) && MemoOf(strs) == r.memo
  {
    hide *;
    var idx := pl.searchCmpidx;
    ghost var main, k, now := pl.main, 0, SoFar(pl.main, 0, q);
    SoFarEnds(main, q);
    FirstTrack(pl, [], was);
    var it := pl.head.main;
    while it != null
      invariant pl.main == main && k <= |main| && it == ItemAt(main, k) && AllFields(main, strs)
      invariant now == SoFar(main, k, q) && Searching(pl, now.found, was) && MemoOf(strs) == now.memo
      decreases |main| - k
    {
      LastTrack(main, k);
      NextTrack(pl, now.found, k, was);
      ghost var next := SoFar(main, k + 1, q);
      SearchTrack(pl, it, text, hit, idx, k, q, strs, was, now, next);
      NextTrack(pl, next.found, k, was);
      it, k, now := it.next.main, k + 1, next;
    }
    LastTrack(main, k);
  }

  /** plt_search_process2: `r` is what it comes to. */
  method RunSearch(pl: Playlist, text: seq<byte>, hit: Hit, ghost q: Query, ghost strs: set<CacheStr>,
                   ghost was: Start, ghost r: Results)
    requires pl.Valid() && Walkable(pl, was.all) && was == StartOf(pl, was.all)
    requires 0 <= pl.searchCmpidx <= MAX_INDEX && AllFields(pl.main, strs)
    requires q == Query(text, hit, NextIndex(pl.searchCmpidx), MemoOf(strs)) && r == SoFar(pl.main, |pl.main|, q)
    modifies pl`head, pl`tail, pl`count, pl`searchCmpidx, was.all`next, was.all`prev, strs`cmpidx
    ensures pl.main == old(pl.main) && pl.searchCmpidx == q.idx
    ensures Searching(pl, r.found, was) && MemoOf(strs) == r.memo
  {
    hide *;
    ForgetResults(pl, was);
    NextNumber(pl);
    SearchTracks(pl, text, hit, q, strs, was, r);
  }

  /** plt_search_process2, from any search links whatever, as long as the reset can follow them. The search list
      becomes exactly the tracks of the walk, and strings carry the new verdicts. Search links of other tracks are
      lost where the reset came to and stay elsewhere; so the result is a well-formed search list if and only if
      those elsewhere had none, as is the case if there was a well-formed list `s` before. */
  method SearchProcess(pl: Playlist, text: seq<byte>, hit: Hit, ghost s: seq<PlayItem>, ghost all: set<PlayItem>,
                       ghost strs: set<CacheStr>)
    requires pl.Valid() && Walkable(pl, all) && 0 <= pl.searchCmpidx <= MAX_INDEX && AllFields(pl.main, strs)
    modifies pl`head, pl`tail, pl`count, pl`searchCmpidx, all`next, all`prev, strs`cmpidx
    ensures pl.main == old(pl.main) && pl.Valid() && Walkable(pl, all) && (old(pl.Inside(all)) ==> pl.Inside(all))
    ensures pl.searchCmpidx == NextIndex(old(pl.searchCmpidx)) && AllFields(pl.main, strs)
    ensures var r := Outcome(pl.main, Query(text, hit, pl.searchCmpidx, old(MemoOf(strs))));
      && MemoOf(strs) == r.memo && Listed(pl, r.found) && Rest(r.found, old(StartOf(pl, all)))
      && (pl.SearchIs(r.found, pl.main) <==> NoneLeft(r.found, pl.main, old(StartOf(pl, all))))
      && (old(pl.SearchIs(s, pl.main)) ==> pl.SearchIs(r.found, pl.main))
  {
    hide *;
    ghost var was, q := StartOf(pl, all), Query(text, hit, NextIndex(pl.searchCmpidx), MemoOf(strs));
    ghost var r := Outcome(pl.main, q);
    SoFarEnds(pl.main, q);
    StartIs(pl, all);
    if pl.Inside(all) {
      InsideStart(pl, all);
    }
    if pl.SearchIs(s, pl.main) {
      CleanBefore(pl, s, r.found, all);
    }
    RunSearch(pl, text, hit, q, strs, was, r);
    SearchingValid(pl, r.found, was);
    if StartInside(pl.main, all, was) {
      StillInside(pl, r.found, was);
    }
    CleanResult(pl, r.found, was);
    ListedWalkable(pl, r.found, all);
  }
}
