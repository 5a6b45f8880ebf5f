/** A playlist file cut short, as by a full disk: what the loader still finds. */
module DbplCut {
  import opened PlayItems
  import opened ByteOrder
  import opened MetaSpec
  import opened Dbpl
  import opened DbplProofs

  /** Reading the first m bytes instead of all: the same up to there, failure beyond. */
  ghost predicate Follows<T>(cut: Result<At<T>>, full: Result<At<T>>, m: nat) {
    full.Ok? ==> cut == if full.value.next <= m then full else Err
  }

  lemma ReadCut(b: seq<byte>, m: nat, p: nat, n: nat)
    requires m <= |b|
    ensures Follows(Read(b[..m], p, n), Read(b, p, n), m)
  {
    if p + n <= m {
      SubSlice(b, 0, m, p, p + n);
      assert b[..m] == b[0..m];
    }
  }

  lemma Read32Cut(b: seq<byte>, m: nat, p: nat)
    requires m <= |b|
    ensures Follows(Read32(b[..m], p), Read32(b, p), m)
  {
    hide Read, FromLe32;
    ReadCut(b, m, p, 4);
  }

  lemma Str16Cut(b: seq<byte>, m: nat, p: nat)
    requires m <= |b|
    ensures Follows(ReadStr16(b[..m], p), ReadStr16(b, p), m)
  {
    hide Read, FromLe16;
    ReadCut(b, m, p, 2);
    var l := Read(b, p, 2);
    if l.Ok? {
      ReadCut(b, m, l.value.next, FromLe16(l.value.value));
    }
  }

  lemma Str8Cut(b: seq<byte>, m: nat, p: nat)
    requires m <= |b|
    ensures Follows(ReadStr8(b[..m], p), ReadStr8(b, p), m)
  {
    hide Read;
    ReadCut(b, m, p, 1);
    var l := Read(b, p, 1);
    if l.Ok? {
      ReadCut(b, m, l.value.next, l.value.value[0]);
    }
  }

  lemma NamesCut(b: seq<byte>, m: nat, p: nat)
    requires m <= |b|
    ensures Follows(LoadNames(b[..m], p), LoadNames(b, p), m)
  {
    hide Read, ReadStr16, FromLe16, AddText, Put, Path, Printed;
    if LoadNames(b, p).Ok? {
      var uri := ReadStr16(b, p).value;
      Str16Cut(b, m, p);
      ReadCut(b, m, uri.next, 1);
      var n := Read(b, uri.next, 1).value;
      ReadCut(b, m, n.next, n.value[0]);
      ReadCut(b, m, n.next + n.value[0], 2);
    }
  }

  lemma {:induction false} GainsCut(env: Env, v: seq<Entry>, b: seq<byte>, m: nat, p: nat, n: nat)
    requires m <= |b| && n <= 4 && p <= m
    ensures Follows(LoadGains(env, v, b[..m], p, n), LoadGains(env, v, b, p, n), m)
    ensures LoadGains(env, v, b, p, n).Ok? ==> LoadGains(env, v, b, p, n).value.next >= p
    decreases 4 - n
  {
    hide Read32, ReplaceText;
    if n < 4 && LoadGains(env, v, b, p, n).Ok? {
      Read32Cut(b, m, p);
      Word(b, p);
      var g := Read32(b, p).value;
      var text := env.gainText(n, g.value);
      var w := if text.Some? then ReplaceText(v, RG_KEYS[n], text.value) else v;
      if g.next <= m {
        GainsCut(env, w, b, m, g.next, n + 1);
      } else {
        GainsRise(env, w, b, g.next, n + 1);
      }
    }
  }

  lemma Word(b: seq<byte>, p: nat)
    ensures Read32(b, p).Ok? ==> Read32(b, p).value.next == p + 4
  {
  }

  lemma {:induction false} GainsRise(env: Env, v: seq<Entry>, b: seq<byte>, p: nat, n: nat)
    requires n <= 4
    ensures LoadGains(env, v, b, p, n).Ok? ==> LoadGains(env, v, b, p, n).value.next >= p
    decreases 4 - n
  {
    hide Read32, ReplaceText;
    if n < 4 && LoadGains(env, v, b, p, n).Ok? {
      Word(b, p);
      var g := Read32(b, p).value;
      var text := env.gainText(n, g.value);
      GainsRise(env, if text.Some? then ReplaceText(v, RG_KEYS[n], text.value) else v, b, g.next, n + 1);
    }
  }

  lemma LegacyCut(env: Env, v: seq<Entry>, b: seq<byte>, m: nat, p: nat)
    requires m <= |b|
    ensures Follows(LoadLegacy(env, v, b[..m], p), LoadLegacy(env, v, b, p), m)
  {
    hide ReadStr8, LoadGains, Put;
    if LoadLegacy(env, v, b, p).Ok? {
      Str8Cut(b, m, p);
      var ft := ReadStr8(b, p).value;
      var w := if ft.value != [] then Put(v, FILETYPE, ft.value) else v;
      if ft.next <= m {
        GainsCut(env, w, b, m, ft.next, 0);
      } else {
        GainsRise(env, w, b, ft.next, 0);
      }
    }
  }

  // ----- metadata of a track ----------------------------------------------------------------

  lemma HoldsCut(b: seq<byte>, m: nat, p: nat, s: seq<byte>)
    requires m <= |b| && Holds(b, p, s) && p + |s| <= m
    ensures Holds(b[..m], p, s)
  {
    SubSlice(b, 0, m, p, p + |s|);
    assert b[..m] == b[0..m];
  }

  /** Within `room` bytes of saved entries the file does not end inside a value that is skipped. */
  ghost predicate Clear(v: seq<Entry>, room: int)
    decreases |v|
  {
    v == [] ||
    (ClearEntry(v[0], room) && (room >= |SaveEntry(v[0])| ==> Clear(v[1..], room - |SaveEntry(v[0])|)))
  }

  ghost predicate ClearEntry(e: Entry, room: int) {
    ShortValue(e) || room < 4 + |e.key| || room >= |SaveEntry(e)|
  }

  /** A pair that is not there as a whole fails. */
  lemma EntryCut(t: Track, e: Entry, b: seq<byte>, m: nat, p: nat, n: nat)
    requires Holds(b, p, SaveEntry(e)) && Fits(e) && ClearEntry(e, m - p) && n > 0 && m <= |b|
    requires m < p + |SaveEntry(e)|
    ensures LoadMeta(t, b[..m], p, n) == Err
  {
    hide Apply, FromLe16, Le16, Read, Str16, Inner;
    var k, v := e.key, Inner(e.value);
    HoldsBoth(b, p, Str16(k), Str16(v));
    Str16Held(b, p, k);
    Str16Held(b, p + |Str16(k)|, v);
    ReadCut(b, m, p, 2);
    ReadCut(b, m, p + 2, |k|);
    ReadCut(b, m, p + 2 + |k|, 2);
    ReadCut(b, m, p + 4 + |k|, |Cut16(v)|);
  }

  lemma {:induction false} EntriesCut(t: Track, v: seq<Entry>, b: seq<byte>, m: nat, p: nat)
    requires Holds(b, p, SaveEntries(v)) && AllFit(v) && Clear(v, m - p) && p <= m <= |b|
    ensures LoadMeta(t, b[..m], p, |v|).Ok? <==> p + |SaveEntries(v)| <= m
    decreases |v|
  {
    hide *;
    EntriesAre(t, v, b[..m], p);
    if v != [] {
      var e, rest := v[0], v[1..];
      ClearFirst(v, m - p);
      HoldsBoth(b, p, SaveEntry(e), SaveEntries(rest));
      if p + |SaveEntry(e)| <= m {
        HoldsCut(b, m, p, SaveEntry(e));
        EntryBack(t, e, b[..m], p, |v|);
        EntriesCut(Given(t, e), rest, b, m, p + |SaveEntry(e)|);
      } else {
        EntryCut(t, e, b, m, p, |v|);
      }
    }
  }

  lemma ClearFirst(v: seq<Entry>, room: int)
    requires v != [] && Clear(v, room)
    ensures ClearEntry(v[0], room)
    ensures room >= |SaveEntry(v[0])| ==> Clear(v[1..], room - |SaveEntry(v[0])|)
  {
    hide ClearEntry, SaveEntry;
  }

  /** Where a skipped value is the last one of a track, a file that ends inside it still loads as the whole track;
      the reader stays where the value starts. */
  lemma LastValueCut(t: Track, e: Entry, b: seq<byte>, m: nat, p: nat)
    requires Holds(b, p, SaveEntry(e)) && Fits(e) && !ShortValue(e) && p + 4 + |e.key| <= m < p + |SaveEntry(e)|
    requires m <= |b|
    ensures LoadMeta(t, b[..m], p, 1) == Ok(At(t, p + 4 + |e.key|))
  {
    hide Apply, FromLe16, Le16, Read, Str16, Inner;
    var k, v := e.key, Inner(e.value);
    HoldsBoth(b, p, Str16(k), Str16(v));
    Str16Held(b, p, k);
    Str16Held(b, p + |Str16(k)|, v);
    ReadCut(b, m, p, 2);
    ReadCut(b, m, p + 2, |k|);
    ReadCut(b, m, p + 2 + |k|, 2);
    AfterLast(t, b[..m], p + 4 + |k|);
  }

  lemma AfterLast(t: Track, b: seq<byte>, p: nat)
    ensures LoadMeta(t, b, p, 0) == Ok(At(t, p))
  {
  }

  // ----- tracks -----------------------------------------------------------------------------

  /** Where the pairs of a saved track start. */
  function MetaAt(env: Env, t: Track): nat {
    |SaveNames(env, t)| + |Str8(Text(t.meta, FILETYPE))| + 34
  }

  ghost predicate ClearTrack(env: Env, t: Track, room: int) {
    Clear(Saved(t.meta), room - MetaAt(env, t))
  }

  /** A track that is not there as a whole fails. */
  lemma TrackCut(env: Env, t: Track, b: seq<byte>, m: nat, p: nat)
    requires EnvOk(env) && TrackFits(t) && Loadable(t) && Holds(b, p, SaveTrack(env, t)) && p <= m <= |b|
      && m < p + |SaveTrack(env, t)| && ClearTrack(env, t, m - p)
    ensures LoadTrack(env, MINOR, b[..m], p) == Err
  {
    hide EnvOk, SaveTrack, Holds, Text, SaveNames, SaveEntries, SaveGains, Le32, Le16, Read, Read32, Str8, LoadNames,
         LoadLegacy, LoadMeta, Legacy, Names, ReplaceText, FromLe16, AllFit, Saved, Clear;
    var q, ft := p + |SaveNames(env, t)|, Str8(Text(t.meta, FILETYPE));
    var r, saved, short := q + 12 + |ft| + 16, Saved(t.meta), b[..m];
    TrackParts(env, t, b, p);
    NamesBack(env, t, b, p);
    NamesCut(b, m, p);
    WordHeld(b, q, t.start.word);
    Read32Cut(b, m, q);
    WordHeld(b, q + 4, t.end.word);
    Read32Cut(b, m, q + 4);
    WordHeld(b, q + 8, t.duration);
    Read32Cut(b, m, q + 8);
    var v1 := ReplaceText(Names(env, t).0, DURATION, env.durationText(t.duration));
    LegacyBack(env, t, v1, b, q + 12);
    LegacyCut(env, v1, b, m, q + 12);
    WordHeld(b, r, t.flags);
    Read32Cut(b, m, r);
    ReadHeld(b, r + 4, Le16(|saved|));
    ReadCut(b, m, r + 4, 2);
    Le16Back(|saved|);
    if r + 6 <= m {
      var v2 := ReplaceText(Legacy(env, t, v1), TAGS, env.tagsText(t.flags));
      var v3 := ReplaceText(v2, HAS_CUESHEET, env.cuesheetText(t.flags));
      var base := Track(v3, Sample(t.start.word, None), Sample(t.end.word, None), t.duration, t.flags);
      EntriesCut(base, saved, b, m, r + 6);
    }
  }

  /** How many tracks lie within `room` bytes. */
  function Kept(env: Env, tracks: seq<Track>, room: int): (k: nat)
    ensures k <= |tracks|
  {
    if tracks == [] || |SaveTrack(env, tracks[0])| > room then 0
    else 1 + Kept(env, tracks[1..], room - |SaveTrack(env, tracks[0])|)
  }

  /** Within `room` bytes of saved tracks the file does not end inside a value that is skipped. */
  ghost predicate ClearTracks(env: Env, tracks: seq<Track>, room: int) {
    tracks == [] ||
    if room < |SaveTrack(env, tracks[0])| then ClearTrack(env, tracks[0], room)
    else ClearTracks(env, tracks[1..], room - |SaveTrack(env, tracks[0])|)
  }

  ghost predicate AllLoadable(tracks: seq<Track>) {
    forall i :: 0 <= i < |tracks| ==> TrackFits(tracks[i]) && Loadable(tracks[i])
  }

  lemma {:induction false} TracksCut(env: Env, tracks: seq<Track>, b: seq<byte>, m: nat, p: nat)
    requires EnvOk(env) && Holds(b, p, SaveTracks(env, tracks)) && p <= m <= |b|
    requires AllLoadable(tracks) && ClearTracks(env, tracks, m - p)
    ensures var r := LoadTracks(env, MINOR, b[..m], p, |tracks|);
      && r.items == RestoredAll(env, tracks)[..Kept(env, tracks, m - p)]
      && r.next == if p + |SaveTracks(env, tracks)| <= m then Some(p + |SaveTracks(env, tracks)|) else None
    decreases |tracks|
  {
    hide EnvOk, TrackFits, Loadable, Holds, SaveTrack, LoadTrack, Restored, SaveTracks, LoadTracks, RestoredAll,
         ClearTrack;
    TracksAre(env, tracks, b[..m], p);
    if tracks != [] {
      var t, rest := tracks[0], tracks[1..];
      HoldsBoth(b, p, SaveTrack(env, t), SaveTracks(env, rest));
      if p + |SaveTrack(env, t)| <= m {
        HoldsCut(b, m, p, SaveTrack(env, t));
        TrackBack(env, t, b[..m], p);
        TracksCut(env, rest, b, m, p + |SaveTrack(env, t)|);
      } else {
        TrackCut(env, t, b, m, p);
      }
    }
  }

  // ----- metadata of the playlist -------------------------------------------------------------

  /** How many pairs lie within `room` bytes. */
  function KeptPairs(pairs: seq<Entry>, room: int): (k: nat)
    ensures k <= |pairs|
  {
    if pairs == [] || |Str16(pairs[0].key) + Str16(CString(pairs[0].value))| > room then 0
    else 1 + KeptPairs(pairs[1..], room - |Str16(pairs[0].key) + Str16(CString(pairs[0].value))|)
  }

  /** Within `room` bytes of saved pairs the file does not end inside a value that is skipped. */
  ghost predicate ClearPairs(pairs: seq<Entry>, room: int) {
    pairs == [] ||
    var l := |Str16(pairs[0].key) + Str16(CString(pairs[0].value))|;
    && (ShortValue(pairs[0]) || room < 4 + |pairs[0].key| || room >= l)
    && (room >= l ==> ClearPairs(pairs[1..], room - l))
  }

  lemma PairCut(done: seq<Entry>, e: Entry, b: seq<byte>, m: nat, p: nat, n: nat)
    requires PairFits(e) && n > 0 && Holds(b, p, Str16(e.key) + Str16(CString(e.value)))
    requires m <= |b| && m < p + |Str16(e.key) + Str16(CString(e.value))|
    requires ShortValue(e) || m < p + 4 + |e.key|
    ensures LoadPairs(done, b[..m], p, n) == Part(done, None)
  {
    hide FromLe16, Le16, Read, Str16, CString, Holds, PairFits, Inner;
    ShortText(e);
    TextIs(e);
    var k, v := e.key, CString(e.value);
    HoldsBoth(b, p, Str16(k), Str16(v));
    Str16Held(b, p, k);
    Str16Held(b, p + |Str16(k)|, v);
    ReadCut(b, m, p, 2);
    ReadCut(b, m, p + 2, |k|);
    ReadCut(b, m, p + 2 + |k|, 2);
    ReadCut(b, m, p + 4 + |k|, |v|);
  }

  lemma {:induction false} PairsCut(done: seq<Entry>, pairs: seq<Entry>, b: seq<byte>, m: nat, p: nat)
    requires PairsFit(done + pairs) && Holds(b, p, SavePairs(pairs)) && p <= m <= |b| && ClearPairs(pairs, m - p)
    ensures var r := LoadPairs(done, b[..m], p, |pairs|);
      && r.items == done + Taken(pairs[..KeptPairs(pairs, m - p)])
      && (r.next.Some? <==> p + |SavePairs(pairs)| <= m)
    decreases |pairs|
  {
    hide *;
    PairsAre(done, pairs, b[..m], p);
    KeptPairsAre(done, pairs, m - p);
    if pairs != [] {
      var e, rest := pairs[0], pairs[1..];
      var s := Str16(e.key) + Str16(CString(e.value));
      HoldsBoth(b, p, s, SavePairs(rest));
      ClearPairsFirst(pairs, m - p);
      if p + |s| <= m {
        HoldsCut(b, m, p, s);
        NewPair(done, e, rest);
        PairBack(done, e, b[..m], p, |pairs|);
        PairsCut(Gained(done, e), rest, b, m, p + |s|);
      } else {
        PairCut(done, e, b, m, p, |pairs|);
      }
    }
  }

  lemma ClearPairsFirst(pairs: seq<Entry>, room: int)
    requires pairs != [] && ClearPairs(pairs, room)
    ensures var l := |Str16(pairs[0].key) + Str16(CString(pairs[0].value))|;
      && (ShortValue(pairs[0]) || room < 4 + |pairs[0].key| || room >= l)
      && (room >= l ==> ClearPairs(pairs[1..], room - l))
  {
    hide Str16, CString, ShortValue;
  }

  lemma KeptPairsAre(done: seq<Entry>, pairs: seq<Entry>, room: int)
    requires room >= 0 && PairsFit(done + pairs)
    ensures pairs == [] ==> done + Taken(pairs[..KeptPairs(pairs, room)]) == done
    ensures pairs != [] ==>
      var e, rest := pairs[0], pairs[1..];
      var l := |Str16(e.key) + Str16(CString(e.value))|;
      done + Taken(pairs[..KeptPairs(pairs, room)]) ==
        if l > room then done else Gained(done, e) + Taken(rest[..KeptPairs(rest, room - l)])
  {
    hide Str16, CString, PairFits, ShortValue, AddPair;
    if pairs != [] {
      var e, rest := pairs[0], pairs[1..];
      var l := |Str16(e.key) + Str16(CString(e.value))|;
      PairsAre(done, pairs, [], 0);
      NewPair(done, e, rest);
      if l <= room {
        var kept := pairs[..KeptPairs(pairs, room)];
        assert kept[0] == e && kept[1..] == rest[..KeptPairs(rest, room - l)];
      }
    }
  }

  lemma NoneKept(env: Env, tracks: seq<Track>, pairs: seq<Entry>, m: nat)
    ensures var q := 10 + |SaveTracks(env, tracks)|;
      && (m < 10 ==> Kept(env, tracks, m - 10) == 0) && (m < q + 2 ==> KeptPairs(pairs, m - q - 2) == 0)
      && |Save(env, tracks, pairs)| == q + 2 + |SavePairs(pairs)| && Taken(pairs[..0]) == []
  {
    hide SaveTracks, SaveTrack, SavePairs, Str16, CString, Le32, Le16;
  }

  lemma NoHead(env: Env, b: seq<byte>)
    requires LoadHead(b).Err?
    ensures Load(env, b) == Loaded(false, [], [])
  {
  }

  // ----- whole files ------------------------------------------------------------------------

  /** The first m bytes of a saved playlist: the tracks that lie in them as a whole come back, in order,
      and so do the pairs of playlist metadata. The loader reports success only for the whole file and
      for a file that ends with its tracks. */
  lemma CutShort(env: Env, tracks: seq<Track>, pairs: seq<Entry>, m: nat)
    requires EnvOk(env) && |tracks| < U32 && PairsFit(pairs) && AllLoadable(tracks)
    requires m <= |Save(env, tracks, pairs)| && ClearTracks(env, tracks, m - 10)
    requires ClearPairs(pairs, m - 12 - |SaveTracks(env, tracks)|)
    ensures var r, q := Load(env, Save(env, tracks, pairs)[..m]), 10 + |SaveTracks(env, tracks)|;
      && r.tracks == RestoredAll(env, tracks)[..Kept(env, tracks, m - 10)]
      && r.pairs == Taken(pairs[..KeptPairs(pairs, m - q - 2)])
      && (r.ok <==> m == |Save(env, tracks, pairs)| || q <= m < q + 2)
  {
    hide *;
    var b, q := Save(env, tracks, pairs), 10 + |SaveTracks(env, tracks)|;
    var short := b[..m];
    FileParts(env, tracks, pairs);
    HeadSizes();
    FewPairs(pairs);
    ReadHeld(b, 0, MAGIC + [MAJOR, MINOR]);
    WordHeld(b, 6, |tracks|);
    ReadCut(b, m, 0, 6);
    Read32Cut(b, m, 6);
    NoneKept(env, tracks, pairs, m);
    FollowsIs(Read(short, 0, 6), Read(b, 0, 6), m);
    FollowsIs(Read32(short, 6), Read32(b, 6), m);
    if m < 10 {
      ShortHead(short);
      NoHead(env, short);
    } else {
      LoadIs(env, short, |tracks|);
      TracksCut(env, tracks, b, m, 10);
      if q <= m {
        ReadHeld(b, q, Le16(|pairs|));
        ReadCut(b, m, q, 2);
        FollowsIs(Read(short, q, 2), Read(b, q, 2), m);
        Le16Back(|pairs|);
        if q + 2 <= m {
          PairsCut([], pairs, b, m, q + 2);
        }
      }
    }
  }

  lemma FollowsIs<T>(cut: Result<At<T>>, full: Result<At<T>>, m: nat)
    requires Follows(cut, full, m) && full.Ok?
    ensures cut == if full.value.next <= m then full else Err
  {
  }

  lemma ShortHead(b: seq<byte>)
    requires |b| < 10
    ensures LoadHead(b).Err?
  {
  }
}
