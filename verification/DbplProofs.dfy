/** Saving a playlist and loading it into an empty one gives the tracks back. */
module DbplProofs {
  import opened PlayItems
  import opened ByteOrder
  import opened MetaSpec
  import opened Dbpl

  // ----- pieces of a buffer ----------------------------------------------------------------

  /** The bytes `s` stand at position `p`. */
  predicate Holds(b: seq<byte>, p: nat, s: seq<byte>) {
    p + |s| <= |b| && b[p..p + |s|] == s
  }

  lemma HoldsBoth(b: seq<byte>, p: nat, x: seq<byte>, y: seq<byte>)
    requires Holds(b, p, x + y)
    ensures Holds(b, p, x) && Holds(b, p + |x|, y)
  {
    var s := b[p..p + |x + y|];
    assert s[..|x|] == x && s[|x|..] == y;
    SubSlice(b, p, p + |x + y|, 0, |x|);
    SubSlice(b, p, p + |x + y|, |x|, |x + y|);
  }

  lemma ReadHeld(b: seq<byte>, p: nat, s: seq<byte>)
    requires Holds(b, p, s)
    ensures Read(b, p, |s|) == Ok(At(s, p + |s|))
  {
  }

  lemma Le16Back(n: nat)
    requires n < 0x1_0000
    ensures FromLe16(Le16(n)) == n
  {
  }

  /** A string cut to 65535 bytes. */
  function Cut16(s: seq<byte>): (r: seq<byte>)
    ensures |r| <= 0xffff && (|s| <= 0xffff ==> r == s) && (|r| < 0xffff ==> r == s)
  {
    s[..Min(0xffff, |s|)]
  }

  lemma Str16Held(b: seq<byte>, p: nat, s: seq<byte>)
    requires Holds(b, p, Str16(s))
    ensures |Str16(s)| == 2 + |Cut16(s)|
    ensures Read(b, p, 2) == Ok(At(Le16(|Cut16(s)|), p + 2)) && FromLe16(Le16(|Cut16(s)|)) == |Cut16(s)|
    ensures Read(b, p + 2, |Cut16(s)|) == Ok(At(Cut16(s), p + 2 + |Cut16(s)|))
  {
    var r := Cut16(s);
    Le16Back(|r|);
    hide Le16, FromLe16;
    HoldsBoth(b, p, Le16(|r|), r);
    ReadHeld(b, p, Le16(|r|));
    ReadHeld(b, p + 2, r);
  }

  /** A string cut to 255 bytes. */
  function Short(s: seq<byte>): (r: seq<byte>)
    ensures |r| <= 0xff && (|s| <= 0xff ==> r == s) && (r == [] <==> s == [])
  {
    s[..Min(0xff, |s|)]
  }

  lemma Str8Held(b: seq<byte>, p: nat, s: seq<byte>)
    requires Holds(b, p, Str8(s))
    ensures |Str8(s)| == 1 + |Short(s)|
    ensures Read(b, p, 1) == Ok(At([|Short(s)|], p + 1))
      && Read(b, p + 1, |Short(s)|) == Ok(At(Short(s), p + 1 + |Short(s)|))
  {
    var r := Short(s);
    HoldsBoth(b, p, [|r|], r);
    ReadHeld(b, p, [|r|]);
    ReadHeld(b, p + 1, r);
  }

  lemma WordHeld(b: seq<byte>, p: nat, n: nat)
    requires Holds(b, p, Le32(n)) && n < U32
    ensures Read32(b, p) == Ok(At(n, p + 4))
  {
    Le32Back(n);
    ReadHeld(b, p, Le32(n));
  }

  // ----- metadata ---------------------------------------------------------------------------

  /** The loader takes keys of fewer than 20000 bytes and fails on any other. */
  predicate Fits(e: Entry) {
    |e.key| < 20000
  }

  /** It takes values of fewer than 20000 bytes and skips any other. */
  predicate ShortValue(e: Entry) {
    |Inner(e.value)| < 20000
  }

  /** The entries whose values are taken, in order. */
  function Taken(v: seq<Entry>): (r: seq<Entry>)
    ensures forall e :: e in r <==> e in v && ShortValue(e)
  {
    if v == [] then []
    else if ShortValue(v[0]) then [v[0]] + Taken(v[1..])
    else Taken(v[1..])
  }

  function ApplyAll(t: Track, v: seq<Entry>): Track
    decreases |v|
  {
    if v == [] then t else ApplyAll(Apply(t, v[0].key, Inner(v[0].value)), v[1..])
  }

  ghost predicate AllFit(v: seq<Entry>) {
    forall i :: 0 <= i < |v| ==> Fits(v[i])
  }

  /** What one entry of the file does to the track. */
  function Given(t: Track, e: Entry): Track {
    if ShortValue(e) then Apply(t, e.key, Inner(e.value)) else t
  }

  /** From the bytes of saved entries, values of any length: those that are taken come back and the reader stops
      right behind the last one, unless a key is too long. */
  lemma {:induction false} EntriesBack(t: Track, v: seq<Entry>, b: seq<byte>, p: nat)
    requires Holds(b, p, SaveEntries(v))
    ensures LoadMeta(t, b, p, |v|) ==
      if AllFit(v) then Ok(At(ApplyAll(t, Taken(v)), p + |SaveEntries(v)|)) else Err
    decreases |v|
  {
    hide *;
    EntriesAre(t, v, b, p);
    if v != [] {
      var e, rest := v[0], v[1..];
      HoldsBoth(b, p, SaveEntry(e), SaveEntries(rest));
      EntryBack(t, e, b, p, |v|);
      if Fits(e) {
        EntriesBack(Given(t, e), rest, b, p + |SaveEntry(e)|);
      }
    }
  }

  lemma EntriesAre(t: Track, v: seq<Entry>, b: seq<byte>, p: nat)
    ensures v == [] ==> SaveEntries(v) == [] && Taken(v) == [] && ApplyAll(t, Taken(v)) == t && AllFit(v)
    ensures LoadMeta(t, b, p, 0) == Ok(At(t, p))
    ensures v != [] ==> SaveEntries(v) == SaveEntry(v[0]) + SaveEntries(v[1..])
    ensures v != [] ==> ApplyAll(t, Taken(v)) == ApplyAll(Given(t, v[0]), Taken(v[1..]))
    ensures v != [] ==> (AllFit(v) <==> Fits(v[0]) && AllFit(v[1..]))
  {
    hide SaveEntry, Apply, Inner, Fits, ShortValue;
    if v != [] {
      TakenFirst(t, v);
      assert forall i :: 0 < i < |v| ==> v[i] == v[1..][i - 1];
    }
  }

  lemma TakenFirst(t: Track, v: seq<Entry>)
    requires v != []
    ensures ApplyAll(t, Taken(v)) == ApplyAll(Given(t, v[0]), Taken(v[1..]))
  {
    hide Apply, Inner, ShortValue;
    if ShortValue(v[0]) {
      assert ([v[0]] + Taken(v[1..]))[1..] == Taken(v[1..]);
    }
  }

  lemma EntryBack(t: Track, e: Entry, b: seq<byte>, p: nat, n: nat)
    requires Holds(b, p, SaveEntry(e)) && n > 0
    ensures LoadMeta(t, b, p, n) ==
      if Fits(e) then LoadMeta(Given(t, e), b, p + |SaveEntry(e)|, n - 1) else Err
  {
    hide Apply, FromLe16, Le16, Read, Str16, Inner, Holds;
    HoldsBoth(b, p, Str16(e.key), Str16(Inner(e.value)));
    Str16Held(b, p, e.key);
    Str16Held(b, p + |Str16(e.key)|, Inner(e.value));
    HeldInside(b, p, SaveEntry(e));
  }

  lemma HeldInside(b: seq<byte>, p: nat, s: seq<byte>)
    requires Holds(b, p, s)
    ensures p + |s| <= |b|
  {
  }

  // ----- tracks -----------------------------------------------------------------------------

  /** Numbers fit their fields. */
  ghost predicate TrackFits(t: Track) {
    && t.start.word < U32 && t.end.word < U32 && t.duration < U32 && t.flags < U32
    && |Saved(t.meta)| < 0x8000
  }

  /** The loader takes the track: a decoder of fewer than 20 bytes, keys of fewer than 20000. */
  ghost predicate Loadable(t: Track) {
    |Text(t.meta, DECODER)| < 20 && AllFit(Saved(t.meta))
  }

  /** What the loader has before it comes to the metadata: derived keys only. */
  function Names(env: Env, t: Track): (r: (seq<Entry>, int)) {
    var v1 := AddText([], URI, Path(Text(t.meta, URI)));
    var v2 := if Text(t.meta, DECODER) != [] then AddText(v1, DECODER, Text(t.meta, DECODER)) else v1;
    var n := env.trackNum(t.meta) as int;
    (Put(v2, TRACKNUM, Printed(n)), n)
  }

  function Gains(env: Env, t: Track, v: seq<Entry>, n: nat): seq<Entry>
    requires n <= 4
    decreases 4 - n
  {
    if n == 4 then v
    else
      var text := env.gainText(n, env.gain(t.meta, n));
      Gains(env, t, if text.Some? then ReplaceText(v, RG_KEYS[n], text.value) else v, n + 1)
  }

  function Legacy(env: Env, t: Track, v: seq<Entry>): seq<Entry> {
    var ft := Short(Text(t.meta, FILETYPE));
    Gains(env, t, if ft != [] then Put(v, FILETYPE, ft) else v, 0)
  }

  function Derived(env: Env, t: Track): seq<Entry> {
    var v1 := ReplaceText(Names(env, t).0, DURATION, env.durationText(t.duration));
    var v2 := ReplaceText(Legacy(env, t, v1), TAGS, env.tagsText(t.flags));
    ReplaceText(v2, HAS_CUESHEET, env.cuesheetText(t.flags))
  }

  /** The track that comes out of the file. */
  function Restored(env: Env, t: Track): Track {
    ApplyAll(Track(Derived(env, t), Sample(t.start.word, None), Sample(t.end.word, None), t.duration, t.flags),
             Taken(Saved(t.meta)))
  }

  lemma NamesBack(env: Env, t: Track, b: seq<byte>, p: nat)
    requires Holds(b, p, SaveNames(env, t))
    ensures LoadNames(b, p) ==
      if |Text(t.meta, DECODER)| < 20 then Ok(At(Names(env, t), p + |SaveNames(env, t)|)) else Err
  {
    var uri, decoder, n := Text(t.meta, URI), Text(t.meta, DECODER), env.trackNum(t.meta);
    hide Text, AddText, Put, Printed, Path, Read, Str16, Str8, FromLe16, Le16;
    HoldsBoth(b, p, Str16(uri) + Str8(decoder), Le16(n));
    HoldsBoth(b, p, Str16(uri), Str8(decoder));
    var q := p + |Str16(uri)|;
    Str16Held(b, p, uri);
    Str8Held(b, q, decoder);
    ReadHeld(b, q + |Str8(decoder)|, Le16(n));
    Le16Back(n);
    PathOfCut(t, uri);
  }

  /** The URI is cut to 4095 bytes in any case. */
  lemma PathOfCut(t: Track, uri: seq<byte>)
    requires uri == Text(t.meta, URI)
    ensures Path(Cut16(uri)) == Path(uri)
  {
    hide Raw, Find;
    assert 0 !in uri;
    assert 0 !in Cut16(uri);
    NoZero(uri);
    NoZero(Cut16(uri));
    hide CString;
  }

  lemma {:induction false} GainsBack(env: Env, t: Track, v: seq<Entry>, b: seq<byte>, p: nat, n: nat)
    requires EnvOk(env) && n <= 4 && forall i :: n <= i < 4 ==> Holds(b, p + 4 * (i - n), Le32(env.gain(t.meta, i)))
    ensures LoadGains(env, v, b, p, n) == Ok(At(Gains(env, t, v, n), p + 4 * (4 - n)))
    decreases 4 - n
  {
    hide ReplaceText, Holds, Read32, Le32;
    if n < 4 {
      var g := env.gain(t.meta, n);
      assert Holds(b, p + 4 * (n - n), Le32(g));
      WordHeld(b, p, g);
      var text := env.gainText(n, g);
      GainsBack(env, t, if text.Some? then ReplaceText(v, RG_KEYS[n], text.value) else v, b, p + 4, n + 1);
    }
  }

  lemma LegacyBack(env: Env, t: Track, v: seq<Entry>, b: seq<byte>, p: nat)
    requires EnvOk(env)
    requires Holds(b, p, Str8(Text(t.meta, FILETYPE)) + SaveGains(env, t))
    ensures LoadLegacy(env, v, b, p) == Ok(At(Legacy(env, t, v), p + |Str8(Text(t.meta, FILETYPE))| + 16))
  {
    var ft := Text(t.meta, FILETYPE);
    hide Text, Put, Read, Str8, Le32, LoadGains, Gains;
    HoldsBoth(b, p, Str8(ft), SaveGains(env, t));
    Str8Held(b, p, ft);
    var q := p + |Str8(ft)|;
    FourWords(b, q, Le32(env.gain(t.meta, 0)), Le32(env.gain(t.meta, 1)), Le32(env.gain(t.meta, 2)),
              Le32(env.gain(t.meta, 3)));
    GainsBack(env, t, if Short(ft) != [] then Put(v, FILETYPE, Short(ft)) else v, b, q, 0);
  }

  lemma FourWords(b: seq<byte>, p: nat, w: seq<byte>, x: seq<byte>, y: seq<byte>, z: seq<byte>)
    requires |w| == |x| == |y| == |z| == 4 && Holds(b, p, w + x + y + z)
    ensures Holds(b, p, w) && Holds(b, p + 4, x) && Holds(b, p + 8, y) && Holds(b, p + 12, z)
  {
    HoldsBoth(b, p, w + x + y, z);
    HoldsBoth(b, p, w + x, y);
    HoldsBoth(b, p, w, x);
  }

  /** The positions of the parts of a track. */
  lemma TrackParts(env: Env, t: Track, b: seq<byte>, p: nat)
    requires Holds(b, p, SaveTrack(env, t))
    ensures var q := p + |SaveNames(env, t)|; var ft := Str8(Text(t.meta, FILETYPE)); var r := q + 12 + |ft| + 16;
      && Holds(b, p, SaveNames(env, t))
      && Holds(b, q, Le32(t.start.word)) && Holds(b, q + 4, Le32(t.end.word)) && Holds(b, q + 8, Le32(t.duration))
      && Holds(b, q + 12, ft + SaveGains(env, t))
      && Holds(b, r, Le32(t.flags)) && Holds(b, r + 4, Le16(|Saved(t.meta)|))
      && Holds(b, r + 6, SaveEntries(Saved(t.meta)))
      && |SaveTrack(env, t)| == r + 6 + |SaveEntries(Saved(t.meta))| - p
  {
    var names, samples, ft := SaveNames(env, t), SaveSamples(t), Str8(Text(t.meta, FILETYPE)) + SaveGains(env, t);
    var meta := SaveMeta(Saved(t.meta));
    hide SaveNames, SaveGains, Str8, Text, Le32, Le16, SaveEntries, Holds;
    HoldsBoth(b, p, names + samples + ft + Le32(t.flags), meta);
    HoldsBoth(b, p, names + samples + ft, Le32(t.flags));
    HoldsBoth(b, p, names + samples, ft);
    HoldsBoth(b, p, names, samples);
    var q := p + |names|;
    HoldsBoth(b, q, Le32(t.start.word) + Le32(t.end.word), Le32(t.duration));
    HoldsBoth(b, q, Le32(t.start.word), Le32(t.end.word));
    HoldsBoth(b, q + 12 + |ft| + 4, Le16(|Saved(t.meta)|), SaveEntries(Saved(t.meta)));
  }

  /** A saved track is read back as a whole, whatever follows it, if and only if the loader takes it. */
  lemma TrackBack(env: Env, t: Track, b: seq<byte>, p: nat)
    requires EnvOk(env) && TrackFits(t) && Holds(b, p, SaveTrack(env, t))
    ensures LoadTrack(env, MINOR, b, p) ==
      if Loadable(t) then Ok(At(Restored(env, t), p + |SaveTrack(env, t)|)) else Err
  {
    hide EnvOk, SaveTrack, Holds, Text, SaveNames, SaveEntries, SaveGains, Le32, Le16, Read, Read32, Str8, LoadNames,
         LoadLegacy, LoadMeta, Legacy, Names, ReplaceText, ApplyAll, FromLe16, AllFit, Saved, Taken;
    var q, ft := p + |SaveNames(env, t)|, Str8(Text(t.meta, FILETYPE));
    var r, saved := q + 12 + |ft| + 16, Saved(t.meta);
    TrackParts(env, t, b, p);
    NamesBack(env, t, b, p);
    WordHeld(b, q, t.start.word);
    WordHeld(b, q + 4, t.end.word);
    WordHeld(b, q + 8, t.duration);
    var v1 := ReplaceText(Names(env, t).0, DURATION, env.durationText(t.duration));
    LegacyBack(env, t, v1, b, q + 12);
    WordHeld(b, r, t.flags);
    ReadHeld(b, r + 4, Le16(|saved|));
    Le16Back(|saved|);
    var base := Track(Derived(env, t), Sample(t.start.word, None), Sample(t.end.word, None), t.duration, t.flags);
    EntriesBack(base, saved, b, r + 6);
  }

  // ----- whole files ------------------------------------------------------------------------

  function RestoredAll(env: Env, tracks: seq<Track>): (r: seq<Track>)
    ensures |r| == |tracks| && forall i :: 0 <= i < |r| ==> r[i] == Restored(env, tracks[i])
  {
    seq(|tracks|, i requires 0 <= i < |tracks| => Restored(env, tracks[i]))
  }

  /** How many tracks the loader takes before one that it does not take. */
  ghost function Leading(tracks: seq<Track>): (k: nat)
    ensures k <= |tracks|
    ensures k == |tracks| <==> forall i :: 0 <= i < |tracks| ==> Loadable(tracks[i])
    ensures k < |tracks| ==> !Loadable(tracks[k])
  {
    if tracks == [] || !Loadable(tracks[0]) then 0 else 1 + Leading(tracks[1..])
  }

  lemma {:induction false} TracksBack(env: Env, tracks: seq<Track>, b: seq<byte>, p: nat)
    requires EnvOk(env) && Holds(b, p, SaveTracks(env, tracks))
    requires forall i :: 0 <= i < |tracks| ==> TrackFits(tracks[i])
    ensures var k := Leading(tracks);
      LoadTracks(env, MINOR, b, p, |tracks|)
        == Part(RestoredAll(env, tracks[..k]), if k == |tracks| then Some(p + |SaveTracks(env, tracks)|) else None)
    decreases |tracks|
  {
    hide EnvOk, TrackFits, Holds, SaveTrack, LoadTrack, Restored, SaveTracks, LoadTracks, RestoredAll, Loadable,
         Leading;
    TracksAre(env, tracks, b, p);
    if tracks != [] {
      var t, rest := tracks[0], tracks[1..];
      HoldsBoth(b, p, SaveTrack(env, t), SaveTracks(env, rest));
      TrackBack(env, t, b, p);
      if Loadable(t) {
        TracksBack(env, rest, b, p + |SaveTrack(env, t)|);
      }
      LeadingFirst(env, tracks);
    } else {
      NoneLeading(env, tracks);
    }
  }

  lemma NoneLeading(env: Env, tracks: seq<Track>)
    requires tracks == []
    ensures Leading(tracks) == 0 && RestoredAll(env, tracks[..0]) == []
  {
  }

  lemma LeadingFirst(env: Env, tracks: seq<Track>)
    requires tracks != []
    ensures var k, rest := Leading(tracks), tracks[1..];
      if Loadable(tracks[0])
      then k == 1 + Leading(rest)
        && RestoredAll(env, tracks[..k]) == [Restored(env, tracks[0])] + RestoredAll(env, rest[..Leading(rest)])
      else k == 0 && RestoredAll(env, tracks[..k]) == []
  {
    hide Loadable, Restored;
  }

  lemma TracksAre(env: Env, tracks: seq<Track>, b: seq<byte>, p: nat)
    ensures tracks == [] ==> SaveTracks(env, tracks) == [] && RestoredAll(env, tracks) == []
    ensures tracks != [] ==>
      && SaveTracks(env, tracks) == SaveTrack(env, tracks[0]) + SaveTracks(env, tracks[1..])
      && RestoredAll(env, tracks) == [Restored(env, tracks[0])] + RestoredAll(env, tracks[1..])
    ensures LoadTracks(env, MINOR, b, p, 0) == Part([], Some(p))
    ensures tracks != [] && LoadTrack(env, MINOR, b, p).Ok? ==>
      var t := LoadTrack(env, MINOR, b, p).value;
      var rest := LoadTracks(env, MINOR, b, t.next, |tracks| - 1);
      LoadTracks(env, MINOR, b, p, |tracks|) == Part([t.value] + rest.items, rest.next)
    ensures tracks != [] && LoadTrack(env, MINOR, b, p).Err? ==>
      LoadTracks(env, MINOR, b, p, |tracks|) == Part([], None)
  {
    hide SaveTrack, LoadTrack, Restored;
  }

  /** Playlist metadata: every value a single non-empty string of up to 32767 bytes, no key twice. */
  ghost predicate PairsFit(pairs: seq<Entry>) {
    && |pairs| < 0x8000
    && (forall i :: 0 <= i < |pairs| ==> PairFits(pairs[i]))
    && (forall i, j :: 0 <= i < j < |pairs| ==> !SameKey(pairs[i].key, pairs[j].key))
  }

  predicate PairFits(e: Entry) {
    |e.key| < 20000 && 0 !in e.key && IsText(e.value) && 1 < |e.value| <= 0x8000
  }

  /** What one pair of the file does to the playlist metadata. */
  function Gained(done: seq<Entry>, e: Entry): seq<Entry> {
    if ShortValue(e) then AddPair(done, e.key, CString(e.value)) else done
  }

  lemma {:induction false} PairsBack(done: seq<Entry>, pairs: seq<Entry>, b: seq<byte>, p: nat)
    requires PairsFit(done + pairs) && Holds(b, p, SavePairs(pairs))
    ensures LoadPairs(done, b, p, |pairs|) == Part(done + Taken(pairs), Some(p + |SavePairs(pairs)|))
    decreases |pairs|
  {
    hide *;
    PairsAre(done, pairs, b, p);
    if pairs != [] {
      var e, rest := pairs[0], pairs[1..];
      NewPair(done, e, rest);
      HoldsBoth(b, p, Str16(e.key) + Str16(CString(e.value)), SavePairs(rest));
      PairBack(done, e, b, p, |pairs|);
      PairsBack(Gained(done, e), rest, b, p + |Str16(e.key) + Str16(CString(e.value))|);
    }
  }

  lemma PairsAre(done: seq<Entry>, pairs: seq<Entry>, b: seq<byte>, p: nat)
    requires PairsFit(done + pairs)
    ensures pairs == [] ==> done + Taken(pairs) == done && SavePairs(pairs) == []
    ensures LoadPairs(done, b, p, 0) == Part(done, Some(p))
    ensures pairs != [] ==>
      var e, rest := pairs[0], pairs[1..];
      && pairs == [e] + rest && done + pairs == done + ([e] + rest) && PairFits(e)
      && SavePairs(pairs) == Str16(e.key) + Str16(CString(e.value)) + SavePairs(rest)
  {
    hide PairFits, Str16, CString;
    if pairs != [] {
      assert (done + pairs)[|done|] == pairs[0];
    }
  }

  lemma NewPair(done: seq<Entry>, e: Entry, rest: seq<Entry>)
    requires PairsFit(done + ([e] + rest)) && PairFits(e)
    ensures AddPair(done, e.key, CString(e.value)) == done + [e]
    ensures PairsFit(Gained(done, e) + rest)
    ensures done + Taken([e] + rest) == Gained(done, e) + Taken(rest)
  {
    hide PairFits, ShortValue;
    var all := done + ([e] + rest);
    forall i | 0 <= i < |done|
      ensures !SameKey(done[i].key, e.key)
    {
      assert all[i] == done[i] && all[|done|] == e;
    }
    TextIs(e);
    assert ([e] + rest)[1..] == rest;
    FewerPairs(done, e, rest);
  }

  lemma FewerPairs(done: seq<Entry>, e: Entry, rest: seq<Entry>)
    requires PairsFit(done + ([e] + rest))
    ensures PairsFit(done + rest) && PairsFit(done + [e] + rest)
  {
    hide PairFits, SameKey;
    var all, less := done + ([e] + rest), done + rest;
    assert forall i :: 0 <= i < |less| ==> less[i] == all[if i < |done| then i else i + 1];
    assert done + [e] + rest == all;
  }

  lemma TextIs(e: Entry)
    requires PairFits(e)
    ensures CString(e.value) + [0] == e.value && CString(e.value) == Inner(e.value) && CString(e.value) != []
    ensures CString(CString(e.value) + [0]) == CString(e.value) && CString(e.key + [0]) == e.key
  {
    NoZero(CString(e.value));
    NoZero(e.key);
    hide Fold;
    assert e.value == e.value[..|e.value| - 1] + [0];
  }

  lemma NoZero(s: seq<byte>)
    requires 0 !in s
    ensures CString(s + [0]) == s
  {
    StrLenUnique(s + [0], |s|);
  }

  lemma PairBack(done: seq<Entry>, e: Entry, b: seq<byte>, p: nat, n: nat)
    requires PairFits(e) && n > 0 && Holds(b, p, Str16(e.key) + Str16(CString(e.value)))
    ensures LoadPairs(done, b, p, n)
      == LoadPairs(Gained(done, e), b, p + |Str16(e.key) + Str16(CString(e.value))|, n - 1)
  {
    hide *;
    TextIs(e);
    ShortText(e);
    var k, v := Str16(e.key), Str16(CString(e.value));
    HoldsBoth(b, p, k, v);
    HeldInside(b, p, k + v);
    Str16Held(b, p, e.key);
    Str16Held(b, p + |k|, CString(e.value));
    PairRound(done, b, p, n, e.key, CString(e.value));
    GainedIs(done, e);
  }

  lemma GainedIs(done: seq<Entry>, e: Entry)
    ensures Gained(done, e) == if |Inner(e.value)| < 20000 then AddPair(done, e.key, CString(e.value)) else done
  {
    hide AddPair, CString, Inner;
  }

  lemma ShortText(e: Entry)
    requires PairFits(e)
    ensures |e.key| < 20000 && |CString(e.value)| < 0x8000
    ensures Cut16(e.key) == e.key && Cut16(CString(e.value)) == CString(e.value)
  {
  }

  lemma PairRound(done: seq<Entry>, b: seq<byte>, p: nat, n: nat, key: seq<byte>, s: seq<byte>)
    requires n > 0 && |key| < 20000 && |s| < 0x8000 && p + 4 + |key| + |s| <= |b|
    requires Read(b, p, 2) == Ok(At(Le16(|key|), p + 2)) && FromLe16(Le16(|key|)) == |key|
    requires Read(b, p + 2, |key|) == Ok(At(key, p + 2 + |key|))
    requires var q := p + 2 + |key|;
      && Read(b, q, 2) == Ok(At(Le16(|s|), q + 2)) && FromLe16(Le16(|s|)) == |s|
      && Read(b, q + 2, |s|) == Ok(At(s, q + 2 + |s|))
    ensures LoadPairs(done, b, p, n) ==
      LoadPairs(if |s| < 20000 then AddPair(done, CString(key + [0]), CString(s + [0])) else done, b,
                p + 4 + |key| + |s|, n - 1)
  {
    hide AddPair, CString, Read, FromLe16, Le16;
  }

  /** A value of 32768 bytes or more sends the reader of playlist metadata back instead of past it: its length is
      read as a negative number. */
  lemma PairSeeksBack(b: seq<byte>, p: nat, key: seq<byte>, s: seq<byte>)
    requires Holds(b, p, Str16(key) + Str16(s)) && |key| < 20000 && 0x8000 <= |s| <= 0xffff
    ensures var q := p + 4 + |key|; var back := 0x1_0000 - |s|;
      LoadPair(b, p) == Ok(At(None, if back <= q then q - back else q))
  {
    hide *;
    HoldsBoth(b, p, Str16(key), Str16(s));
    HeldInside(b, p, Str16(key) + Str16(s));
    Str16Held(b, p, key);
    Str16Held(b, p + |Str16(key)|, s);
    SeekBack(b, p, key, s);
  }

  lemma SeekBack(b: seq<byte>, p: nat, key: seq<byte>, s: seq<byte>)
    requires |key| < 20000 && 0x8000 <= |s| <= 0xffff && p + 4 + |key| <= |b|
    requires Read(b, p, 2) == Ok(At(Le16(|key|), p + 2)) && FromLe16(Le16(|key|)) == |key|
    requires Read(b, p + 2, |key|) == Ok(At(key, p + 2 + |key|))
    requires var q := p + 2 + |key|; Read(b, q, 2) == Ok(At(Le16(|s|), q + 2)) && FromLe16(Le16(|s|)) == |s|
    ensures var q := p + 4 + |key|; var back := 0x1_0000 - |s|;
      LoadPair(b, p) == Ok(At(None, if back <= q then q - back else q))
  {
    hide CString, Read, FromLe16, Le16;
  }

  /** Saving and loading: one restored track for each, in order, and the playlist metadata; or the tracks before
      the first one that the loader does not take, and a failure. */
  lemma LoadSaved(env: Env, tracks: seq<Track>, pairs: seq<Entry>)
    requires EnvOk(env) && |tracks| < U32 && PairsFit(pairs) && forall i :: 0 <= i < |tracks| ==> TrackFits(tracks[i])
    ensures Load(env, Save(env, tracks, pairs)) ==
      if Leading(tracks) == |tracks| then Loaded(true, RestoredAll(env, tracks), Taken(pairs))
      else Loaded(false, RestoredAll(env, tracks[..Leading(tracks)]), [])
  {
    hide *;
    var b, q := Save(env, tracks, pairs), 10 + |SaveTracks(env, tracks)|;
    FileParts(env, tracks, pairs);
    HeadSizes();
    ReadHeld(b, 0, MAGIC + [MAJOR, MINOR]);
    WordHeld(b, 6, |tracks|);
    TracksBack(env, tracks, b, 10);
    ReadHeld(b, q, Le16(|pairs|));
    FewPairs(pairs);
    Le16Back(|pairs|);
    PairsBack([], pairs, b, q + 2);
    LoadIs(env, b, |tracks|);
    assert tracks[..|tracks|] == tracks;
  }

  lemma HeadSizes()
    ensures |MAGIC + [MAJOR, MINOR]| == 6 && U32 == 0x1_0000_0000
    ensures forall n: nat :: |Le16(n)| == 2 && (n < 0x8000 ==> Signed16(n) == n)
  {
    hide Le16;
  }

  lemma FewPairs(pairs: seq<Entry>)
    requires PairsFit(pairs)
    ensures |pairs| < 0x8000 && [] + pairs == pairs
  {
    assert [] + pairs == pairs;
  }

  /** What the loader does behind the header of a saved file. */
  lemma LoadIs(env: Env, b: seq<byte>, n: nat)
    requires Read(b, 0, 6) == Ok(At(MAGIC + [MAJOR, MINOR], 6)) && Read32(b, 6) == Ok(At(n, 10))
    ensures var tracks := LoadTracks(env, MINOR, b, 10, n);
      Load(env, b) ==
        if tracks.next.None? then Loaded(false, tracks.items, [])
        else
          var nm := Read(b, tracks.next.value, 2);
          if nm.Err? then Loaded(true, tracks.items, [])
          else
            var m := Signed16(FromLe16(nm.value.value));
            var pairs := LoadPairs([], b, nm.value.next, if m < 0 then 0 else m);
            Loaded(pairs.next.Some?, tracks.items, pairs.items)
  {
    hide LoadTracks, LoadPairs, Read, Read32, FromLe16;
    var head := MAGIC + [MAJOR, MINOR];
    assert head[..4] == MAGIC && head[4] == MAJOR && head[5] == MINOR;
  }

  lemma FileParts(env: Env, tracks: seq<Track>, pairs: seq<Entry>)
    ensures var b, q := Save(env, tracks, pairs), 10 + |SaveTracks(env, tracks)|;
      && Holds(b, 0, MAGIC + [MAJOR, MINOR]) && Holds(b, 6, Le32(|tracks|)) && Holds(b, 10, SaveTracks(env, tracks))
      && Holds(b, q, Le16(|pairs|)) && Holds(b, q + 2, SavePairs(pairs))
  {
    hide *;
    var b, head, body := Save(env, tracks, pairs), MAGIC + [MAJOR, MINOR], SaveTracks(env, tracks);
    SaveIs(env, tracks, pairs);
    FivePieces(b, head, Le32(|tracks|), body, Le16(|pairs|), SavePairs(pairs));
  }

  lemma SaveIs(env: Env, tracks: seq<Track>, pairs: seq<Entry>)
    ensures Save(env, tracks, pairs) ==
      MAGIC + [MAJOR, MINOR] + Le32(|tracks|) + SaveTracks(env, tracks) + Le16(|pairs|) + SavePairs(pairs)
    ensures |MAGIC + [MAJOR, MINOR]| == 6 && |Le32(|tracks|)| == 4 && |Le16(|pairs|)| == 2
  {
    hide SaveTracks, SavePairs, Le32, Le16;
  }

  lemma FivePieces(b: seq<byte>, p1: seq<byte>, p2: seq<byte>, p3: seq<byte>, p4: seq<byte>, p5: seq<byte>)
    requires b == p1 + p2 + p3 + p4 + p5
    ensures Holds(b, 0, p1) && Holds(b, |p1|, p2) && Holds(b, |p1| + |p2|, p3)
    ensures Holds(b, |p1| + |p2| + |p3|, p4) && Holds(b, |p1| + |p2| + |p3| + |p4|, p5)
  {
    assert Holds(b, 0, b);
    hide Holds;
    HoldsBoth(b, 0, p1 + p2 + p3 + p4, p5);
    HoldsBoth(b, 0, p1 + p2 + p3, p4);
    HoldsBoth(b, 0, p1 + p2, p3);
    HoldsBoth(b, 0, p1, p2);
  }
}
