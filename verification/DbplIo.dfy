/** The loops of src/playlist.c that write and read playlist files. */
module DbplIo {
  import opened PlayItems
  import opened ByteOrder
  import opened MetaSpec
  import opened BufferedWriter
  import opened Dbpl

  const BUFFER_SIZE := 64 * 1024

  // ----- saving ----------------------------------------------------------------------------

  /** The state the save loop keeps: the buffer never shrinks below its initial size, so every chunk
      fits after one doubling. */
  ghost predicate Ready(w: Writer)
    reads w
  {
    w.Valid() && w.size >= BUFFER_SIZE
  }

  lemma ReadyValid(w: Writer)
    requires Ready(w)
    ensures w.Valid()
  {
  }

  method Put(w: Writer, bytes: seq<byte>) returns (ok: bool)
    requires Ready(w) && |bytes| <= 0xffff
    modifies w.Repr()
    ensures Ready(w) && fresh(w.Repr() - old(w.Repr())) && (w.fp == null ==> ok)
    ensures ok ==> w.Total() == old(w.Total()) + bytes
  {
    var res := w.Write(bytes);
    ok := res >= 0;
  }

  method PutStr16(w: Writer, s: seq<byte>) returns (ok: bool)
    requires Ready(w)
    modifies w.Repr()
    ensures Ready(w) && fresh(w.Repr() - old(w.Repr())) && (w.fp == null ==> ok)
    ensures ok ==> w.Total() == old(w.Total()) + Str16(s)
  {
    hide Le16;
    var l := Min(0xffff, |s|);
    ok := Put(w, Le16(l));
    if !ok {
      return;
    }
    if l > 0 {
      ok := Put(w, s[..l]);
    }
  }

  method PutStr8(w: Writer, s: seq<byte>) returns (ok: bool)
    requires Ready(w)
    modifies w.Repr()
    ensures Ready(w) && fresh(w.Repr() - old(w.Repr())) && (w.fp == null ==> ok)
    ensures ok ==> w.Total() == old(w.Total()) + Str8(s)
  {
    var l := Min(0xff, |s|);
    ok := Put(w, [l]);
    if !ok {
      return;
    }
    if l > 0 {
      ok := Put(w, s[..l]);
    }
  }

  method Put32(w: Writer, n: nat) returns (ok: bool)
    requires Ready(w)
    modifies w.Repr()
    ensures Ready(w) && fresh(w.Repr() - old(w.Repr())) && (w.fp == null ==> ok)
    ensures ok ==> w.Total() == old(w.Total()) + Le32(n)
  {
    hide Le32;
    ok := Put(w, Le32(n));
  }

  method PutNames(w: Writer, env: Env, t: Track) returns (ok: bool)
    requires Ready(w)
    modifies w.Repr()
    ensures Ready(w) && fresh(w.Repr() - old(w.Repr())) && (w.fp == null ==> ok)
    ensures ok ==> w.Total() == old(w.Total()) + SaveNames(env, t)
  {
    hide Le16, Str16, Str8, Text, Writer.Total, Ready;
    ok := PutStr16(w, Text(t.meta, URI));
    if !ok {
      return;
    }
    ok := PutStr8(w, Text(t.meta, DECODER));
    if !ok {
      return;
    }
    ok := Put(w, Le16(env.trackNum(t.meta)));
  }

  method PutSamples(w: Writer, t: Track) returns (ok: bool)
    requires Ready(w)
    modifies w.Repr()
    ensures Ready(w) && fresh(w.Repr() - old(w.Repr())) && (w.fp == null ==> ok)
    ensures ok ==> w.Total() == old(w.Total()) + SaveSamples(t)
  {
    hide Le32, Writer.Total, Ready;
    ok := Put32(w, t.start.word);
    if !ok {
      return;
    }
    ok := Put32(w, t.end.word);
    if !ok {
      return;
    }
    ok := Put32(w, t.duration);
  }

  method PutGains(w: Writer, env: Env, t: Track) returns (ok: bool)
    requires Ready(w)
    modifies w.Repr()
    ensures Ready(w) && fresh(w.Repr() - old(w.Repr())) && (w.fp == null ==> ok)
    ensures ok ==> w.Total() == old(w.Total()) + SaveGains(env, t)
  {
    hide Le32, Writer.Total, Ready;
    ok := Put32(w, env.gain(t.meta, 0));
    if !ok {
      return;
    }
    ok := Put32(w, env.gain(t.meta, 1));
    if !ok {
      return;
    }
    ok := Put32(w, env.gain(t.meta, 2));
    if !ok {
      return;
    }
    ok := Put32(w, env.gain(t.meta, 3));
  }

  /** The first loop over the metadata counts the saved keys, the second writes them. */
  method PutMeta(w: Writer, v: seq<Entry>) returns (ok: bool)
    requires Ready(w)
    modifies w.Repr()
    ensures Ready(w) && fresh(w.Repr() - old(w.Repr())) && (w.fp == null ==> ok)
    ensures ok ==> w.Total() == old(w.Total()) + SaveMeta(Saved(v))
  {
    hide Saved, SaveEntries, Le16, Writer.Total, Ready;
    var nm := CountSaved(v);
    ok := Put(w, Le16(nm));
    if !ok {
      return;
    }
    ok := PutEntries(w, v);
  }

  method CountSaved(v: seq<Entry>) returns (nm: nat)
    ensures nm == |Saved(v)|
  {
    nm := 0;
    var m := v;
    while m != []
      invariant nm + |Saved(m)| == |Saved(v)|
      decreases |m|
    {
      if IsSaved(m[0]) {
        nm := nm + 1;
      }
      m := m[1..];
    }
  }

  method PutEntries(w: Writer, v: seq<Entry>) returns (ok: bool)
    requires Ready(w)
    modifies w.Repr()
    ensures Ready(w) && fresh(w.Repr() - old(w.Repr())) && (w.fp == null ==> ok)
    ensures ok ==> w.Total() == old(w.Total()) + SaveEntries(Saved(v))
  {
    hide SaveEntries, Saved, SaveEntry, Writer.Total;
    ok := true;
    var m := v;
    ghost var all, done := SaveEntries(Saved(v)), [];
    NoneDone(w.Total(), v);
    while m != []
      invariant Ready(w) && fresh(w.Repr() - old(w.Repr())) && ok
      invariant w.Total() == old(w.Total()) + done && all == done + SaveEntries(Saved(m))
      decreases |m|
    {
      SavedRound(m, done);
      if IsSaved(m[0]) {
        ok := PutEntry(w, m[0]);
        if !ok {
          return;
        }
        Assoc(old(w.Total()), done, SaveEntry(m[0]));
        done := done + SaveEntry(m[0]);
      }
      m := m[1..];
    }
    AllDone(done);
  }

  lemma NoneDone(total: seq<byte>, v: seq<Entry>)
    ensures total + [] == total && SaveEntries(Saved(v)) == [] + SaveEntries(Saved(v))
  {
  }

  lemma AllDone(done: seq<byte>)
    ensures done + SaveEntries(Saved([])) == done
  {
  }

  lemma SavedRound(m: seq<Entry>, done: seq<byte>)
    requires m != []
    ensures IsSaved(m[0]) ==> done + SaveEntries(Saved(m)) == (done + SaveEntry(m[0])) + SaveEntries(Saved(m[1..]))
    ensures !IsSaved(m[0]) ==> Saved(m) == Saved(m[1..])
  {
    hide SaveEntry;
  }

  method PutEntry(w: Writer, e: Entry) returns (ok: bool)
    requires Ready(w)
    modifies w.Repr()
    ensures Ready(w) && fresh(w.Repr() - old(w.Repr())) && (w.fp == null ==> ok)
    ensures ok ==> w.Total() == old(w.Total()) + SaveEntry(e)
  {
    hide Str16, Inner, Writer.Total, Ready;
    ok := PutStr16(w, e.key);
    if !ok {
      return;
    }
    ok := PutStr16(w, Inner(e.value));
  }

  lemma TrackBytes(env: Env, t: Track, total: seq<byte>)
    ensures total + SaveNames(env, t) + SaveSamples(t) + Str8(Text(t.meta, FILETYPE)) + SaveGains(env, t)
      + Le32(t.flags) + SaveMeta(Saved(t.meta)) == total + SaveTrack(env, t)
  {
    hide SaveNames, SaveSamples, SaveGains, SaveMeta, Saved, Str8, Text, Le32;
  }

  method PutTrack(w: Writer, env: Env, t: Track) returns (ok: bool)
    requires Ready(w)
    modifies w.Repr()
    ensures Ready(w) && fresh(w.Repr() - old(w.Repr())) && (w.fp == null ==> ok)
    ensures ok ==> w.Total() == old(w.Total()) + SaveTrack(env, t)
  {
    hide SaveTrack, SaveNames, SaveSamples, SaveGains, SaveMeta, Saved, Str8, Text, Le32, Writer.Total, Writer.Valid,
         Ready;
    ReadyValid(w);
    TrackBytes(env, t, w.Total());
    ok := PutNames(w, env, t);
    if !ok {
      return;
    }
    ok := PutSamples(w, t);
    if !ok {
      return;
    }
    ok := PutStr8(w, Text(t.meta, FILETYPE));
    if !ok {
      return;
    }
    ok := PutGains(w, env, t);
    if !ok {
      return;
    }
    ok := Put32(w, t.flags);
    if !ok {
      return;
    }
    ok := PutMeta(w, t.meta);
  }

  method PutTracks(w: Writer, env: Env, tracks: seq<Track>) returns (ok: bool)
    requires Ready(w)
    modifies w.Repr()
    ensures Ready(w) && fresh(w.Repr() - old(w.Repr())) && (w.fp == null ==> ok)
    ensures ok ==> w.Total() == old(w.Total()) + SaveTracks(env, tracks)
  {
    hide SaveTracks, SaveTrack, Writer.Total;
    ok := true;
    var it := tracks;
    ghost var all, done := SaveTracks(env, tracks), [];
    TracksStart(env, w.Total(), tracks);
    while it != []
      invariant Ready(w) && fresh(w.Repr() - old(w.Repr())) && ok
      invariant w.Total() == old(w.Total()) + done && all == done + SaveTracks(env, it)
      decreases |it|
    {
      TracksRound(env, it, done);
      ok := PutTrack(w, env, it[0]);
      if !ok {
        return;
      }
      Assoc(old(w.Total()), done, SaveTrack(env, it[0]));
      done := done + SaveTrack(env, it[0]);
      it := it[1..];
    }
    TracksStart(env, done, []);
  }

  lemma TracksStart(env: Env, total: seq<byte>, tracks: seq<Track>)
    ensures total + [] == total && SaveTracks(env, tracks) == [] + SaveTracks(env, tracks)
    ensures SaveTracks(env, []) == []
  {
  }

  lemma TracksRound(env: Env, it: seq<Track>, done: seq<byte>)
    requires it != []
    ensures done + SaveTracks(env, it) == (done + SaveTrack(env, it[0])) + SaveTracks(env, it[1..])
  {
    hide SaveTrack;
  }

  method PutPairs(w: Writer, pairs: seq<Entry>) returns (ok: bool)
    requires Ready(w)
    modifies w.Repr()
    ensures Ready(w) && fresh(w.Repr() - old(w.Repr())) && (w.fp == null ==> ok)
    ensures ok ==> w.Total() == old(w.Total()) + SavePairs(pairs)
  {
    hide SavePairs, Str16, CString, Writer.Total;
    ok := true;
    var m := pairs;
    ghost var all, done := SavePairs(pairs), [];
    PairsStart(w.Total(), pairs);
    while m != []
      invariant Ready(w) && fresh(w.Repr() - old(w.Repr())) && ok
      invariant w.Total() == old(w.Total()) + done && all == done + SavePairs(m)
      decreases |m|
    {
      PairsRound(m, done);
      ok := PutStr16(w, m[0].key);
      if !ok {
        return;
      }
      Assoc(old(w.Total()), done, Str16(m[0].key));
      ok := PutStr16(w, CString(m[0].value));
      if !ok {
        return;
      }
      Assoc(old(w.Total()), done + Str16(m[0].key), Str16(CString(m[0].value)));
      done := done + Str16(m[0].key) + Str16(CString(m[0].value));
      m := m[1..];
    }
    PairsStart(done, []);
  }

  lemma PairsStart(total: seq<byte>, pairs: seq<Entry>)
    ensures total + [] == total && SavePairs(pairs) == [] + SavePairs(pairs) && SavePairs([]) == []
  {
  }

  lemma PairsRound(m: seq<Entry>, done: seq<byte>)
    requires m != []
    ensures done + SavePairs(m) == (done + Str16(m[0].key) + Str16(CString(m[0].value))) + SavePairs(m[1..])
  {
    hide Str16, CString;
  }

  lemma FileBytes(env: Env, tracks: seq<Track>, pairs: seq<Entry>, total: seq<byte>)
    ensures total + MAGIC + [MAJOR, MINOR] + Le32(|tracks|) + SaveTracks(env, tracks) + Le16(|pairs|)
      + SavePairs(pairs) == total + Save(env, tracks, pairs)
    ensures |MAGIC| == 4
  {
    hide SaveTracks, SavePairs, Le32, Le16;
  }

  method Finish(w: Writer) returns (res: int)
    requires Ready(w)
    modifies w.Repr()
    ensures Ready(w) && fresh(w.Repr() - old(w.Repr())) && (w.fp == null ==> res == 0) && (res == 0 || res == -1)
    ensures res == 0 ==> w.Valid() && old(w.Valid()) && w.Total() == old(w.Total())
    ensures res == 0 && w.fp != null ==> w.written == 0
  {
    res := w.Flush();
  }

  /** _plt_save_to_buffered_writer; in memory it always succeeds. */
  method SavePlaylist(w: Writer, env: Env, tracks: seq<Track>, pairs: seq<Entry>) returns (res: int)
    requires Ready(w)
    modifies w.Repr()
    ensures Ready(w) && (w.fp == null ==> res == 0) && (res == 0 || res == -1)
    ensures res == 0 ==> w.Total() == old(w.Total()) + Save(env, tracks, pairs)
    ensures res == 0 && w.fp != null ==> w.written == 0
  {
    hide *;
    ReadyValid(w);
    FileBytes(env, tracks, pairs, w.Total());
    var ok := Put(w, MAGIC);
    if !ok {
      return -1;
    }
    ok := Put(w, [MAJOR, MINOR]);
    if !ok {
      return -1;
    }
    ok := Put32(w, |tracks|);
    if !ok {
      return -1;
    }
    ok := PutTracks(w, env, tracks);
    if !ok {
      return -1;
    }
    ok := Put(w, Le16(|pairs|));
    if !ok {
      return -1;
    }
    ok := PutPairs(w, pairs);
    if !ok {
      return -1;
    }
    res := Finish(w);
  }

  /** plt_save_to_buffer */
  method SaveToBuffer(env: Env, tracks: seq<Track>, pairs: seq<Entry>) returns (buffer: seq<byte>)
    ensures buffer == Save(env, tracks, pairs)
  {
    var w := new Writer(null, BUFFER_SIZE);
    assert w.Total() == [];
    var res := SavePlaylist(w, env, tracks, pairs);
    hide Save;
    assert w.Total() == w.buffer[..w.written];
    buffer := w.buffer[..w.written];
  }

  // ----- loading ---------------------------------------------------------------------------

  /** The loop over the metadata of a track. */
  method ReadMeta(track: Track, b: seq<byte>, start: nat, count: nat) returns (r: Result<At<Track>>)
    ensures r == LoadMeta(track, b, start, count)
  {
    hide Apply, Read, FromLe16;
    var t, p: nat, left: nat := track, start, count;
    while left > 0
      invariant LoadMeta(t, b, p, left) == LoadMeta(track, b, start, count)
    {
      var kl :- Read(b, p, 2);
      if FromLe16(kl.value) >= MAX_STRING {
        return Err;
      }
      var key :- Read(b, kl.next, FromLe16(kl.value));
      var vl :- Read(b, key.next, 2);
      var l := FromLe16(vl.value);
      if l >= MAX_STRING {
        p := if vl.next + l <= |b| then vl.next + l else vl.next;
      } else {
        var value :- Read(b, vl.next, l);
        t := Apply(t, key.value, value.value);
        p := value.next;
      }
      left := left - 1;
    }
    return Ok(At(t, p));
  }

  method ReadTrack(env: Env, minor: byte, b: seq<byte>, p: nat) returns (r: Result<At<Track>>)
    ensures r == LoadTrack(env, minor, b, p)
  {
    hide LoadNames, LoadLegacy, LoadMeta, Read, Read32, FromLe16, ReplaceText;
    var names :- if minor <= 2 then LoadNames(b, p) else Ok(At(([], 0), p));
    var start :- Read32(b, names.next);
    var end :- Read32(b, start.next);
    var duration :- Read32(b, end.next);
    var meta := ReplaceText(names.value.0, DURATION, env.durationText(duration.value));
    var legacy :- if minor <= 2 then LoadLegacy(env, meta, b, duration.next) else Ok(At(meta, duration.next));
    var flg := At(0, legacy.next);
    if minor >= 2 {
      flg :- Read32(b, legacy.next);
    } else if Signed32(start.value) > 0 || Signed32(end.value) > 0 || names.value.1 > 0 {
      flg := At(IS_SUBTRACK, legacy.next);
    }
    meta := ReplaceText(legacy.value, TAGS, env.tagsText(flg.value));
    meta := ReplaceText(meta, HAS_CUESHEET, env.cuesheetText(flg.value));
    var nm :- Read(b, flg.next, 2);
    var count := Signed16(FromLe16(nm.value));
    var track := Track(meta, Sample(start.value, None), Sample(end.value, None), duration.value, flg.value);
    r := ReadMeta(track, b, nm.next, if count < 0 then 0 else count);
  }

  method ReadTracks(env: Env, minor: byte, b: seq<byte>, start: nat, count: nat) returns (r: Part<Track>)
    ensures r == LoadTracks(env, minor, b, start, count)
  {
    ghost var all := LoadTracks(env, minor, b, start, count);
    hide LoadTracks, LoadTrack;
    var tracks: seq<Track> := [];
    var p: nat, left: nat := start, count;
    NothingBefore(all);
    while left > 0
      invariant Before(tracks, LoadTracks(env, minor, b, p, left)) == all
    {
      TrackRound(env, minor, b, p, left, tracks);
      var t := ReadTrack(env, minor, b, p);
      if t.Err? {
        return Part(tracks, None);
      }
      tracks, p := tracks + [t.value.value], t.value.next;
      left := left - 1;
    }
    NoTracks(env, minor, b, p, tracks);
    return Part(tracks, Some(p));
  }

  function Before(tracks: seq<Track>, rest: Part<Track>): Part<Track> {
    Part(tracks + rest.items, rest.next)
  }

  lemma NothingBefore(r: Part<Track>)
    ensures Before([], r) == r
  {
    assert [] + r.items == r.items;
  }

  lemma NoTracks(env: Env, minor: byte, b: seq<byte>, p: nat, tracks: seq<Track>)
    ensures Before(tracks, LoadTracks(env, minor, b, p, 0)) == Part(tracks, Some(p))
  {
    assert tracks + [] == tracks;
  }

  lemma TrackRound(env: Env, minor: byte, b: seq<byte>, p: nat, n: nat, tracks: seq<Track>)
    requires n > 0
    ensures var t := LoadTrack(env, minor, b, p);
      Before(tracks, LoadTracks(env, minor, b, p, n)) ==
        if t.Err? then Part(tracks, None)
        else Before(tracks + [t.value.value], LoadTracks(env, minor, b, t.value.next, n - 1))
  {
    hide LoadTrack;
    var t := LoadTrack(env, minor, b, p);
    assert tracks + [] == tracks;
    if t.Ok? {
      Assoc(tracks, [t.value.value], LoadTracks(env, minor, b, t.value.next, n - 1).items);
    }
  }

  /** One round of the loop over the playlist metadata. */
  method ReadPair(b: seq<byte>, p: nat) returns (r: Result<At<Option<(seq<byte>, seq<byte>)>>>)
    ensures r == LoadPair(b, p)
  {
    hide CString, Read, FromLe16;
    var kl :- Read(b, p, 2);
    var k := Signed16(FromLe16(kl.value));
    if k < 0 || k >= MAX_STRING {
      return Err;
    }
    var key :- Read(b, kl.next, k);
    var vl :- Read(b, key.next, 2);
    var l := Signed16(FromLe16(vl.value));
    if l < 0 || l >= MAX_STRING {
      return Ok(At(None, if 0 <= vl.next + l <= |b| then vl.next + l else vl.next));
    }
    var value :- Read(b, vl.next, l);
    return Ok(At(Some((CString(key.value + [0]), CString(value.value + [0]))), value.next));
  }

  /** The loop over the playlist metadata. */
  method ReadPairs(b: seq<byte>, start: nat, count: nat) returns (r: Part<Entry>)
    ensures r == LoadPairs([], b, start, count)
  {
    hide AddPair, LoadPair;
    var pairs: seq<Entry> := [];
    var p: nat, left: nat := start, count;
    while left > 0
      invariant LoadPairs(pairs, b, p, left) == LoadPairs([], b, start, count)
    {
      var pair := ReadPair(b, p);
      match pair {
        case Err => return Part(pairs, None);
        case Ok(At(None, next)) => p := next;
        case Ok(At(Some((key, s)), next)) => pairs, p := AddPair(pairs, key, s), next;
      }
      left := left - 1;
    }
    return Part(pairs, Some(p));
  }

  /** plt_load_from_buffer, into an empty playlist. What was read before a failure stays. */
  method LoadFromBuffer(env: Env, b: seq<byte>) returns (ok: bool, tracks: seq<Track>, pairs: seq<Entry>)
    ensures Loaded(ok, tracks, pairs) == Load(env, b)
  {
    hide LoadTracks, LoadPairs, LoadHead, Read, FromLe16;
    ok, tracks, pairs := false, [], [];
    var head := ReadHead(b);
    if head.Err? {
      return;
    }
    var At((minor, count), start) := head.value;
    var read := ReadTracks(env, minor, b, start, count);
    tracks := read.items;
    if read.next.None? {
      return;
    }
    var nm := Read(b, read.next.value, 2);
    if nm.Err? {
      ok := true;
      return;
    }
    var n := Signed16(FromLe16(nm.value.value));
    var kept := ReadPairs(b, nm.value.next, if n < 0 then 0 else n);
    ok, pairs := kept.next.Some?, kept.items;
  }

  method ReadHead(b: seq<byte>) returns (r: Result<At<(byte, nat)>>)
    ensures r == LoadHead(b)
  {
    hide Read, Read32;
    var head :- Read(b, 0, 6);
    if head.value[..4] != MAGIC || head.value[4] != MAJOR || head.value[5] < 1 {
      return Err;
    }
    var count :- Read32(b, 6);
    return Ok(At((head.value[5], count.value), count.next));
  }
}
