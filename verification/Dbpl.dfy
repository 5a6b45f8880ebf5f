/** The DBPL playlist format of src/playlist.c: what is written for the tracks of a playlist, and what the
    loader makes of any bytes. Numbers are stored with the lowest byte first. */
module Dbpl {
  import opened PlayItems
  import opened ByteOrder
  import opened MetaSpec

  datatype Option<T> = None | Some(value: T)

  /** A first or last sample: the 32-bit field, and the 64-bit one if it was ever set. */
  datatype Sample = Sample(word: nat, wide: Option<int>)

  /** The parts of a track that a playlist file holds; `duration` is the 32-bit word of a float. */
  datatype Track = Track(meta: seq<Entry>, start: Sample, end: Sample, duration: nat, flags: nat)

  /** Formatting and parsing of floats and titles, which this model leaves open: what the writer gets
      for the track number and the four ReplayGain values, and the strings that the loader derives. */
  datatype Env = Env(trackNum: seq<Entry> -> byte, gain: (seq<Entry>, nat) -> nat,
                     durationText: nat -> seq<byte>, gainText: (nat, nat) -> Option<seq<byte>>,
                     tagsText: nat -> seq<byte>, cuesheetText: nat -> seq<byte>)

  /** A string with its terminating zero. */
  predicate IsText(v: seq<byte>) {
    Terminated(v) && v != [] && StrLen(v) + 1 == |v|
  }

  ghost predicate EnvOk(env: Env) {
    && (forall meta: seq<Entry>, n: nat :: env.gain(meta, n) < U32)
    && (forall d: nat :: IsText(env.durationText(d)))
    && (forall n: nat, g: nat :: env.gainText(n, g).Some? ==> IsText(env.gainText(n, g).value))
    && (forall f: nat :: IsText(env.tagsText(f)) && IsText(env.cuesheetText(f)))
  }

  const URI := Ascii(":URI")
  const DECODER := Ascii(":DECODER")
  const TRACKNUM := Ascii(":TRACKNUM")
  const FILETYPE := Ascii(":FILETYPE")
  const DURATION := Ascii(":DURATION")
  const STARTSAMPLE := Ascii(":STARTSAMPLE")
  const ENDSAMPLE := Ascii(":ENDSAMPLE")
  const TAGS := Ascii(":TAGS")
  const HAS_CUESHEET := Ascii(":HAS_EMBEDDED_CUESHEET")

  const MAGIC: seq<byte> := [68, 66, 80, 76]
  const MAJOR: byte := 1
  const MINOR: byte := 2
  const MAX_STRING := 20000
  const MAX_DECODER := 20
  const PATH_MAX := 4096
  const IS_SUBTRACK := 1

  // ----- numbers as text -------------------------------------------------------------------

  function Digits10(n: nat): (r: seq<byte>)
    ensures r != [] && forall i :: 0 <= i < |r| ==> 48 <= r[i] < 58
  {
    if n < 10 then [48 + n] else Digits10(n / 10) + [48 + n % 10]
  }

  /** Printed with %d or %lld. */
  function Decimal(n: int): (r: seq<byte>)
    ensures r != [] && 0 !in r
  {
    if n < 0 then [45] + Digits10(-n) else Digits10(n)
  }

  /** Printed into a buffer of 20 bytes. */
  function Printed(n: int): (r: seq<byte>)
    ensures 0 !in r && r != []
  {
    if |Decimal(n)| < 20 then Decimal(n) else Decimal(n)[..19]
  }

  predicate IsDigit(b: byte) {
    48 <= b < 58
  }

  predicate IsSpace(b: byte) {
    b == 32 || 9 <= b <= 13
  }

  /** The digits in front of `s`, read on from `n`. */
  function ReadDigits(s: seq<byte>, n: nat): nat {
    if s == [] || !IsDigit(s[0]) then n else ReadDigits(s[1..], 10 * n + (s[0] - 48))
  }

  /** atoll: blanks, a sign, digits. */
  function Atoll(s: seq<byte>): int {
    if s == [] then 0
    else if IsSpace(s[0]) then Atoll(s[1..])
    else if s[0] == 45 then (var n: int := ReadDigits(s[1..], 0); -n)
    else if s[0] == 43 then ReadDigits(s[1..], 0)
    else ReadDigits(s, 0)
  }

  lemma {:induction false} ReadDigitsBack(n: nat, rest: seq<byte>)
    requires rest == [] || !IsDigit(rest[0])
    ensures ReadDigits(Digits10(n) + rest, 0) == n
  {
    ReadDigitsOn(n, rest, 0);
  }

  /** Reading the digits of n after m, where m stays in front. */
  lemma {:induction false} ReadDigitsOn(n: nat, rest: seq<byte>, m: nat)
    requires m == 0
    ensures ReadDigits(Digits10(n) + rest, m) == ReadDigits(rest, n)
    decreases n
  {
    if n < 10 {
      assert (Digits10(n) + rest)[1..] == rest;
    } else {
      assert Digits10(n) + rest == Digits10(n / 10) + ([48 + n % 10] + rest);
      ReadDigitsOn(n / 10, [48 + n % 10] + rest, m);
      assert ([48 + n % 10] + rest)[1..] == rest;
    }
  }

  /** atoll reads what was printed. */
  lemma AtollBack(n: int)
    ensures Atoll(Decimal(n)) == n
  {
    var d := Digits10(if n < 0 then -n else n);
    assert d + [] == d;
    ReadDigitsBack(if n < 0 then -n else n, []);
    if n < 0 {
      assert Decimal(n)[1..] == d;
    }
  }

  // ----- saving ----------------------------------------------------------------------------

  function Min(a: nat, b: nat): nat {
    if a <= b then a else b
  }

  function Le16(n: nat): (r: seq<byte>)
    ensures |r| == 2
  {
    [n % 0x100, n / 0x100 % 0x100]
  }

  /** A string with a length of 16 bits in front. */
  function Str16(s: seq<byte>): seq<byte> {
    Le16(Min(0xffff, |s|)) + s[..Min(0xffff, |s|)]
  }

  /** A string with a length of 8 bits in front. */
  function Str8(s: seq<byte>): seq<byte> {
    [Min(0xff, |s|)] + s[..Min(0xff, |s|)]
  }

  /** The C string at the front of a value. */
  function CString(v: seq<byte>): (s: seq<byte>)
    ensures 0 !in s && |s| <= |v|
  {
    v[..StrLen(v)]
  }

  /** pl_find_meta_raw */
  function Raw(v: seq<Entry>, key: seq<byte>): Option<seq<byte>> {
    if Find(v, key) < |v| then Some(v[Find(v, key)].value) else None
  }

  function Text(v: seq<Entry>, key: seq<byte>): seq<byte> {
    var r := Raw(v, key);
    if r.None? then [] else CString(r.value)
  }

  /** Keys that start with '_' or '!' stay out of the file. */
  predicate IsSaved(e: Entry) {
    First(e.key) != UNDERSCORE && First(e.key) != BANG
  }

  function Saved(v: seq<Entry>): (r: seq<Entry>)
    ensures forall e :: e in r <==> e in v && IsSaved(e)
  {
    if v == [] then []
    else if IsSaved(v[0]) then [v[0]] + Saved(v[1..])
    else Saved(v[1..])
  }

  /** All the zeros of a value but the last. */
  function Inner(value: seq<byte>): seq<byte> {
    if value == [] then [] else value[..|value| - 1]
  }

  function SaveEntry(e: Entry): seq<byte> {
    Str16(e.key) + Str16(Inner(e.value))
  }

  function SaveEntries(v: seq<Entry>): seq<byte> {
    if v == [] then [] else SaveEntry(v[0]) + SaveEntries(v[1..])
  }

  function SaveNames(env: Env, t: Track): seq<byte> {
    Str16(Text(t.meta, URI)) + Str8(Text(t.meta, DECODER)) + Le16(env.trackNum(t.meta))
  }

  function SaveSamples(t: Track): (r: seq<byte>)
    ensures |r| == 12
  {
    Le32(t.start.word) + Le32(t.end.word) + Le32(t.duration)
  }

  function SaveGains(env: Env, t: Track): (r: seq<byte>)
    ensures |r| == 16
  {
    Le32(env.gain(t.meta, 0)) + Le32(env.gain(t.meta, 1)) + Le32(env.gain(t.meta, 2)) + Le32(env.gain(t.meta, 3))
  }

  function SaveMeta(v: seq<Entry>): seq<byte> {
    Le16(|v|) + SaveEntries(v)
  }

  function SaveTrack(env: Env, t: Track): seq<byte> {
    SaveNames(env, t) + SaveSamples(t) + (Str8(Text(t.meta, FILETYPE)) + SaveGains(env, t)) + Le32(t.flags)
    + SaveMeta(Saved(t.meta))
  }

  function SaveTracks(env: Env, tracks: seq<Track>): seq<byte> {
    if tracks == [] then [] else SaveTrack(env, tracks[0]) + SaveTracks(env, tracks[1..])
  }

  /** The metadata of the playlist itself; only the first string of a value is written. */
  function SavePairs(pairs: seq<Entry>): seq<byte> {
    if pairs == [] then []
    else Str16(pairs[0].key) + Str16(CString(pairs[0].value)) + SavePairs(pairs[1..])
  }

  /** _plt_save_to_buffered_writer */
  function Save(env: Env, tracks: seq<Track>, pairs: seq<Entry>): seq<byte> {
    MAGIC + [MAJOR, MINOR] + Le32(|tracks|) + SaveTracks(env, tracks) + Le16(|pairs|) + SavePairs(pairs)
  }

  // ----- loading ---------------------------------------------------------------------------

  datatype Result<+T> = Ok(value: T) | Err {
    predicate IsFailure() {
      Err?
    }

    function PropagateFailure<U>(): Result<U>
      requires IsFailure()
    {
      Err
    }

    function Extract(): T
      requires !IsFailure()
    {
      value
    }
  }

  /** A value and the position behind it. */
  datatype At<+T> = At(value: T, next: nat)

  function Read(b: seq<byte>, p: nat, n: nat): (r: Result<At<seq<byte>>>)
    ensures r.Ok? ==> |r.value.value| == n && r.value.next == p + n
  {
    if p + n <= |b| then Ok(At(b[p..p + n], p + n)) else Err
  }

  function FromLe16(s: seq<byte>): (n: nat)
    requires |s| == 2
    ensures n < 0x1_0000
  {
    var lo: int, hi: int := s[0], s[1];
    lo + 0x100 * hi
  }

  function Signed16(n: nat): int
    requires n < 0x1_0000
  {
    if n < 0x8000 then n else n - 0x1_0000
  }

  function ReadStr16(b: seq<byte>, p: nat): Result<At<seq<byte>>> {
    var l :- Read(b, p, 2);
    Read(b, l.next, FromLe16(l.value))
  }

  function ReadStr8(b: seq<byte>, p: nat): Result<At<seq<byte>>> {
    var l :- Read(b, p, 1);
    Read(b, l.next, l.value[0])
  }

  function Read32(b: seq<byte>, p: nat): Result<At<nat>> {
    var w :- Read(b, p, 4);
    Ok(At(FromLe32(w.value), w.next))
  }

  /** pl_replace_meta with a string that has no terminating zero yet. */
  function Put(v: seq<Entry>, key: seq<byte>, s: seq<byte>): seq<Entry> {
    ReplaceText(v, key, CString(s + [0]) + [0])
  }

  function ReplaceText(v: seq<Entry>, key: seq<byte>, value: seq<byte>): seq<Entry> {
    if IsText(value) then Replace(v, key, value) else v
  }

  /** The URI buffer has PATH_MAX bytes. */
  function Path(uri: seq<byte>): seq<byte> {
    CString(uri + [0])[..Min(PATH_MAX - 1, |CString(uri + [0])|)]
  }

  /** pl_add_meta */
  function AddText(v: seq<Entry>, key: seq<byte>, s: seq<byte>): seq<Entry> {
    var value := CString(s + [0]) + [0];
    if IsText(value) then AddFull(v, key, value) else v
  }

  /** URI, decoder and track number; a decoder of 20 bytes or more fails. */
  function LoadNames(b: seq<byte>, p: nat): Result<At<(seq<Entry>, int)>> {
    var uri :- ReadStr16(b, p);
    var v1 := AddText([], URI, Path(uri.value));
    var n :- Read(b, uri.next, 1);
    if n.value[0] >= MAX_DECODER then Err
    else
      var decoder :- Read(b, n.next, n.value[0]);
      var v2 := if n.value[0] > 0 then AddText(v1, DECODER, decoder.value) else v1;
      var num :- Read(b, decoder.next, 2);
      var trackNum := Signed16(FromLe16(num.value));
      Ok(At((Put(v2, TRACKNUM, Printed(trackNum)), trackNum), num.next))
  }

  /** The file type, if there is one, and the four ReplayGain values. */
  function LoadLegacy(env: Env, v: seq<Entry>, b: seq<byte>, p: nat): Result<At<seq<Entry>>> {
    var ft :- ReadStr8(b, p);
    var v1 := if ft.value != [] then Put(v, FILETYPE, ft.value) else v;
    LoadGains(env, v1, b, ft.next, 0)
  }

  function LoadGains(env: Env, v: seq<Entry>, b: seq<byte>, p: nat, n: nat): Result<At<seq<Entry>>>
    requires n <= 4
    decreases 4 - n
  {
    if n == 4 then Ok(At(v, p))
    else
      var g :- Read32(b, p);
      var text := env.gainText(n, g.value);
      LoadGains(env, if text.Some? then ReplaceText(v, RG_KEYS[n], text.value) else v, b, g.next, n + 1)
  }

  /** pl_item_set_startsample and pl_item_set_endsample */
  function SetSample(n: int): Sample {
    Sample(if n >= 0x7fff_ffff then 0x7fff_ffff else n % U32, Some(n))
  }

  /** What a pair of key and value from the file does to the track. */
  function Apply(t: Track, rawKey: seq<byte>, value: seq<byte>): Track {
    var key := CString(rawKey + [0]);
    var s := CString(value + [0]);
    if First(key) != COLON then
      t.(meta := AddFull(t.meta, key, value + [0]))
    else if key == STARTSAMPLE then
      t.(start := SetSample(Atoll(s)), meta := Put(t.meta, STARTSAMPLE, Printed(Atoll(s))))
    else if key == ENDSAMPLE then
      t.(end := SetSample(Atoll(s)), meta := Put(t.meta, ENDSAMPLE, Printed(Atoll(s))))
    else if key == URI then t.(meta := Put(t.meta, URI, Path(s)))
    else t.(meta := Put(t.meta, key, s))
  }

  /** `n` pairs; a key of 20000 bytes or more fails, such a value is skipped if the file goes on. */
  function LoadMeta(t: Track, b: seq<byte>, p: nat, n: nat): Result<At<Track>>
    decreases n
  {
    if n == 0 then Ok(At(t, p))
    else
      var kl :- Read(b, p, 2);
      if FromLe16(kl.value) >= MAX_STRING then Err
      else
        var key :- Read(b, kl.next, FromLe16(kl.value));
        var vl :- Read(b, key.next, 2);
        var l := FromLe16(vl.value);
        if l >= MAX_STRING then LoadMeta(t, b, if vl.next + l <= |b| then vl.next + l else vl.next, n - 1)
        else
          var value :- Read(b, vl.next, l);
          LoadMeta(Apply(t, key.value, value.value), b, value.next, n - 1)
  }

  function Signed32(w: nat): int {
    if w < 0x8000_0000 then w else w - U32
  }

  /** One track. Files of minor version 3 and up have no legacy fields, those of 1 no flags. */
  function LoadTrack(env: Env, minor: byte, b: seq<byte>, p: nat): Result<At<Track>> {
    var names :- if minor <= 2 then LoadNames(b, p) else Ok(At(([], 0), p));
    var start :- Read32(b, names.next);
    var end :- Read32(b, start.next);
    var duration :- Read32(b, end.next);
    var v1 := ReplaceText(names.value.0, DURATION, env.durationText(duration.value));
    var legacy :- if minor <= 2 then LoadLegacy(env, v1, b, duration.next) else Ok(At(v1, duration.next));
    var derived := if Signed32(start.value) > 0 || Signed32(end.value) > 0 || names.value.1 > 0 then IS_SUBTRACK else 0;
    var flags :- if minor >= 2 then Read32(b, legacy.next) else Ok(At(derived, legacy.next));
    var v2 := ReplaceText(legacy.value, TAGS, env.tagsText(flags.value));
    var v3 := ReplaceText(v2, HAS_CUESHEET, env.cuesheetText(flags.value));
    var nm :- Read(b, flags.next, 2);
    var count := Signed16(FromLe16(nm.value));
    LoadMeta(Track(v3, Sample(start.value, None), Sample(end.value, None), duration.value, flags.value), b, nm.next,
             if count < 0 then 0 else count)
  }

  /** The items read, and the position behind them unless reading failed. */
  datatype Part<T> = Part(items: seq<T>, next: Option<nat>)

  /** Tracks read before a failure stay in the playlist. */
  function LoadTracks(env: Env, minor: byte, b: seq<byte>, p: nat, n: nat): Part<Track>
    decreases n
  {
    if n == 0 then Part([], Some(p))
    else
      var t := LoadTrack(env, minor, b, p);
      if t.Err? then Part([], None)
      else
        var rest := LoadTracks(env, minor, b, t.value.next, n - 1);
        Part([t.value.value] + rest.items, rest.next)
  }

  /** plt_add_meta */
  function AddPair(pairs: seq<Entry>, key: seq<byte>, s: seq<byte>): seq<Entry> {
    if Find(pairs, key) < |pairs| || s == [] then pairs else pairs + [Entry(key, s + [0])]
  }

  /** One pair of the playlist metadata, or none if the value is skipped; lengths are signed here, and a
      negative one moves backwards. */
  function LoadPair(b: seq<byte>, p: nat): Result<At<Option<(seq<byte>, seq<byte>)>>> {
    var kl :- Read(b, p, 2);
    var k := Signed16(FromLe16(kl.value));
    if k < 0 || k >= MAX_STRING then Err
    else
      var key :- Read(b, kl.next, k);
      var vl :- Read(b, key.next, 2);
      var l := Signed16(FromLe16(vl.value));
      if l < 0 || l >= MAX_STRING then Ok(At(None, if 0 <= vl.next + l <= |b| then vl.next + l else vl.next))
      else
        var value :- Read(b, vl.next, l);
        Ok(At(Some((CString(key.value + [0]), CString(value.value + [0]))), value.next))
  }

  /** The metadata of the playlist. */
  function LoadPairs(pairs: seq<Entry>, b: seq<byte>, p: nat, n: nat): Part<Entry>
    decreases n
  {
    if n == 0 then Part(pairs, Some(p))
    else
      match LoadPair(b, p)
      case Err => Part(pairs, None)
      case Ok(At(None, next)) => LoadPairs(pairs, b, next, n - 1)
      case Ok(At(Some((key, s)), next)) => LoadPairs(AddPair(pairs, key, s), b, next, n - 1)
  }

  /** What the loader reports, and what is in the playlist afterwards. */
  datatype Loaded = Loaded(ok: bool, tracks: seq<Track>, pairs: seq<Entry>)

  /** Magic, version and number of tracks. */
  function LoadHead(b: seq<byte>): Result<At<(byte, nat)>> {
    var head :- Read(b, 0, 6);
    if head.value[..4] != MAGIC || head.value[4] != MAJOR || head.value[5] < 1 then Err
    else
      var count :- Read32(b, 6);
      Ok(At((head.value[5], count.value), count.next))
  }

  /** _plt_load_from_file, from a buffer into an empty playlist. */
  function Load(env: Env, b: seq<byte>): Loaded {
    var head := LoadHead(b);
    if head.Err? then Loaded(false, [], [])
    else
      var tracks := LoadTracks(env, head.value.value.0, b, head.value.next, head.value.value.1);
      if tracks.next.None? then Loaded(false, tracks.items, [])
      else
        var nm := Read(b, tracks.next.value, 2);
        if nm.Err? then Loaded(true, tracks.items, [])
        else
          var n := Signed16(FromLe16(nm.value.value));
          var pairs := LoadPairs([], b, nm.value.next, if n < 0 then 0 else n);
          Loaded(pairs.next.Some?, tracks.items, pairs.items)
  }
}
