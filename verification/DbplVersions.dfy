/** Playlist files of every minor version: which fields a track has there and what the loader derives from them.
    The writer of src/playlist.c puts down version 2; versions 1 and from 3 on are only read. */
module DbplVersions {
  import opened PlayItems
  import opened ByteOrder
  import opened MetaSpec
  import opened Dbpl
  import opened DbplProofs
  import opened DbplSame
  import MetaLaws
  import opened Selections

  /** The fields of a track before its metadata; `number` is a 16-bit word. */
  datatype Fields = Fields(uri: seq<byte>, decoder: seq<byte>, number: nat, start: nat, end: nat, duration: nat,
                           filetype: seq<byte>, gains: seq<nat>, flags: nat)

  predicate FieldsOk(f: Fields) {
    && 0 !in f.uri && |f.uri| <= 0xffff && 0 !in f.decoder && |f.decoder| < 20 && f.number < 0x1_0000
    && f.start < U32 && f.end < U32 && f.duration < U32 && f.flags < U32
    && 0 !in f.filetype && |f.filetype| <= 0xff && |f.gains| == 4 && forall i :: 0 <= i < 4 ==> f.gains[i] < U32
  }

  /** The loader has room for 4095 bytes of a URI. */
  function Uri(f: Fields): (r: seq<byte>)
    ensures 0 !in f.uri ==> 0 !in r
  {
    if |f.uri| < 4096 then f.uri else f.uri[..4095]
  }

  function Names1(f: Fields): seq<byte> {
    Str16(f.uri) + Str8(f.decoder) + Le16(f.number)
  }

  function Words(f: Fields): (r: seq<byte>)
    ensures |r| == 12
  {
    Le32(f.start) + Le32(f.end) + Le32(f.duration)
  }

  function GainWords(f: Fields): (r: seq<byte>)
    requires |f.gains| == 4
    ensures |r| == 16
  {
    Le32(f.gains[0]) + Le32(f.gains[1]) + Le32(f.gains[2]) + Le32(f.gains[3])
  }

  /** A track without metadata in a file of the given minor version: from version 3 on there are no legacy fields,
      before version 2 there are no flags. */
  function FieldBytes(minor: byte, f: Fields): seq<byte>
    requires |f.gains| == 4
  {
    (if minor <= 2 then Names1(f) else []) + Words(f) + (if minor <= 2 then Str8(f.filetype) + GainWords(f) else [])
    + (if minor >= 2 then Le32(f.flags) else []) + Le16(0)
  }

  /** A key with its text, if there is any. */
  function Line(key: seq<byte>, text: seq<byte>): seq<Entry> {
    if text == [0] then [] else [Entry(key, text)]
  }

  function GainLine(env: Env, f: Fields, n: nat): seq<Entry>
    requires n < 4 && |f.gains| == 4
  {
    var text := env.gainText(n, f.gains[n]);
    if text.Some? then Line(GainKey(n), text.value) else []
  }

  function GainKey(n: nat): seq<byte>
    requires n < 4
  {
    Ascii([":REPLAYGAIN_ALBUMGAIN", ":REPLAYGAIN_ALBUMPEAK", ":REPLAYGAIN_TRACKGAIN", ":REPLAYGAIN_TRACKPEAK"][n])
  }

  /** A 16-bit word, the lower byte first. */
  lemma HalfIs(n: nat)
    requires n < 0x1_0000
    ensures var b := Le16(n); b[0] as int + 0x100 * b[1] as int == n
  {
  }

  /** The metadata that is derived from the fields, in order. */
  function DerivedMeta(env: Env, minor: byte, f: Fields): seq<Entry>
    requires |f.gains| == 4 && f.number < 0x1_0000
  {
    var flags := FlagsOf(minor, f);
    (if minor <= 2
     then
       Line(Ascii(":URI"), Uri(f) + [0]) + Line(Ascii(":DECODER"), f.decoder + [0])
       + Line(Ascii(":TRACKNUM"), Decimal(Signed16(f.number)) + [0])
     else [])
    + Line(Ascii(":DURATION"), env.durationText(f.duration))
    + (if minor <= 2
       then
         Line(Ascii(":FILETYPE"), f.filetype + [0]) + GainLine(env, f, 0) + GainLine(env, f, 1) + GainLine(env, f, 2)
         + GainLine(env, f, 3)
       else [])
    + Line(Ascii(":TAGS"), env.tagsText(flags)) + Line(Ascii(":HAS_EMBEDDED_CUESHEET"), env.cuesheetText(flags))
  }

  /** Without flags in the file, a track with a first or last sample, or a number, is part of a file. The number
      counts only where it is in the file. */
  function FlagsOf(minor: byte, f: Fields): nat {
    if minor >= 2 then f.flags
    else if 0 < f.start < 0x8000_0000 || 0 < f.end < 0x8000_0000 || 0 < f.number < 0x8000 then 1
    else 0
  }

  // ----- keys that differ ------------------------------------------------------------------

  const ORDER: seq<seq<byte>> := [URI, DECODER, TRACKNUM, DURATION, FILETYPE, RG_KEYS[0], RG_KEYS[1], RG_KEYS[2],
                                  RG_KEYS[3], TAGS, HAS_CUESHEET]

  lemma KeysApart(i: nat, j: nat)
    requires i < j < 11
    ensures |ORDER| == 11 && !SameKey(ORDER[i], ORDER[j])
  {
    KeySizes();
    assert |Fold(ORDER[i])| == |ORDER[i]| && |Fold(ORDER[j])| == |ORDER[j]|;
    assert Fold(ORDER[i])[1] == ToLower(ORDER[i][1]) && Fold(ORDER[j])[1] == ToLower(ORDER[j][1]);
    if 5 <= i && j <= 8 {
      assert Fold(ORDER[i])[12] == ToLower(ORDER[i][12]) && Fold(ORDER[j])[12] == ToLower(ORDER[j][12]);
      assert Fold(ORDER[i])[17] == ToLower(ORDER[i][17]) && Fold(ORDER[j])[17] == ToLower(ORDER[j][17]);
    }
  }

  lemma KeySizes()
    ensures |URI| == 4 && |DECODER| == 8 && |TRACKNUM| == 9 && |DURATION| == 9 && |FILETYPE| == 9
    ensures |TAGS| == 5 && |HAS_CUESHEET| == 22 && forall i :: 0 <= i < 4 ==> |RG_KEYS[i]| == 21
    ensures TRACKNUM[1] == 84 && DURATION[1] == 68 && FILETYPE[1] == 70
    ensures RG_KEYS[0][12] == 65 && RG_KEYS[1][12] == 65 && RG_KEYS[2][12] == 84 && RG_KEYS[3][12] == 84
    ensures RG_KEYS[0][17] == 71 && RG_KEYS[1][17] == 80 && RG_KEYS[2][17] == 71 && RG_KEYS[3][17] == 80
  {
  }

  /** The list has only keys of the order before position i. */
  ghost predicate OnlyBefore(v: seq<Entry>, i: nat)
    requires i <= 11
  {
    |ORDER| == 11 && forall k :: 0 <= k < |v| ==> v[k].key in ORDER[..i]
  }

  lemma StillAbsent(v: seq<Entry>, i: nat)
    requires i < 11 && OnlyBefore(v, i)
    ensures Find(v, ORDER[i]) == |v|
  {
    assert |ORDER| == 11;
    hide SameKey, Find, ORDER;
    forall j | 0 <= j < i
      ensures !SameKey(ORDER[j], ORDER[i])
    {
      KeysApart(j, i);
    }
    AbsentFrom(v, ORDER, i);
  }

  lemma AbsentFrom(v: seq<Entry>, order: seq<seq<byte>>, i: nat)
    requires i < |order| && forall k :: 0 <= k < |v| ==> v[k].key in order[..i]
    requires forall j :: 0 <= j < i ==> !SameKey(order[j], order[i])
    ensures Find(v, order[i]) == |v|
  {
    hide SameKey, Find;
    forall k | 0 <= k < |v|
      ensures !SameKey(v[k].key, order[i])
    {
      assert v[k].key in order[..i];
      var j :| 0 <= j < i && order[..i][j] == v[k].key;
      assert order[..i][j] == order[j];
    }
    FindIs(v, order[i], |v|);
  }

  lemma Colons(i: nat)
    requires i < 11
    ensures |ORDER| == 11 && ORDER[i] != [] && ORDER[i][0] == COLON && StoredKey(ORDER[i]) == ORDER[i]
      && IsProp(ORDER[i])
  {
  }

  /** A key that is not there yet goes to the end of the list. */
  lemma Fresh(v: seq<Entry>, i: nat, text: seq<byte>)
    requires i < 11 && OnlyBefore(v, i) && IsText(text)
    ensures ReplaceText(v, ORDER[i], text) == v + Line(ORDER[i], text)
    ensures AddFull(v, ORDER[i], text) == v + Line(ORDER[i], text)
    ensures OnlyBefore(v + Line(ORDER[i], text), i + 1)
  {
    StillAbsent(v, i);
    Colons(i);
    hide Find, StoredKey, IsProp;
    assert text[0] == 0 ==> text == [0];
    assert v[..|v|] == v && v[|v|..] == [];
    assert v + [] == v;
    var key := ORDER[i];
    assert ORDER[..i + 1][i] == key;
    assert forall k :: 0 <= k < i ==> ORDER[..i][k] == ORDER[..i + 1][k];
  }

  lemma Later(v: seq<Entry>, i: nat, j: nat)
    requires i <= j <= 11 && OnlyBefore(v, i)
    ensures OnlyBefore(v, j)
  {
    forall k | 0 <= k < |v|
      ensures v[k].key in ORDER[..j]
    {
      var n :| 0 <= n < i && ORDER[..i][n] == v[k].key;
      assert ORDER[..j][n] == v[k].key;
    }
  }

  lemma TextOf(s: seq<byte>)
    requires 0 !in s
    ensures IsText(s + [0]) && CString(s + [0]) == s
  {
    NoZero(s);
    StrLenUnique(s + [0], |s|);
  }

  lemma PutFresh(v: seq<Entry>, i: nat, s: seq<byte>)
    requires i < 11 && OnlyBefore(v, i) && 0 !in s
    ensures Put(v, ORDER[i], s) == v + Line(ORDER[i], s + [0]) == AddText(v, ORDER[i], s)
    ensures OnlyBefore(v + Line(ORDER[i], s + [0]), i + 1)
  {
    hide IsText, CString, Put, AddText, ReplaceText, AddFull, Line;
    TextOf(s);
    Fresh(v, i, s + [0]);
    PutOf(v, ORDER[i], s);
  }

  lemma PutOf(v: seq<Entry>, key: seq<byte>, s: seq<byte>)
    requires CString(s + [0]) == s && IsText(s + [0])
    ensures Put(v, key, s) == ReplaceText(v, key, s + [0]) && AddText(v, key, s) == AddFull(v, key, s + [0])
  {
    hide CString, ReplaceText, AddFull;
  }

  lemma {:induction false} FewDigits(n: nat, k: nat)
    requires n < Power10(k) && k > 0
    ensures |Digits10(n)| <= k
    decreases k
  {
    if n >= 10 {
      FewDigits(n / 10, k - 1);
    }
  }

  function Power10(k: nat): nat {
    if k == 0 then 1 else 10 * Power10(k - 1)
  }

  lemma SmallPrinted(n: int)
    requires -0x8000 <= n < 0x8000
    ensures Printed(n) == Decimal(n) && 0 !in Decimal(n)
  {
    assert Power10(5) == 100000;
    FewDigits(if n < 0 then -n else n, 5);
  }

  // ----- reading the fields ----------------------------------------------------------------

  lemma NamesRead(f: Fields, b: seq<byte>, p: nat)
    requires FieldsOk(f) && Holds(b, p, Names1(f))
    ensures var n := Signed16(f.number);
      var v := Line(URI, Uri(f) + [0]) + Line(DECODER, f.decoder + [0]) + Line(TRACKNUM, Decimal(n) + [0]);
      LoadNames(b, p) == Ok(At((v, n), p + |Names1(f)|)) && OnlyBefore(v, 3)
  {
    hide *;
    NamesFresh(f);
    ShortNames(f);
    HeadSizes();
    HoldsBoth(b, p, Str16(f.uri) + Str8(f.decoder), Le16(f.number));
    HoldsBoth(b, p, Str16(f.uri), Str8(f.decoder));
    var q := p + |Str16(f.uri)|;
    Str16Held(b, p, f.uri);
    Str8Held(b, q, f.decoder);
    ReadHeld(b, q + |Str8(f.decoder)|, Le16(f.number));
    Le16Back(f.number);
    NamesLoaded(f, b, p);
  }

  /** The same read step by step. */
  lemma NamesLoaded(f: Fields, b: seq<byte>, p: nat)
    requires |f.decoder| < 20 && f.number < 0x1_0000 && Path(f.uri) == Uri(f)
    requires Read(b, p, 2) == Ok(At(Le16(|f.uri|), p + 2)) && FromLe16(Le16(|f.uri|)) == |f.uri|
    requires Read(b, p + 2, |f.uri|) == Ok(At(f.uri, p + 2 + |f.uri|))
    requires var q := p + 2 + |f.uri|; var r := q + 1 + |f.decoder|;
      && Read(b, q, 1) == Ok(At([|f.decoder|], q + 1)) && Read(b, q + 1, |f.decoder|) == Ok(At(f.decoder, r))
      && Read(b, r, 2) == Ok(At(Le16(f.number), r + 2)) && FromLe16(Le16(f.number)) == f.number
    ensures var n := Signed16(f.number);
      var v1 := AddText([], URI, Uri(f));
      var v2 := if |f.decoder| > 0 then AddText(v1, DECODER, f.decoder) else v1;
      LoadNames(b, p) == Ok(At((Put(v2, TRACKNUM, Printed(n)), n), p + 5 + |f.uri| + |f.decoder|))
  {
    hide AddText, Put, Printed, Path, Read, FromLe16, Le16;
  }

  lemma ShortNames(f: Fields)
    requires FieldsOk(f)
    ensures Cut16(f.uri) == f.uri && Short(f.decoder) == f.decoder && Path(f.uri) == Uri(f)
    ensures |f.decoder| < 20 && f.number < 0x1_0000
    ensures |Names1(f)| == 5 + |f.uri| + |f.decoder| && Names1(f) == Str16(f.uri) + Str8(f.decoder) + Le16(f.number)
  {
    NoZero(f.uri);
    hide CString;
  }

  lemma NamesFresh(f: Fields)
    requires FieldsOk(f)
    ensures var n := Signed16(f.number);
      var v1 := AddText([], URI, Uri(f));
      var v2 := if |f.decoder| > 0 then AddText(v1, DECODER, f.decoder) else v1;
      var v := Line(URI, Uri(f) + [0]) + Line(DECODER, f.decoder + [0]) + Line(TRACKNUM, Decimal(n) + [0]);
      Put(v2, TRACKNUM, Printed(n)) == v && OnlyBefore(v, 3)
  {
    var n := Signed16(f.number);
    SmallPrinted(n);
    First3();
    var none: seq<Entry> := [];
    assert OnlyBefore(none, 0);
    hide OnlyBefore, Put, AddText, Decimal, Printed, Line, Uri;
    PutFresh(none, 0, Uri(f));
    var v1 := Line(URI, Uri(f) + [0]);
    assert none + v1 == v1;
    PutFresh(v1, 1, f.decoder);
    if f.decoder == [] {
      NoLine(DECODER);
      assert [] + [0] == f.decoder + [0] == [0];
      assert v1 + [] == v1;
    }
    PutFresh(v1 + Line(DECODER, f.decoder + [0]), 2, Decimal(n));
  }

  lemma NoLine(key: seq<byte>)
    ensures Line(key, [0]) == []
  {
  }

  lemma First3()
    ensures |ORDER| == 11 && ORDER[0] == URI && ORDER[1] == DECODER && ORDER[2] == TRACKNUM && ORDER[3] == DURATION
    ensures ORDER[4] == FILETYPE && ORDER[9] == TAGS && ORDER[10] == HAS_CUESHEET
    ensures forall n :: 0 <= n < 4 ==> ORDER[5 + n] == RG_KEYS[n]
  {
  }

  function GainLines(env: Env, f: Fields, n: nat): seq<Entry>
    requires n <= 4 && |f.gains| == 4
    decreases 4 - n
  {
    if n == 4 then [] else GainLine(env, f, n) + GainLines(env, f, n + 1)
  }

  lemma {:induction false} GainsRead(env: Env, f: Fields, v: seq<Entry>, b: seq<byte>, p: nat, n: nat)
    requires EnvOk(env) && FieldsOk(f) && n <= 4 && OnlyBefore(v, 5 + n)
    requires forall i :: n <= i < 4 ==> Holds(b, p + 4 * (i - n), Le32(f.gains[i]))
    ensures LoadGains(env, v, b, p, n) == Ok(At(v + GainLines(env, f, n), p + 4 * (4 - n)))
    ensures OnlyBefore(v + GainLines(env, f, n), 9)
    decreases 4 - n
  {
    hide ReplaceText, Holds, Read32, Le32, OnlyBefore, GainLine;
    if n < 4 {
      assert Holds(b, p + 4 * (n - n), Le32(f.gains[n]));
      WordHeld(b, p, f.gains[n]);
      GainFresh(env, f, v, n);
      GainsRead(env, f, v + GainLine(env, f, n), b, p + 4, n + 1);
      Assoc(v, GainLine(env, f, n), GainLines(env, f, n + 1));
    } else {
      assert v + [] == v;
    }
  }

  lemma GainFresh(env: Env, f: Fields, v: seq<Entry>, n: nat)
    requires EnvOk(env) && FieldsOk(f) && n < 4 && OnlyBefore(v, 5 + n)
    ensures var text := env.gainText(n, f.gains[n]);
      (if text.Some? then ReplaceText(v, RG_KEYS[n], text.value) else v) == v + GainLine(env, f, n)
    ensures OnlyBefore(v + GainLine(env, f, n), 6 + n)
  {
    First3();
    var text := env.gainText(n, f.gains[n]);
    hide OnlyBefore, IsText, ReplaceText, Line;
    if text.Some? {
      Fresh(v, 5 + n, text.value);
    } else {
      Later(v, 5 + n, 6 + n);
      assert v + [] == v;
    }
  }

  lemma LegacyRead(env: Env, f: Fields, v: seq<Entry>, b: seq<byte>, p: nat)
    requires EnvOk(env) && FieldsOk(f) && OnlyBefore(v, 4) && Holds(b, p, Str8(f.filetype) + GainWords(f))
    ensures var w := v + Line(FILETYPE, f.filetype + [0]) + GainLines(env, f, 0);
      LoadLegacy(env, v, b, p) == Ok(At(w, p + |Str8(f.filetype)| + 16)) && OnlyBefore(w, 9)
  {
    hide *;
    WordFits(f);
    TypeFresh(f, v);
    HoldsBoth(b, p, Str8(f.filetype), GainWords(f));
    Str8Held(b, p, f.filetype);
    var q := p + |Str8(f.filetype)|;
    GainsHeld(f, b, q);
    GainsRead(env, f, v + Line(FILETYPE, f.filetype + [0]), b, q, 0);
    LegacyLoaded(env, f, v, b, p);
  }

  lemma LegacyLoaded(env: Env, f: Fields, v: seq<Entry>, b: seq<byte>, p: nat)
    requires Read(b, p, 1) == Ok(At([|f.filetype|], p + 1)) && |f.filetype| <= 0xff
    requires Read(b, p + 1, |f.filetype|) == Ok(At(f.filetype, p + 1 + |f.filetype|))
    ensures LoadLegacy(env, v, b, p)
      == LoadGains(env, if f.filetype != [] then Put(v, FILETYPE, f.filetype) else v, b, p + 1 + |f.filetype|, 0)
  {
    hide Read, Put, LoadGains;
  }

  lemma GainsHeld(f: Fields, b: seq<byte>, p: nat)
    requires FieldsOk(f) && Holds(b, p, GainWords(f))
    ensures forall i :: 0 <= i < 4 ==> Holds(b, p + 4 * i, Le32(f.gains[i]))
  {
    hide Le32, Holds;
    FourWords(b, p, Le32(f.gains[0]), Le32(f.gains[1]), Le32(f.gains[2]), Le32(f.gains[3]));
  }

  lemma TypeFresh(f: Fields, v: seq<Entry>)
    requires FieldsOk(f) && OnlyBefore(v, 4)
    ensures (if f.filetype != [] then Put(v, FILETYPE, f.filetype) else v) == v + Line(FILETYPE, f.filetype + [0])
    ensures OnlyBefore(v + Line(FILETYPE, f.filetype + [0]), 5)
    ensures Short(f.filetype) == f.filetype && |f.filetype| <= 0xff && |Str8(f.filetype)| == 1 + |f.filetype|
  {
    First3();
    PutFresh(v, 4, f.filetype);
    hide OnlyBefore, Put, AddText;
    if f.filetype == [] {
      NoLine(FILETYPE);
      assert f.filetype + [0] == [0];
      assert v + [] == v;
    }
  }

  // ----- a track of any version ------------------------------------------------------------

  /** A track without metadata is read back from a file of any version: the fields that the version has, and
      exactly the derived metadata, in order; the reader stops right behind it. */
  lemma VersionBack(env: Env, minor: byte, f: Fields, b: seq<byte>, p: nat)
    requires EnvOk(env) && FieldsOk(f) && Holds(b, p, FieldBytes(minor, f))
    ensures LoadTrack(env, minor, b, p) ==
      Ok(At(Track(DerivedMeta(env, minor, f), Sample(f.start, None), Sample(f.end, None), f.duration,
                  FlagsOf(minor, f)),
            p + |FieldBytes(minor, f)|))
  {
    hide *;
    WordFits(f);
    FieldParts(minor, f, b, p);
    HeadSizes();
    var q := p + if minor <= 2 then |Names1(f)| else 0;
    var none: seq<Entry> := [];
    Nothing();
    if minor <= 2 {
      NamesRead(f, b, p);
    }
    var v0 := if minor <= 2 then Line(URI, Uri(f) + [0]) + Line(DECODER, f.decoder + [0])
                                 + Line(TRACKNUM, Decimal(Signed16(f.number)) + [0])
              else none;
    ShortNames(f);
    WordFits(f);
    WordHeld(b, q, f.start);
    WordHeld(b, q + 4, f.end);
    WordHeld(b, q + 8, f.duration);
    EnvTexts(env, f.duration, FlagsOf(minor, f));
    First3();
    Fresh(v0, 3, env.durationText(f.duration));
    var v1 := v0 + Line(DURATION, env.durationText(f.duration));
    if minor <= 2 {
      LegacyRead(env, f, v1, b, q + 12);
    } else {
      Later(v1, 4, 9);
    }
    var v2 := if minor <= 2 then v1 + Line(FILETYPE, f.filetype + [0]) + GainLines(env, f, 0) else v1;
    var r := q + 12 + if minor <= 2 then |Str8(f.filetype)| + 16 else 0;
    if minor >= 2 {
      WordHeld(b, r, f.flags);
    }
    Fresh(v2, 9, env.tagsText(FlagsOf(minor, f)));
    var v3 := v2 + Line(TAGS, env.tagsText(FlagsOf(minor, f)));
    Fresh(v3, 10, env.cuesheetText(FlagsOf(minor, f)));
    var v4 := v3 + Line(HAS_CUESHEET, env.cuesheetText(FlagsOf(minor, f)));
    var s := r + if minor >= 2 then 4 else 0;
    ReadHeld(b, s, Le16(0));
    Le16Back(0);
    DerivedIs(env, minor, f, v0, v1, v2, v4);
    Assembled(env, minor, f, b, p, v0, v1, v2, v4, q, r, s);
  }

  lemma Nothing()
    ensures OnlyBefore([], 3)
  {
    First3();
  }

  lemma WordFits(f: Fields)
    requires FieldsOk(f)
    ensures f.start < U32 && f.end < U32 && f.duration < U32 && f.flags < U32 && |f.gains| == 4
    ensures f.number < 0x1_0000
  {
  }

  lemma EnvTexts(env: Env, d: nat, flags: nat)
    requires EnvOk(env)
    ensures IsText(env.durationText(d)) && IsText(env.tagsText(flags)) && IsText(env.cuesheetText(flags))
  {
    hide IsText;
  }

  /** Where the fields are. */
  lemma FieldParts(minor: byte, f: Fields, b: seq<byte>, p: nat)
    requires FieldsOk(f) && Holds(b, p, FieldBytes(minor, f))
    ensures var q := p + if minor <= 2 then |Names1(f)| else 0;
      var r := q + 12 + if minor <= 2 then |Str8(f.filetype)| + 16 else 0;
      var s := r + if minor >= 2 then 4 else 0;
      && (minor <= 2 ==> Holds(b, p, Names1(f)) && Holds(b, q + 12, Str8(f.filetype) + GainWords(f)))
      && Holds(b, q, Le32(f.start)) && Holds(b, q + 4, Le32(f.end)) && Holds(b, q + 8, Le32(f.duration))
      && (minor >= 2 ==> Holds(b, r, Le32(f.flags))) && Holds(b, s, Le16(0)) && |FieldBytes(minor, f)| == s + 2 - p
  {
    hide Names1, GainWords, Str8, Le32, Le16, Holds;
    var n := if minor <= 2 then Names1(f) else [];
    var l := if minor <= 2 then Str8(f.filetype) + GainWords(f) else [];
    var g := if minor >= 2 then Le32(f.flags) else [];
    FivePieces1(b, p, n, Words(f), l, g, Le16(0));
    HoldsBoth(b, p + |n|, Le32(f.start) + Le32(f.end), Le32(f.duration));
    HoldsBoth(b, p + |n|, Le32(f.start), Le32(f.end));
  }

  lemma FivePieces1(b: seq<byte>, p: nat, p1: seq<byte>, p2: seq<byte>, p3: seq<byte>, p4: seq<byte>, p5: seq<byte>)
    requires Holds(b, p, p1 + p2 + p3 + p4 + p5)
    ensures Holds(b, p, p1) && Holds(b, p + |p1|, p2) && Holds(b, p + |p1| + |p2|, p3)
    ensures Holds(b, p + |p1| + |p2| + |p3|, p4) && Holds(b, p + |p1| + |p2| + |p3| + |p4|, p5)
  {
    hide Holds;
    HoldsBoth(b, p, p1 + p2 + p3 + p4, p5);
    HoldsBoth(b, p, p1 + p2 + p3, p4);
    HoldsBoth(b, p, p1 + p2, p3);
    HoldsBoth(b, p, p1, p2);
  }

  lemma DerivedIs(env: Env, minor: byte, f: Fields, v0: seq<Entry>, v1: seq<Entry>, v2: seq<Entry>, v4: seq<Entry>)
    requires |f.gains| == 4 && f.number < 0x1_0000
    requires v0 == if minor <= 2 then Line(URI, Uri(f) + [0]) + Line(DECODER, f.decoder + [0])
                                      + Line(TRACKNUM, Decimal(Signed16(f.number)) + [0])
                   else []
    requires v1 == v0 + Line(DURATION, env.durationText(f.duration))
    requires v2 == if minor <= 2 then v1 + Line(FILETYPE, f.filetype + [0]) + GainLines(env, f, 0) else v1
    requires v4 == v2 + Line(TAGS, env.tagsText(FlagsOf(minor, f)))
                   + Line(HAS_CUESHEET, env.cuesheetText(FlagsOf(minor, f)))
    ensures v4 == DerivedMeta(env, minor, f)
  {
    hide Line, GainLine, FlagsOf, Decimal;
    var a, b, c, d := GainLine(env, f, 0), GainLine(env, f, 1), GainLine(env, f, 2), GainLine(env, f, 3);
    FourGains(env, f);
    if minor <= 2 {
      var l := Line(FILETYPE, f.filetype + [0]);
      Regroup(v1, l, a, b, c, d);
    } else {
      assert v1 + [] == v1;
    }
  }

  lemma FourGains(env: Env, f: Fields)
    requires |f.gains| == 4
    ensures GainLines(env, f, 0)
      == GainLine(env, f, 0) + (GainLine(env, f, 1) + (GainLine(env, f, 2) + (GainLine(env, f, 3) + [])))
  {
    hide GainLine;
    assert GainLines(env, f, 3) == GainLine(env, f, 3) + [];
  }

  lemma Regroup<T>(v: seq<T>, l: seq<T>, a: seq<T>, b: seq<T>, c: seq<T>, d: seq<T>)
    ensures v + l + (a + (b + (c + (d + [])))) == v + (l + a + b + c + d)
  {
  }

  /** The reader put together from its parts. */
  lemma Assembled(env: Env, minor: byte, f: Fields, b: seq<byte>, p: nat, v0: seq<Entry>, v1: seq<Entry>,
                  v2: seq<Entry>, v4: seq<Entry>, q: nat, r: nat, s: nat)
    requires f.number < 0x1_0000
    requires f.start < U32 && f.end < U32
    requires minor <= 2 ==> LoadNames(b, p) == Ok(At((v0, Signed16(f.number)), q))
    requires minor > 2 ==> v0 == [] && q == p
    requires Read32(b, q) == Ok(At(f.start, q + 4)) && Read32(b, q + 4) == Ok(At(f.end, q + 8))
    requires Read32(b, q + 8) == Ok(At(f.duration, q + 12))
    requires ReplaceText(v0, DURATION, env.durationText(f.duration)) == v1
    requires minor <= 2 ==> LoadLegacy(env, v1, b, q + 12) == Ok(At(v2, r))
    requires minor > 2 ==> v2 == v1 && r == q + 12
    requires minor >= 2 ==> Read32(b, r) == Ok(At(f.flags, r + 4)) && s == r + 4
    requires minor < 2 ==> s == r
    requires var flags := FlagsOf(minor, f);
      ReplaceText(ReplaceText(v2, TAGS, env.tagsText(flags)), HAS_CUESHEET, env.cuesheetText(flags)) == v4
    requires Read(b, s, 2) == Ok(At(Le16(0), s + 2)) && FromLe16(Le16(0)) == 0
    ensures LoadTrack(env, minor, b, p) ==
      Ok(At(Track(v4, Sample(f.start, None), Sample(f.end, None), f.duration, FlagsOf(minor, f)), s + 2))
  {
    hide LoadNames, LoadLegacy, Read, Read32, FromLe16, Le16, ReplaceText;
    assert IS_SUBTRACK == 1;
  }

  // ----- the head of a file ----------------------------------------------------------------

  /** The loader goes on behind the head if and only if it says "DBPL", major version 1 and some minor version, and
      the number of tracks is there. */
  lemma HeadTaken(b: seq<byte>)
    ensures LoadHead(b).Ok? <==> |b| >= 10 && b[..5] == [68, 66, 80, 76, 1] && b[5] != 0
    ensures LoadHead(b).Ok? ==> LoadHead(b).value == At((b[5], FromLe32(b[6..10])), 10)
  {
    hide FromLe32;
    if |b| >= 6 {
      assert b[0..6][..4] == b[..5][..4] && b[0..6][4] == b[..5][4];
    }
  }

  /** Of any other file nothing is loaded. */
  lemma WrongHead(env: Env, b: seq<byte>)
    requires |b| < 10 || b[..5] != [68, 66, 80, 76, 1] || b[5] == 0
    ensures Load(env, b) == Loaded(false, [], [])
  {
    HeadTaken(b);
    hide LoadHead;
  }

  // ----- keys that are there twice ---------------------------------------------------------

  lemma PutTwice(v: seq<Entry>, key: seq<byte>, a: seq<byte>, b: seq<byte>)
    requires 0 !in a && 0 !in b && a != [] && b != []
    ensures Put(Put(v, key, a), key, b) == Put(v, key, b)
  {
    hide Replace, CString;
    TextOf(a);
    TextOf(b);
    PutOf(v, key, a);
    PutOf(v, key, b);
    PutOf(Put(v, key, a), key, b);
    MetaLaws.ReplaceTwice(v, key, a + [0], b + [0]);
  }

  lemma CopiedString(s: seq<byte>)
    requires 0 !in s
    ensures CString(s + [0]) == s
  {
    TextOf(s);
  }

  /** What a pair of the file does. */
  lemma ApplyIs(t: Track, key: seq<byte>, s: seq<byte>)
    requires key != [] && 0 !in key && 0 !in s
    ensures Apply(t, key, s) ==
      if key[0] != 58 then t.(meta := AddFull(t.meta, key, s + [0]))
      else if key == STARTSAMPLE then
        t.(start := SetSample(Atoll(s)), meta := Put(t.meta, STARTSAMPLE, Printed(Atoll(s))))
      else if key == ENDSAMPLE then
        t.(end := SetSample(Atoll(s)), meta := Put(t.meta, ENDSAMPLE, Printed(Atoll(s))))
      else if key == URI then t.(meta := Put(t.meta, URI, Path(s)))
      else t.(meta := Put(t.meta, key, s))
  {
    CopiedString(key);
    CopiedString(s);
    hide CString, AddFull, Put, Path, Atoll, Printed, SetSample, STARTSAMPLE, ENDSAMPLE, URI;
  }

  /** Of two pairs with the same key the first counts, unless the key starts with ':': then the second does. */
  lemma KeyTwice(t: Track, key: seq<byte>, a: seq<byte>, b: seq<byte>)
    requires key != [] && 0 !in key && 0 !in a && 0 !in b && a != [] && b != []
    ensures Apply(Apply(t, key, a), key, b) == Apply(t, key, if key[0] == 58 then b else a)
  {
    hide *;
    ApplyIs(t, key, a);
    ApplyIs(t, key, b);
    ApplyIs(Apply(t, key, a), key, b);
    if key[0] != 58 {
      Plain(a);
      Plain(b);
      MetaLaws.AddTwice(t.meta, key, a + [0], b + [0]);
    } else {
      PutTwice(t.meta, key, a, b);
      PutTwice(t.meta, STARTSAMPLE, Printed(Atoll(a)), Printed(Atoll(b)));
      PutTwice(t.meta, ENDSAMPLE, Printed(Atoll(a)), Printed(Atoll(b)));
      PathText(a);
      PathText(b);
      PutTwice(t.meta, URI, Path(a), Path(b));
    }
  }

  lemma Plain(s: seq<byte>)
    requires 0 !in s && s != []
    ensures Terminated(s + [0]) && s + [0] != [] && (s + [0])[0] != 0
  {
  }

  lemma PathText(s: seq<byte>)
    requires 0 !in s && s != []
    ensures 0 !in Path(s) && Path(s) != []
  {
    CopiedString(s);
    hide CString;
  }

  /** Of two pairs of playlist metadata with the same key the first counts. */
  lemma PairTwice(pairs: seq<Entry>, key: seq<byte>, a: seq<byte>, b: seq<byte>)
    requires a != []
    ensures AddPair(AddPair(pairs, key, a), key, b) == AddPair(pairs, key, a)
    ensures Find(pairs, key) == |pairs| ==> AddPair(pairs, key, a) == pairs + [Entry(key, a + [0])]
  {
    hide SameKey;
    if Find(pairs, key) == |pairs| {
      SameToItself(key);
      MetaLaws.FindAt(pairs + [Entry(key, a + [0])], key, |pairs|);
    }
  }

  lemma SameToItself(key: seq<byte>)
    ensures SameKey(key, key)
  {
  }

  // ----- values that are too long ----------------------------------------------------------

  /** What is taken are the entries whose value has fewer than 20000 bytes before its last zero, in order. */
  lemma {:induction false} TakenPicks(v: seq<Entry>)
    ensures Picks(v, (e: Entry) => |Inner(e.value)| < 20000, Taken(v))
  {
    hide Picks, Inner;
    var keep := (e: Entry) => |Inner(e.value)| < 20000;
    if v == [] {
      PicksNone(v, keep);
    } else {
      TakenPicks(v[1..]);
      if ShortValue(v[0]) {
        PicksTake(v, keep, Taken(v[1..]));
      } else {
        PicksDrop(v, keep, Taken(v[1..]));
      }
    }
  }
}
