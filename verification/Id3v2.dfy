/** ID3v2 tags of src/junklib.c as bytes: what the writer puts down, what the reader makes of any bytes,
    and how the two meet. */
module Id3v2 {
  import opened PlayItems
  import opened ByteOrder
  import opened MetaSpec

  datatype Result<T> = Ok(value: T) | Err

  /** A frame; `id` is four bytes, padded with zeros. */
  datatype Frame = Frame(id: seq<byte>, flags1: byte, flags2: byte, data: seq<byte>)

  datatype Tag = Tag(major: byte, minor: byte, flags: byte, frames: seq<Frame>)

  const MAX_FRAME_SIZE := 100000
  const APIC: seq<byte> := [65, 80, 73, 67]
  const PIC: seq<byte> := [80, 73, 67, 0]
  const SIGNATURE: seq<byte> := [73, 68, 51]

  predicate FrameOk(f: Frame) {
    |f.id| == 4 && |f.data| < U32
  }

  predicate TagOk(t: Tag) {
    forall i :: 0 <= i < |t.frames| ==> FrameOk(t.frames[i])
  }

  // ----- writing ---------------------------------------------------------------------------

  function SizeBytes(major: byte, n: nat): (r: seq<byte>)
    ensures |r| == 4
  {
    if major == 3 then Be32(n) else Sync28(n)
  }

  function FrameBytes(major: byte, f: Frame): (r: seq<byte>)
    requires FrameOk(f)
    ensures |r| == 10 + |f.data|
  {
    f.id + SizeBytes(major, |f.data|) + [f.flags1, f.flags2] + f.data
  }

  function Body(major: byte, frames: seq<Frame>): (r: seq<byte>)
    requires forall i :: 0 <= i < |frames| ==> FrameOk(frames[i])
    ensures |r| == BodySize(frames)
  {
    if frames == [] then [] else FrameBytes(major, frames[0]) + Body(major, frames[1..])
  }

  function BodySize(frames: seq<Frame>): nat {
    if frames == [] then 0 else 10 + |frames[0].data| + BodySize(frames[1..])
  }

  function ClearBit(x: byte, mask: nat): (r: byte)
    requires mask > 0
    ensures r <= x
  {
    if Has(x, mask) && mask <= x then x - mask else x
  }

  /** The flags in a written header: no extended header, no footer. */
  function HeaderFlags(flags: byte): byte {
    ClearBit(ClearBit(flags, 0x40), 0x10)
  }

  function TagBytes(t: Tag): (r: seq<byte>)
    requires TagOk(t)
    ensures |r| == 10 + BodySize(t.frames)
  {
    SIGNATURE + [t.major, t.minor] + [HeaderFlags(t.flags)] + Sync28(BodySize(t.frames)) + Body(t.major, t.frames)
  }

  // ----- reading ---------------------------------------------------------------------------

  /** The byte at `p`. The code may look one byte past the end of the tag (Id3v2Bounds), but never uses it. */
  function At(b: seq<byte>, p: nat): byte {
    if p < |b| then b[p] else 0
  }

  /** The reader replaces the three-letter names of ID3v2.2 by the names of its own version. */
  type Names = map<seq<byte>, seq<byte>>

  predicate NamesOk(names: Names) {
    forall k :: k in names ==> |k| == 3 && |names[k]| == 4
  }

  function FrameId(id: seq<byte>, names: Names): (r: seq<byte>)
    requires |id| == 4 && NamesOk(names)
    ensures |r| == 4
  {
    var s := id[..StrLen(id)];
    if s in names then names[s] else s + seq(4 - |s|, _ => 0)
  }

  /** The bytes in front of the data that the flags of a frame announce. */
  function Extra(major: byte, flags1: byte, flags2: byte): (r: nat)
    ensures r <= 5
  {
    if major == 4 then
      if flags1 % 16 != 0 || Has(flags1, 0x80) || Has(flags2, 0x80) || Has(flags2, 0x20) || Has(flags2, 0x10) then 0
      else
        var group := if Has(flags2, 0x40) then 1 else 0;
        if Has(flags2, 0x08) || Has(flags2, 0x04) then group
        else group + if Has(flags2, 0x01) then 4 else 0
    else
      if flags1 % 32 != 0 || flags2 % 32 != 0 || Has(flags2, 0x80) || Has(flags2, 0x40) then 0
      else if Has(flags2, 0x20) then 1 else 0
  }

  /** How far the reader moves on from the data of a frame: subtracting the extra bytes from a
      shorter frame wraps around. */
  function Advance(major: byte, flags1: byte, flags2: byte, size: nat): (r: nat)
    ensures r >= size
  {
    if size < Extra(major, flags1, flags2) then size + U32 else size
  }

  /** What one round of the read loop does: leave the loop, fail, drop the frame or store it; and
      where it goes on. */
  datatype Round = Stop(at: nat) | Fail | Drop(next: nat) | Store(frame: Frame, next: nat)

  function ReadFrame(major: byte, b: seq<byte>, p: nat, names: Names): (r: Round)
    requires NamesOk(names) && p + 4 <= |b|
    ensures r.Drop? || r.Store? ==> r.next >= p + 6
  {
    if major == 2 then ReadOldFrame(b, p)
    else if p + 4 >= |b| - 4 then Stop(p + 4)
    else
      var id := FrameId(b[p..p + 4], names);
      var size := if major == 4 then FromSync28(b[p + 4..p + 8]) else FromBe32(b[p + 4..p + 8]);
      if p + 8 >= Sub32(|b|, size) then Fail
      else if id != APIC && size > MAX_FRAME_SIZE then Drop(p + 10 + size)
      else if p + 10 + size > |b| then Drop(p + 10 + size)
      else
        Store(Frame(id, b[p + 8], b[p + 9], b[p + 10..p + 10 + size]),
              p + 10 + Advance(major, b[p + 8], b[p + 9], size))
  }

  /** ID3v2.2: three bytes for the name, three for the size, no flags. */
  function ReadOldFrame(b: seq<byte>, p: nat): (r: Round)
    requires p + 4 <= |b|
    ensures r.Drop? || r.Store? ==> r.next >= p + 6
  {
    if p + 3 >= |b| - 3 then Stop(p + 3)
    else
      var id, size := FrameId(b[p..p + 3] + [0], map[]), FromBe24(b[p + 3..p + 6]);
      if p + 6 >= Sub32(|b|, size) then Stop(p + 6)
      else if id != PIC && size > MAX_FRAME_SIZE then Drop(p + 6 + size)
      else if p + 6 + size > |b| then Drop(p + 6 + size)
      else Store(Frame(id, 0, 0, b[p + 6..p + 6 + size]), p + 6 + size)
  }

  /** Frames, and where the read pointer ends up. */
  datatype Frames = Frames(list: seq<Frame>, end: nat)

  /** The frames of a tag from position `p` on. */
  function ReadFrames(major: byte, b: seq<byte>, p: nat, names: Names): Result<Frames>
    requires NamesOk(names)
    decreases if p <= |b| then |b| - p else 0
  {
    if p > |b| - 4 || b[p] == 0 then Ok(Frames([], p))
    else
      match ReadFrame(major, b, p, names)
      case Stop(at) => Ok(Frames([], at))
      case Fail => Err
      case Drop(next) => ReadFrames(major, b, next, names)
      case Store(f, next) => Prepend([f], ReadFrames(major, b, next, names))
  }

  function Prepend(frames: seq<Frame>, rest: Result<Frames>): Result<Frames> {
    if rest.Err? then Err else Ok(Frames(frames + rest.value.list, rest.value.end))
  }

  predicate BadSize(header: seq<byte>)
    requires |header| >= 10
  {
    header[9] >= 0x80 || header[8] >= 0x80 || header[7] >= 0x80 || header[6] >= 0x80
  }

  /** A tag, and where in the file the read pointer ends up. */
  datatype Reading = Reading(tag: Tag, end: nat)

  /** The header is one the reader takes, and the tag is in the file. */
  predicate Readable(file: seq<byte>) {
    && |file| >= 10 && file[..3] == SIGNATURE && 2 <= file[3] <= 4 && file[5] % 16 == 0 && !BadSize(file)
    && 0 < FromSync28(file[6..10]) && 10 + FromSync28(file[6..10]) <= |file|
  }

  /** The bytes of the tag behind its header. */
  function Inner(file: seq<byte>): (b: seq<byte>)
    requires Readable(file)
    ensures |b| == FromSync28(file[6..10])
  {
    file[10..10 + FromSync28(file[6..10])]
  }

  /** junk_id3v2_read_full, without the unsynchronisation scheme. A tag of fewer than four bytes has no frames. */
  function ReadTag(file: seq<byte>, names: Names): Result<Reading>
    requires NamesOk(names) && (|file| > 5 ==> !Has(file[5], 0x80))
  {
    if !Readable(file) then Err
    else
      var b := Inner(file);
      if |b| < 4 then Whole(file[3], file[4], file[5], Ok(Frames([], if b[0] == 0 then 0 else 3)))
      else
        var start := if Has(file[5], 0x40) then FromSync28(b[..4]) else 0;
        if start > |b| then Err
        else Whole(file[3], file[4], file[5], ReadFrames(file[3], b, start, names))
  }

  function Whole(major: byte, minor: byte, flags: byte, frames: Result<Frames>): Result<Reading> {
    if frames.Err? then Err else Ok(Reading(Tag(major, minor, flags, frames.value.list), 10 + frames.value.end))
  }

  // ----- reading what was written ----------------------------------------------------------

  predicate TooBig(f: Frame) {
    f.id != APIC && |f.data| > MAX_FRAME_SIZE
  }

  predicate TooShort(major: byte, f: Frame) {
    |f.data| < Extra(major, f.flags1, f.flags2)
  }

  /** The frames that come back from position `p` on: too big ones are skipped, and a too short one sends
      the read pointer off. */
  function Survivors(major: byte, frames: seq<Frame>, p: nat): Frames {
    if frames == [] then Frames([], p)
    else
      var next := p + 10 + |frames[0].data|;
      if TooBig(frames[0]) then Survivors(major, frames[1..], next)
      else if TooShort(major, frames[0]) then Frames([frames[0]], next + U32)
      else
        var rest := Survivors(major, frames[1..], next);
        Frames([frames[0]] + rest.list, rest.end)
  }

  lemma {:induction false} AllSurvive(major: byte, frames: seq<Frame>, p: nat)
    ensures |Survivors(major, frames, p).list| <= |frames|
    ensures p + BodySize(frames) < U28 ==>
      (Survivors(major, frames, p) == Frames(frames, p + BodySize(frames)) <==>
        forall i :: 0 <= i < |frames| ==> !TooBig(frames[i]) && !TooShort(major, frames[i]))
  {
    hide TooBig, TooShort;
    if frames != [] {
      var rest := frames[1..];
      AllSurvive(major, rest, p + 10 + |frames[0].data|);
      assert forall i :: 0 <= i < |rest| ==> rest[i] == frames[i + 1];
      assert frames == [frames[0]] + rest;
    }
  }

  predicate PlainId(f: Frame) {
    0 !in f.id
  }

  lemma PlainFrameId(f: Frame, names: Names)
    requires FrameOk(f) && PlainId(f) && NamesOk(names)
    ensures FrameId(f.id, names) == f.id
  {
    assert StrLen(f.id) == 4;
  }

  lemma SizeBack(major: byte, n: nat)
    requires n < U28 && (major == 3 || major == 4)
    ensures (if major == 4 then FromSync28(SizeBytes(major, n)) else FromBe32(SizeBytes(major, n))) == n
  {
    Be32Back(n);
    Sync28Back(n);
  }

  /** Where the parts of a written frame are. */
  lemma FrameParts(major: byte, f: Frame, pre: seq<byte>, post: seq<byte>)
    requires FrameOk(f)
    ensures var b, p := pre + FrameBytes(major, f) + post, |pre|;
      && |b| == p + 10 + |f.data| + |post|
      && b[p..p + 4] == f.id && b[p] == f.id[0] && b[p + 4..p + 8] == SizeBytes(major, |f.data|)
      && b[p + 8] == f.flags1 && b[p + 9] == f.flags2 && b[p + 10..p + 10 + |f.data|] == f.data
  {
    hide SizeBytes;
  }

  /** From the first byte of a frame list the reader finds exactly the frames that survive. */
  lemma {:induction false} ReadBack(major: byte, pre: seq<byte>, frames: seq<Frame>, names: Names)
    requires (major == 3 || major == 4) && NamesOk(names)
    requires forall i :: 0 <= i < |frames| ==> FrameOk(frames[i]) && PlainId(frames[i])
    requires |pre| + BodySize(frames) < U28
    ensures ReadFrames(major, pre + Body(major, frames), |pre|, names) == Ok(Survivors(major, frames, |pre|))
    decreases |frames|
  {
    hide *;
    BodyIs(major, pre, frames);
    if frames == [] {
      ReadEnd(major, pre, names);
    } else {
      var f, rest := frames[0], frames[1..];
      SizesAdd(major, f, rest);
      ReadOne(major, pre, f, Body(major, rest), names);
      ReadBack(major, pre + FrameBytes(major, f), rest, names);
      SurvivorsCons(major, f, rest, frames, |pre|);
    }
  }

  lemma BodyIs(major: byte, pre: seq<byte>, frames: seq<Frame>)
    requires forall i :: 0 <= i < |frames| ==> FrameOk(frames[i])
    ensures frames == [] ==> pre + Body(major, frames) == pre && BodySize(frames) == 0
    ensures frames == [] ==> Survivors(major, frames, |pre|) == Frames([], |pre|)
    ensures frames != [] ==> pre + Body(major, frames) == pre + FrameBytes(major, frames[0]) + Body(major, frames[1..])
    ensures frames != [] ==> BodySize(frames) == 10 + |frames[0].data| + BodySize(frames[1..])
  {
  }

  lemma ReadEnd(major: byte, b: seq<byte>, names: Names)
    requires |b| < U28 && NamesOk(names)
    ensures ReadFrames(major, b, |b|, names) == Ok(Frames([], |b|))
  {
  }

  lemma SizesAdd(major: byte, f: Frame, rest: seq<Frame>)
    requires FrameOk(f) && forall i :: 0 <= i < |rest| ==> FrameOk(rest[i])
    ensures |FrameBytes(major, f)| == 10 + |f.data| && |Body(major, rest)| == BodySize(rest)
  {
  }

  lemma SurvivorsCons(major: byte, f: Frame, rest: seq<Frame>, frames: seq<Frame>, p: nat)
    requires frames != [] && f == frames[0] && rest == frames[1..]
    ensures var next := p + 10 + |f.data|;
      Survivors(major, frames, p) ==
        if TooBig(f) then Survivors(major, rest, next)
        else if TooShort(major, f) then Frames([f], next + U32)
        else Frames([f] + Survivors(major, rest, next).list, Survivors(major, rest, next).end)
  {
  }

  /** One round of the read loop, on a frame as it was written. */
  lemma ReadOne(major: byte, pre: seq<byte>, f: Frame, post: seq<byte>, names: Names)
    requires (major == 3 || major == 4) && NamesOk(names) && FrameOk(f) && PlainId(f)
    requires |pre| + 10 + |f.data| + |post| < U28
    ensures var b, p := pre + FrameBytes(major, f) + post, |pre|;
      var rest := ReadFrames(major, b, p + 10 + |f.data|, names);
      ReadFrames(major, b, p, names) ==
        if TooBig(f) then rest
        else if TooShort(major, f) then Ok(Frames([f], p + 10 + |f.data| + U32))
        else if rest.Err? then Err else Ok(Frames([f] + rest.value.list, rest.value.end))
  {
    hide FrameBytes, SizeBytes, FrameId, Extra, ReadFrame, ReadFrames, TooBig, TooShort, FromSync28, FromBe32,
         PlainId, NamesOk;
    var b, p, size := pre + FrameBytes(major, f) + post, |pre|, |f.data|;
    FrameParts(major, f, pre, post);
    SizeBack(major, size);
    PlainFrameId(f, names);
    FirstByte(f);
    RoundOf(major, b, p, f.id, size, names);
    ReadRound(major, b, p, names);
    Judged(major, f);
    if size < Extra(major, f.flags1, f.flags2) {
      ReadPast(major, b, p + 10 + size + U32, names);
      assert [f] + [] == [f];
    }
    assert f == Frame(f.id, f.flags1, f.flags2, f.data);
  }

  lemma FirstByte(f: Frame)
    requires FrameOk(f) && PlainId(f)
    ensures |f.id| == 4 && f.id[0] != 0
  {
  }

  lemma Judged(major: byte, f: Frame)
    ensures TooBig(f) <==> f.id != APIC && |f.data| > MAX_FRAME_SIZE
    ensures TooShort(major, f) <==> |f.data| < Extra(major, f.flags1, f.flags2)
  {
  }

  lemma ReadPast(major: byte, b: seq<byte>, p: nat, names: Names)
    requires |b| < U28 && NamesOk(names) && p > |b|
    ensures ReadFrames(major, b, p, names) == Ok(Frames([], p))
  {
  }

  lemma ReadRound(major: byte, b: seq<byte>, p: nat, names: Names)
    requires NamesOk(names) && p <= |b| - 4 && b[p] != 0
    ensures ReadFrames(major, b, p, names) ==
      match ReadFrame(major, b, p, names)
      case Stop(at) => Ok(Frames([], at))
      case Fail => Err
      case Drop(next) => ReadFrames(major, b, next, names)
      case Store(f, next) => Prepend([f], ReadFrames(major, b, next, names))
  {
    hide ReadFrame, Prepend;
  }

  /** One round of the read loop on a frame that lies inside the tag. */
  lemma RoundOf(major: byte, b: seq<byte>, p: nat, id: seq<byte>, size: nat, names: Names)
    requires |b| < U28 && NamesOk(names) && p + 10 + size <= |b| && (major == 3 || major == 4)
    requires FrameId(b[p..p + 4], names) == id
    requires size == if major == 4 then FromSync28(b[p + 4..p + 8]) else FromBe32(b[p + 4..p + 8])
    ensures ReadFrame(major, b, p, names) ==
      if id != APIC && size > MAX_FRAME_SIZE then Drop(p + 10 + size)
      else
        Store(Frame(id, b[p + 8], b[p + 9], b[p + 10..p + 10 + size]),
              p + 10 + Advance(major, b[p + 8], b[p + 9], size))
  {
    hide FrameId, Advance, FromSync28, FromBe32, ReadOldFrame;
    assert Sub32(|b|, size) == |b| - size;
  }

  // ----- whole tags ------------------------------------------------------------------------

  /** Where the fields of a written header are. */
  lemma HeaderParts(t: Tag, rest: seq<byte>)
    requires TagOk(t)
    ensures var file, n := TagBytes(t) + rest, BodySize(t.frames);
      && |file| == 10 + n + |rest| && file[..3] == SIGNATURE
      && file[3] == t.major && file[4] == t.minor && file[5] == HeaderFlags(t.flags)
      && file[6..10] == Sync28(n) && file[10..10 + n] == Body(t.major, t.frames)
  {
    hide Sync28, Body, HeaderFlags;
  }

  lemma SyncBytes(file: seq<byte>, n: nat)
    requires |file| >= 10 && file[6..10] == Sync28(n)
    ensures !BadSize(file)
  {
    assert forall i :: 6 <= i < 10 ==> file[i] == file[6..10][i - 6];
  }

  lemma HeaderFlagBits(flags: byte)
    ensures HeaderFlags(flags) % 16 == flags % 16 && !Has(HeaderFlags(flags), 0x40) && !Has(HeaderFlags(flags), 0x10)
    ensures Has(HeaderFlags(flags), 0x80) <==> Has(flags, 0x80)
  {
  }

  /** A file that starts with the header of a tag of n bytes. */
  lemma ReadWhole(file: seq<byte>, n: nat, names: Names)
    requires NamesOk(names) && 4 <= n < U28 && |file| >= 10 + n && file[..3] == SIGNATURE && 2 <= file[3] <= 4
    requires file[5] % 16 == 0 && !Has(file[5], 0x80) && !Has(file[5], 0x40) && file[6..10] == Sync28(n)
    ensures ReadTag(file, names) == Whole(file[3], file[4], file[5], ReadFrames(file[3], file[10..10 + n], 0, names))
  {
    hide Sync28, FromSync28, ReadFrames, Whole, NamesOk;
    SyncBytes(file, n);
    Sync28Back(n);
  }

  /** Writing a tag and reading the file back, whatever follows the tag: the frames that survive come
      back, in order. */
  lemma RoundTrip(t: Tag, rest: seq<byte>, names: Names)
    requires TagOk(t) && (t.major == 3 || t.major == 4) && NamesOk(names)
    requires t.frames != [] && BodySize(t.frames) < U28 && t.flags % 16 == 0 && !Has(t.flags, 0x80)
    requires forall i :: 0 <= i < |t.frames| ==> PlainId(t.frames[i])
    ensures var file := TagBytes(t) + rest; |file| > 5 && !Has(file[5], 0x80)
    ensures ReadTag(TagBytes(t) + rest, names)
      == Whole(t.major, t.minor, HeaderFlags(t.flags), Ok(Survivors(t.major, t.frames, 0)))
  {
    hide TagBytes, Body, ReadTag, ReadFrames, Survivors, Sync28, HeaderFlags, PlainId, FrameOk, Has, NamesOk;
    HeaderParts(t, rest);
    HeaderFlagBits(t.flags);
    ReadWhole(TagBytes(t) + rest, BodySize(t.frames), names);
    assert [] + Body(t.major, t.frames) == Body(t.major, t.frames);
    ReadBack(t.major, [], t.frames, names);
  }

  /** Exactly when nothing is lost and the reader stops right behind the tag: no frame but APIC over the
      limit, and every frame long enough for the extra bytes its flags announce. */
  lemma RoundTripExact(t: Tag, rest: seq<byte>, names: Names)
    requires TagOk(t) && (t.major == 3 || t.major == 4) && NamesOk(names)
    requires t.frames != [] && BodySize(t.frames) < U28 && t.flags % 16 == 0 && !Has(t.flags, 0x80)
    requires forall i :: 0 <= i < |t.frames| ==> PlainId(t.frames[i])
    ensures var file := TagBytes(t) + rest; |file| > 5 && !Has(file[5], 0x80)
    ensures ReadTag(TagBytes(t) + rest, names) == Ok(Reading(t.(flags := HeaderFlags(t.flags)), |TagBytes(t)|)) <==>
      forall i :: 0 <= i < |t.frames| ==> !TooBig(t.frames[i]) && !TooShort(t.major, t.frames[i])
  {
    hide TagBytes, ReadTag, Survivors, HeaderFlags, TooBig, TooShort, PlainId, BodySize;
    RoundTrip(t, rest, names);
    AllSurvive(t.major, t.frames, 0);
  }

  /** A frame too short for its flags in front of another frame: the other one is lost. */
  lemma ShortFirst(t: Tag, f: Frame, g: Frame, names: Names)
    requires TagOk(t) && (t.major == 3 || t.major == 4) && NamesOk(names) && t.frames == [f, g]
    requires BodySize(t.frames) < U28 && t.flags % 16 == 0 && !Has(t.flags, 0x80) && PlainId(f) && PlainId(g)
    requires TooShort(t.major, f) && !TooBig(f)
    ensures !Has(TagBytes(t)[5], 0x80)
    ensures var r := ReadTag(TagBytes(t), names);
      r.Ok? && r.value.tag.frames == [f] && r.value.end > |TagBytes(t)|
  {
    hide TagBytes, ReadTag, Survivors, BodySize, PlainId, HeaderFlags, TooShort, TooBig, Has, NamesOk;
    assert TagBytes(t) + [] == TagBytes(t);
    TwoFrames(f, g);
    RoundTrip(t, [], names);
    assert t.frames[1..] == [g];
    SurvivorsCons(t.major, f, [g], t.frames, 0);
  }

  /** A title of one byte whose flags announce a four-byte size, and an artist: the artist is lost. */
  lemma ArtistLost(t: Tag, names: Names)
    requires NamesOk(names)
    requires t == Tag(4, 0, 0, [Frame([84, 73, 84, 50], 0, 1, [0]), Frame([84, 80, 69, 49], 0, 0, [0, 65])])
    ensures TagOk(t) && !Has(TagBytes(t)[5], 0x80)
    ensures var r := ReadTag(TagBytes(t), names);
      r.Ok? && r.value.tag.frames == t.frames[..1] && r.value.end > |TagBytes(t)|
  {
    hide TagBytes, ReadTag, BodySize, NamesOk;
    var f, g := t.frames[0], t.frames[1];
    assert t.frames == [f, g] && t.frames[..1] == [f];
    TwoFrames(f, g);
    ShortFirst(t, f, g, names);
  }

  lemma TwoFrames(f: Frame, g: Frame)
    ensures BodySize([f, g]) == 20 + |f.data| + |g.data|
  {
    assert [f, g][1..] == [g] && [g][1..] == [];
    assert BodySize([g]) == 10 + |g.data|;
  }

  // ----- version 2 -------------------------------------------------------------------------

  predicate OldOk(f: Frame) {
    |f.id| == 4 && f.id[3] == 0 && 0 !in f.id[..3] && f.flags1 == f.flags2 == 0 && |f.data| < 0x100_0000
  }

  function OldFrameBytes(f: Frame): (r: seq<byte>)
    requires OldOk(f)
    ensures |r| == 6 + |f.data|
  {
    f.id[..3] + Be24(|f.data|) + f.data
  }

  function OldBody(frames: seq<Frame>): (r: seq<byte>)
    requires forall i :: 0 <= i < |frames| ==> OldOk(frames[i])
  {
    if frames == [] then [] else OldFrameBytes(frames[0]) + OldBody(frames[1..])
  }

  function Zeros(n: nat): (r: seq<byte>)
    ensures |r| == n
  {
    seq(n, _ => 0)
  }

  predicate OldTooBig(f: Frame) {
    f.id != PIC && |f.data| > MAX_FRAME_SIZE
  }

  /** The frames that come back from a tag with `pad` zeros behind its frames. */
  function OldSurvivors(frames: seq<Frame>, pad: nat): seq<Frame> {
    if frames == [] || (|frames| == 1 && pad == 0) then []
    else (if OldTooBig(frames[0]) then [] else [frames[0]]) + OldSurvivors(frames[1..], pad)
  }

  /** The reader of ID3v2.2 frames: the last one is lost unless padding follows it. */
  lemma {:induction false} OldFramesBack(pre: seq<byte>, frames: seq<Frame>, pad: nat, names: Names)
    requires NamesOk(names) && forall i :: 0 <= i < |frames| ==> OldOk(frames[i])
    requires |pre| + |OldBody(frames)| + pad < U28
    ensures var r := ReadFrames(2, pre + OldBody(frames) + Zeros(pad), |pre|, names);
      r.Ok? && r.value.list == OldSurvivors(frames, pad)
    decreases |frames|
  {
    hide *;
    OldBodyIs(pre, frames, pad);
    if frames == [] {
      OldEnd(pre, pad, names);
    } else {
      var f, rest := frames[0], frames[1..];
      ReadOld(pre, f, OldBody(rest) + Zeros(pad), names);
      Assoc(pre + OldFrameBytes(f), OldBody(rest), Zeros(pad));
      if rest == [] && pad == 0 {
        assert OldBody(rest) + Zeros(pad) == [];
      } else {
        OldFramesBack(pre + OldFrameBytes(f), rest, pad, names);
      }
    }
  }

  lemma OldBodyIs(pre: seq<byte>, frames: seq<Frame>, pad: nat)
    requires forall i :: 0 <= i < |frames| ==> OldOk(frames[i])
    ensures frames == [] ==> pre + OldBody(frames) == pre && OldSurvivors(frames, pad) == []
    ensures frames != [] ==>
      var f, rest := frames[0], frames[1..];
      && pre + OldBody(frames) == pre + OldFrameBytes(f) + OldBody(rest)
      && |OldFrameBytes(f)| == 6 + |f.data| && |OldBody(frames)| == |OldFrameBytes(f)| + |OldBody(rest)|
      && (rest != [] ==> |OldBody(rest)| > 0) && (rest == [] ==> OldBody(rest) == []) && |Zeros(pad)| == pad
      && OldSurvivors(frames, pad) == if rest == [] && pad == 0 then []
                                      else (if OldTooBig(f) then [] else [f]) + OldSurvivors(rest, pad)
  {
  }

  lemma OldEnd(pre: seq<byte>, pad: nat, names: Names)
    requires NamesOk(names)
    ensures ReadFrames(2, pre + Zeros(pad), |pre|, names) == Ok(Frames([], |pre|))
  {
    assert pad > 0 ==> (pre + Zeros(pad))[|pre|] == 0;
  }

  /** One round on an ID3v2.2 frame. */
  lemma ReadOld(pre: seq<byte>, f: Frame, post: seq<byte>, names: Names)
    requires NamesOk(names) && OldOk(f) && |pre| + 6 + |f.data| + |post| < U28
    ensures var b, p := pre + OldFrameBytes(f) + post, |pre|;
      var rest := ReadFrames(2, b, p + 6 + |f.data|, names);
      ReadFrames(2, b, p, names) ==
        if post == [] then Ok(Frames([], if f.data == [] then p + 3 else p + 6))
        else if OldTooBig(f) then rest
        else if rest.Err? then Err else Ok(Frames([f] + rest.value.list, rest.value.end))
  {
    hide OldFrameBytes, FrameId, ReadFrames, FromBe24, Be24, NamesOk, ReadOldFrame;
    var b, p, size := pre + OldFrameBytes(f) + post, |pre|, |f.data|;
    OldFrameParts(pre, f, post);
    Be24Back(size);
    OldId(f);
    ReadRound(2, b, p, names);
    OldRound(b, p, f.id, size);
    assert f == Frame(f.id, 0, 0, f.data);
  }

  /** One round of the read loop on an ID3v2.2 frame that lies inside the tag. */
  lemma OldRound(b: seq<byte>, p: nat, id: seq<byte>, size: nat)
    requires |b| < U28 && p + 6 + size <= |b| && |id| == 4
    requires FrameId(b[p..p + 3] + [0], map[]) == id && FromBe24(b[p + 3..p + 6]) == size
    ensures ReadOldFrame(b, p) ==
      if p + 6 == |b| then Stop(p + 3)
      else if p + 6 + size == |b| then Stop(p + 6)
      else if id != PIC && size > MAX_FRAME_SIZE then Drop(p + 6 + size)
      else Store(Frame(id, 0, 0, b[p + 6..p + 6 + size]), p + 6 + size)
  {
    hide FrameId, FromBe24;
    assert Sub32(|b|, size) == |b| - size;
  }

  lemma OldFrameParts(pre: seq<byte>, f: Frame, post: seq<byte>)
    requires OldOk(f)
    ensures var b, p := pre + OldFrameBytes(f) + post, |pre|;
      && |b| == p + 6 + |f.data| + |post| && b[p] == f.id[0]
      && b[p..p + 3] == f.id[..3] && b[p + 3..p + 6] == Be24(|f.data|) && b[p + 6..p + 6 + |f.data|] == f.data
  {
    hide Be24;
  }

  lemma OldId(f: Frame)
    requires OldOk(f)
    ensures f.id[0] != 0 && FrameId(f.id[..3] + [0], map[]) == f.id
  {
    assert f.id == f.id[..3] + [0] && f.id[0] == f.id[..3][0];
    var s := f.id[..3];
    assert s[0] in s && s[1] in s && s[2] in s;
    assert StrLen(f.id) == 3;
    assert s + Zeros(1) == f.id;
  }

  /** A tag of version 2 as a file, with `pad` zeros behind its frames. */
  function OldTagBytes(minor: byte, frames: seq<Frame>, pad: nat): (r: seq<byte>)
    requires forall i :: 0 <= i < |frames| ==> OldOk(frames[i])
  {
    SIGNATURE + [2, minor, 0] + Sync28(|OldBody(frames)| + pad) + OldBody(frames) + Zeros(pad)
  }

  /** Exactly when an ID3v2.2 tag is read whole: no frame but PIC over the limit, and at least one zero
      behind the last frame. */
  lemma OldTagExact(minor: byte, frames: seq<Frame>, pad: nat, rest: seq<byte>, names: Names)
    requires NamesOk(names) && frames != [] && forall i :: 0 <= i < |frames| ==> OldOk(frames[i])
    requires |OldBody(frames)| + pad < U28
    ensures var file := OldTagBytes(minor, frames, pad) + rest; |file| > 5 && !Has(file[5], 0x80)
    ensures var r := ReadTag(OldTagBytes(minor, frames, pad) + rest, names);
      && r.Ok? && r.value.tag == Tag(2, minor, 0, OldSurvivors(frames, pad))
      && (r.value.tag.frames == frames <==> pad > 0 && forall i :: 0 <= i < |frames| ==> !OldTooBig(frames[i]))
  {
    hide OldTagBytes, OldBody, ReadTag, ReadFrames, OldSurvivors, Sync28, OldOk, OldTooBig, Zeros, NamesOk;
    OldTagParts(minor, frames, pad, rest);
    OldBodyIs([], frames, pad);
    OldFramesBack([], frames, pad, names);
    AllOldSurvive(frames, pad);
    ReadWhole(OldTagBytes(minor, frames, pad) + rest, |OldBody(frames)| + pad, names);
    assert [] + OldBody(frames) == OldBody(frames);
  }

  /** The only title of an ID3v2.2 tag without padding: it is lost. */
  lemma OldTitleLost(names: Names)
    requires NamesOk(names)
    ensures var title := Frame([84, 84, 50, 0], 0, 0, [0, 65]);
      && OldOk(title)
      && var r := ReadTag(OldTagBytes(0, [title], 0), names); r.Ok? && r.value.tag.frames == []
  {
    var title, none: seq<byte> := Frame([84, 84, 50, 0], 0, 0, [0, 65]), [];
    OneOldFrame(title);
    OldTagExact(0, [title], 0, none, names);
    assert OldTagBytes(0, [title], 0) + none == OldTagBytes(0, [title], 0);
    hide OldTagBytes, ReadTag, NamesOk;
  }

  lemma OneOldFrame(f: Frame)
    requires OldOk(f)
    ensures |OldBody([f])| == 6 + |f.data| && OldSurvivors([f], 0) == []
  {
    assert [f][1..] == [];
  }

  lemma OldTagParts(minor: byte, frames: seq<Frame>, pad: nat, rest: seq<byte>)
    requires forall i :: 0 <= i < |frames| ==> OldOk(frames[i])
    ensures var file, n := OldTagBytes(minor, frames, pad) + rest, |OldBody(frames)| + pad;
      && |file| == 10 + n + |rest| && file[..3] == SIGNATURE && file[3] == 2 && file[4] == minor && file[5] == 0
      && file[6..10] == Sync28(n) && file[10..10 + n] == OldBody(frames) + Zeros(pad)
  {
    hide Sync28, OldBody, Zeros;
  }

  lemma {:induction false} AllOldSurvive(frames: seq<Frame>, pad: nat)
    ensures |OldSurvivors(frames, pad)| <= |frames|
    ensures OldSurvivors(frames, pad) == frames <==>
      frames == [] || (pad > 0 && forall i :: 0 <= i < |frames| ==> !OldTooBig(frames[i]))
  {
    hide OldTooBig;
    if frames != [] {
      var rest := frames[1..];
      AllOldSurvive(rest, pad);
      assert forall i :: 0 <= i < |rest| ==> rest[i] == frames[i + 1];
      assert frames == [frames[0]] + rest;
    }
  }

  // ----- finding a tag ---------------------------------------------------------------------

  datatype Found = Found(start: nat, size: nat) | NotFound

  /** junk_id3v2_find: a tag is only looked for at the start of the file. */
  function Find(file: seq<byte>): Found {
    if |file| < 10 || file[..3] != SIGNATURE || file[5] % 16 != 0 then NotFound
    else if BadSize(file) then NotFound
    else Found(0, FromSync28(file[6..10]) + 10 + if Has(file[5], 0x10) then 10 else 0)
  }

  /** The locator finds exactly the bytes of a written tag. */
  lemma FindsWritten(t: Tag, rest: seq<byte>)
    requires TagOk(t) && BodySize(t.frames) < U28 && t.flags % 16 == 0
    ensures Find(TagBytes(t) + rest) == Found(0, |TagBytes(t)|)
  {
    var file, n := TagBytes(t) + rest, BodySize(t.frames);
    HeaderParts(t, rest);
    SyncBytes(file, n);
    HeaderFlagBits(t.flags);
    Sync28Back(n);
    hide TagBytes, Sync28, FromSync28, HeaderFlags;
  }
}
