/** The loops of src/junklib.c that write and read ID3v2 tags. */
module Id3v2Io {
  import opened PlayItems
  import opened ByteOrder
  import opened Files
  import opened Id3v2
  import opened Id3v2Bounds

  /** junk_id3v2_write and junk_id3v2_write2 */
  method WriteTag(out: OutFile, tag: Tag) returns (ok: bool)
    requires TagOk(tag) && tag.major <= 4
    modifies out
    ensures ok <==> tag.major >= 3
    ensures out.data == if ok then old(out.data) + TagBytes(tag) else old(out.data)
  {
    if tag.major < 3 {
      return false;
    }
    TagIs(tag, out.data);
    SyncOfWord(BodySize(tag.frames));
    hide Body, BodySize, Sync28, SizeBytes, TagBytes, HeaderFlags;
    out.Write(SIGNATURE);
    out.Write([tag.major, tag.minor]);
    out.Write([HeaderFlags(tag.flags)]);
    var sz := TagSize(tag.frames);
    out.Write(Sync28(sz));
    WriteFrames(out, tag.major, tag.frames);
    ok := true;
  }

  method TagSize(frames: seq<Frame>) returns (sz: nat)
    ensures sz == BodySize(frames) % U32
  {
    hide BodySize;
    Nothing(3, frames);
    sz := 0;
    for i := 0 to |frames|
      invariant sz == BodySize(frames[..i]) % U32
    {
      BodySizeGrows(frames, i);
      AddWord(BodySize(frames[..i]), 10 + |frames[i].data|);
      sz := (sz + (10 + |frames[i].data|)) % U32;
    }
  }

  method WriteFrames(out: OutFile, major: byte, frames: seq<Frame>)
    requires forall i :: 0 <= i < |frames| ==> FrameOk(frames[i])
    modifies out
    ensures out.data == old(out.data) + Body(major, frames)
  {
    Nothing(major, frames);
    hide Body, FrameBytes;
    for i := 0 to |frames|
      invariant out.data == old(out.data) + Body(major, frames[..i])
    {
      WriteFrame(out, major, frames[i]);
      BodyGrows(major, frames, i);
      Assoc(old(out.data), Body(major, frames[..i]), FrameBytes(major, frames[i]));
    }
  }

  method WriteFrame(out: OutFile, major: byte, f: Frame)
    requires FrameOk(f)
    modifies out
    ensures out.data == old(out.data) + FrameBytes(major, f)
  {
    out.Write(f.id);
    out.Write(SizeBytes(major, |f.data|));
    out.Write([f.flags1, f.flags2]);
    out.Write(f.data);
  }

  lemma {:induction false} BodySizeGrows(frames: seq<Frame>, i: nat)
    requires i < |frames|
    ensures BodySize(frames[..i + 1]) == BodySize(frames[..i]) + 10 + |frames[i].data|
  {
    if i > 0 {
      BodySizeGrows(frames[1..], i - 1);
      assert frames[..i + 1][1..] == frames[1..][..i] && frames[..i][1..] == frames[1..][..i - 1];
    }
  }

  lemma {:induction false} BodyGrows(major: byte, frames: seq<Frame>, i: nat)
    requires i < |frames| && forall k :: 0 <= k < |frames| ==> FrameOk(frames[k])
    ensures Body(major, frames[..i + 1]) == Body(major, frames[..i]) + FrameBytes(major, frames[i])
  {
    hide FrameBytes;
    if i > 0 {
      BodyGrows(major, frames[1..], i - 1);
      assert frames[..i + 1][1..] == frames[1..][..i] && frames[..i][1..] == frames[1..][..i - 1];
    }
  }

  /** The size field keeps the lowest 28 bits, of the sum as of its 32-bit word. */
  lemma SyncOfWord(n: nat)
    ensures Sync28(n % U32) == Sync28(n)
  {
    var a, q := n % U32, n / U32;
    var y := a / 0x80;
    var z := y / 0x80;
    Shift(a, 0x200_0000 * q);
    Shift(y, 0x4_0000 * q);
    Shift(z, 0x800 * q);
    Shift(z / 0x80, 0x10 * q);
  }

  lemma Shift(a: nat, m: nat)
    ensures (a + 0x80 * m) / 0x80 == a / 0x80 + m && (a + 0x80 * m) % 0x80 == a % 0x80
  {
  }

  lemma Nothing(major: byte, frames: seq<Frame>)
    ensures frames[..0] == [] && BodySize(frames[..0]) == 0 && Body(major, frames[..0]) == []
    ensures frames[..|frames|] == frames
  {
  }

  lemma TagIs(t: Tag, before: seq<byte>)
    requires TagOk(t)
    ensures before + SIGNATURE + [t.major, t.minor] + [HeaderFlags(t.flags)] + Sync28(BodySize(t.frames))
      + Body(t.major, t.frames)
      == before + TagBytes(t)
  {
    hide Body, BodySize, Sync28, HeaderFlags;
  }

  // ----- reading ---------------------------------------------------------------------------

  /** Moves the read pointer `q` past the data of a frame, counting down `size` in 32-bit arithmetic. On the way
      it may look at a data length; `inside` says whether that lies in the `n` bytes of the tag. */
  method SkipData(major: byte, flags1: byte, flags2: byte, q: nat, size: nat, n: nat)
    returns (next: nat, inside: bool)
    requires (major == 3 || major == 4) && size < U32 && q + size <= n
    ensures next == q + Advance(major, flags1, flags2, size)
    ensures inside <==> q + Ahead(major, flags1, flags2) <= n
  {
    var sz := size;
    next, inside := q, true;
    if major == 4 {
      if flags1 % 16 != 0 || Has(flags1, 0x80) || Has(flags2, 0x80) || Has(flags2, 0x20) || Has(flags2, 0x10) {
        return next + sz, true;
      }
      if Has(flags2, 0x40) {
        next, sz := next + 1, Sub32(sz, 1);
      }
      if Has(flags2, 0x08) {
        return next + sz, true;
      }
      if Has(flags2, 0x04) {
        return next + sz, true;
      }
      if Has(flags2, 0x01) {
        inside := next + 4 <= n;
        next, sz := next + 4, Sub32(sz, 4);
      }
    } else {
      if flags1 % 32 != 0 || flags2 % 32 != 0 || Has(flags2, 0x80) || Has(flags2, 0x40) {
        return next + sz, true;
      }
      if Has(flags2, 0x20) {
        next, sz := next + 1, Sub32(sz, 1);
      }
    }
    next := next + sz;
  }

  method ReadFrameAt(major: byte, b: seq<byte>, p: nat, names: Names) returns (round: Round, inside: bool)
    requires 2 <= major <= 4 && NamesOk(names) && p + 4 <= |b|
    ensures round == ReadFrame(major, b, p, names) && (inside <==> RoundInside(major, b, p, names))
  {
    hide FrameId, Advance, FromSync28, FromBe32, NamesOk, Sub32, ReadOldFrame, Ahead;
    if major == 2 {
      round := ReadOldFrameAt(b, p);
      return round, true;
    }
    var id := FrameId(b[p..p + 4], names);
    var q := p + 4;
    if q >= |b| - 4 {
      return Stop(q), true;
    }
    var sz := if major == 4 then FromSync28(b[q..q + 4]) else FromBe32(b[q..q + 4]);
    q := q + 4;
    if q >= Sub32(|b|, sz) {
      return Fail, true;
    }
    round, inside := TakeFrame(major, b, q, id, sz);
  }

  method ReadOldFrameAt(b: seq<byte>, p: nat) returns (round: Round)
    requires p + 4 <= |b|
    ensures round == ReadOldFrame(b, p)
  {
    hide FrameId, FromBe24, Sub32;
    var id := FrameId(b[p..p + 3] + [0], map[]);
    var q := p + 3;
    if q >= |b| - 3 {
      return Stop(q);
    }
    var sz := FromBe24(b[q..q + 3]);
    q := q + 3;
    if q >= Sub32(|b|, sz) {
      return Stop(q);
    }
    if id != PIC && sz > MAX_FRAME_SIZE {
      return Drop(q + sz);
    }
    if q + sz > |b| {
      return Drop(q + sz);
    }
    return Store(Frame(id, 0, 0, b[q..q + sz]), q + sz);
  }

  /** From the flags of a frame on. */
  method TakeFrame(major: byte, b: seq<byte>, p: nat, id: seq<byte>, sz: nat) returns (round: Round, inside: bool)
    requires (major == 3 || major == 4) && p < |b| && sz < U32
    ensures round ==
      if id != APIC && sz > MAX_FRAME_SIZE then Drop(p + 2 + sz)
      else if p + 2 + sz > |b| then Drop(p + 2 + sz)
      else Store(Frame(id, b[p], b[p + 1], b[p + 2..p + 2 + sz]), p + 2 + Advance(major, b[p], b[p + 1], sz))
    ensures inside <==>
      if round.Store? then p + 2 + Ahead(major, round.frame.flags1, round.frame.flags2) <= |b| else p + 2 <= |b|
  {
    hide Advance, Ahead;
    var flags1, flags2 := b[p], At(b, p + 1);
    inside := p + 1 < |b|;
    var q := p + 2;
    if id != APIC && sz > MAX_FRAME_SIZE {
      return Drop(q + sz), inside;
    }
    if q + sz > |b| {
      return Drop(q + sz), inside;
    }
    var frame := Frame(id, flags1, flags2, b[q..q + sz]);
    var next;
    next, inside := SkipData(major, flags1, flags2, q, sz, |b|);
    return Store(frame, next), inside;
  }

  /** The frame loop; `inside` says whether it only looked at bytes of the tag. */
  method ReadLoop(major: byte, b: seq<byte>, start: nat, names: Names) returns (r: Result<Frames>, inside: bool)
    requires 2 <= major <= 4 && NamesOk(names)
    ensures r == ReadFrames(major, b, start, names) && (inside <==> FramesInside(major, b, start, names))
  {
    ghost var all, clean := ReadFrames(major, b, start, names), FramesInside(major, b, start, names);
    hide ReadFrames, ReadFrame, FramesInside, RoundInside;
    var frames: seq<Frame> := [];
    var p := start;
    inside := true;
    PrependNothing(all);
    while p <= |b| - 4 && b[p] != 0
      invariant Prepend(frames, ReadFrames(major, b, p, names)) == all
      invariant inside && FramesInside(major, b, p, names) <==> clean
      decreases |b| - p
    {
      LoopGoesOn(major, b, p, names, frames);
      RoundOnce(major, b, p, names);
      var round, ok := ReadFrameAt(major, b, p, names);
      inside := inside && ok;
      match round {
        case Stop(at) => return Ok(Frames(frames, at)), inside;
        case Fail => return Err, inside;
        case Drop(next) => p := next;
        case Store(f, next) => frames, p := frames + [f], next;
      }
    }
    LoopEnds(major, b, p, names, frames);
    RoundsEnd(major, b, p, names);
    return Ok(Frames(frames, p)), inside;
  }

  lemma LoopGoesOn(major: byte, b: seq<byte>, p: nat, names: Names, frames: seq<Frame>)
    requires NamesOk(names) && p <= |b| - 4 && b[p] != 0
    ensures Prepend(frames, ReadFrames(major, b, p, names)) ==
      match ReadFrame(major, b, p, names)
      case Stop(at) => Ok(Frames(frames, at))
      case Fail => Err
      case Drop(next) => Prepend(frames, ReadFrames(major, b, next, names))
      case Store(f, next) => Prepend(frames + [f], ReadFrames(major, b, next, names))
  {
    hide ReadFrame, ReadFrames;
    ReadRound(major, b, p, names);
    var round := ReadFrame(major, b, p, names);
    assert frames + [] == frames;
    if round.Store? && ReadFrames(major, b, round.next, names).Ok? {
      Assoc(frames, [round.frame], ReadFrames(major, b, round.next, names).value.list);
    }
  }

  lemma PrependNothing(r: Result<Frames>)
    ensures Prepend([], r) == r
  {
    if r.Ok? {
      assert [] + r.value.list == r.value.list;
    }
  }

  lemma LoopEnds(major: byte, b: seq<byte>, p: nat, names: Names, frames: seq<Frame>)
    requires NamesOk(names) && (p > |b| - 4 || b[p] == 0)
    ensures Prepend(frames, ReadFrames(major, b, p, names)) == Ok(Frames(frames, p))
  {
    assert ReadFrames(major, b, p, names) == Ok(Frames([], p));
    assert frames + [] == frames;
  }

  /** junk_id3v2_read_full, without the unsynchronisation scheme; `inside` says whether it only looked at bytes of
      the tag. Where it did not, the program's answer depends on what lies behind. */
  method ReadFull(file: seq<byte>, names: Names) returns (r: Result<Reading>, inside: bool)
    requires NamesOk(names) && (|file| > 5 ==> !Has(file[5], 0x80))
    ensures r == ReadTag(file, names) && (inside <==> ReadsInside(file, names))
  {
    hide FromSync28, Has, ReadFrames, NamesOk, FramesInside;
    if |file| < 10 {
      return Err, true;
    }
    var header := file[..10];
    if header[..3] != SIGNATURE {
      return Err, true;
    }
    var major, minor, flags := header[3], header[4], header[5];
    if major > 4 || major < 2 {
      return Err, true;
    }
    if flags % 16 != 0 {
      return Err, true;
    }
    if BadSize(header) {
      return Err, true;
    }
    assert header[6..10] == file[6..10];
    var size := FromSync28(header[6..10]);
    if size == 0 || |file| < 10 + size {
      return Err, true;
    }
    var b := file[10..10 + size];
    if size < 4 {
      r, inside := ReadTiny(major, minor, flags, b);
      return;
    }
    var start := 0;
    if Has(flags, 0x40) {
      start := FromSync28(b[..4]);
      if size < start {
        return Err, true;
      }
    }
    var frames;
    frames, inside := ReadLoop(major, b, start, names);
    return Whole(major, minor, flags, frames), inside;
  }

  /** A tag of one to three bytes: `size - 4` wraps around, so the loop starts on a name of three or four bytes,
      unless the first byte is zero. */
  method ReadTiny(major: byte, minor: byte, flags: byte, b: seq<byte>) returns (r: Result<Reading>, inside: bool)
    requires 0 < |b| < 4 && 2 <= major <= 4
    ensures r == Whole(major, minor, flags, Ok(Frames([], if b[0] == 0 then 0 else 3)))
    ensures inside <==> !Has(flags, 0x40) && (b[0] == 0 || (major == 2 && |b| == 3))
  {
    inside := !Has(flags, 0x40);
    if b[0] == 0 {
      return Whole(major, minor, flags, Ok(Frames([], 0))), inside;
    }
    var name := if major == 2 then 3 else 4;
    inside := inside && name <= |b|;
    return Whole(major, minor, flags, Ok(Frames([], 3))), inside;
  }

  /** junk_id3v2_find */
  method FindTag(file: seq<byte>) returns (found: Found)
    ensures found == Find(file)
  {
    if |file| < 10 {
      return NotFound;
    }
    var header := file[..10];
    if header[..3] != SIGNATURE {
      return NotFound;
    }
    if header[5] % 16 != 0 {
      return NotFound;
    }
    if BadSize(header) {
      return NotFound;
    }
    assert header[6..10] == file[6..10];
    var size := FromSync28(header[6..10]);
    return Found(0, size + 10 + if Has(header[5], 0x10) then 10 else 0);
  }
}
