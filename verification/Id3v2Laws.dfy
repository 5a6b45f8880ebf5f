/** What the reader of ID3v2 tags makes of names, flags, padding, extended headers and sizes that do not fit. */
module Id3v2Laws {
  import opened PlayItems
  import opened ByteOrder
  import opened MetaSpec
  import opened Id3v2

  // ----- flags -----------------------------------------------------------------------------

  /** Bit number k, counted from 0. */
  predicate Bit(x: byte, k: nat)
    requires k < 8
  {
    x / [1, 2, 4, 8, 16, 32, 64, 128][k] % 2 == 1
  }

  /** The bytes in front of the data that the flags of a frame announce, bit by bit: a group, unless a flag is set that
      the reader does not know, or an ID3v2.3 frame is compressed or encrypted; and in ID3v2.4 a data length, unless
      the frame is compressed or encrypted. */
  lemma ExtraIs(major: byte, flags1: byte, flags2: byte)
    ensures Extra(major, flags1, flags2) ==
      if major == 4 then
        if flags1 % 16 != 0 || Bit(flags1, 7) || Bit(flags2, 7) || Bit(flags2, 5) || Bit(flags2, 4) then 0
        else (if Bit(flags2, 6) then 1 else 0) + if !Bit(flags2, 3) && !Bit(flags2, 2) && Bit(flags2, 0) then 4 else 0
      else
        if flags1 % 32 != 0 || flags2 % 32 != 0 || Bit(flags2, 7) || Bit(flags2, 6) || !Bit(flags2, 5) then 0 else 1
  {
  }

  // ----- names -----------------------------------------------------------------------------

  /** A frame under the name the reader gives it. */
  function Named(f: Frame, names: Names): (r: Frame)
    requires FrameOk(f) && NamesOk(names)
    ensures FrameOk(r)
  {
    f.(id := FrameId(f.id, names))
  }

  function AllNamed(frames: seq<Frame>, names: Names): (r: seq<Frame>)
    requires NamesOk(names) && forall i :: 0 <= i < |frames| ==> FrameOk(frames[i])
    ensures |r| == |frames| && forall i :: 0 <= i < |r| ==> FrameOk(r[i]) && r[i] == Named(frames[i], names)
  {
    seq(|frames|, i requires 0 <= i < |frames| => Named(frames[i], names))
  }

  /** A name of four letters stays; one of three letters and a zero is replaced if the reader knows it. */
  lemma FrameIdIs(id: seq<byte>, names: Names)
    requires |id| == 4 && NamesOk(names)
    ensures 0 !in id ==> FrameId(id, names) == id
    ensures id[3] == 0 && 0 !in id[..3] ==> FrameId(id, names) == if id[..3] in names then names[id[..3]] else id
  {
    if 0 !in id {
      assert StrLen(id) == 4;
    } else if id[3] == 0 && 0 !in id[..3] {
      var s := id[..3];
      assert s[0] in s && s[1] in s && s[2] in s && s[0] == id[0] && s[1] == id[1] && s[2] == id[2];
      assert StrLen(id) == 3;
      assert s + seq(1, _ => 0) == id;
    }
  }

  // ----- frames as they were written, and padding ------------------------------------------

  /** Behind the frames: nothing, or a zero and anything. */
  predicate Padding(pad: seq<byte>) {
    pad == [] || pad[0] == 0
  }

  lemma NamedJudged(major: byte, f: Frame, names: Names)
    requires FrameOk(f) && NamesOk(names)
    ensures TooBig(Named(f, names)) <==> FrameId(f.id, names) != APIC && |f.data| > MAX_FRAME_SIZE
    ensures TooShort(major, Named(f, names)) <==> |f.data| < Extra(major, f.flags1, f.flags2)
  {
    hide FrameId, Extra;
  }

  /** One round of the read loop, on a frame as it was written. */
  lemma ReadNamed(major: byte, pre: seq<byte>, f: Frame, post: seq<byte>, names: Names)
    requires (major == 3 || major == 4) && NamesOk(names) && FrameOk(f) && f.id[0] != 0
    requires |pre| + 10 + |f.data| + |post| < U28
    ensures var b, p, g := pre + FrameBytes(major, f) + post, |pre|, Named(f, names);
      var rest := ReadFrames(major, b, p + 10 + |f.data|, names);
      ReadFrames(major, b, p, names) ==
        if TooBig(g) then rest
        else if TooShort(major, g) then Ok(Frames([g], p + 10 + |f.data| + U32))
        else if rest.Err? then Err else Ok(Frames([g] + rest.value.list, rest.value.end))
  {
    hide FrameBytes, SizeBytes, FrameId, Extra, ReadFrame, ReadFrames, TooBig, TooShort, FromSync28, FromBe32, NamesOk;
    var b, p, size := pre + FrameBytes(major, f) + post, |pre|, |f.data|;
    FrameParts(major, f, pre, post);
    SizeBack(major, size);
    RoundOf(major, b, p, FrameId(f.id, names), size, names);
    ReadRound(major, b, p, names);
    NamedJudged(major, f, names);
    if size < Extra(major, f.flags1, f.flags2) {
      ReadPast(major, b, p + 10 + size + U32, names);
      assert [Named(f, names)] + [] == [Named(f, names)];
    }
    assert Named(f, names) == Frame(FrameId(f.id, names), f.flags1, f.flags2, f.data);
  }

  lemma ReadPadding(major: byte, pre: seq<byte>, pad: seq<byte>, names: Names)
    requires NamesOk(names) && Padding(pad) && |pre| + |pad| < U28
    ensures ReadFrames(major, pre + pad, |pre|, names) == Ok(Frames([], |pre|))
  {
    if pad != [] {
      assert (pre + pad)[|pre|] == 0;
    }
  }

  lemma NamedFirst(frames: seq<Frame>, names: Names)
    requires NamesOk(names) && frames != [] && forall i :: 0 <= i < |frames| ==> FrameOk(frames[i])
    ensures var g := AllNamed(frames, names);
      g != [] && g[0] == Named(frames[0], names) && g[1..] == AllNamed(frames[1..], names)
  {
    hide Named;
    var g, rest := AllNamed(frames, names), AllNamed(frames[1..], names);
    assert forall i :: 0 <= i < |rest| ==> g[1..][i] == g[i + 1] == Named(frames[i + 1], names) == rest[i];
  }

  /** From the first byte of a frame list the reader finds exactly the frames that survive, under the names it gives
      them, and stops at the padding. */
  lemma {:induction false} NamedBack(major: byte, pre: seq<byte>, frames: seq<Frame>, pad: seq<byte>, names: Names)
    requires (major == 3 || major == 4) && NamesOk(names) && Padding(pad)
    requires forall i :: 0 <= i < |frames| ==> FrameOk(frames[i]) && frames[i].id[0] != 0
    requires |pre| + BodySize(frames) + |pad| < U28
    ensures ReadFrames(major, pre + Body(major, frames) + pad, |pre|, names)
      == Ok(Survivors(major, AllNamed(frames, names), |pre|))
    decreases |frames|
  {
    hide *;
    if frames == [] {
      NoFrames(major, pre, frames, pad, names);
      ReadPadding(major, pre, pad, names);
    } else {
      var f, rest := frames[0], frames[1..];
      FrameSplit(major, pre, frames, pad);
      NamedFirst(frames, names);
      ReadNamed(major, pre, f, Body(major, rest) + pad, names);
      NamedBack(major, pre + FrameBytes(major, f), rest, pad, names);
      SurvivorsCons(major, Named(f, names), AllNamed(rest, names), AllNamed(frames, names), |pre|);
      SameData(f, names);
    }
  }

  lemma SameData(f: Frame, names: Names)
    requires FrameOk(f) && NamesOk(names)
    ensures Named(f, names).data == f.data
  {
  }

  lemma {:induction false} NoFrames(major: byte, pre: seq<byte>, frames: seq<Frame>, pad: seq<byte>, names: Names)
    requires NamesOk(names) && frames == []
    ensures pre + Body(major, frames) + pad == pre + pad && AllNamed(frames, names) == []
    ensures Survivors(major, AllNamed(frames, names), |pre|) == Frames([], |pre|) && BodySize(frames) == 0
  {
    assert Body(major, frames) == [] && pre + [] == pre;
    hide Body, Named;
    assert AllNamed(frames, names) == [];
  }

  lemma FrameSplit(major: byte, pre: seq<byte>, frames: seq<Frame>, pad: seq<byte>)
    requires frames != [] && forall i :: 0 <= i < |frames| ==> FrameOk(frames[i])
    ensures var f, rest := frames[0], frames[1..];
      && (forall i :: 0 <= i < |rest| ==> FrameOk(rest[i]) && rest[i] == frames[i + 1])
      && pre + Body(major, frames) + pad == pre + FrameBytes(major, f) + (Body(major, rest) + pad)
      && pre + Body(major, frames) + pad == (pre + FrameBytes(major, f)) + Body(major, rest) + pad
      && |FrameBytes(major, f)| == 10 + |f.data| && |Body(major, rest)| == BodySize(rest)
      && BodySize(frames) == 10 + |f.data| + BodySize(rest)
  {
    var f, rest := frames[0], frames[1..];
    assert Body(major, frames) == FrameBytes(major, f) + Body(major, rest);
    hide FrameBytes, Body;
    Fourfold(pre, FrameBytes(major, f), Body(major, rest), pad);
  }

  lemma Fourfold(a: seq<byte>, b: seq<byte>, c: seq<byte>, d: seq<byte>)
    ensures a + (b + c) + d == a + b + (c + d) && a + (b + c) + d == (a + b) + c + d
  {
  }

  // ----- whole tags ------------------------------------------------------------------------

  /** A tag with an extended header, if the flags say so, frames and padding. */
  function TagFile(major: byte, minor: byte, flags: byte, ext: seq<byte>, frames: seq<Frame>, pad: seq<byte>):
    (r: seq<byte>)
    requires forall i :: 0 <= i < |frames| ==> FrameOk(frames[i])
  {
    [73, 68, 51] + [major, minor, flags] + Sync28(|ext| + BodySize(frames) + |pad|) + (ext + Body(major, frames) + pad)
  }

  /** An extended header starts with its length; it is there exactly if the flags say so. */
  predicate ExtOk(flags: byte, ext: seq<byte>) {
    if Has(flags, 0x40) then 4 <= |ext| < U28 && ext[..4] == Sync28(|ext|) else ext == []
  }

  lemma TagFileParts(major: byte, minor: byte, flags: byte, ext: seq<byte>, frames: seq<Frame>, pad: seq<byte>,
                     rest: seq<byte>)
    requires forall i :: 0 <= i < |frames| ==> FrameOk(frames[i])
    ensures var file, n := TagFile(major, minor, flags, ext, frames, pad) + rest, |ext| + BodySize(frames) + |pad|;
      && |file| == 10 + n + |rest| && file[..3] == SIGNATURE && file[3] == major && file[4] == minor
      && file[5] == flags && file[6..10] == Sync28(n) && file[10..10 + n] == ext + Body(major, frames) + pad
  {
    hide Sync28, Body;
  }

  lemma ReadsFrom(file: seq<byte>, n: nat, names: Names)
    requires NamesOk(names) && 4 <= n < U28 && |file| >= 10 + n && file[..3] == SIGNATURE && 2 <= file[3] <= 4
    requires file[5] % 16 == 0 && !Has(file[5], 0x80) && file[6..10] == Sync28(n)
    ensures var b := file[10..10 + n]; var start := if Has(file[5], 0x40) then FromSync28(b[..4]) else 0;
      start <= |b| ==>
        ReadTag(file, names) == Whole(file[3], file[4], file[5], ReadFrames(file[3], b, start, names))
  {
    hide Sync28, FromSync28, ReadFrames, Whole, NamesOk;
    SyncBytes(file, n);
    Sync28Back(n);
  }

  lemma Starts(flags: byte, ext: seq<byte>, body: seq<byte>)
    requires ExtOk(flags, ext) && |ext + body| >= 4
    ensures (if Has(flags, 0x40) then FromSync28((ext + body)[..4]) else 0) == |ext|
  {
    hide Sync28, FromSync28;
    if Has(flags, 0x40) {
      assert (ext + body)[..4] == ext[..4];
      Sync28Back(|ext|);
    }
  }

  /** Any tag of version 3 or 4, with or without an extended header and padding: the frames that survive come back
      under the names the reader gives them, in order. */
  lemma TagBack(major: byte, minor: byte, flags: byte, ext: seq<byte>, frames: seq<Frame>, pad: seq<byte>,
                rest: seq<byte>, names: Names)
    requires (major == 3 || major == 4) && flags % 16 == 0 && !Has(flags, 0x80) && ExtOk(flags, ext) && Padding(pad)
    requires NamesOk(names) && forall i :: 0 <= i < |frames| ==> FrameOk(frames[i]) && frames[i].id[0] != 0
    requires 4 <= |ext| + BodySize(frames) + |pad| < U28
    ensures var file := TagFile(major, minor, flags, ext, frames, pad) + rest; |file| > 5 && !Has(file[5], 0x80)
    ensures var s := Survivors(major, AllNamed(frames, names), |ext|);
      ReadTag(TagFile(major, minor, flags, ext, frames, pad) + rest, names)
        == Ok(Reading(Tag(major, minor, flags, s.list), 10 + s.end))
  {
    hide *;
    var file, n := TagFile(major, minor, flags, ext, frames, pad) + rest, |ext| + BodySize(frames) + |pad|;
    TagFileParts(major, minor, flags, ext, frames, pad, rest);
    ReadsFrom(file, n, names);
    Assoc(ext, Body(major, frames), pad);
    Lengths(ext, major, frames, pad);
    Starts(flags, ext, Body(major, frames) + pad);
    NamedBack(major, ext, frames, pad, names);
    WholeIs(major, minor, flags, Survivors(major, AllNamed(frames, names), |ext|));
  }

  lemma Lengths(ext: seq<byte>, major: byte, frames: seq<Frame>, pad: seq<byte>)
    requires forall i :: 0 <= i < |frames| ==> FrameOk(frames[i])
    ensures |ext + (Body(major, frames) + pad)| == |ext| + BodySize(frames) + |pad|
  {
    hide Body;
  }

  lemma WholeIs(major: byte, minor: byte, flags: byte, s: Frames)
    ensures Whole(major, minor, flags, Ok(s)) == Ok(Reading(Tag(major, minor, flags, s.list), 10 + s.end))
  {
  }

  /** Nothing is lost, and the reader stops at the padding, exactly when every frame but pictures has at most 100000
      bytes and every frame has the bytes its flags announce. */
  lemma NothingLost(major: byte, frames: seq<Frame>, p: nat, names: Names)
    requires NamesOk(names) && (forall i :: 0 <= i < |frames| ==> FrameOk(frames[i])) && p + BodySize(frames) < U28
    ensures Survivors(major, AllNamed(frames, names), p) == Frames(AllNamed(frames, names), p + BodySize(frames)) <==>
      forall i :: 0 <= i < |frames| ==>
        && (|frames[i].data| <= 100000 || FrameId(frames[i].id, names) == [65, 80, 73, 67])
        && |frames[i].data| >= Extra(major, frames[i].flags1, frames[i].flags2)
  {
    var g := AllNamed(frames, names);
    hide AllNamed, Survivors, TooBig, TooShort, Extra, FrameId, BodySize, Named;
    NamedSize(frames, names);
    AllSurvive(major, g, p);
    forall i | 0 <= i < |frames|
      ensures !TooBig(g[i]) && !TooShort(major, g[i]) <==>
        && (|frames[i].data| <= 100000 || FrameId(frames[i].id, names) == [65, 80, 73, 67])
        && |frames[i].data| >= Extra(major, frames[i].flags1, frames[i].flags2)
    {
      NamedJudged(major, frames[i], names);
    }
  }

  lemma {:induction false} NamedSize(frames: seq<Frame>, names: Names)
    requires NamesOk(names) && forall i :: 0 <= i < |frames| ==> FrameOk(frames[i])
    ensures BodySize(AllNamed(frames, names)) == BodySize(frames)
    decreases |frames|
  {
    if frames != [] {
      NamedFirst(frames, names);
      NamedSize(frames[1..], names);
      SameData(frames[0], names);
      hide AllNamed, Named;
    }
  }

  // ----- sizes that do not fit -------------------------------------------------------------

  /** A frame that claims n bytes, with m bytes behind its size, two of them flags. One that claims a byte too many is
      passed over, and so is one that claims more than the whole tag has; one in between spoils the tag. */
  lemma Oversized(major: byte, pre: seq<byte>, id: seq<byte>, n: nat, tail: seq<byte>, names: Names)
    requires (major == 3 || major == 4) && NamesOk(names) && |id| == 4 && id[0] != 0
    requires tail != [] && |tail| < n + 2 && n < U28 && |pre| + 8 + |tail| < U28
    ensures var b, p := pre + id + SizeBytes(major, n) + tail, |pre|;
      ReadFrames(major, b, p, names) ==
        if |tail| == n + 1 || n > |b| then Ok(Frames([], p + 10 + n)) else Err
  {
    hide SizeBytes, FrameId, ReadFrames, FromSync28, FromBe32, NamesOk;
    var b, p := pre + id + SizeBytes(major, n) + tail, |pre|;
    SizeBack(major, n);
    assert b[p..p + 4] == id && b[p + 4..p + 8] == SizeBytes(major, n) && b[p] == id[0];
    assert |b| == p + 8 + |tail|;
    ReadRound(major, b, p, names);
    ReadPast(major, b, p + 10 + n, names);
    assert Sub32(|b|, n) == if n > |b| then |b| - n + U32 else |b| - n;
  }

  /** Files the reader refuses by their first ten bytes, or because the tag is cut short. */
  lemma Refused(file: seq<byte>, names: Names)
    requires NamesOk(names) && (|file| > 5 ==> !Has(file[5], 0x80))
    ensures |file| < 10 || file[..3] != [73, 68, 51] || file[3] < 2 || file[3] > 4 || file[5] % 16 != 0
      || file[6] >= 128 || file[7] >= 128 || file[8] >= 128 || file[9] >= 128
      || (var n := 0x20_0000 * file[6] as int + 0x4000 * file[7] as int + 0x80 * file[8] as int + file[9] as int;
          n == 0 || 10 + n > |file|)
      ==> ReadTag(file, names) == Err
  {
    if Readable(file) {
      var b := file[6..10];
      assert b == [file[6], file[7], file[8], file[9]];
      assert FromSync28(b) == Horner(b[3], b[2], b[1], b[0], 0x80);
    }
    hide ReadFrames, FromSync28;
  }

  // ----- what is written -------------------------------------------------------------------

  /** The size of a frame: four bytes in ID3v2.3, four times seven bits in ID3v2.4, the highest first. */
  lemma SizeIs(major: byte, n: nat)
    requires n < U28
    ensures var b := SizeBytes(major, n);
      if major == 3 then
        n == 0x100_0000 * b[0] as int + 0x1_0000 * b[1] as int + 0x100 * b[2] as int + b[3] as int
      else
        && b[0] < 128 && b[1] < 128 && b[2] < 128 && b[3] < 128
        && n == 0x20_0000 * b[0] as int + 0x4000 * b[1] as int + 0x80 * b[2] as int + b[3] as int
  {
    Be32Back(n);
    Sync28Back(n);
    hide Be32, Sync28;
  }

  /** The flags of a written header: all there were but those for an extended header and a footer. */
  lemma HeaderFlagsIs(flags: byte)
    ensures flags - HeaderFlags(flags) == (if Bit(flags, 6) then 64 else 0) + if Bit(flags, 4) then 16 else 0
    ensures !Bit(HeaderFlags(flags), 6) && !Bit(HeaderFlags(flags), 4)
  {
    var six := ClearBit(flags, 0x40);
    SixCleared(flags);
    FourCleared(six);
    hide ClearBit, Bit;
  }

  lemma SixCleared(x: byte)
    ensures var r := ClearBit(x, 0x40);
      x - r == (if Bit(x, 6) then 64 else 0) && !Bit(r, 6) && (Bit(r, 4) <==> Bit(x, 4))
  {
  }

  lemma FourCleared(x: byte)
    ensures var r := ClearBit(x, 0x10);
      x - r == (if Bit(x, 4) then 16 else 0) && !Bit(r, 4) && (Bit(r, 6) <==> Bit(x, 6))
  {
  }

  /** A written tag: "ID3", version, flags, size and frames. */
  lemma TagIs(t: Tag)
    requires TagOk(t)
    ensures TagBytes(t) == TagFile(t.major, t.minor, HeaderFlags(t.flags), [], t.frames, [])
  {
    var body := Body(t.major, t.frames);
    assert [] + body + [] == body;
    assert [t.major, t.minor] + [HeaderFlags(t.flags)] == [t.major, t.minor, HeaderFlags(t.flags)];
    hide Sync28, HeaderFlags, Body;
  }

  /** A written frame: name, size, flags, data. */
  lemma FramesAre(major: byte, frames: seq<Frame>)
    requires forall i :: 0 <= i < |frames| ==> FrameOk(frames[i])
    ensures frames == [] ==> Body(major, frames) == []
    ensures frames != [] ==> var f := frames[0];
      Body(major, frames) ==
        f.id + SizeBytes(major, |f.data|) + [f.flags1, f.flags2] + f.data + Body(major, frames[1..])
  {
    hide SizeBytes;
  }
}
