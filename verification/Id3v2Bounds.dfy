/** When the reader of ID3v2 tags looks only at bytes of the tag. */
module Id3v2Bounds {
  import opened PlayItems
  import opened ByteOrder
  import opened Id3v2

  /** The flags of a frame announce a data length, and none of them makes the reader skip the frame first. */
  predicate LooksAhead(major: byte, flags1: byte, flags2: byte) {
    && major == 4 && flags1 % 16 == 0 && !Has(flags1, 0x80)
    && !Has(flags2, 0x80) && !Has(flags2, 0x20) && !Has(flags2, 0x10) && !Has(flags2, 0x08) && !Has(flags2, 0x04)
    && Has(flags2, 0x01)
  }

  /** How far behind the flags of a frame the reader looks for a data length. */
  function Ahead(major: byte, flags1: byte, flags2: byte): (n: nat)
    ensures n <= 5
  {
    if LooksAhead(major, flags1, flags2) then (if Has(flags2, 0x40) then 5 else 4) else 0
  }

  /** One round looks only at bytes of the tag: at both flags, and at the data length of a frame it keeps. */
  predicate RoundInside(major: byte, b: seq<byte>, p: nat, names: Names)
    requires NamesOk(names) && p + 4 <= |b|
  {
    major == 2 || p + 8 >= |b| ||
    match ReadFrame(major, b, p, names)
    case Stop(_) => true
    case Fail => true
    case Drop(_) => p + 10 <= |b|
    case Store(f, _) => p + 10 + Ahead(major, f.flags1, f.flags2) <= |b|
  }

  predicate FramesInside(major: byte, b: seq<byte>, p: nat, names: Names)
    requires NamesOk(names)
    decreases if p <= |b| then |b| - p else 0
  {
    p > |b| - 4 || b[p] == 0 ||
    (RoundInside(major, b, p, names) &&
     match ReadFrame(major, b, p, names)
     case Stop(_) => true
     case Fail => true
     case Drop(next) => FramesInside(major, b, next, names)
     case Store(_, next) => FramesInside(major, b, next, names))
  }

  /** The reader looks only at bytes of the tag. */
  predicate ReadsInside(file: seq<byte>, names: Names)
    requires NamesOk(names)
  {
    if !Readable(file) then true
    else
      var b, extended := Inner(file), Has(file[5], 0x40);
      if |b| < 4 then !extended && (b[0] == 0 || (file[3] == 2 && |b| == 3))
      else
        var start := if extended then FromSync28(b[..4]) else 0;
        start > |b| || FramesInside(file[3], b, start, names)
  }

  lemma RoundOnce(major: byte, b: seq<byte>, p: nat, names: Names)
    requires NamesOk(names) && p <= |b| - 4 && b[p] != 0
    ensures FramesInside(major, b, p, names) <==>
      RoundInside(major, b, p, names) &&
      match ReadFrame(major, b, p, names)
      case Stop(_) => true
      case Fail => true
      case Drop(next) => FramesInside(major, b, next, names)
      case Store(_, next) => FramesInside(major, b, next, names)
  {
    hide ReadFrame, RoundInside;
  }

  lemma RoundsEnd(major: byte, b: seq<byte>, p: nat, names: Names)
    requires NamesOk(names) && (p > |b| - 4 || b[p] == 0)
    ensures FramesInside(major, b, p, names)
  {
  }

  // ----- tags that were written ------------------------------------------------------------

  /** The reader comes to a frame that announces a data length and has fewer bytes than that, at the end of
      the tag: an earlier frame too short for its flags would send it off first. */
  ghost predicate LengthMissing(major: byte, frames: seq<Frame>) {
    && frames != []
    && (forall i :: 0 <= i < |frames| - 1 ==> !TooShort(major, frames[i]))
    && var f := frames[|frames| - 1]; TooShort(major, f) && LooksAhead(major, f.flags1, f.flags2)
  }

  lemma AheadIsExtra(major: byte, f: Frame)
    ensures LooksAhead(major, f.flags1, f.flags2) ==>
      Ahead(major, f.flags1, f.flags2) == Extra(major, f.flags1, f.flags2)
    ensures TooShort(major, f) ==> !TooBig(f)
  {
  }

  /** One round on a frame as it was written. */
  lemma InsideOne(major: byte, pre: seq<byte>, f: Frame, post: seq<byte>, names: Names)
    requires (major == 3 || major == 4) && NamesOk(names) && FrameOk(f) && PlainId(f)
    requires |pre| + 10 + |f.data| + |post| < U28 && (post == [] || |post| >= 10)
    ensures var b, p := pre + FrameBytes(major, f) + post, |pre|;
      FramesInside(major, b, p, names) <==>
        if TooShort(major, f) then post != [] || !LooksAhead(major, f.flags1, f.flags2)
        else FramesInside(major, b, p + 10 + |f.data|, names)
  {
    hide FrameBytes, SizeBytes, FrameId, Extra, ReadFrame, FramesInside, TooBig, TooShort, FromSync28, FromBe32,
         PlainId, NamesOk, Ahead, LooksAhead;
    var b, p, size := pre + FrameBytes(major, f) + post, |pre|, |f.data|;
    FrameParts(major, f, pre, post);
    SizeBack(major, size);
    PlainFrameId(f, names);
    FirstByte(f);
    RoundOf(major, b, p, f.id, size, names);
    RoundOnce(major, b, p, names);
    Judged(major, f);
    AheadIsExtra(major, f);
    AheadIs(major, f);
    if size < Extra(major, f.flags1, f.flags2) {
      RoundsEnd(major, b, p + 10 + size + U32, names);
    }
  }

  lemma AheadIs(major: byte, f: Frame)
    ensures Ahead(major, f.flags1, f.flags2) <= 5
    ensures !LooksAhead(major, f.flags1, f.flags2) ==> Ahead(major, f.flags1, f.flags2) == 0
  {
    hide LooksAhead;
  }

  lemma {:induction false} BodyInside(major: byte, pre: seq<byte>, frames: seq<Frame>, names: Names)
    requires (major == 3 || major == 4) && NamesOk(names)
    requires forall i :: 0 <= i < |frames| ==> FrameOk(frames[i]) && PlainId(frames[i])
    requires |pre| + BodySize(frames) < U28
    ensures FramesInside(major, pre + Body(major, frames), |pre|, names) <==> !LengthMissing(major, frames)
    decreases |frames|
  {
    hide *;
    BodyIs(major, pre, frames);
    MissingStep(major, frames);
    if frames == [] {
      RoundsEnd(major, pre, |pre|, names);
    } else {
      var f, rest := frames[0], frames[1..];
      SizesAdd(major, f, rest);
      InsideOne(major, pre, f, Body(major, rest), names);
      BodyInside(major, pre + FrameBytes(major, f), rest, names);
    }
  }

  lemma MissingStep(major: byte, frames: seq<Frame>)
    ensures frames == [] ==> !LengthMissing(major, frames)
    ensures frames != [] ==>
      var f, rest := frames[0], frames[1..];
      && (BodySize(rest) == 0 || BodySize(rest) >= 10) && (rest == [] <==> BodySize(rest) == 0)
      && (LengthMissing(major, frames) <==>
           if TooShort(major, f) then rest == [] && LooksAhead(major, f.flags1, f.flags2)
           else LengthMissing(major, rest))
  {
    hide TooShort, LooksAhead;
    if |frames| > 1 {
      var rest := frames[1..];
      assert forall i :: 0 <= i < |rest| ==> rest[i] == frames[i + 1];
      assert frames[|frames| - 1] == rest[|rest| - 1];
      if LengthMissing(major, rest) && !TooShort(major, frames[0]) {
        forall i | 0 <= i < |frames| - 1
          ensures !TooShort(major, frames[i])
        {
          if i > 0 {
            assert !TooShort(major, rest[i - 1]);
          }
        }
      }
    }
  }

  /** Reading a written tag stays inside it if and only if no data length is missing at its end. */
  lemma WrittenInside(t: Tag, rest: seq<byte>, names: Names)
    requires TagOk(t) && (t.major == 3 || t.major == 4) && NamesOk(names)
    requires t.frames != [] && BodySize(t.frames) < U28 && t.flags % 16 == 0 && !Has(t.flags, 0x80)
    requires forall i :: 0 <= i < |t.frames| ==> PlainId(t.frames[i])
    ensures ReadsInside(TagBytes(t) + rest, names) <==> !LengthMissing(t.major, t.frames)
  {
    hide TagBytes, Body, BodySize, ReadsInside, FramesInside, LengthMissing, Sync28, HeaderFlags, PlainId, FrameOk, Has,
         NamesOk;
    HeaderParts(t, rest);
    HeaderFlagBits(t.flags);
    BodyAtLeast(t.frames);
    InsideWhole(TagBytes(t) + rest, BodySize(t.frames), names);
    assert [] + Body(t.major, t.frames) == Body(t.major, t.frames);
    BodyInside(t.major, [], t.frames, names);
  }

  lemma BodyAtLeast(frames: seq<Frame>)
    requires frames != []
    ensures BodySize(frames) >= 10
  {
  }

  lemma InsideWhole(file: seq<byte>, n: nat, names: Names)
    requires NamesOk(names) && 4 <= n < U28 && |file| >= 10 + n && file[..3] == SIGNATURE && 2 <= file[3] <= 4
    requires file[5] % 16 == 0 && !Has(file[5], 0x40) && file[6..10] == Sync28(n)
    ensures ReadsInside(file, names) <==> FramesInside(file[3], file[10..10 + n], 0, names)
  {
    hide Sync28, FromSync28, FramesInside, NamesOk;
    SyncBytes(file, n);
    Sync28Back(n);
  }

  /** A title without a byte whose flags announce a data length. */
  lemma LengthPastTheEnd(t: Tag, names: Names)
    requires NamesOk(names) && t == Tag(4, 0, 0, [Frame([84, 73, 84, 50], 0, 1, [])])
    ensures TagOk(t) && !ReadsInside(TagBytes(t), names)
  {
    hide TagBytes, ReadsInside, NamesOk;
    assert t.frames[1..] == [];
    var none: seq<byte> := [];
    WrittenInside(t, none, names);
    assert TagBytes(t) + none == TagBytes(t);
  }
}
