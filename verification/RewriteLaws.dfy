/** What rewriting makes of each of the three tags, said of the bytes in front of and behind the audio. */
module RewriteLaws {
  import opened PlayItems
  import opened ByteOrder
  import opened RewriteSpec
  import Id3v2
  import Apev2

  // ----- files put together from tags and audio --------------------------------------------

  /** The ten bytes in front are the header of a tag: "ID3", no unknown flags, and four times seven bits. */
  predicate HasHeader(b: seq<byte>) {
    |b| >= 10 && b[..3] == [73, 68, 51] && b[5] % 16 == 0 && b[6] < 128 && b[7] < 128 && b[8] < 128 && b[9] < 128
  }

  /** The length of the tag: ten bytes of header, what the seven-bit digits count, and ten bytes more if the flags
      announce a footer. */
  function HeaderLength(b: seq<byte>): nat
    requires |b| >= 10
  {
    10 + 0x20_0000 * b[6] as int + 0x4000 * b[7] as int + 0x80 * b[8] as int + b[9] as int
    + if b[5] / 16 % 2 == 1 then 10 else 0
  }

  /** A tag in front. */
  predicate IsFront(b: seq<byte>) {
    HasHeader(b) && |b| == HeaderLength(b)
  }

  /** A block behind: 128 bytes that start with "TAG". */
  predicate IsBlock(b: seq<byte>) {
    |b| == 128 && b[..3] == [84, 65, 71]
  }

  /** An APEv2 tag with a footer. */
  ghost predicate IsApe(b: seq<byte>) {
    exists items, header: bool ::
      && Apev2.ItemsOk(items) && |items| < 0x1_0000_0000 && Apev2.ItemsSize(items) + 64 < 0x8000_0000
      && b == Apev2.TagBytes(items, header, true)
  }

  /** Each tag is there or not, and where none is, nothing looks like one. */
  ghost predicate Pieces(front: seq<byte>, audio: seq<byte>, ape: seq<byte>, block: seq<byte>) {
    var file := front + audio + ape + block;
    && (if front == [] then Id3v2.Find(file).NotFound? else IsFront(front))
    && (if block == [] then FindId3v1(file) == -1 else IsBlock(block))
    && (if ape == [] then Apev2.Find(file).NotFound? else IsApe(ape) && Apev2.TailOk(block))
  }

  /** In any file, a tag in front is found if and only if its header is there, with its footer. */
  lemma FrontExact(file: seq<byte>)
    ensures FrontSize(file) == if HasHeader(file) then HeaderLength(file) else 0
    ensures Id3v2.Find(file).NotFound? <==> !HasHeader(file)
  {
    if |file| >= 10 {
      assert file[6..10] == [file[6], file[7], file[8], file[9]];
      if HasHeader(file) {
        SyncDigits(file[6..10]);
      }
      hide FromSync28;
    }
  }

  lemma FrontFound(front: seq<byte>, rest: seq<byte>)
    requires IsFront(front)
    ensures FrontSize(front + rest) == |front|
  {
    var file := front + rest;
    assert file[..3] == front[..3];
    FrontExact(file);
    hide FrontSize;
  }

  lemma SyncDigits(b: seq<byte>)
    requires |b| == 4 && forall i :: 0 <= i < 4 ==> b[i] < 128
    ensures FromSync28(b) == 0x20_0000 * b[0] as int + 0x4000 * b[1] as int + 0x80 * b[2] as int + b[3] as int
  {
  }

  /** In any file, a block is found if and only if "TAG" stands 128 bytes before the end. */
  lemma BlockExact(file: seq<byte>)
    ensures FindId3v1(file) ==
      if |file| >= 128 && file[|file| - 128..|file| - 125] == [84, 65, 71] then |file| - 128 else -1
    ensures BlockStart(file) ==
      if |file| > 128 && file[|file| - 128..|file| - 125] == [84, 65, 71] then |file| - 128 else 0
  {
  }

  /** The size of the APEv2 tag whose footer ends at `end`: what the footer says, a signed word, and the header if its
      top flag is set. */
  function ApeSize(file: seq<byte>, end: nat): int
    requires 32 <= end <= |file|
  {
    var size := file[end - 20] as int + 0x100 * file[end - 19] as int + 0x1_0000 * file[end - 18] as int
      + 0x100_0000 * file[end - 17] as int;
    (if file[end - 17] < 128 then size else size - 0x1_0000_0000) + if file[end - 9] < 128 then 0 else 32
  }

  predicate FooterEnds(file: seq<byte>, end: int) {
    32 <= end <= |file| && file[end - 32..end - 24] == [65, 80, 69, 84, 65, 71, 69, 88]
  }

  /** In any file, an APEv2 tag is found if and only if a footer ends with the file, or else 128 bytes before, and the
      tag does not start before the file. */
  lemma ApeExact(file: seq<byte>)
    ensures FooterEnds(file, |file|) ==> ApeAt(file, |file|)
    ensures !FooterEnds(file, |file|) && FooterEnds(file, |file| - 128) ==> ApeAt(file, |file| - 128)
    ensures !FooterEnds(file, |file|) && !FooterEnds(file, |file| - 128) ==> Apev2.Find(file).NotFound?
  {
    hide Apev2.FooterAt, Has;
    if FooterEnds(file, |file|) {
      FooterBytes(file, |file|);
    } else if FooterEnds(file, |file| - 128) {
      FooterBytes(file, |file| - 128);
    }
  }

  ghost predicate ApeAt(file: seq<byte>, end: nat)
    requires 32 <= end <= |file|
  {
    var f := Apev2.Find(file);
    if ApeSize(file, end) > end then f.NotFound?
    else f.Found? && f.start == end - ApeSize(file, end) && f.size == ApeSize(file, end)
  }

  lemma FooterBytes(file: seq<byte>, end: nat)
    requires 32 <= end <= |file|
    ensures var f := Apev2.FooterAt(file, end);
      f.size + (if Has(f.flags, Apev2.HAS_HEADER) then 32 else 0) == ApeSize(file, end)
  {
    Word(file, end - 20);
    Word(file, end - 12);
    hide FromLe32;
    TopBit(file[end - 12], file[end - 11], file[end - 10], file[end - 9]);
  }

  lemma Word(file: seq<byte>, p: nat)
    requires p + 4 <= |file|
    ensures FromLe32(file[p..p + 4]) == file[p] as int + 0x100 * file[p + 1] as int + 0x1_0000 * file[p + 2] as int
      + 0x100_0000 * file[p + 3] as int
  {
    var b := file[p..p + 4];
    assert b[0] == file[p] && b[1] == file[p + 1] && b[2] == file[p + 2] && b[3] == file[p + 3];
  }

  lemma TopBit(a: byte, b: byte, c: byte, d: byte)
    ensures Has(a as int + 0x100 * b as int + 0x1_0000 * c as int + 0x100_0000 * d as int, 0x8000_0000) <==> d >= 128
  {
  }

  lemma BlockFound(body: seq<byte>, block: seq<byte>)
    requires if block == [] then FindId3v1(body + block) == -1 else IsBlock(block)
    ensures BlockStart(body + block) == if block == [] then 0 else |body|
  {
    var file := body + block;
    if block != [] {
      assert file[|file| - ID3V1_SIZE..|file| - ID3V1_SIZE + 3] == block[..3];
    }
  }

  lemma ApeFound(body: seq<byte>, ape: seq<byte>, block: seq<byte>, o: Options)
    requires if ape == [] then Apev2.Find(body + ape + block).NotFound? else IsApe(ape) && Apev2.TailOk(block)
    ensures ApeStart(body + ape + block, o) == if ape == [] || !(o.stripApev2 || o.writeApev2) then 0 else |body|
  {
    hide Apev2.Find, Apev2.TailOk, Apev2.TagBytes, Apev2.ItemsOk;
    if ape != [] {
      var items, header: bool :|
        && Apev2.ItemsOk(items) && |items| < 0x1_0000_0000 && Apev2.ItemsSize(items) + 64 < 0x8000_0000
        && ape == Apev2.TagBytes(items, header, true);
      Apev2.FoundAndRead(body, items, header, block);
    }
  }

  /** Where the parts of such a file are found. */
  lemma PiecesFound(front: seq<byte>, audio: seq<byte>, ape: seq<byte>, block: seq<byte>, o: Options)
    requires Pieces(front, audio, ape, block)
    ensures var file := front + audio + ape + block;
      && FrontSize(file) == |front|
      && BlockStart(file) == (if block == [] then 0 else |front + audio + ape|)
      && ApeStart(file, o) == (if ape == [] || !(o.stripApev2 || o.writeApev2) then 0 else |front + audio|)
  {
    hide *;
    PiecesAre(front, audio, ape, block);
    Layout(front, audio, ape, block);
    if front != [] {
      FrontFound(front, audio + ape + block);
    } else {
      NoFront(front + audio + ape + block);
    }
    BlockFound(front + audio + ape, block);
    ApeFound(front + audio, ape, block, o);
  }

  lemma NoFront(file: seq<byte>)
    requires Id3v2.Find(file).NotFound?
    ensures FrontSize(file) == 0
  {
  }

  lemma PiecesAre(front: seq<byte>, audio: seq<byte>, ape: seq<byte>, block: seq<byte>)
    requires Pieces(front, audio, ape, block)
    ensures var file := front + audio + ape + block;
      && (if front == [] then Id3v2.Find(file).NotFound? else IsFront(front))
      && (if block == [] then FindId3v1(file) == -1 else IsBlock(block))
      && (if ape == [] then Apev2.Find(file).NotFound? else IsApe(ape) && Apev2.TailOk(block))
  {
    hide Id3v2.Find, FindId3v1, Apev2.Find, IsFront, IsBlock, IsApe, Apev2.TailOk;
  }

  // ----- what becomes of the tags ----------------------------------------------------------

  /** Of a file that is put together from tags and audio, each tag is replaced if a new one is written, else removed if
      it is to be stripped, else kept; the audio is kept. */
  lemma TagsReplaced(front: seq<byte>, audio: seq<byte>, ape: seq<byte>, block: seq<byte>, o: Options, t: NewTags)
    requires NewOk(t) && Pieces(front, audio, ape, block) && front + audio != []
    ensures Rewritten(front + audio + ape + block, o, t) == Ok(
      (if o.writeId3v2 then Id3v2.TagBytes(t.id3v2) else if o.stripId3v2 then [] else front)
      + audio
      + (if o.writeApev2 then Apev2.TagBytes(t.apev2, false, true) else if o.stripApev2 then [] else ape)
      + (if o.writeId3v1 then t.id3v1 else if o.stripId3v1 then [] else block))
  {
    hide *;
    var file := front + audio + ape + block;
    PiecesFound(front, audio, ape, block, o);
    Layout(front, audio, ape, block);
    TagInside(front, audio, ape, block);
    Joined(front, audio, ape);
    NewFront(t);
    FooterIs(file, o);
    AudioIs(file, o);
    RewrittenFrom(file, o, t, |front|, |file| - |block|);
    var kept := if ape == [] || o.stripApev2 || o.writeApev2 then audio else audio + ape;
    assert file[|front|..Footer(file, o)] == kept;
    assert file[|file| - |block|..] == block;
    Regrouped(if o.writeId3v2 then Id3v2.TagBytes(t.id3v2) else if o.stripId3v2 then [] else front, audio, ape,
              if o.writeId3v1 then t.id3v1 else if o.stripId3v1 then [] else block);
  }

  lemma NewFront(t: NewTags)
    requires NewOk(t)
    ensures Id3v2.TagOk(t.id3v2) && t.id3v2.flags % 16 == 0 && Id3v2.BodySize(t.id3v2.frames) < U28
  {
    hide Id3v2.TagOk;
  }

  lemma Joined(front: seq<byte>, audio: seq<byte>, ape: seq<byte>)
    ensures |front + audio| == |front| + |audio| && |front + audio + ape| == |front| + |audio| + |ape|
    ensures front + audio == [] <==> |front| + |audio| == 0
  {
  }

  lemma Regrouped(front: seq<byte>, audio: seq<byte>, ape: seq<byte>, block: seq<byte>)
    ensures front + (audio + ape) + [] + block == front + audio + ape + block
  {
  }

  /** The rewritten file from the places where its tags are found. */
  lemma RewrittenFrom(file: seq<byte>, o: Options, t: NewTags, size: nat, start: nat)
    requires NewOk(t) && FrontSize(file) == size <= Footer(file, o) <= |file|
    requires BlockStart(file) == (if start < |file| then start else 0) && start <= |file|
    ensures Rewritten(file, o, t) == Ok(
      (if o.writeId3v2 then Id3v2.TagBytes(t.id3v2) else if o.stripId3v2 then [] else file[..size])
      + file[size..Footer(file, o)]
      + (if o.writeApev2 then Apev2.TagBytes(t.apev2, false, true) else [])
      + (if o.writeId3v1 then t.id3v1 else if o.stripId3v1 || start == 0 then [] else file[start..]))
  {
    hide NewOk, FrontSize, Footer, BlockStart, Apev2.TagBytes, Id3v2.TagBytes;
    assert file[|file|..] == [] && file[..0] == [];
  }

  /** With nothing in front of an APEv2 tag or of a block, that is not found, so it is taken for audio whatever the
      options say. */
  lemma NothingBefore(ape: seq<byte>, block: seq<byte>, o: Options, t: NewTags)
    requires NewOk(t) && Pieces([], [], ape, block)
    ensures Rewritten(ape + block, o, t) == Ok(
      (if o.writeId3v2 then Id3v2.TagBytes(t.id3v2) else [])
      + (if ape == [] then block else ape)
      + (if o.writeApev2 then Apev2.TagBytes(t.apev2, false, true) else [])
      + (if o.writeId3v1 then t.id3v1 else if o.stripId3v1 || ape == [] then [] else block))
  {
    hide *;
    var none: seq<byte>, file := [], ape + block;
    PiecesFound(none, none, ape, block, o);
    assert none + none + ape + block == file && |none + none + ape| == |ape| && |none + none| == 0;
    FooterIs(file, o);
    AudioIs(file, o);
    NewFront(t);
    RewrittenFrom(file, o, t, 0, |ape|);
    assert file[0..|file|] == file && file[|ape|..] == block && file[0..|ape|] == ape && file[..0] == [];
    assert Footer(file, o) == if ape == [] then |file| else |ape|;
    assert ape == [] ==> file == block;
  }

  /** Of a file that consists of a block alone, the block is not stripped. */
  lemma LoneBlockKept(block: seq<byte>, t: NewTags)
    requires NewOk(t) && Pieces([], [], [], block) && block != []
    ensures Rewritten(block, Options(false, true, false, false, false, false), t) == Ok(block)
  {
    hide *;
    var none: seq<byte> := [];
    NothingBefore(none, block, Options(false, true, false, false, false, false), t);
    assert none + block == block && none + block + none + none == block;
  }

  /** Where a tag is stripped and not replaced, none is found any more, if nothing else looks like one. */
  lemma StrippedGone(file: seq<byte>, o: Options, t: NewTags)
    requires NewOk(t) && Rewritten(file, o, t).Ok?
    requires Clean(Front(file, o, t), Audio(file, o), Ape(o, t), Block(file, o, t), o)
    ensures var out := Rewritten(file, o, t).value;
      && (o.stripId3v2 && !o.writeId3v2 ==> Id3v2.Find(out).NotFound?)
      && (o.stripId3v1 && !o.writeId3v1 ==> FindId3v1(out) == -1)
      && (o.stripApev2 && !o.writeApev2 ==> Apev2.Find(out).NotFound?)
  {
    var front, audio, ape, block := Front(file, o, t), Audio(file, o), Ape(o, t), Block(file, o, t);
    Layout(front, audio, ape, block);
    NewParts(file, o, t);
    hide *;
    RewrittenIs(file, o, t);
    CleanParts(front, audio, ape, block, o);
    Units(front + audio + ape);
    Units(audio + ape + block);
    Units(front + audio);
  }

  lemma Units(a: seq<byte>)
    ensures a + [] == a && [] + a == a
  {
  }

  lemma NewParts(file: seq<byte>, o: Options, t: NewTags)
    requires NewOk(t) && (KeepsFront(file, o) ==> FrontSize(file) <= |file|)
    ensures o.stripId3v2 && !o.writeId3v2 ==> Front(file, o, t) == []
    ensures o.stripId3v1 && !o.writeId3v1 ==> Block(file, o, t) == []
    ensures o.stripApev2 && !o.writeApev2 ==> Ape(o, t) == []
  {
    hide FrontSize, NewOk;
  }
}
