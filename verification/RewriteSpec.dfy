/** The byte layout of junk_rewrite_tags in src/junklib.c: which bytes of a file are taken for audio, and
    what the rewritten file looks like. The contents of the new tags are arbitrary. */
module RewriteSpec {
  import opened PlayItems
  import opened ByteOrder
  import Id3v2
  import Apev2

  datatype Options = Options(stripId3v2: bool, stripId3v1: bool, stripApev2: bool,
                             writeId3v2: bool, writeId3v1: bool, writeApev2: bool)

  datatype NewTags = NewTags(id3v2: Id3v2.Tag, apev2: seq<Apev2.Item>, id3v1: seq<byte>)

  const ID3V1: seq<byte> := [84, 65, 71]
  const ID3V1_SIZE := 128

  /** The new tags fit their formats. */
  predicate NewOk(t: NewTags) {
    && Id3v2.TagOk(t.id3v2) && (t.id3v2.major == 3 || t.id3v2.major == 4)
    && t.id3v2.flags % 16 == 0 && Id3v2.BodySize(t.id3v2.frames) < U28
    && Apev2.ItemsOk(t.apev2) && |t.apev2| < U32 && Apev2.ItemsSize(t.apev2) + 64 < 0x8000_0000
    && |t.id3v1| == ID3V1_SIZE && t.id3v1[..3] == ID3V1
  }

  // ----- what is found in a file -----------------------------------------------------------

  /** junk_id3v1_find2 */
  function FindId3v1(file: seq<byte>): int {
    if |file| >= ID3V1_SIZE && file[|file| - ID3V1_SIZE..|file| - ID3V1_SIZE + 3] == ID3V1
    then |file| - ID3V1_SIZE
    else -1
  }

  /** The size of the tag in front, or 0. */
  function FrontSize(file: seq<byte>): nat {
    var f := Id3v2.Find(file);
    if f.NotFound? then 0 else f.size
  }

  /** Whether an APEv2 tag in the file matters: it does if one is to be stripped or written. */
  predicate ApeCounts(o: Options) {
    o.stripApev2 || o.writeApev2
  }

  /** Where the APEv2 tag starts, or 0. */
  function ApeStart(file: seq<byte>, o: Options): nat {
    var f := Apev2.Find(file);
    if f.NotFound? || !ApeCounts(o) then 0 else f.start
  }

  /** Where the ID3v1 block starts, or 0. */
  function BlockStart(file: seq<byte>): (s: nat)
    ensures s > 0 ==> s + ID3V1_SIZE == |file|
  {
    if FindId3v1(file) == -1 then 0 else FindId3v1(file)
  }

  /** Where the audio ends. */
  function Footer(file: seq<byte>, o: Options): nat {
    var end := if BlockStart(file) > 0 then BlockStart(file) else |file|;
    if ApeStart(file, o) > 0 && ApeStart(file, o) < end then ApeStart(file, o) else end
  }

  lemma FooterInside(file: seq<byte>, o: Options)
    ensures Footer(file, o) <= |file|
  {
  }

  /** The bytes that are copied as audio. */
  function Audio(file: seq<byte>, o: Options): seq<byte> {
    FooterInside(file, o);
    if FrontSize(file) <= Footer(file, o) then file[FrontSize(file)..Footer(file, o)] else []
  }

  // ----- what is written -------------------------------------------------------------------

  datatype Result<T> = Ok(value: T) | Err

  predicate KeepsFront(file: seq<byte>, o: Options) {
    !o.stripId3v2 && !o.writeId3v2 && FrontSize(file) > 0
  }

  function Front(file: seq<byte>, o: Options, t: NewTags): seq<byte>
    requires NewOk(t) && (KeepsFront(file, o) ==> FrontSize(file) <= |file|)
  {
    if KeepsFront(file, o) then file[..FrontSize(file)]
    else if o.writeId3v2 then Id3v2.TagBytes(t.id3v2) else []
  }

  function Ape(o: Options, t: NewTags): seq<byte> {
    if o.writeApev2 then Apev2.TagBytes(t.apev2, false, true) else []
  }

  function Block(file: seq<byte>, o: Options, t: NewTags): seq<byte> {
    if !o.writeId3v1 && !o.stripId3v1 && BlockStart(file) > 0 then file[BlockStart(file)..]
    else if o.writeId3v1 then t.id3v1 else []
  }

  /** The rewritten file; copying a tag in front that claims to be longer than the file fails. */
  function Rewritten(file: seq<byte>, o: Options, t: NewTags): Result<seq<byte>>
    requires NewOk(t)
  {
    if KeepsFront(file, o) && FrontSize(file) > |file| then Err
    else Ok(Front(file, o, t) + Audio(file, o) + Ape(o, t) + Block(file, o, t))
  }

  /** Said of each part: in front and behind stand the new tag where one is written, nothing where one is only to be
      stripped, and else the old tag; an old APEv2 tag is then part of the audio. */
  ghost predicate Assembled(out: seq<byte>, file: seq<byte>, o: Options, t: NewTags)
    requires NewOk(t)
  {
    exists front, audio, ape, block ::
      && out == front + audio + ape + block
      && (o.writeId3v2 ==> front == Id3v2.TagBytes(t.id3v2))
      && (o.stripId3v2 && !o.writeId3v2 ==> front == [])
      && (!o.stripId3v2 && !o.writeId3v2 ==> FrontSize(file) <= |file| && front == file[..FrontSize(file)])
      && (FrontSize(file) <= Footer(file, o) <= |file| ==> audio == file[FrontSize(file)..Footer(file, o)])
      && (FrontSize(file) > Footer(file, o) ==> audio == [])
      && (o.writeApev2 ==> ape == Apev2.TagBytes(t.apev2, false, true))
      && (!o.writeApev2 ==> ape == [])
      && (o.writeId3v1 ==> block == t.id3v1)
      && (o.stripId3v1 && !o.writeId3v1 ==> block == [])
      && (!o.stripId3v1 && !o.writeId3v1 ==>
            block == if BlockStart(file) > 0 then file[|file| - 128..] else [])
  }

  lemma RewrittenAssembled(file: seq<byte>, o: Options, t: NewTags)
    requires NewOk(t) && Rewritten(file, o, t).Ok?
    ensures Assembled(Rewritten(file, o, t).value, file, o, t)
  {
    hide NewOk, FrontSize, Footer, BlockStart, Id3v2.TagBytes, Apev2.TagBytes;
    FooterInside(file, o);
    var front, audio, ape, block := Front(file, o, t), Audio(file, o), Ape(o, t), Block(file, o, t);
    assert file[..0] == [];
    assert Rewritten(file, o, t).value == front + audio + ape + block;
  }

  // ----- rewriting again -------------------------------------------------------------------

  /** The audio is there, and where no tag was put down nothing looks like one. */
  ghost predicate Clean(front: seq<byte>, audio: seq<byte>, ape: seq<byte>, block: seq<byte>, o: Options) {
    && audio != []
    && (front == [] ==> Id3v2.Find(audio + ape + block).NotFound?)
    && (block == [] ==> FindId3v1(front + audio + ape) == -1)
    && (ape == [] && o.stripApev2 ==> Apev2.Find(front + audio + block).NotFound?)
    && (ape != [] ==> Apev2.TailOk(block))
  }

  lemma FrontAgain(file: seq<byte>, o: Options, t: NewTags, rest: seq<byte>)
    requires NewOk(t) && (KeepsFront(file, o) ==> FrontSize(file) <= |file|)
    requires Front(file, o, t) == [] ==> Id3v2.Find(rest).NotFound?
    ensures FrontSize(Front(file, o, t) + rest) == |Front(file, o, t)|
  {
    var front := Front(file, o, t);
    if KeepsFront(file, o) {
      hide ByteOrder.FromSync28;
      var next := front + rest;
      assert |front| >= 10 && next[..3] == file[..3] && next[6..10] == file[6..10];
    } else if o.writeId3v2 {
      Id3v2.FindsWritten(t.id3v2, rest);
    } else {
      assert [] + rest == rest;
    }
  }

  lemma BlockIs(file: seq<byte>, o: Options, t: NewTags)
    requires NewOk(t)
    ensures var b := Block(file, o, t); b == [] || (|b| == ID3V1_SIZE && b[..3] == ID3V1)
  {
  }

  lemma BlockAgain(body: seq<byte>, block: seq<byte>)
    requires body != [] && (block == [] || (|block| == ID3V1_SIZE && block[..3] == ID3V1))
    requires block == [] ==> FindId3v1(body) == -1
    ensures BlockStart(body + block) == if block == [] then 0 else |body|
  {
    var file := body + block;
    if block == [] {
      assert file == body;
    } else {
      assert file[|file| - ID3V1_SIZE..|file| - ID3V1_SIZE + 3] == block[..3];
    }
  }

  lemma ApeAgain(body: seq<byte>, block: seq<byte>, o: Options, t: NewTags, o2: Options)
    requires NewOk(t) && (Ape(o, t) != [] ==> Apev2.TailOk(block)) && ApeCounts(o2) == ApeCounts(o)
    requires Ape(o, t) == [] && o.stripApev2 ==> Apev2.Find(body + block).NotFound?
    ensures ApeStart(body + Ape(o, t) + block, o2) == if o.writeApev2 then |body| else 0
    ensures Ape(o, t) != [] <==> o.writeApev2
  {
    hide NewOk, Apev2.TailOk, Apev2.Find, Apev2.TagBytes;
    ApeWritten(t);
    if o.writeApev2 {
      Apev2.FoundAndRead(body, t.apev2, false, block);
    } else {
      assert body + [] + block == body + block;
    }
  }

  lemma ApeWritten(t: NewTags)
    requires NewOk(t)
    ensures Apev2.TagBytes(t.apev2, false, true) != []
    ensures Apev2.ItemsOk(t.apev2) && |t.apev2| < U32 && Apev2.ItemsSize(t.apev2) + 64 < 0x8000_0000
  {
  }

  /** The four parts of a rewritten file. */
  lemma Layout(front: seq<byte>, audio: seq<byte>, ape: seq<byte>, block: seq<byte>)
    ensures var out := front + audio + ape + block;
      && out == front + (audio + ape + block) && out == (front + audio + ape) + block
      && out == (front + audio) + ape + block
      && out[..|front|] == front && out[|front|..|front| + |audio|] == audio && out[|front + audio + ape|..] == block
      && |out| == |front| + |audio| + |ape| + |block|
  {
  }

  /** What the locators find in a rewritten file, for any second options that agree on whether an APEv2
      tag matters. */
  lemma FoundAgain(file: seq<byte>, o: Options, t: NewTags, o2: Options)
    requires NewOk(t) && Rewritten(file, o, t).Ok? && ApeCounts(o2) == ApeCounts(o)
    requires Clean(Front(file, o, t), Audio(file, o), Ape(o, t), Block(file, o, t), o)
    ensures var front, audio, ape, block := Front(file, o, t), Audio(file, o), Ape(o, t), Block(file, o, t);
      var out := front + audio + ape + block;
      && FrontSize(out) == |front|
      && BlockStart(out) == (if block == [] then 0 else |front| + |audio| + |ape|)
      && Footer(out, o2) == |front| + |audio|
  {
    hide *;
    RewrittenIs(file, o, t);
    var front, audio, ape, block := Front(file, o, t), Audio(file, o), Ape(o, t), Block(file, o, t);
    BlockIs(file, o, t);
    ApeIs(o, t);
    CleanParts(front, audio, ape, block, o);
    Layout(front, audio, ape, block);
    FrontAgain(file, o, t, audio + ape + block);
    BlockAgain(front + audio + ape, block);
    ApeAgain(front + audio, block, o, t, o2);
    FooterIs(front + audio + ape + block, o2);
  }

  lemma ApeIs(o: Options, t: NewTags)
    requires NewOk(t)
    ensures Ape(o, t) == [] <==> !o.writeApev2
  {
    ApeWritten(t);
  }

  lemma CleanParts(front: seq<byte>, audio: seq<byte>, ape: seq<byte>, block: seq<byte>, o: Options)
    requires Clean(front, audio, ape, block, o)
    ensures audio != [] && (front == [] ==> Id3v2.Find(audio + ape + block).NotFound?)
    ensures block == [] ==> FindId3v1(front + audio + ape) == -1
    ensures ape == [] && o.stripApev2 ==> Apev2.Find(front + audio + block).NotFound?
    ensures ape != [] ==> Apev2.TailOk(block)
  {
    hide Apev2.Find, Id3v2.Find, FindId3v1, Apev2.TailOk;
  }

  lemma FooterIs(file: seq<byte>, o: Options)
    ensures var end, ape := if BlockStart(file) > 0 then BlockStart(file) else |file|, ApeStart(file, o);
      Footer(file, o) == if ape > 0 && ape < end then ape else end
  {
    hide BlockStart, ApeStart;
  }

  /** Rewriting never eats or grows the audio: the audio found in the rewritten file is the audio that
      was copied. */
  lemma AudioKept(file: seq<byte>, o: Options, t: NewTags, o2: Options)
    requires NewOk(t) && Rewritten(file, o, t).Ok? && ApeCounts(o2) == ApeCounts(o)
    requires Clean(Front(file, o, t), Audio(file, o), Ape(o, t), Block(file, o, t), o)
    ensures Audio(Rewritten(file, o, t).value, o2) == Audio(file, o)
  {
    hide *;
    RewrittenIs(file, o, t);
    var front, audio, ape, block := Front(file, o, t), Audio(file, o), Ape(o, t), Block(file, o, t);
    FoundAgain(file, o, t, o2);
    Layout(front, audio, ape, block);
    AudioIs(front + audio + ape + block, o2);
  }

  lemma RewrittenIs(file: seq<byte>, o: Options, t: NewTags)
    requires NewOk(t) && Rewritten(file, o, t).Ok?
    ensures KeepsFront(file, o) ==> FrontSize(file) <= |file|
    ensures Rewritten(file, o, t).value == Front(file, o, t) + Audio(file, o) + Ape(o, t) + Block(file, o, t)
  {
    hide NewOk, Front, Audio, Ape, Block, FrontSize, KeepsFront;
  }

  lemma AudioIs(file: seq<byte>, o: Options)
    requires FrontSize(file) <= Footer(file, o)
    ensures Footer(file, o) <= |file| && Audio(file, o) == file[FrontSize(file)..Footer(file, o)]
  {
    hide FrontSize, Footer;
    FooterInside(file, o);
  }

  lemma FooterWithout(file: seq<byte>, o: Options)
    requires !ApeCounts(o)
    ensures Footer(file, o) == if BlockStart(file) > 0 then BlockStart(file) else |file|
  {
    hide BlockStart, Apev2.Find;
  }

  /** After an APEv2 tag was written: exactly the options that strip or write one find the same audio. To
      all others the tag is part of the audio. */
  lemma AudioFound(file: seq<byte>, o: Options, t: NewTags, o2: Options)
    requires NewOk(t) && Rewritten(file, o, t).Ok? && o.writeApev2
    requires Clean(Front(file, o, t), Audio(file, o), Ape(o, t), Block(file, o, t), o)
    ensures Audio(Rewritten(file, o, t).value, o2) == Audio(file, o) + (if ApeCounts(o2) then [] else Ape(o, t))
    ensures Audio(Rewritten(file, o, t).value, o2) == Audio(file, o) <==> ApeCounts(o2)
  {
    hide NewOk, Front, Audio, Ape, Block, FrontSize, Clean;
    ApeThere(o, t);
    if ApeCounts(o2) {
      AudioKept(file, o, t, o2);
      assert Audio(file, o) + [] == Audio(file, o);
    } else {
      TagIsAudio(file, o, t, o2);
    }
  }

  /** One byte of audio, rewritten with an empty APEv2 tag: without the options that look for one, the tag is
      found as 32 bytes of audio. */
  lemma TagTakenForAudio(t: NewTags)
    requires NewOk(t) && t.apev2 == []
    ensures var o, none := Options(false, false, false, false, false, true),
      Options(false, false, false, false, false, false);
      && Audio([1], o) == [1] && Rewritten([1], o, t).Ok?
      && |Audio(Rewritten([1], o, t).value, none)| == 33
  {
    var o, none := Options(false, false, false, false, false, true), Options(false, false, false, false, false, false);
    ShortFile(o, t);
    ShortRewritten(o, t);
    hide Front, Audio, Ape, Block, Clean, NewOk, Rewritten;
    AudioFound([1], o, t, none);
  }

  lemma ShortFile(o: Options, t: NewTags)
    requires NewOk(t) && o == Options(false, false, false, false, false, true)
    ensures Audio([1], o) == [1] && Front([1], o, t) == [] && Block([1], o, t) == []
    ensures Rewritten([1], o, t).Ok?
  {
    hide NewOk;
    assert Apev2.Find([1]).NotFound? by {
      hide Apev2.FooterAt;
    }
    assert Id3v2.Find([1]).NotFound?;
    hide Apev2.Find, Id3v2.Find;
  }

  lemma ShortRewritten(o: Options, t: NewTags)
    requires NewOk(t) && t.apev2 == [] && o.writeApev2 && !ApeCounts(Options(false, false, false, false, false, false))
    ensures |Ape(o, t)| == 32 && Clean([], [1], Ape(o, t), [], o)
  {
    hide NewOk, Apev2.TagBytes;
    var ape := Ape(o, t);
    var file := [1] + ape + [];
    assert |file| == 33 && file[0] == 1 && file[..3][0] == 1;
    assert Id3v2.Find(file).NotFound?;
    assert [] + [1] + ape == [1] + ape;
  }

  lemma ApeThere(o: Options, t: NewTags)
    requires NewOk(t) && o.writeApev2
    ensures Ape(o, t) != [] && ApeCounts(o)
  {
    ApeWritten(t);
  }

  lemma TagIsAudio(file: seq<byte>, o: Options, t: NewTags, o2: Options)
    requires NewOk(t) && Rewritten(file, o, t).Ok? && o.writeApev2 && !ApeCounts(o2)
    requires Clean(Front(file, o, t), Audio(file, o), Ape(o, t), Block(file, o, t), o)
    ensures Audio(Rewritten(file, o, t).value, o2) == Audio(file, o) + Ape(o, t)
  {
    hide *;
    RewrittenIs(file, o, t);
    var front, audio, ape, block := Front(file, o, t), Audio(file, o), Ape(o, t), Block(file, o, t);
    FoundAgain(file, o, t, o);
    TagInside(front, audio, ape, block);
    CleanParts(front, audio, ape, block, o);
    FooterWithout(front + audio + ape + block, o2);
    AudioIs(front + audio + ape + block, o2);
  }

  lemma TagInside(front: seq<byte>, audio: seq<byte>, ape: seq<byte>, block: seq<byte>)
    ensures var out := front + audio + ape + block;
      && |out| == |front| + |audio| + |ape| + |block|
      && out[|front|..|front| + |audio| + |ape|] == audio + ape
  {
  }

  /** Rewriting a second time with the same options and tags changes nothing. */
  lemma RewriteTwice(file: seq<byte>, o: Options, t: NewTags)
    requires NewOk(t) && Rewritten(file, o, t).Ok?
    requires Clean(Front(file, o, t), Audio(file, o), Ape(o, t), Block(file, o, t), o)
    ensures Rewritten(Rewritten(file, o, t).value, o, t) == Rewritten(file, o, t)
  {
    var front, audio, ape, block := Front(file, o, t), Audio(file, o), Ape(o, t), Block(file, o, t);
    var out := front + audio + ape + block;
    AudioKept(file, o, t, o);
    FoundAgain(file, o, t, o);
    Layout(front, audio, ape, block);
    SameFront(file, o, t, out);
    SameBlock(file, o, t, out);
  }

  lemma SameFront(file: seq<byte>, o: Options, t: NewTags, out: seq<byte>)
    requires NewOk(t) && (KeepsFront(file, o) ==> FrontSize(file) <= |file|)
    requires FrontSize(out) == |Front(file, o, t)| <= |out| && out[..FrontSize(out)] == Front(file, o, t)
    ensures KeepsFront(out, o) ==> FrontSize(out) <= |out|
    ensures Front(out, o, t) == Front(file, o, t)
  {
    hide FrontSize, NewOk;
  }

  lemma SameBlock(file: seq<byte>, o: Options, t: NewTags, out: seq<byte>)
    requires NewOk(t) && |Block(file, o, t)| <= |out|
    requires BlockStart(out) == if Block(file, o, t) == [] then 0 else |out| - |Block(file, o, t)|
    requires |Block(file, o, t)| < |out| && out[|out| - |Block(file, o, t)|..] == Block(file, o, t)
    ensures Block(out, o, t) == Block(file, o, t)
  {
    hide BlockStart, NewOk;
  }
}
