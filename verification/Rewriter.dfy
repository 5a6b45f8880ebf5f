/** junk_rewrite_tags: locate, then write the new file from front to back. */
module Rewriter {
  import opened PlayItems
  import opened ByteOrder
  import opened Files
  import opened RewriteSpec
  import Id3v2
  import Id3v2Io
  import Apev2
  import Apev2Io

  const CHUNK := 8192

  /** junk_id3v1_find2 */
  method FindBlock(file: seq<byte>) returns (start: int)
    ensures start == FindId3v1(file)
  {
    if |file| < ID3V1_SIZE {
      return -1;
    }
    var buffer := file[|file| - ID3V1_SIZE..|file| - ID3V1_SIZE + 3];
    if buffer != ID3V1 {
      return -1;
    }
    return |file| - ID3V1_SIZE;
  }

  /** The beginning and the end of the audio, and where the block after it starts, 0 for none. */
  method Locate(file: seq<byte>, o: Options) returns (id3v2Size: nat, footer: nat, id3v1Start: nat)
    ensures id3v2Size == FrontSize(file) && footer == Footer(file, o) && id3v1Start == BlockStart(file)
  {
    hide Apev2.Find, Id3v2.Find;
    id3v2Size := 0;
    var front := Id3v2Io.FindTag(file);
    if front.Found? {
      id3v2Size := front.size;
    }
    var apev2Start := 0;
    var ape := Apev2Io.FindTag(file);
    if ape.Found? {
      apev2Start := ape.start;
    }
    if !o.stripApev2 && !o.writeApev2 {
      apev2Start := 0;
    }
    var block := FindBlock(file);
    id3v1Start := if block == -1 then 0 else block;
    footer := |file|;
    if id3v1Start > 0 {
      footer := id3v1Start;
    }
    if apev2Start > 0 && apev2Start < footer {
      footer := apev2Start;
    }
  }

  /** Copies the bytes from `header` to `footer`, a chunk at a time. */
  method CopyAudio(out: OutFile, file: seq<byte>, header: nat, footer: nat)
    requires footer <= |file|
    modifies out
    ensures out.data == old(out.data) + if header <= footer then file[header..footer] else []
  {
    var p, writesize := header, footer - header;
    while writesize > 0
      invariant header <= footer ==> p + writesize == footer && header <= p && writesize >= 0
      invariant header > footer ==> writesize <= 0
      invariant out.data == old(out.data) + if header <= footer then file[header..p] else []
    {
      var rb := if writesize < CHUNK then writesize else CHUNK;
      Chunk(file, header, p, rb);
      Assoc(old(out.data), file[header..p], file[p..p + rb]);
      out.Write(file[p..p + rb]);
      p := p + rb;
      writesize := writesize - rb;
    }
  }

  lemma Chunk(file: seq<byte>, header: nat, p: nat, n: nat)
    requires header <= p && p + n <= |file|
    ensures file[header..p] + file[p..p + n] == file[header..p + n]
  {
  }

  method RewriteTags(file: seq<byte>, o: Options, t: NewTags) returns (r: Result<seq<byte>>)
    requires NewOk(t)
    ensures r == Rewritten(file, o, t)
    ensures r.Err? <==> !o.stripId3v2 && !o.writeId3v2 && FrontSize(file) > |file|
    ensures r.Ok? ==> Assembled(r.value, file, o, t)
  {
    hide Assembled, FrontSize, BlockStart, Footer, Id3v2.BodySize, Id3v2.TagBytes, Apev2.TagBytes;
    var id3v2Size, footer, id3v1Start := Locate(file, o);
    FooterInside(file, o);
    var out := new OutFile();
    if !o.stripId3v2 && !o.writeId3v2 && id3v2Size > 0 {
      if id3v2Size > |file| {
        return Err;
      }
      out.Write(file[..id3v2Size]);
    } else if o.writeId3v2 {
      var ok := Id3v2Io.WriteTag(out, t.id3v2);
    }
    assert out.data == Front(file, o, t);
    CopyAudio(out, file, id3v2Size, footer);
    assert out.data == Front(file, o, t) + Audio(file, o);
    ghost var body := out.data;
    WriteBack(out, file, o, t, id3v1Start);
    Assoc(body, Ape(o, t), Block(file, o, t));
    RewrittenAssembled(file, o, t);
    return Ok(out.data);
  }

  /** The tags behind the audio. */
  method WriteBack(out: OutFile, file: seq<byte>, o: Options, t: NewTags, id3v1Start: nat)
    requires NewOk(t) && id3v1Start == BlockStart(file)
    modifies out
    ensures out.data == old(out.data) + (Ape(o, t) + Block(file, o, t))
  {
    hide BlockStart, Apev2.TagBytes;
    if o.writeApev2 {
      Apev2Io.WriteTag(out, t.apev2, false, true);
    }
    assert out.data == old(out.data) + Ape(o, t);
    if !o.writeId3v1 && !o.stripId3v1 && id3v1Start != 0 {
      out.Write(file[id3v1Start..]);
    } else if o.writeId3v1 {
      out.Write(t.id3v1);
    }
  }
}
