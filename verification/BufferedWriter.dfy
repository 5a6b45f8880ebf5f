/** src/buffered_file_writer.c: a buffer in front of a file, or one that grows in memory. */
module BufferedWriter {
  import opened PlayItems

  /** A file that takes bytes until the disk is full. */
  class Disk {
    var data: seq<byte>
    var room: nat

    constructor (room: nat)
      ensures data == [] && this.room == room
    {
      data, this.room := [], room;
    }

    /** fwrite: writes what fits and says how much that was. */
    method FWrite(b: seq<byte>) returns (n: nat)
      modifies this
      ensures n <= |b| && data == old(data) + b[..n] && room == old(room) - n
      ensures n == |b| <==> |b| <= old(room)
    {
      n := if |b| <= room then |b| else room;
      data, room := data + b[..n], room - n;
    }
  }

  class Writer {
    const fp: Disk?
    var buffer: array<byte>
    var size: nat
    var written: nat

    ghost predicate Valid()
      reads this
    {
      buffer.Length == size && written <= size
    }

    /** Everything written: what is in the file, then what is in the buffer. */
    ghost function Total(): seq<byte>
      requires Valid()
      reads this, buffer, fp
    {
      (if fp == null then [] else fp.data) + buffer[..written]
    }

    /** The objects a call may change. */
    ghost function Repr(): set<object?>
      reads this
    {
      {this, buffer, fp}
    }

    constructor (fp: Disk?, bufferSize: nat)
      ensures Valid() && this.fp == fp && size == bufferSize && written == 0 && fresh(buffer)
    {
      this.fp := fp;
      size, written := bufferSize, 0;
      buffer := new byte[bufferSize](_ => 0);
    }

    /** buffered_file_writer_flush */
    method Flush() returns (res: int)
      requires Valid()
      modifies this`written, fp
      ensures Valid() && (res == 0 || res == -1)
      ensures res == 0 ==> Total() == old(Total()) && (fp != null ==> written == 0)
      ensures res == -1 ==> fp != null && written == old(written) && fp.data <= old(Total())
    {
      if written == 0 || fp == null {
        return 0;
      }
      var bytes := buffer[..written];
      var n := fp.FWrite(bytes);
      if n != written {
        return -1;
      }
      written := 0;
      return 0;
    }

    /** Doubles the buffer once, as realloc does. */
    method Double()
      requires Valid()
      modifies this`buffer, this`size
      ensures Valid() && size == 2 * old(size) && buffer[..written] == old(buffer[..written]) && fresh(buffer)
    {
      var wider := new byte[2 * size](_ => 0);
      forall i | 0 <= i < written {
        wider[i] := buffer[i];
      }
      buffer, size := wider, 2 * size;
    }

    /** memcpy behind what is buffered. */
    method Append(bytes: seq<byte>)
      requires Valid() && written + |bytes| <= size
      modifies this`written, buffer
      ensures Valid() && written == old(written) + |bytes| && buffer[..written] == old(buffer[..written]) + bytes
    {
      forall i | 0 <= i < |bytes| {
        buffer[written + i] := bytes[i];
      }
      written := written + |bytes|;
    }

    /** buffered_file_writer_write. In memory the buffer is doubled at most once, so the chunk must fit
        then. */
    method Write(bytes: seq<byte>) returns (res: int)
      requires Valid() && (fp == null ==> written + |bytes| <= Room(size, written, |bytes|))
      modifies Repr()
      ensures Valid() && (res == 0 || res == -1) && (fp == null ==> res == 0)
      ensures res == 0 ==> Total() == old(Total()) + bytes
      ensures res == -1 ==> fp.data <= old(Total()) + bytes
      ensures size >= old(size) && fresh(Repr() - old(Repr()))
      ensures fp == null ==> size == Room(old(size), old(written), |bytes|) && written == old(written) + |bytes|
    {
      if fp != null {
        if |bytes| > size - written {
          res := Flush();
          if res < 0 {
            return -1;
          }
        }
        if |bytes| >= size {
          var n := fp.FWrite(bytes);
          if n != |bytes| {
            return -1;
          }
          return 0;
        }
      } else {
        if |bytes| > size - written {
          Double();
        }
      }
      Append(bytes);
      return 0;
    }

    /** Any sequence of writes, up to the first that fails. */
    method WriteAll(chunks: seq<seq<byte>>) returns (done: nat)
      requires Valid() && (fp == null ==> AllFit(size, written, chunks))
      modifies Repr()
      ensures Valid() && done <= |chunks| && (fp == null ==> done == |chunks|)
      ensures done == |chunks| ==> Total() == old(Total()) + Joined(chunks)
      ensures done < |chunks| ==> fp.data <= old(Total()) + Joined(chunks[..done + 1])
    {
      done := 0;
      ghost var before := Total();
      assert before + Joined(chunks[..0]) == before;
      while done < |chunks|
        invariant done <= |chunks| && Valid() && size >= old(size) && fresh(Repr() - old(Repr()))
        invariant Total() == before + Joined(chunks[..done])
        invariant fp == null ==> AllFit(size, written, chunks[done..])
      {
        hide Writer.Total;
        JoinedMore(before, chunks, done);
        assert chunks[done..][0] == chunks[done] && chunks[done..][1..] == chunks[done + 1..];
        var res := Write(chunks[done]);
        if res < 0 {
          return;
        }
        done := done + 1;
      }
      assert chunks[..done] == chunks;
    }
  }

  /** The chunks one after the other. */
  function Joined(chunks: seq<seq<byte>>): seq<byte> {
    if chunks == [] then [] else Joined(chunks[..|chunks| - 1]) + chunks[|chunks| - 1]
  }

  lemma JoinedMore(before: seq<byte>, chunks: seq<seq<byte>>, k: nat)
    requires k < |chunks|
    ensures before + Joined(chunks[..k + 1]) == before + Joined(chunks[..k]) + chunks[k]
  {
    assert chunks[..k + 1][..k] == chunks[..k];
  }

  /** The size of the buffer once it was made larger for a chunk. */
  function Room(size: nat, written: nat, chunk: nat): nat
    requires written <= size
  {
    if chunk > size - written then 2 * size else size
  }

  /** In memory each of the chunks finds room behind the ones before it. */
  predicate AllFit(size: nat, written: nat, chunks: seq<seq<byte>>)
    requires written <= size
    decreases |chunks|
  {
    chunks == [] ||
    var room := Room(size, written, |chunks[0]|);
    written + |chunks[0]| <= room && AllFit(room, written + |chunks[0]|, chunks[1..])
  }

  /** One doubling makes room for a chunk, however full the buffer is, if and only if the chunk is no
      larger than the buffer. */
  lemma OneDoublingSuffices(size: nat, chunk: nat)
    ensures chunk <= size <==>
      forall written: nat :: written <= size ==> written + chunk <= Room(size, written, chunk)
  {
    if chunk > size {
      assert size + chunk > Room(size, size, chunk);
    }
  }

  lemma {:induction false} SmallFit(size: nat, written: nat, chunks: seq<seq<byte>>)
    requires written <= size && forall c :: c in chunks ==> |c| <= size
    ensures AllFit(size, written, chunks)
    decreases |chunks|
  {
    if chunks != [] {
      assert chunks[0] in chunks && forall c :: c in chunks[1..] ==> c in chunks;
      SmallFit(Room(size, written, |chunks[0]|), written + |chunks[0]|, chunks[1..]);
    }
  }

  lemma OneChunk(size: nat, chunk: seq<byte>)
    requires |chunk| > size
    ensures !AllFit(size, size, [chunk])
  {
    assert [chunk][0] == chunk;
  }

  /** Every sequence of chunks of at most n bytes fits, from any fill level on, if and only if n is no
      larger than the buffer at the start. */
  lemma AlwaysFits(size: nat, n: nat)
    ensures n <= size <==>
      forall written: nat, chunks: seq<seq<byte>> ::
        written <= size && (forall c :: c in chunks ==> |c| <= n) ==> AllFit(size, written, chunks)
  {
    if n <= size {
      forall written: nat, chunks: seq<seq<byte>> | written <= size && forall c :: c in chunks ==> |c| <= n
        ensures AllFit(size, written, chunks)
      {
        SmallFit(size, written, chunks);
      }
    } else {
      var wide: seq<byte> := seq(n, _ => 0);
      OneChunk(size, wide);
      assert forall c :: c in [wide] ==> |c| <= n;
    }
  }

  /** A full buffer of four bytes and a chunk of five: the code writes past the doubled buffer. */
  lemma ChunkTooLarge(chunk: seq<byte>)
    requires |chunk| == 5
    ensures 4 + |chunk| > Room(4, 4, |chunk|) && !AllFit(4, 4, [chunk])
  {
    OneChunk(4, chunk);
  }
}
