/** src/decodedblock.c: decoded blocks, recycled round a linked list. */
module DecodedBlocks {
  import opened RingSpec

  class Block {
    var isSilentHeader: int
    var last: int
    var first: int
    var remainingBytes: int
    var totalBytes: int
    var queued: bool
    var playbackTime: real
    var next: Block?

    ghost predicate Blank()
      reads `isSilentHeader, `last, `first, `remainingBytes, `totalBytes, `queued, `playbackTime
    {
      isSilentHeader == last == first == remainingBytes == totalBytes == 0 && !queued && playbackTime == 0.0
    }

    /** calloc. */
    constructor ()
      ensures Blank()
    {
      isSilentHeader, last, first, remainingBytes, totalBytes := 0, 0, 0, 0, 0;
      queued, playbackTime, next := false, 0.0, null;
    }

    /** decoded_blocks_release. */
    method Release()
      modifies `isSilentHeader, `last, `first, `remainingBytes, `totalBytes, `queued, `playbackTime
      ensures Blank()
    {
      isSilentHeader := 0;
      last := 0;
      first := 0;
      remainingBytes := 0;
      totalBytes := 0;
      queued := false;
      playbackTime := 0.0;
    }
  }

  ghost function At(s: seq<Block>, i: nat): Block? {
    if i < |s| then s[i] else null
  }

  ghost function TotalTime(s: seq<Block>): real
    reads s
  {
    if s == [] then 0.0 else TotalTime(s[..|s| - 1]) + s[|s| - 1].playbackTime
  }

  /** The blocks of the list at the queued positions, oldest first. */
  ghost function Run(list: seq<Block>, r: Ring): (q: seq<Block>)
    requires Good(r) && r.size == |list|
    ensures |q| == r.len && forall k :: 0 <= k < r.len ==> q[k] == list[Place(r, k)]
  {
    seq(r.len, k requires 0 <= k < r.len => list[Place(r, k)])
  }

  lemma RunNext(list: seq<Block>, r: Ring)
    requires Good(r) && r.size == |list|
    ensures Run(list, Step(r, Next)) == if r.len > 0 then Run(list, r)[1..] else []
  {
    if r.len > 0 {
      forall k: nat | k < r.len - 1 ensures Run(list, Step(r, Next))[k] == Run(list, r)[1..][k] {
        PlaceShift(r, k);
      }
    }
  }

  lemma RunAppend(list: seq<Block>, r: Ring)
    requires Good(r) && r.size == |list| && r.len < r.size
    requires forall i, j :: 0 <= i < j < |list| ==> list[i] != list[j]
    ensures Run(list, Step(r, Append)) == Run(list, r) + [list[Place(r, r.len)]]
    ensures list[Place(r, r.len)] !in Run(list, r)
  {
    forall k: nat | k < r.len ensures list[Place(r, k)] != list[Place(r, r.len)] {
      PlacesDiffer(r, k, r.len);
    }
  }

  ghost predicate Linked(head: Block?, list: seq<Block>)
    reads list`next
  {
    && head == At(list, 0) && (forall i: nat :: i < |list| ==> list[i].next == At(list, i + 1))
    && forall i, j :: 0 <= i < j < |list| ==> list[i] != list[j]
  }

  /** The block after position k of the ring, round the end of the list. */
  lemma Around(head: Block?, list: seq<Block>, r: Ring, k: nat)
    requires Linked(head, list) && Good(r) && r.size == |list| && k < r.size
    ensures (var next := list[Place(r, k)].next; if next == null then head else next) == list[Place(r, k + 1)]
  {
  }

  /** Queued blocks from `first` on, blank blocks elsewhere. */
  ghost predicate Marked(list: seq<Block>, r: Ring)
    requires Good(r) && r.size == |list|
    reads list
  {
    && (forall k: nat :: k < r.len ==> list[Place(r, k)].queued)
    && (forall k: nat :: r.len <= k < r.size ==> list[Place(r, k)].Blank())
  }

  /** Releasing the oldest block leaves the marks right for the run without it. */
  lemma MarkedNext(list: seq<Block>, r: Ring)
    requires Good(r) && r.size == |list| && r.len > 0 && list[r.first].Blank()
    requires forall k: nat :: 1 <= k < r.len ==> list[Place(r, k)].queued
    requires forall k: nat :: r.len <= k < r.size ==> list[Place(r, k)].Blank()
    ensures Marked(list, Step(r, Next)) && Step(r, Next).len == r.len - 1 && Step(r, Next).first == Place(r, 1)
    ensures Place(Step(r, Next), r.len - 1) == Place(r, r.len)
  {
    forall k: nat | k < r.size ensures Place(Step(r, Next), k) == if k + 1 < r.size then Place(r, k + 1) else r.first {
      PlaceShift(r, k);
    }
  }

  /** So does marking the free block, for the run with it. */
  lemma MarkedAppend(list: seq<Block>, r: Ring)
    requires Good(r) && r.size == |list| && r.len < r.size && list[Place(r, r.len)].queued
    requires forall k: nat :: k < r.len ==> list[Place(r, k)].queued
    requires forall k: nat :: r.len < k < r.size ==> list[Place(r, k)].Blank()
    ensures Marked(list, Step(r, Append)) && Step(r, Append).len == r.len + 1 && Step(r, Append).first == r.first
    ensures Place(Step(r, Append), r.len + 1) == Place(r, r.len + 1)
  {
    assert forall k: nat :: k < r.size ==> Place(Step(r, Append), k) == Place(r, k);
  }

  lemma Others(head: Block?, list: seq<Block>, r: Ring, i: nat)
    requires Linked(head, list) && Good(r) && r.size == |list| && i < r.size
    ensures forall k: nat :: k < r.size && k != i ==> list[Place(r, k)] != list[Place(r, i)]
    ensures Place(r, 0) == r.first && list[Place(r, i)] in list
  {
    forall k: nat | k < r.size && k != i ensures list[Place(r, k)] != list[Place(r, i)] {
      if k < i {
        PlacesDiffer(r, k, i);
      } else {
        PlacesDiffer(r, i, k);
      }
    }
  }

  lemma Flag(list: seq<Block>, r: Ring)
    requires Good(r) && r.size == |list| && Marked(list, r)
    ensures list[r.first].queued <==> r.len > 0
    ensures list[Place(r, r.len)].queued <==> r.len == r.size
  {
    assert Place(r, 0) == r.first;
    if r.len > 0 {
      assert list[Place(r, 0)].queued;
    } else {
      assert list[Place(r, 0)].Blank();
    }
    if r.len < r.size {
      assert list[Place(r, r.len)].Blank();
    } else {
      assert Place(r, r.len) == r.first;
    }
  }

  lemma MarkedBlank(list: seq<Block>)
    requires |list| > 0 && forall i :: 0 <= i < |list| ==> list[i].Blank()
    ensures Good(Ring(|list|, 0, 0)) && Marked(list, Ring(|list|, 0, 0)) && Place(Ring(|list|, 0, 0), 0) == 0
    ensures Run(list, Ring(|list|, 0, 0)) == []
  {
  }

  lemma LinkedCons(b: Block, list: seq<Block>)
    requires Linked(b.next, list) && b !in list
    ensures Linked(b, [b] + list)
  {
    forall i: nat | i < |list| + 1 ensures ([b] + list)[i].next == At([b] + list, i + 1) {
      assert i > 0 ==> ([b] + list)[i] == list[i - 1];
    }
  }

  lemma LinkedEnds(head: Block?, list: seq<Block>, i: nat)
    requires Linked(head, list) && i <= |list|
    ensures At(list, i) == null <==> i == |list|
    ensures i < |list| ==> At(list, i) == list[i] && list[i].next == At(list, i + 1) && list[i] in list
    ensures i < |list| ==> forall j :: 0 <= j < |list| && j != i ==> list[j] != list[i]
    ensures head == At(list, 0)
  {
  }

  lemma TimeMore(list: seq<Block>, r: Ring, k: nat)
    requires Good(r) && r.size == |list| && k < r.len
    ensures TotalTime(Run(list, r)[..k + 1]) == TotalTime(Run(list, r)[..k]) + list[Place(r, k)].playbackTime
  {
    assert Run(list, r)[..k + 1][..k] == Run(list, r)[..k];
  }

  /** Walking the ring: position k is queued exactly before the end of the run, and the walk is back
      at the start only after all positions. */
  lemma WalkAt(head: Block?, list: seq<Block>, r: Ring, k: nat)
    requires Linked(head, list) && Good(r) && r.size == |list| && Marked(list, r) && 0 < r.len && k <= r.len
    ensures list[Place(r, k)].queued && !(k > 0 && list[Place(r, k)] == list[r.first]) <==> k < r.len
    ensures list[Place(r, k)] == list[r.first] <==> k == 0 || k == r.size
    ensures k < r.size ==>
      (if list[Place(r, k)].next == null then head else list[Place(r, k)].next) == list[Place(r, k + 1)]
  {
    assert Place(r, 0) == r.first;
    if k < r.size {
      Around(head, list, r, k);
      if k > 0 {
        PlacesDiffer(r, 0, k);
      }
      if k == r.len {
        assert list[Place(r, k)].Blank();
      }
    }
  }

  class Blocks {
    /** _decoded_blocks, _decoded_blocks_queued, _decoded_blocks_free. */
    var head: Block?
    var queued: Block?
    var free: Block?
    /** The list spelled out, and which positions are queued. */
    ghost var list: seq<Block>
    ghost var ring: Ring

    /** The queued blocks form one run from the queue pointer round to the free pointer; every other
        block is blank. */
    ghost predicate Valid()
      reads this, list
    {
      && Linked(head, list) && Good(ring) && ring.size == |list|
      && queued == (if ring.len > 0 then list[ring.first] else null)
      && free == list[Place(ring, ring.len)]
      && Marked(list, ring)
    }

    /** The queued blocks, oldest first. */
    ghost function Queue(): (q: seq<Block>)
      reads this, list
      requires Valid()
    {
      Run(list, ring)
    }

    /** decoded_blocks_init, with the number of blocks as a parameter. */
    constructor (count: nat)
      requires count > 0
      ensures Valid() && ring == Ring(count, 0, 0) && fresh(list)
    {
      head, queued, free, list, ring := null, null, null, [], Ring(count, 0, 0);
      new;
      var i := 0;
      while i < count
        invariant i <= count && i == |list| && Linked(head, list)
        invariant ring == Ring(count, 0, 0) && queued == null
        invariant forall j :: 0 <= j < |list| ==> fresh(list[j]) && list[j].Blank()
      {
        hide Linked, Block.Blank;
        Grow();
        i := i + 1;
      }
      hide *;
      free := head;
      MarkedBlank(list);
      LinkedEnds(head, list, 0);
      Whole(this);
    }

    /** One round of decoded_blocks_init. */
    method Grow()
      requires Linked(head, list)
      modifies this`head, this`list
      ensures Linked(head, list) && |list| == |old(list)| + 1 && fresh(list[0]) && list[0].Blank()
      ensures forall j :: 1 <= j < |list| ==> list[j] == old(list)[j - 1]
    {
      hide Linked, Block.Blank;
      var b := new Block();
      b.next := head;
      head := b;
      LinkedCons(b, list);
      list := [b] + list;
    }

    /** decoded_blocks_reset. */
    method Reset()
      requires Valid()
      modifies this, list
      ensures Valid() && list == old(list) && ring == Step(old(ring), RingSpec.Reset)
    {
      hide *;
      Parts(this);
      StepReset(ring);
      var b := head;
      ghost var i := 0;
      LinkedEnds(head, list, i);
      while b != null
        invariant i <= |list| && b == At(list, i) && Linked(head, list) && unchanged(this)
        invariant forall j :: 0 <= j < i ==> list[j].Blank()
        decreases |list| - i
      {
        LinkedEnds(head, list, i);
        b.Release();
        b := b.next;
        i := i + 1;
        LinkedEnds(head, list, i);
      }
      LinkedEnds(head, list, i);
      free := head;
      queued := null;
      ring := Ring(ring.size, 0, 0);
      MarkedBlank(list);
      LinkedEnds(head, list, 0);
      Whole(this);
    }

    /** decoded_blocks_current. */
    method Current() returns (b: Block?)
      requires Valid()
      ensures b == if |Queue()| > 0 then Queue()[0] else null
    {
      b := queued;
    }

    /** decoded_blocks_next. */
    method Next()
      requires Valid()
      modifies this, list
      ensures Valid() && list == old(list) && ring == Step(old(ring), RingSpec.Next)
      ensures Queue() == if |old(Queue())| > 0 then old(Queue())[1..] else []
    {
      hide *;
      Parts(this);
      RunNext(list, ring);
      if queued != null {
        ReleaseOldest();
      }
      if queued != null && !queued.queued {
        queued := null;
      }
      ring := Step(ring, RingSpec.Next);
      Whole(this);
    }

    method ReleaseOldest()
      requires Linked(head, list) && Good(ring) && ring.size == |list| && ring.len > 0 && Marked(list, ring)
      requires queued == list[ring.first]
      modifies this`queued, list`isSilentHeader, list`last, list`first, list`remainingBytes, list`totalBytes
      modifies list`queued, list`playbackTime
      ensures Marked(list, Step(ring, RingSpec.Next)) && queued == list[Step(ring, RingSpec.Next).first]
      ensures Linked(head, list) && (queued.queued <==> ring.len > 1)
      ensures Step(ring, RingSpec.Next).len == ring.len - 1
      ensures Place(Step(ring, RingSpec.Next), ring.len - 1) == Place(ring, ring.len)
    {
      hide Linked, Place, Step, Block.Blank;
      Others(head, list, ring, 0);
      Around(head, list, ring, 0);
      queued.Release();
      queued := queued.next;
      if queued == null {
        queued := head;
      }
      MarkedNext(list, ring);
      Flag(list, Step(ring, RingSpec.Next));
    }

    /** decoded_blocks_append: a blank block joins the queue, unless all are queued. */
    method Append() returns (b: Block?)
      requires Valid()
      modifies this, list
      ensures Valid() && list == old(list) && ring == Step(old(ring), RingSpec.Append)
      ensures b == null <==> |old(Queue())| == |list|
      ensures b == null ==> Queue() == old(Queue())
      ensures b != null ==> Queue() == old(Queue()) + [b] && b !in old(Queue())
      ensures b != null ==> b == old(free) && old(free.Blank())
    {
      hide *;
      Parts(this);
      if free.queued {
        return null;
      }
      RunAppend(list, ring);
      PlaceZero(ring);
      if queued == null {
        queued := free;
      }
      b := free;
      MarkFree();
      ring := Step(ring, RingSpec.Append);
      Whole(this);
    }

    method MarkFree()
      requires Linked(head, list) && Good(ring) && ring.size == |list| && ring.len < ring.size && Marked(list, ring)
      requires free == list[Place(ring, ring.len)]
      modifies this`free, list`queued
      ensures Marked(list, Step(ring, RingSpec.Append)) && free == list[Place(ring, ring.len + 1)]
      ensures Step(ring, RingSpec.Append).len == ring.len + 1 && Step(ring, RingSpec.Append).first == ring.first
      ensures Place(Step(ring, RingSpec.Append), ring.len + 1) == Place(ring, ring.len + 1)
    {
      hide Linked, Place, Step, Block.Blank;
      Others(head, list, ring, ring.len);
      Around(head, list, ring, ring.len);
      free.queued := true;
      free := free.next;
      if free == null {
        free := head;
      }
      MarkedAppend(list, ring);
    }

    /** decoded_blocks_have_free: yes, always. The answer is right, that is there is a block that can be
        appended, if and only if not all blocks are queued. */
    method HaveFree() returns (r: bool)
      requires Valid()
      ensures r
      ensures (r <==> exists i :: 0 <= i < |list| && !list[i].queued) <==> |Queue()| < |list|
    {
      hide *;
      Parts(this);
      r := free != null;
      FreeLeft(list, ring);
    }

    /** decoded_blocks_playback_time_total. */
    method PlaybackTimeTotal() returns (time: real)
      requires Valid()
      ensures time == TotalTime(Queue())
    {
      hide *;
      Parts(this);
      NoTime();
      var first := queued;
      if first == null {
        return 0.0;
      }
      var curr := first;
      time := 0.0;
      var wrap := false;
      ghost var k := 0;
      WalkAt(head, list, ring, 0);
      while curr.queued && !(wrap && curr == first)
        invariant k <= ring.len && curr == list[Place(ring, k)] && (wrap <==> k > 0)
        invariant time == TotalTime(Run(list, ring)[..k])
        decreases ring.len - k
      {
        WalkAt(head, list, ring, k);
        TimeMore(list, ring, k);
        time := time + curr.playbackTime;
        if curr == first {
          wrap := true;
        }
        curr := curr.next;
        if curr == null {
          curr := head;
        }
        k := k + 1;
      }
      WalkAt(head, list, ring, k);
      assert Run(list, ring)[..k] == Run(list, ring);
    }
  }

  /** A block is not queued if and only if the run is shorter than the list. */
  lemma FreeLeft(list: seq<Block>, r: Ring)
    requires Good(r) && r.size == |list| && Marked(list, r)
    ensures (exists i :: 0 <= i < |list| && !list[i].queued) <==> r.len < r.size
  {
    if r.len < r.size {
      assert !list[Place(r, r.len)].queued;
    } else {
      forall i | 0 <= i < |list| ensures list[i].queued {
        assert i == Place(r, if i >= r.first then i - r.first else i + r.size - r.first);
      }
    }
  }

  /** One block, and it is queued: decoded_blocks_have_free says yes, appending fails. */
  method FullRing() returns (said: bool, got: bool)
    ensures said && !got
  {
    var blocks := new Blocks(1);
    var first := blocks.Append();
    said := blocks.HaveFree();
    var b := blocks.Append();
    got := b != null;
  }

  lemma PlaceZero(r: Ring)
    requires Good(r)
    ensures Place(r, 0) == r.first
  {
  }

  lemma NoTime()
    ensures TotalTime([]) == 0.0
  {
  }

  lemma StepReset(r: Ring)
    requires Good(r)
    ensures Step(r, Reset) == Ring(r.size, 0, 0)
  {
  }

  /** What Valid says, from the pointers. */
  lemma Parts(b: Blocks)
    requires b.Valid()
    ensures Linked(b.head, b.list) && Good(b.ring) && b.ring.size == |b.list| && Marked(b.list, b.ring)
    ensures b.queued == null <==> b.ring.len == 0
    ensures b.ring.len > 0 ==> b.queued == b.list[b.ring.first]
    ensures b.free == b.list[Place(b.ring, b.ring.len)] && (b.free.queued <==> b.ring.len == b.ring.size)
    ensures b.ring.len < b.ring.size ==> b.free.Blank()
    ensures b.Queue() == Run(b.list, b.ring) && |b.Queue()| == b.ring.len
    ensures Step(b.ring, Append) == if b.ring.len < b.ring.size then Step(b.ring, Append) else b.ring
    ensures b.ring.len == 0 ==> Step(b.ring, Next) == b.ring
    ensures Step(b.ring, Next).size == b.ring.size && Good(Step(b.ring, Next))
    ensures forall i, j :: 0 <= i < j < |b.list| ==> b.list[i] != b.list[j]
  {
    Flag(b.list, b.ring);
  }

  lemma Whole(b: Blocks)
    requires Linked(b.head, b.list) && Good(b.ring) && b.ring.size == |b.list| && Marked(b.list, b.ring)
    requires b.queued == (if b.ring.len > 0 then b.list[b.ring.first] else null)
    requires b.free == b.list[Place(b.ring, b.ring.len)]
    ensures b.Valid() && b.Queue() == Run(b.list, b.ring)
  {
  }
}
