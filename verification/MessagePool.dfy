/** src/handler.c, and src/messagepump.c, which is the same queue with one static pool. */
module MessagePool {
  import opened MessageSpec

  class Message {
    var id: Word
    var ctx: Pointer
    var p1: Word
    var p2: Word
    var next: Message?

    function Value(): Payload
      reads this`id, this`ctx, this`p1, this`p2
    {
      Payload(id, ctx, p1, p2)
    }

    constructor ()
    {
      id, ctx, p1, p2, next := 0, 0, 0, 0, null;
    }
  }

  ghost function At(s: seq<Message>, i: nat): Message? {
    if i < |s| then s[i] else null
  }

  /** The nodes of s, linked one to the next from head to null. */
  ghost predicate Chain(head: Message?, s: seq<Message>)
    reads s`next
  {
    head == At(s, 0) && forall i: nat :: i < |s| ==> s[i].next == At(s, i + 1)
  }

  ghost predicate Distinct(s: seq<Message>) {
    forall i, j :: 0 <= i < j < |s| ==> s[i] != s[j]
  }

  ghost function Values(s: seq<Message>): (r: seq<Payload>)
    reads s`id, s`ctx, s`p1, s`p2
    ensures |r| == |s|
  {
    if s == [] then [] else [s[0].Value()] + Values(s[1..])
  }

  lemma {:induction false} ValuesPush(s: seq<Message>, m: Message)
    ensures Values(s + [m]) == Values(s) + [m.Value()]
  {
    if s == [] {
      assert s + [m] == [m];
    } else {
      assert (s + [m])[1..] == s[1..] + [m];
      ValuesPush(s[1..], m);
    }
  }

  lemma ChainPush(head: Message?, s: seq<Message>, m: Message)
    requires head == if |s| > 0 then s[0] else m
    requires m.next == null && forall i: nat :: i < |s| ==> s[i].next == if i + 1 < |s| then At(s, i + 1) else m
    ensures Chain(head, s + [m])
  {
  }

  lemma ChainTail(head: Message?, s: seq<Message>)
    requires |s| > 0 && Chain(head, s)
    ensures Chain(s[0].next, s[1..])
  {
    forall i: nat | i < |s| - 1 ensures s[1..][i].next == At(s[1..], i + 1) {
      assert s[1..][i] == s[i + 1];
    }
  }

  lemma ChainCons(m: Message, s: seq<Message>)
    requires Chain(m.next, s)
    ensures Chain(m, [m] + s)
  {
    forall i: nat | i < |s| + 1 ensures ([m] + s)[i].next == At([m] + s, i + 1) {
      assert i > 0 ==> ([m] + s)[i] == s[i - 1];
    }
  }

  /** Two lists without repetition, sharing nothing, that together hold exactly the pool. */
  ghost predicate Shares(queued: seq<Message>, free: seq<Message>, pool: seq<Message>) {
    Distinct(queued + free) && multiset(queued + free) == multiset(pool)
  }

  lemma SharesMembers(queued: seq<Message>, free: seq<Message>, pool: seq<Message>)
    requires Shares(queued, free, pool)
    ensures |queued| + |free| == |pool|
    ensures forall m :: m in queued || m in free ==> m in pool
  {
    assert |multiset(queued + free)| == |multiset(pool)|;
    forall m | m in queued || m in free ensures m in pool {
      assert m in queued + free;
      assert m in multiset(queued + free);
    }
  }

  lemma DistinctTurn(queued: seq<Message>, free: seq<Message>)
    requires Distinct(queued + free) && |queued| > 0
    ensures Distinct(queued[1..] + ([queued[0]] + free))
  {
    var s, t := queued + free, queued[1..] + ([queued[0]] + free);
    assert forall i :: 0 <= i < |t| ==>
      t[i] == s[if i < |queued| - 1 then i + 1 else if i == |queued| - 1 then 0 else i];
  }

  lemma SharesMove(queued: seq<Message>, free: seq<Message>, pool: seq<Message>)
    requires Shares(queued, free, pool)
    ensures |free| > 0 ==> Shares(queued + [free[0]], free[1..], pool)
    ensures |queued| > 0 ==> Shares(queued[1..], [queued[0]] + free, pool)
  {
    if |free| > 0 {
      assert queued + [free[0]] + free[1..] == queued + free;
    }
    if |queued| > 0 {
      DistinctTurn(queued, free);
      hide Distinct;
      assert queued[1..] + ([queued[0]] + free) == queued[1..] + [queued[0]] + free;
      assert queued == [queued[0]] + queued[1..];
      assert multiset(queued) == multiset(queued[1..] + [queued[0]]);
    }
  }

  lemma Apart(queued: seq<Message>, free: seq<Message>)
    requires Distinct(queued + free)
    ensures |free| > 0 ==> free[0] !in queued && forall i :: 0 <= i < |free| - 1 ==> free[1..][i] != free[0]
    ensures forall i, j :: 0 <= i < |free| && 0 <= j < |queued| ==> free[i] != queued[j]
    ensures |queued| > 0 ==> queued[0] !in queued[1..] && queued[0] !in free
    ensures |queued| > 0 ==> queued[|queued| - 1] !in queued[..|queued| - 1] && queued[|queued| - 1] !in free
  {
    var s := queued + free;
    assert forall i :: 0 <= i < |queued| ==> s[i] == queued[i];
    assert forall i :: 0 <= i < |free| ==> s[|queued| + i] == free[i];
  }

  lemma NotBefore(pool: seq<Message>, i: nat, done: seq<Message>)
    requires Distinct(pool) && i < |pool| && multiset(done) == multiset(pool[..i])
    ensures Distinct(done) ==> Distinct([pool[i]] + done)
    ensures multiset([pool[i]] + done) == multiset(pool[..i + 1]) && pool[i] !in done
  {
    assert pool[i] !in multiset(pool[..i]);
    assert pool[..i + 1] == pool[..i] + [pool[i]];
  }

  class Handler {
    /** The pool, allocated once. */
    const pool: seq<Message>
    var mfree: Message?
    var mqueue: Message?
    var mqtail: Message?
    /** The two lists, spelled out. */
    ghost var free: seq<Message>
    ghost var queued: seq<Message>

    /** Both lists end, they share no node, and together they hold every node of the pool once. */
    ghost predicate Valid()
      reads this, pool`next, queued`next, free`next
    {
      && Shares(queued, free, pool)
      && Chain(mfree, free) && Chain(mqueue, queued)
      && mqtail == (if |queued| > 0 then queued[|queued| - 1] else null)
    }

    ghost function Queue(): seq<Payload>
      reads this, pool, queued, free
      requires Valid()
    {
      Values(queued)
    }

    /** handler_alloc. */
    constructor (size: nat)
      ensures Valid() && |pool| == size && Queue() == []
      ensures forall m :: m in pool ==> fresh(m)
    {
      var nodes: seq<Message> := [];
      while |nodes| < size
        invariant |nodes| <= size && Distinct(nodes) && forall i :: 0 <= i < |nodes| ==> fresh(nodes[i])
      {
        var m := new Message();
        nodes := nodes + [m];
      }
      pool := nodes;
      new;
      Reset();
    }

    /** handler_reset. */
    method Reset()
      requires Distinct(pool)
      modifies this, pool
      ensures Valid() && Queue() == []
    {
      hide *;
      NoNodes();
      mqueue, mfree, mqtail := null, null, null;
      free, queued := [], [];
      var i := 0;
      while i < |pool|
        invariant i <= |pool| && mqueue == mqtail == null && queued == []
        invariant Chain(mfree, free) && Distinct(free) && multiset(free) == multiset(pool[..i])
      {
        NotBefore(pool, i, free);
        AddFree(pool[i]);
        i := i + 1;
      }
      assert pool[..i] == pool;
      AllFree(free, pool);
      Assembled(this);
    }

    /** One round of the loop that puts the whole pool on the free list. */
    method AddFree(m: Message)
      requires Chain(mfree, free) && m !in free
      modifies this`mfree, this`free, m
      ensures Chain(mfree, free) && free == [m] + old(free)
    {
      m.id, m.ctx, m.p1, m.p2 := 0, 0, 0, 0;
      m.next := mfree;
      mfree := m;
      ChainCons(m, free);
      free := [m] + free;
    }

    /** handler_push: 0, or -1 when the pool is used up. */
    method Push(id: Word, ctx: Pointer, p1: Word, p2: Word) returns (r: int)
      requires Valid()
      modifies this, pool
      ensures Valid()
      ensures r == if |old(Queue())| < |pool| then 0 else -1
      ensures Queue() == Next(old(Queue()), |pool|, MessageSpec.Push(Payload(id, ctx, p1, p2)))
    {
      hide *;
      Sizes(this);
      NextPush(Queue(), |pool|, Payload(id, ctx, p1, p2));
      if mfree == null {
        return -1;
      }
      MoveToQueue();
      Fill(id, ctx, p1, p2);
      return 0;
    }

    /** messagepump_push: the event of a refused message is freed. */
    method PushOrFree(m: Payload) returns (r: int, freed: seq<Pointer>)
      requires Valid()
      modifies this, pool
      ensures Valid() && Queue() == Next(old(Queue()), |pool|, MessageSpec.Push(m))
      ensures r == if |old(Queue())| < |pool| then 0 else -1
      ensures freed == if r == -1 && OwnsEvent(m) then [m.ctx] else []
    {
      hide Handler.Valid, Handler.Queue, Next;
      r := Push(m.id, m.ctx, m.p1, m.p2);
      freed := [];
      if r == -1 && m.id >= EVENT_FIRST && m.ctx != 0 {
        freed := [m.ctx];
      }
    }

    /** Pushes and pops in any order, with the events freed on the way. */
    method Run(ops: seq<Op>) returns (replies: seq<Reply>, freed: seq<Pointer>)
      requires Valid()
      modifies this, pool
      ensures Valid() && Queue() == Final(old(Queue()), |pool|, ops)
      ensures replies == Replies(old(Queue()), |pool|, ops)
      ensures freed == EventsOf(Pushed(ops, replies, Refused))
      ensures forall ev: Pointer ::
                Copies(old(Queue()), ev) + Copies(AllPushed(ops), ev) ==
                Copies(Taken(replies), ev) + Copies(Queue(), ev) + multiset(freed)[ev]
    {
      hide *;
      ghost var q := Queue();
      replies, freed := [], [];
      Nowhere(q, |pool|);
      for i := 0 to |ops|
        invariant Valid() && Queue() == Final(q, |pool|, ops[..i])
        invariant replies == Replies(q, |pool|, ops[..i])
        invariant freed == EventsOf(Pushed(ops[..i], replies, Refused))
      {
        ghost var was := Queue();
        var reply, gone := Perform(ops[i]);
        assert ops[..i + 1] == ops[..i] + [ops[i]];
        OneMore(q, |pool|, ops[..i], ops[i]);
        OneMorePushed(ops[..i], replies, ops[i], reply, Refused);
        OneMoreEvent(Pushed(ops[..i], replies, Refused), ops[i], reply);
        replies, freed := replies + [reply], freed + gone;
      }
      assert ops[..|ops|] == ops;
      forall ev: Pointer
        ensures Copies(q, ev) + Copies(AllPushed(ops), ev) ==
          Copies(Taken(replies), ev) + Copies(Queue(), ev) + multiset(freed)[ev]
      {
        EventsConserved(q, |pool|, ops, ev);
      }
    }

    method Perform(op: Op) returns (reply: Reply, gone: seq<Pointer>)
      requires Valid()
      modifies this, pool
      ensures Valid() && Queue() == Next(old(Queue()), |pool|, op)
      ensures reply == Answer(old(Queue()), |pool|, op)
      ensures gone == if op.Push? && reply == Refused && OwnsEvent(op.msg) then [op.msg.ctx] else []
    {
      hide Handler.Valid, Handler.Queue, Next;
      var r: int;
      gone := [];
      match op {
        case Push(m) =>
          r, gone := PushOrFree(m);
          reply := if r == 0 then Accepted else Refused;
        case Pop =>
          var msg;
          r, msg := Pop();
          reply := if r == 0 then Got(msg) else Empty;
      }
    }

    /** The fields of the message that was just linked in. */
    method Fill(id: Word, ctx: Pointer, p1: Word, p2: Word)
      requires Valid() && mqtail != null
      modifies pool`id, pool`ctx, pool`p1, pool`p2
      ensures Valid() && |Queue()| == |old(Queue())| > 0
      ensures Queue() == old(Queue())[..|Queue()| - 1] + [Payload(id, ctx, p1, p2)]
    {
      hide Handler.Valid, Shares, At, Distinct, Chain, Values;
      Sizes(this);
      QueueList(this);
      ghost var rest := queued[..|queued| - 1];
      assert queued == rest + [mqtail];
      ValuesPush(rest, mqtail);
      mqtail.id, mqtail.ctx, mqtail.p1, mqtail.p2 := id, ctx, p1, p2;
      ValuesPush(rest, mqtail);
    }

    /** The first free message, from one list to the other. */
    method MoveToQueue()
      requires Valid() && mfree != null
      modifies this, pool`next
      ensures Valid() && mqtail != null
      ensures |Queue()| == |old(Queue())| + 1 && Queue()[..|old(Queue())|] == old(Queue())
    {
      Sizes(this);
      FreeList(this);
      QueueList(this);
      hide Shares, At, Distinct, Values, Chain;
      ghost var q, msg := queued, mfree;
      TakeFree();
      ValuesPush(q, msg);
    }

    method TakeFree()
      requires |free| > 0 && mfree == free[0] && mfree !in queued && Chain(mfree.next, free[1..])
      requires forall i :: 0 <= i < |free| - 1 ==> free[1..][i] != mfree
      requires forall i, j :: 0 <= i < |free| && 0 <= j < |queued| ==> free[i] != queued[j]
      requires Chain(mqueue, queued) && mqtail == (if |queued| > 0 then queued[|queued| - 1] else null)
      requires |queued| > 0 ==> mqtail !in queued[..|queued| - 1]
      modifies this, mfree`next, queued`next
      ensures Chain(mfree, free) && free == old(free)[1..]
      ensures Chain(mqueue, queued) && queued == old(queued) + [old(mfree)] && mqtail == old(mfree)
    {
      hide At;
      var msg := mfree;
      mfree := mfree.next;
      free := free[1..];
      Enqueue(msg);
    }

    /** handler_push links the message in at the end of the queue. */
    method Enqueue(msg: Message)
      requires Chain(mqueue, queued) && msg !in queued
      requires mqtail == (if |queued| > 0 then queued[|queued| - 1] else null)
      requires |queued| > 0 ==> mqtail !in queued[..|queued| - 1]
      modifies this`mqueue, this`mqtail, this`queued, msg`next, queued`next
      ensures Chain(mqueue, queued) && queued == old(queued) + [msg] && mqtail == msg
    {
      if mqtail != null {
        mqtail.next := msg;
      }
      mqtail := msg;
      if mqueue == null {
        mqueue := msg;
      }
      msg.next := null;
      ChainPush(mqueue, queued, msg);
      queued := queued + [msg];
    }

    /** handler_pop: 0 and the oldest message, or -1. */
    method Pop() returns (r: int, msg: Payload)
      requires Valid()
      modifies this, pool
      ensures Valid()
      ensures r == if |old(Queue())| > 0 then 0 else -1
      ensures |old(Queue())| > 0 ==> msg == old(Queue())[0]
      ensures Queue() == Next(old(Queue()), |pool|, MessageSpec.Pop)
    {
      hide *;
      Sizes(this);
      NextPop(Queue(), |pool|);
      msg := Payload(0, 0, 0, 0);
      if mqueue == null {
        return -1, msg;
      }
      Front(this);
      msg := Payload(mqueue.id, mqueue.ctx, mqueue.p1, mqueue.p2);
      MoveToFree();
      return 0, msg;
    }

    /** The oldest queued message, from one list to the other. */
    method MoveToFree()
      requires Valid() && mqueue != null
      modifies this, pool`next
      ensures Valid() && |old(Queue())| > 0 && Queue() == old(Queue())[1..]
    {
      hide *;
      Sizes(this);
      QueueTurn(this);
      ghost var values := Values(queued[1..]);
      Recycle();
      Assembled(this);
      assert Values(queued) == values;
    }

    method Recycle()
      requires |queued| > 0 && mqueue == queued[0] && mqueue !in queued[1..] && mqueue !in free
      requires mqueue.next == (if |queued| > 1 then queued[1] else null)
      requires Chain(mqueue.next, queued[1..]) && Chain(mfree, free) && mqtail == queued[|queued| - 1]
      modifies this`mfree, this`mqueue, this`mqtail, this`free, this`queued, mqueue`next
      ensures free == [old(mqueue)] + old(free) && queued == old(queued)[1..]
      ensures Chain(mfree, free) && Chain(mqueue, queued)
      ensures mqtail == (if |queued| > 0 then queued[|queued| - 1] else null)
    {
      hide At;
      var next := mqueue.next;
      mqueue.next := mfree;
      mfree := mqueue;
      mqueue := next;
      if mqueue == null {
        mqtail := null;
      }
      ChainCons(mfree, free);
      free, queued := [mfree] + free, queued[1..];
    }
  }

  lemma Nowhere(q: seq<Payload>, cap: nat)
    ensures Final(q, cap, []) == q && Replies(q, cap, []) == [] && EventsOf(Pushed([], [], Refused)) == []
  {
  }

  lemma OneMoreEvent(ms: seq<Payload>, op: Op, reply: Reply)
    ensures EventsOf(ms + if op.Push? && reply == Refused then [op.msg] else []) ==
      EventsOf(ms) + if op.Push? && reply == Refused && OwnsEvent(op.msg) then [op.msg.ctx] else []
  {
    if op.Push? && reply == Refused {
      assert (ms + [op.msg])[..|ms|] == ms;
    } else {
      assert ms + [] == ms;
    }
  }

  lemma NoNodes()
    ensures Chain(null, []) && Distinct([]) && Values([]) == []
  {
  }

  lemma AllFree(free: seq<Message>, pool: seq<Message>)
    requires Distinct(free) && multiset(free) == multiset(pool)
    ensures Shares([], free, pool)
  {
    assert [] + free == free;
  }

  lemma Assembled(h: Handler)
    requires Shares(h.queued, h.free, h.pool) && Chain(h.mfree, h.free) && Chain(h.mqueue, h.queued)
    requires h.mqtail == (if |h.queued| > 0 then h.queued[|h.queued| - 1] else null)
    ensures h.Valid() && h.Queue() == Values(h.queued)
  {
  }

  lemma NextPush(q: seq<Payload>, cap: nat, m: Payload)
    ensures Next(q, cap, MessageSpec.Push(m)) == if |q| < cap then q + [m] else q
  {
  }

  lemma NextPop(q: seq<Payload>, cap: nat)
    ensures Next(q, cap, MessageSpec.Pop) == if |q| > 0 then q[1..] else q
  {
  }

  lemma Front(h: Handler)
    requires h.Valid() && h.mqueue != null
    ensures |h.Queue()| > 0 && Payload(h.mqueue.id, h.mqueue.ctx, h.mqueue.p1, h.mqueue.p2) == h.Queue()[0]
  {
  }

  lemma Sizes(h: Handler)
    requires h.Valid()
    ensures |h.queued| + |h.free| == |h.pool| && |h.Queue()| == |h.queued|
    ensures |h.free| == 0 <==> h.mfree == null
    ensures |h.queued| == 0 <==> h.mqueue == null
    ensures |h.queued| == 0 <==> h.mqtail == null
  {
    SharesMembers(h.queued, h.free, h.pool);
  }

  /** The free list of a valid handler from its pointer. */
  lemma FreeList(h: Handler)
    requires h.Valid() && |h.free| > 0
    ensures h.mfree == h.free[0] && h.mfree in h.pool && h.mfree !in h.queued
    ensures forall i :: 0 <= i < |h.free| - 1 ==> h.free[1..][i] != h.mfree
    ensures Chain(h.mfree.next, h.free[1..]) && Shares(h.queued + [h.mfree], h.free[1..], h.pool)
  {
    SharesMembers(h.queued, h.free, h.pool);
    SharesMove(h.queued, h.free, h.pool);
    Apart(h.queued, h.free);
    ChainTail(h.mfree, h.free);
  }

  /** The queue of a valid handler from its pointers. */
  lemma QueueList(h: Handler)
    requires h.Valid()
    ensures forall i :: 0 <= i < |h.queued| ==> h.queued[i] in h.pool
    ensures forall i, j :: 0 <= i < |h.free| && 0 <= j < |h.queued| ==> h.free[i] != h.queued[j]
    ensures |h.queued| > 0 ==>
      && h.mqtail == h.queued[|h.queued| - 1] && h.mqtail in h.pool && h.mqtail !in h.queued[..|h.queued| - 1]
      && h.mqueue == h.queued[0] && h.mqueue in h.pool && Values(h.queued) == [h.mqueue.Value()] + Values(h.queued[1..])
  {
    SharesMembers(h.queued, h.free, h.pool);
    Apart(h.queued, h.free);
  }

  lemma QueueTurn(h: Handler)
    requires h.Valid() && |h.queued| > 0
    ensures h.mqueue == h.queued[0] && h.mqueue in h.pool && h.mqueue !in h.free && h.mqueue !in h.queued[1..]
    ensures h.mqtail == h.queued[|h.queued| - 1] && |h.Queue()| > 0 && h.Queue()[1..] == Values(h.queued[1..])
    ensures h.mqueue.next == (if |h.queued| > 1 then h.queued[1] else null)
    ensures Chain(h.mfree, h.free)
    ensures Chain(h.mqueue.next, h.queued[1..]) && Shares(h.queued[1..], [h.mqueue] + h.free, h.pool)
  {
    SharesMembers(h.queued, h.free, h.pool);
    SharesMove(h.queued, h.free, h.pool);
    Apart(h.queued, h.free);
    ChainTail(h.mqueue, h.queued);
  }
}
