/** What a fixed-pool message queue promises, whatever order pushes and pops come in. */
module MessageSpec {
  type Word = x: int | 0 <= x < 0x1_0000_0000
  type Pointer = x: int | 0 <= x < 0x1_0000_0000_0000_0000

  datatype Payload = Payload(id: Word, ctx: Pointer, p1: Word, p2: Word)

  datatype Op = Push(msg: Payload) | Pop

  datatype Reply = Accepted | Refused | Got(msg: Payload) | Empty

  function Next(q: seq<Payload>, cap: nat, op: Op): seq<Payload> {
    match op
    case Push(m) => if |q| < cap then q + [m] else q
    case Pop => if |q| > 0 then q[1..] else q
  }

  function Answer(q: seq<Payload>, cap: nat, op: Op): Reply {
    match op
    case Push(_) => if |q| < cap then Accepted else Refused
    case Pop => if |q| > 0 then Got(q[0]) else Empty
  }

  function Final(q: seq<Payload>, cap: nat, ops: seq<Op>): seq<Payload>
    decreases |ops|
  {
    if ops == [] then q else Final(Next(q, cap, ops[0]), cap, ops[1..])
  }

  function Replies(q: seq<Payload>, cap: nat, ops: seq<Op>): (r: seq<Reply>)
    decreases |ops|
    ensures |r| == |ops|
    ensures forall i :: 0 <= i < |ops| ==> (ops[i].Push? <==> r[i].Accepted? || r[i].Refused?)
  {
    if ops == [] then [] else [Answer(q, cap, ops[0])] + Replies(Next(q, cap, ops[0]), cap, ops[1..])
  }

  /** The messages whose push was answered with `reply`, in push order. */
  function Pushed(ops: seq<Op>, replies: seq<Reply>, reply: Reply): seq<Payload>
    requires |ops| == |replies|
  {
    if ops == [] then []
    else (if ops[0].Push? && replies[0] == reply then [ops[0].msg] else []) + Pushed(ops[1..], replies[1..], reply)
  }

  /** The messages that pops returned, in that order. */
  function Taken(replies: seq<Reply>): seq<Payload> {
    if replies == [] then []
    else (if replies[0].Got? then [replies[0].msg] else []) + Taken(replies[1..])
  }

  lemma OneInOneOut(q: seq<Payload>, cap: nat, op: Op, taken: seq<Payload>, final: seq<Payload>, pushed: seq<Payload>)
    requires taken + final == Next(q, cap, op) + pushed
    ensures (if Answer(q, cap, op).Got? then [Answer(q, cap, op).msg] else []) + taken + final ==
      q + ((if op.Push? && Answer(q, cap, op) == Accepted then [op.msg] else []) + pushed)
  {
    Nothing(taken);
    Nothing(pushed);
    match op {
      case Push(m) =>
        Regroup(q, [m], pushed);
      case Pop =>
        if |q| > 0 {
          Regroup([q[0]], taken, final);
          Regroup([q[0]], q[1..], pushed);
          assert [q[0]] + q[1..] == q;
        }
    }
  }

  lemma Nothing(a: seq<Payload>)
    ensures [] + a == a
  {
  }

  lemma Regroup(a: seq<Payload>, b: seq<Payload>, c: seq<Payload>)
    ensures a + b + c == a + (b + c)
  {
  }

  /** First in, first out: what pops returned, then what is still queued, is what was queued at the
      start, then the accepted pushes. */
  lemma {:induction false} FirstInFirstOut(q: seq<Payload>, cap: nat, ops: seq<Op>)
    decreases |ops|
    ensures Taken(Replies(q, cap, ops)) + Final(q, cap, ops) == q + Pushed(ops, Replies(q, cap, ops), Accepted)
  {
    if ops != [] {
      var next, r := Next(q, cap, ops[0]), Replies(q, cap, ops);
      FirstInFirstOut(next, cap, ops[1..]);
      assert r[1..] == Replies(next, cap, ops[1..]);
      OneInOneOut(q, cap, ops[0], Taken(r[1..]), Final(q, cap, ops), Pushed(ops[1..], r[1..], Accepted));
      hide Next, Answer;
    }
  }

  lemma {:induction false} NeverOverfull(q: seq<Payload>, cap: nat, ops: seq<Op>)
    requires |q| <= cap
    ensures |Final(q, cap, ops)| <= cap
    decreases |ops|
  {
    if ops != [] {
      NeverOverfull(Next(q, cap, ops[0]), cap, ops[1..]);
    }
  }

  lemma {:induction false} StepByStep(q: seq<Payload>, cap: nat, ops: seq<Op>, k: nat)
    requires k < |ops|
    ensures Replies(q, cap, ops)[k] == Answer(Final(q, cap, ops[..k]), cap, ops[k])
    ensures Replies(q, cap, ops[..k]) == Replies(q, cap, ops)[..k]
    decreases |ops|
  {
    if k > 0 {
      StepByStep(Next(q, cap, ops[0]), cap, ops[1..], k - 1);
      assert ops[1..][..k - 1] == ops[..k][1..];
      var r := Replies(q, cap, ops);
      assert r == [r[0]] + r[1..] && r[..k] == [r[0]] + r[1..][..k - 1];
    } else {
      assert ops[..0] == [];
    }
  }

  /** A push is refused exactly when the accepted pushes so far outnumber the successful pops by the
      whole pool; a pop comes back empty exactly when they are equally many. */
  lemma RefusedWhenFull(cap: nat, ops: seq<Op>, k: nat)
    requires k < |ops|
    ensures var before := Replies([], cap, ops)[..k];
      var held := |Pushed(ops[..k], before, Accepted)| - |Taken(before)|;
      && 0 <= held <= cap
      && (Replies([], cap, ops)[k] == Refused <==> ops[k].Push? && held == cap)
      && (Replies([], cap, ops)[k] == Empty <==> ops[k].Pop? && held == 0)
  {
    StepByStep([], cap, ops, k);
    FirstInFirstOut([], cap, ops[..k]);
    NeverOverfull([], cap, ops[..k]);
    var before := Replies([], cap, ops[..k]);
    assert |Taken(before)| + |Final([], cap, ops[..k])| == |Pushed(ops[..k], before, Accepted)|;
  }

  /** The first id that belongs to an allocated event. */
  const EVENT_FIRST: Word := 1000

  predicate OwnsEvent(m: Payload) {
    m.id >= EVENT_FIRST && m.ctx != 0
  }

  /** How many messages carry the event at ev. */
  function Copies(ms: seq<Payload>, ev: Pointer): nat {
    if ms == [] then 0 else (if OwnsEvent(ms[0]) && ms[0].ctx == ev then 1 else 0) + Copies(ms[1..], ev)
  }

  function AllPushed(ops: seq<Op>): seq<Payload> {
    if ops == [] then [] else (if ops[0].Push? then [ops[0].msg] else []) + AllPushed(ops[1..])
  }

  lemma {:induction false} CopiesJoin(a: seq<Payload>, b: seq<Payload>, ev: Pointer)
    ensures Copies(a + b, ev) == Copies(a, ev) + Copies(b, ev)
  {
    if a == [] {
      assert a + b == b;
    } else {
      assert (a + b)[1..] == a[1..] + b;
      CopiesJoin(a[1..], b, ev);
    }
  }

  lemma CopiesCons(keep: bool, m: Payload, rest: seq<Payload>, ev: Pointer)
    ensures Copies((if keep then [m] else []) + rest, ev) == (if keep then Copies([m], ev) else 0) + Copies(rest, ev)
  {
    CopiesJoin(if keep then [m] else [], rest, ev);
  }

  lemma {:induction false} AcceptedOrRefused(q: seq<Payload>, cap: nat, ops: seq<Op>, ev: Pointer)
    ensures var r := Replies(q, cap, ops);
      Copies(AllPushed(ops), ev) == Copies(Pushed(ops, r, Accepted), ev) + Copies(Pushed(ops, r, Refused), ev)
    decreases |ops|
  {
    if ops != [] {
      var next, r := Next(q, cap, ops[0]), Replies(q, cap, ops);
      AcceptedOrRefused(next, cap, ops[1..], ev);
      assert r[1..] == Replies(next, cap, ops[1..]);
      hide Replies, Next, Answer, Copies;
      if ops[0].Push? {
        CopiesCons(true, ops[0].msg, AllPushed(ops[1..]), ev);
        CopiesCons(r[0] == Accepted, ops[0].msg, Pushed(ops[1..], r[1..], Accepted), ev);
        CopiesCons(r[0] == Refused, ops[0].msg, Pushed(ops[1..], r[1..], Refused), ev);
      } else {
        Nothing(AllPushed(ops[1..]));
        Nothing(Pushed(ops[1..], r[1..], Accepted));
        Nothing(Pushed(ops[1..], r[1..], Refused));
      }
    }
  }

  /** The events among some messages. */
  function EventsOf(ms: seq<Payload>): seq<Pointer> {
    if ms == [] then [] else EventsOf(ms[..|ms| - 1]) + if OwnsEvent(ms[|ms| - 1]) then [ms[|ms| - 1].ctx] else []
  }

  /** Copies counts them. */
  lemma {:induction false} CopiesCount(ms: seq<Payload>, ev: Pointer)
    ensures Copies(ms, ev) == multiset(EventsOf(ms))[ev]
  {
    if ms != [] {
      var rest, last := ms[..|ms| - 1], ms[|ms| - 1];
      assert ms == rest + [last];
      CopiesJoin(rest, [last], ev);
      CopiesCount(rest, ev);
    }
  }

  /** One more operation after a run. */
  lemma {:induction false} OneMore(q: seq<Payload>, cap: nat, ops: seq<Op>, op: Op)
    ensures Final(q, cap, ops + [op]) == Next(Final(q, cap, ops), cap, op)
    ensures Replies(q, cap, ops + [op]) == Replies(q, cap, ops) + [Answer(Final(q, cap, ops), cap, op)]
    decreases |ops|
  {
    if ops == [] {
      assert ops + [op] == [op];
    } else {
      assert (ops + [op])[1..] == ops[1..] + [op];
      OneMore(Next(q, cap, ops[0]), cap, ops[1..], op);
    }
  }

  lemma {:induction false} OneMorePushed(ops: seq<Op>, replies: seq<Reply>, op: Op, answer: Reply, reply: Reply)
    requires |ops| == |replies|
    ensures Pushed(ops + [op], replies + [answer], reply) ==
      Pushed(ops, replies, reply) + if op.Push? && answer == reply then [op.msg] else []
  {
    if ops == [] {
      assert ops + [op] == [op] && replies + [answer] == [answer];
    } else {
      assert (ops + [op])[1..] == ops[1..] + [op] && (replies + [answer])[1..] == replies[1..] + [answer];
      OneMorePushed(ops[1..], replies[1..], op, answer, reply);
    }
  }

  /** No event is lost and none is released twice: each event that was queued at the start or pushed was handed
      to a pop, is still queued, or came with a refused push and was freed there. */
  lemma EventsConserved(q: seq<Payload>, cap: nat, ops: seq<Op>, ev: Pointer)
    ensures var r := Replies(q, cap, ops);
      Copies(q, ev) + Copies(AllPushed(ops), ev) ==
      Copies(Taken(r), ev) + Copies(Final(q, cap, ops), ev) + multiset(EventsOf(Pushed(ops, r, Refused)))[ev]
  {
    var r := Replies(q, cap, ops);
    hide Copies, EventsOf, Replies, Taken, Final, Pushed, AllPushed;
    AcceptedOrRefused(q, cap, ops, ev);
    FirstInFirstOut(q, cap, ops);
    CopiesJoin(Taken(r), Final(q, cap, ops), ev);
    CopiesJoin(q, Pushed(ops, r, Accepted), ev);
    CopiesCount(Pushed(ops, r, Refused), ev);
  }
}
