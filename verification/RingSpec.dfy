/** What the ring of decoded blocks does to positions, whatever order the calls come in. */
module RingSpec {
  /** The queued blocks are the `len` positions from `first` on, round a ring of `size`. */
  datatype Ring = Ring(size: nat, first: nat, len: nat)

  datatype Op = Append | Next | Reset

  predicate Good(r: Ring) {
    r.first < r.size && r.len <= r.size
  }

  /** The k-th position from `first` on. */
  function Place(r: Ring, k: nat): (p: nat)
    requires Good(r) && k <= r.size
    ensures p < r.size
  {
    if r.first + k < r.size then r.first + k else r.first + k - r.size
  }

  function Positions(r: Ring): (s: seq<nat>)
    requires Good(r)
    ensures |s| == r.len && forall k :: 0 <= k < |s| ==> s[k] < r.size
  {
    seq(r.len, k requires 0 <= k < r.len => Place(r, k))
  }

  function Step(r: Ring, op: Op): (r1: Ring)
    requires Good(r)
    ensures Good(r1) && r1.size == r.size
  {
    match op
    case Append => if r.len < r.size then r.(len := r.len + 1) else r
    case Next => if r.len > 0 then Ring(r.size, Place(r, 1), r.len - 1) else r
    case Reset => Ring(r.size, 0, 0)
  }

  /** The position an operation adds to the queue, if any. */
  function Added(r: Ring, op: Op): seq<nat>
    requires Good(r)
  {
    if op.Append? && r.len < r.size then [Place(r, r.len)] else []
  }

  /** The positions that leave the queue with an operation. */
  function Gone(r: Ring, op: Op): seq<nat>
    requires Good(r)
  {
    match op
    case Append => []
    case Next => if r.len > 0 then [r.first] else []
    case Reset => Positions(r)
  }

  function Final(r: Ring, ops: seq<Op>): (r1: Ring)
    requires Good(r)
    decreases |ops|
    ensures Good(r1)
  {
    if ops == [] then r else Final(Step(r, ops[0]), ops[1..])
  }

  function AllAdded(r: Ring, ops: seq<Op>): seq<nat>
    requires Good(r)
    decreases |ops|
  {
    if ops == [] then [] else Added(r, ops[0]) + AllAdded(Step(r, ops[0]), ops[1..])
  }

  function AllGone(r: Ring, ops: seq<Op>): seq<nat>
    requires Good(r)
    decreases |ops|
  {
    if ops == [] then [] else Gone(r, ops[0]) + AllGone(Step(r, ops[0]), ops[1..])
  }

  lemma StepKeepsOrder(r: Ring, op: Op)
    requires Good(r)
    ensures Gone(r, op) + Positions(Step(r, op)) == Positions(r) + Added(r, op)
  {
  }

  lemma Regroup<T>(a: seq<T>, b: seq<T>, c: seq<T>)
    ensures a + b + c == a + (b + c)
  {
  }

  /** Blocks leave in the order they were appended: those that left, then those still queued, are
      those queued at the start, then those appended. */
  lemma {:induction false} LeaveInOrder(r: Ring, ops: seq<Op>)
    requires Good(r)
    ensures AllGone(r, ops) + Positions(Final(r, ops)) == Positions(r) + AllAdded(r, ops)
    decreases |ops|
  {
    if ops == [] {
      assert [] + Positions(r) == Positions(r) + [];
    } else {
      var r1 := Step(r, ops[0]);
      LeaveInOrder(r1, ops[1..]);
      StepKeepsOrder(r, ops[0]);
      hide Step, Gone, Added, Positions;
      Regroup(Gone(r, ops[0]), AllGone(r1, ops[1..]), Positions(Final(r, ops)));
      Regroup(Gone(r, ops[0]), Positions(r1), AllAdded(r1, ops[1..]));
      Regroup(Positions(r), Added(r, ops[0]), AllAdded(r1, ops[1..]));
    }
  }

  lemma PlaceShift(r: Ring, k: nat)
    requires Good(r) && r.len > 0 && k < r.size
    ensures Place(Step(r, Next), k) == Place(r, k + 1)
  {
  }

  lemma PlacesDiffer(r: Ring, i: nat, j: nat)
    requires Good(r) && i < j < r.size
    ensures Place(r, i) != Place(r, j)
  {
  }
}
