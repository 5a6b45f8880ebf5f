/** What plt_move_items does to the order of one list: always a permutation, and exactly when the
    requested move is the one that happens. */
module MoveLaws {
  import opened Playlists

  ghost predicate Increasing(ix: seq<nat>) {
    forall i, j :: 0 <= i < j < |ix| ==> ix[i] < ix[j]
  }

  /** `ix` asks for existing positions from `idx` on, in increasing order. */
  ghost predicate Request(ix: seq<nat>, idx: nat, n: nat) {
    Increasing(ix) && forall i :: 0 <= i < |ix| ==> idx <= ix[i] < idx + n
  }

  // ----- nothing lost, nothing duplicated -------------------------------------------------

  lemma MoveToPermutes<T>(s: seq<T>, p: nat, q: nat)
    requires p < |s| && q <= |s|
    ensures multiset(MoveTo(s, p, q)) == multiset(s)
  {
    var r, k := RemoveAt(s, p), if p < q then q - 1 else q;
    assert s == s[..p] + [s[p]] + s[p + 1..];
    assert r == r[..k] + r[k..];
    assert multiset(s) == multiset(r) + multiset{s[p]};
    assert MoveTo(s, p, q) == r[..k] + [s[p]] + r[k..];
  }

  lemma {:induction false} WalkPermutes<T>(s: seq<T>, p: nat, q: nat, idx: nat, ix: seq<nat>)
    requires p <= |s| && q <= |s|
    ensures multiset(Walk(s, p, q, idx, ix)) == multiset(s)
    decreases |ix|, |s| - p
  {
    if p == |s| || ix == [] {
    } else if idx != ix[0] {
      WalkPermutes(s, p + 1, q, idx + 1, ix);
    } else {
      MoveToPermutes(s, p, q);
      WalkPermutes(MoveTo(s, p, q), if p + 1 < q then p else p + 1, if p < q then q else q + 1, idx + 1, ix[1..]);
    }
  }

  // ----- the requested elements -----------------------------------------------------------

  /** Picked takes s[i-idx] for every requested i, in order; Kept takes the others. */
  lemma {:induction false} PickedIs<T>(s: seq<T>, idx: nat, ix: seq<nat>)
    requires Request(ix, idx, |s|)
    ensures |Picked(s, idx, ix)| == |ix|
    ensures forall i :: 0 <= i < |ix| ==> Picked(s, idx, ix)[i] == s[ix[i] - idx]
  {
    if ix != [] {
      assert idx <= ix[0] < idx + |s|;
      if idx == ix[0] {
        PickedIs(s[1..], idx + 1, ix[1..]);
      } else {
        PickedIs(s[1..], idx + 1, ix);
      }
    }
  }

  lemma {:induction false} PickedOrKept<T>(s: seq<T>, idx: nat, ix: seq<nat>)
    ensures multiset(Picked(s, idx, ix)) + multiset(Kept(s, idx, ix)) == multiset(s)
  {
    if s != [] && ix != [] {
      assert s == [s[0]] + s[1..];
      PickedOrKept(s[1..], idx + 1, if idx == ix[0] then ix[1..] else ix);
    }
  }

  /** How many leading requests lie before position `d`. */
  function Below(ix: seq<nat>, d: nat): (m: nat)
    ensures m <= |ix|
    ensures forall i :: 0 <= i < m ==> ix[i] < d
    ensures m < |ix| ==> d <= ix[m]
  {
    if ix == [] || ix[0] >= d then 0 else 1 + Below(ix[1..], d)
  }

  /** What the caller asked for: the kept elements before the drop point, the requested block
      in order, the kept elements from the drop point on. */
  function Intended<T>(s: seq<T>, d: nat, ix: seq<nat>): seq<T>
    requires d <= |s|
  {
    Kept(s[..d], 0, ix) + Picked(s, 0, ix) + Kept(s[d..], d, ix[Below(ix, d)..])
  }

  predicate Consecutive(r: seq<nat>, d: nat) {
    forall i :: 0 <= i < |r| ==> r[i] == d + i
  }

  /** The guard a caller can check: all requests on one side of the drop point; or a single one before
      it, and that just before it; or those behind it follow it directly, their number a multiple of
      the number of those before it. */
  predicate Exact(ix: seq<nat>, d: nat) {
    var m := Below(ix, d);
    || m == 0 || m == |ix|
    || (m == 1 && ix[0] + 1 == d)
    || (Consecutive(ix[m..], d) && (|ix| - m) % m == 0)
  }

  // ----- the walk behind the insertion point ----------------------------------------------

  /** Behind the insertion point every request is met: b is the list up to it, k was passed. */
  lemma {:induction false} WalkBehind<T>(b: seq<T>, k: seq<T>, t: seq<T>, idx: nat, ix: seq<nat>)
    ensures Walk(b + k + t, |b + k|, |b|, idx, ix) == b + Picked(t, idx, ix) + k + Kept(t, idx, ix)
    decreases |t|
  {
    var s := b + k + t;
    if t == [] || ix == [] {
      assert b + [] + k + t == s;
    } else if idx != ix[0] {
      assert b + (k + [t[0]]) + t[1..] == s;
      WalkBehind(b, k + [t[0]], t[1..], idx + 1, ix);
      assert b + Picked(t, idx, ix) + (k + [t[0]]) + Kept(t[1..], idx + 1, ix)
          == b + Picked(t, idx, ix) + k + ([t[0]] + Kept(t[1..], idx + 1, ix));
    } else {
      assert MoveTo(s, |b + k|, |b|) == (b + [t[0]]) + k + t[1..];
      WalkBehind(b + [t[0]], k, t[1..], idx + 1, ix[1..]);
      assert (b + [t[0]]) + Picked(t[1..], idx + 1, ix[1..]) == b + ([t[0]] + Picked(t[1..], idx + 1, ix[1..]));
    }
  }

  lemma Assoc<T>(a: seq<T>, b: seq<T>, c: seq<T>)
    ensures (a + b) + c == a + (b + c)
  {
  }

  lemma WalkAhead<T>(b: seq<T>, t: seq<T>, idx: nat, ix: seq<nat>)
    ensures Walk(b + t, |b|, |b|, idx, ix) == b + Picked(t, idx, ix) + Kept(t, idx, ix)
  {
    hide Walk, Picked, Kept;
    WalkBehind(b, [], t, idx, ix);
    assert b + [] == b;
    var front := b + Picked(t, idx, ix);
    assert front + [] == front;
  }

  // ----- the walk in front of the insertion point ------------------------------------------

  /** A lone last element that already stands at the insertion point is moved onto itself. */
  predicate InPlace<T>(u: seq<T>, m: seq<T>, idx: nat, ix: seq<nat>) {
    m == [] && u != [] && ix != [] && ix[0] == idx + |u| - 1
  }

  lemma {:induction false} Sizes<T>(s: seq<T>, idx: nat, ix: seq<nat>)
    ensures |Picked(s, idx, ix)| <= |ix|
    ensures |Picked(s, idx, ix)| + |Kept(s, idx, ix)| == |s|
  {
    if s != [] && ix != [] {
      Sizes(s[1..], idx + 1, if idx == ix[0] then ix[1..] else ix);
    }
  }

  /** The walk once the elements `u` in front of the insertion point have been passed: those
      requested have collected behind the block `m`, and the walk is at the first of the block,
      which it will visit again, unless the block is a lone element that never moved. */
  ghost function PastFront<T>(a: seq<T>, u: seq<T>, m: seq<T>, t: seq<T>, idx: nat, ix: seq<nat>): seq<T> {
    Sizes(u, idx, ix);
    var kept, picked := a + Kept(u, idx, ix), Picked(u, idx, ix);
    Walk(kept + (m + picked) + t, if InPlace(u, m, idx, ix) then |a + u + m| else |kept|, |a + u + m|,
         idx + |u|, ix[|picked|..])
  }

  lemma PassMiss<T>(a: seq<T>, u: seq<T>, m: seq<T>, t: seq<T>, idx: nat, ix: seq<nat>)
    requires u != [] && ix != [] && idx != ix[0]
    ensures PastFront(a + [u[0]], u[1..], m, t, idx + 1, ix) == PastFront(a, u, m, t, idx, ix)
  {
    hide Walk;
    assert (a + [u[0]]) + Kept(u[1..], idx + 1, ix) == a + ([u[0]] + Kept(u[1..], idx + 1, ix));
    assert InPlace(u[1..], m, idx + 1, ix) == InPlace(u, m, idx, ix);
  }

  lemma PassHit<T>(a: seq<T>, u: seq<T>, m: seq<T>, t: seq<T>, idx: nat, ix: seq<nat>)
    requires u != [] && ix != [] && idx == ix[0] && (1 < |u| || m != [])
    ensures PastFront(a, u[1..], m + [u[0]], t, idx + 1, ix[1..]) == PastFront(a, u, m, t, idx, ix)
  {
    hide Walk;
    var picked := Picked(u[1..], idx + 1, ix[1..]);
    Sizes(u[1..], idx + 1, ix[1..]);
    assert (m + [u[0]]) + picked == m + ([u[0]] + picked);
    assert ix[1..][|picked|..] == ix[|picked| + 1..];
  }

  lemma PassInPlace<T>(a: seq<T>, u: seq<T>, t: seq<T>, idx: nat, ix: seq<nat>)
    requires |u| == 1 && ix != [] && idx == ix[0]
    ensures PastFront(a, u, [], t, idx, ix) == Walk(a + u + t, |a + u|, |a + u|, idx + 1, ix[1..])
  {
    hide Walk;
    assert u[1..] == [] && Kept(u[1..], idx + 1, ix[1..]) == [] && Picked(u[1..], idx + 1, ix[1..]) == [];
    assert u == [u[0]] && Kept(u, idx, ix) == [] && Picked(u, idx, ix) == [u[0]];
    assert a + [] + ([] + u) + t == a + u + t && a + u + [] == a + u;
  }

  lemma ToBlockEnd<T>(a: seq<T>, u: seq<T>, m: seq<T>, t: seq<T>)
    requires u != []
    ensures MoveTo(a + u + m + t, |a|, |a + u + m|) == a + u[1..] + (m + [u[0]]) + t
  {
    var s := a + u + m + t;
    assert u == [u[0]] + u[1..];
    assert RemoveAt(s, |a|) == a + u[1..] + m + t;
    assert (a + u[1..] + m) + [u[0]] + t == a + u[1..] + (m + [u[0]]) + t;
  }

  lemma {:induction false} WalkBefore<T>(a: seq<T>, u: seq<T>, m: seq<T>, t: seq<T>, idx: nat, ix: seq<nat>)
    ensures Walk(a + u + m + t, |a|, |a + u + m|, idx, ix) == PastFront(a, u, m, t, idx, ix)
    decreases |u|
  {
    var s0 := a + u + m + t;
    if u == [] || ix == [] {
      assert a + u + (m + []) + t == s0;
    } else if idx != ix[0] {
      assert (a + [u[0]]) + u[1..] + m + t == s0 && |(a + [u[0]]) + u[1..] + m| == |a + u + m|;
      WalkBefore(a + [u[0]], u[1..], m, t, idx + 1, ix);
      PassMiss(a, u, m, t, idx, ix);
    } else if |u| == 1 && m == [] {
      assert MoveTo(s0, |a|, |a + u + m|) == s0 == a + u + t;
      PassInPlace(a, u, t, idx, ix);
    } else {
      ToBlockEnd(a, u, m, t);
      WalkBefore(a, u[1..], m + [u[0]], t, idx + 1, ix[1..]);
      PassHit(a, u, m, t, idx, ix);
    }
  }

  // ----- the block visited again ------------------------------------------------------------

  function Turn<T>(m: seq<T>, n: nat): (r: seq<T>)
    requires m != []
    ensures |r| == |m|
    decreases n
  {
    if n == 0 then m else Turn(m[1..] + [m[0]], n - 1)
  }

  lemma {:induction false} TurnIs<T>(m: seq<T>, n: nat)
    requires m != []
    ensures Turn(m, n) == m[n % |m|..] + m[..n % |m|]
    decreases n
  {
    if n > 0 {
      var m', k := m[1..] + [m[0]], (n - 1) % |m|;
      TurnIs(m', n - 1);
      NextMod(n - 1, |m|);
      hide Turn;
      TurnOnce(m, k);
    }
  }

  lemma TurnOnce<T>(m: seq<T>, k: nat)
    requires k < |m|
    ensures var m', j := m[1..] + [m[0]], if k + 1 < |m| then k + 1 else 0; m'[k..] + m'[..k] == m[j..] + m[..j]
  {
    var m' := m[1..] + [m[0]];
    if k + 1 < |m| {
      assert m'[k..] == m[k + 1..] + [m[0]] && m'[..k] == m[1..k + 1];
    } else {
      assert m'[k..] == [m[0]] && m'[..k] == m[1..];
    }
  }

  lemma {:induction false} MulMonotone(l: nat, a: nat, b: nat)
    requires a < b
    ensures l * a + l <= l * b
  {
    if a + 1 < b { MulMonotone(l, a, b - 1); }
    assert l * b == l * (b - 1) + l;
  }

  lemma DivMod(n: nat, l: nat)
    requires l > 0
    ensures n == l * (n / l) + n % l && n % l < l
  {
  }

  lemma ModUnique(n: nat, l: nat, c: nat, k: nat)
    requires n == l * c + k && k < l
    ensures n % l == k
  {
    DivMod(n, l);
    if c < n / l {
      MulMonotone(l, c, n / l);
    } else if n / l < c {
      MulMonotone(l, n / l, c);
    }
  }

  lemma NextMod(n: nat, l: nat)
    requires l > 0
    ensures (n + 1) % l == if n % l + 1 < l then n % l + 1 else 0
  {
    var k, c := n % l, n / l;
    assert n == l * c + k;
    if k + 1 < l {
      ModUnique(n + 1, l, c, k + 1);
    } else {
      assert l * (c + 1) == l * c + l;
      ModUnique(n + 1, l, c + 1, 0);
    }
  }

  lemma TurnIdentity<T>(m: seq<T>, n: nat)
    requires m != [] && Distinct(m)
    ensures Turn(m, n) == m <==> n % |m| == 0
  {
    TurnIs(m, n);
    if n % |m| != 0 {
      assert Turn(m, n)[0] == m[n % |m|] != m[0];
    }
  }

  lemma {:induction false} ConsecutiveStays<T>(t: seq<T>, idx: nat, ix: seq<nat>)
    requires Consecutive(ix, idx) && |ix| <= |t|
    ensures Picked(t, idx, ix) + Kept(t, idx, ix) == t
  {
    if ix != [] {
      ConsecutiveStays(t[1..], idx + 1, ix[1..]);
    }
  }

  /** Consecutive requests only turn the block round. */
  lemma {:induction false} WalkTurns<T>(k: seq<T>, m: seq<T>, t: seq<T>, idx: nat, ix: seq<nat>)
    requires m != [] && Consecutive(ix, idx) && |ix| <= |t|
    ensures Walk(k + m + t, |k|, |k + m|, idx, ix) == k + Turn(m, |ix|) + t
    decreases |ix|
  {
    var s := k + m + t;
    if ix == [] {
    } else if |m| == 1 {
      assert MoveTo(s, |k|, |k + m|) == s;
      LoneTurn(k + m, t, idx + 1, ix[1..]);
      assert m[1..] + [m[0]] == m;
      TurnLone(m, |ix|);
    } else {
      assert MoveTo(s, |k|, |k + m|) == k + (m[1..] + [m[0]]) + t;
      WalkTurns(k, m[1..] + [m[0]], t, idx + 1, ix[1..]);
    }
  }

  lemma {:induction false} TurnLone<T>(m: seq<T>, n: nat)
    requires |m| == 1
    ensures Turn(m, n) == m
  {
    assert m[1..] + [m[0]] == m;
    if n > 0 { TurnLone(m, n - 1); }
  }

  lemma LoneTurn<T>(b: seq<T>, t: seq<T>, idx: nat, ix: seq<nat>)
    requires Consecutive(ix, idx) && |ix| <= |t|
    ensures Walk(b + t, |b|, |b|, idx, ix) == b + t
  {
    hide Walk, Picked, Kept;
    WalkAhead(b, t, idx, ix);
    ConsecutiveStays(t, idx, ix);
    Assoc(b, Picked(t, idx, ix), Kept(t, idx, ix));
  }

  lemma MoveKeepsTail<T>(s: seq<T>, p: nat, q: nat, far: nat)
    requires p < far && q <= far <= |s|
    ensures MoveTo(s, p, q)[far..] == s[far..]
  {
    var r, k := RemoveAt(s, p), if p < q then q - 1 else q;
    assert r[far - 1..] == s[far..];
    assert InsertAt(r, k, s[p])[far..] == r[far - 1..];
  }

  /** Elements too far ahead for the counter are never touched. */
  lemma {:induction false} WalkLeavesTail<T>(s: seq<T>, p: nat, q: nat, idx: nat, ix: seq<nat>, far: nat)
    requires p <= far && q <= far <= |s|
    requires Increasing(ix) && forall i :: 0 <= i < |ix| ==> idx <= ix[i] < idx + (far - p)
    ensures Walk(s, p, q, idx, ix)[far..] == s[far..]
    decreases |ix|, |s| - p
  {
    if p == |s| || ix == [] {
    } else if idx != ix[0] {
      WalkLeavesTail(s, p + 1, q, idx + 1, ix, far);
    } else {
      MoveKeepsTail(s, p, q, far);
      WalkLeavesTail(MoveTo(s, p, q), if p + 1 < q then p else p + 1, if p < q then q else q + 1,
                     idx + 1, ix[1..], far);
    }
  }

  lemma BelowPicks<T>(s: seq<T>, idx: nat, d: nat, ix: seq<nat>)
    requires idx <= d <= idx + |s| && Request(ix, idx, |s|)
    ensures var u, m := s[..d - idx], Below(ix, d);
      && |Picked(u, idx, ix)| == m
      && Picked(s, idx, ix) == Picked(u, idx, ix) + Picked(s[d - idx..], d, ix[m..])
  {
    SplitPicks(s, idx, d - idx, ix);
    hide Picked, Below;
  }

  ghost predicate Splits<T>(s: seq<T>, idx: nat, n: nat, ix: seq<nat>)
    requires n <= |s|
  {
    && |Picked(s[..n], idx, ix)| == Below(ix, idx + n)
    && Picked(s, idx, ix) == Picked(s[..n], idx, ix) + Picked(s[n..], idx + n, ix[Below(ix, idx + n)..])
  }

  lemma {:induction false} SplitPicks<T>(s: seq<T>, idx: nat, n: nat, ix: seq<nat>)
    requires n <= |s| && Request(ix, idx, |s|)
    ensures Splits(s, idx, n, ix)
    decreases n
  {
    RequestRest(ix, idx, |s|);
    hide *;
    if n == 0 || ix == [] {
      SplitNone(s, idx, n, ix);
    } else if idx == ix[0] {
      SplitPicks(s[1..], idx + 1, n - 1, ix[1..]);
      SplitHit(s, idx, n, ix);
    } else {
      SplitPicks(s[1..], idx + 1, n - 1, ix);
      SplitMiss(s, idx, n, ix);
    }
  }

  lemma SplitNone<T>(s: seq<T>, idx: nat, n: nat, ix: seq<nat>)
    requires n <= |s| && Request(ix, idx, |s|) && (n == 0 || ix == [])
    ensures Splits(s, idx, n, ix)
  {
    if n == 0 {
      assert s[0..] == s && ix[0..] == ix;
      Nothing(Picked(s, idx, ix));
    }
  }

  lemma SplitMiss<T>(s: seq<T>, idx: nat, n: nat, ix: seq<nat>)
    requires 0 < n <= |s| && ix != [] && idx < ix[0] && Splits(s[1..], idx + 1, n - 1, ix)
    ensures Splits(s, idx, n, ix)
  {
    hide Picked, Below;
    PickedStep(s[..n], idx, ix);
    PickedStep(s, idx, ix);
    Slices(s, n);
  }

  lemma SplitHit<T>(s: seq<T>, idx: nat, n: nat, ix: seq<nat>)
    requires 0 < n <= |s| && ix != [] && idx == ix[0] && Splits(s[1..], idx + 1, n - 1, ix[1..])
    ensures Splits(s, idx, n, ix)
  {
    hide Picked, Below;
    var b := Below(ix[1..], idx + n);
    PickedStep(s[..n], idx, ix);
    PickedStep(s, idx, ix);
    BelowStep(ix, idx + n);
    Slices(s, n);
    DropMore(ix, b);
    var first, last := Picked(s[1..][..n - 1], idx + 1, ix[1..]), Picked(s[n..], idx + n, ix[b + 1..]);
    assert Picked(s[1..], idx + 1, ix[1..]) == first + last;
    assert Picked(s, idx, ix) == [s[0]] + (first + last);
    assert Picked(s[..n], idx, ix) == [s[0]] + first;
    HitJoins(s[0], first, last);
  }

  lemma HitJoins<T>(x: T, first: seq<T>, last: seq<T>)
    ensures [x] + (first + last) == ([x] + first) + last && |[x] + first| == 1 + |first|
  {
  }

  lemma Nothing<T>(a: seq<T>)
    ensures [] + a == a
  {
  }

  lemma Slices<T>(s: seq<T>, n: nat)
    requires 0 < n <= |s|
    ensures s[..n] != [] && s[..n][0] == s[0]
    ensures s[..n][1..] == s[1..][..n - 1] && s[1..][n - 1..] == s[n..]
  {
  }

  lemma DropMore(ix: seq<nat>, n: nat)
    requires n < |ix|
    ensures ix[1..][n..] == ix[n + 1..]
  {
  }

  lemma PickedStep<T>(s: seq<T>, idx: nat, ix: seq<nat>)
    ensures Picked(s, idx, ix) ==
      if s == [] || ix == [] then []
      else if idx == ix[0] then [s[0]] + Picked(s[1..], idx + 1, ix[1..])
      else Picked(s[1..], idx + 1, ix)
  {
  }

  lemma RequestRest(ix: seq<nat>, idx: nat, n: nat)
    requires Request(ix, idx, n)
    ensures ix != [] ==> idx <= ix[0]
    ensures ix != [] && n > 0 ==> if idx == ix[0] then Request(ix[1..], idx + 1, n - 1) else Request(ix, idx + 1, n - 1)
  {
  }

  lemma BelowStep(ix: seq<nat>, d: nat)
    ensures Below(ix, d) == if ix == [] || ix[0] >= d then 0 else 1 + Below(ix[1..], d)
  {
  }

  lemma LastPicked<T>(t: seq<T>, d: nat, r: seq<nat>)
    requires Request(r, d, |t|) && r != []
    ensures t[r[|r| - 1] - d] in Picked(t, d, r)
  {
    PickedIs(t, d, r);
    assert Picked(t, d, r)[|r| - 1] == t[r[|r| - 1] - d];
  }

  lemma PickedNotKept<T>(t: seq<T>, d: nat, r: seq<nat>, x: T)
    requires Distinct(t) && x in Picked(t, d, r)
    ensures x !in Kept(t, d, r)
  {
    PickedOrKept(t, d, r);
    CountDistinct(t, x);
    assert multiset(Picked(t, d, r))[x] >= 1;
    assert x in Kept(t, d, r) ==> multiset(Kept(t, d, r))[x] >= 1;
  }

  lemma {:induction false} CountDistinct<T>(t: seq<T>, x: T)
    requires Distinct(t)
    ensures multiset(t)[x] <= 1
  {
    if t != [] {
      assert t == [t[0]] + t[1..];
      CountDistinct(t[1..], x);
      assert t[0] !in t[1..];
    }
  }

  lemma {:induction false} SpreadOut(r: seq<nat>, d: nat)
    requires Increasing(r) && r != [] && d <= r[0] && !Consecutive(r, d)
    ensures |r| <= r[|r| - 1] - d
  {
    if r[0] == d && |r| > 1 {
      assert Consecutive(r[1..], d + 1) ==> Consecutive(r, d);
      SpreadOut(r[1..], d + 1);
    } else {
      AtLeast(r, |r| - 1);
    }
  }

  lemma {:induction false} AtLeast(r: seq<nat>, i: nat)
    requires Increasing(r) && i < |r|
    ensures r[i] >= r[0] + i
  {
    if i > 0 { AtLeast(r, i - 1); }
  }

  /** A request with a gap behind the drop point is never met once the block is visited again. */
  lemma GapFails<T>(k: seq<T>, m: seq<T>, t: seq<T>, d: nat, r: seq<nat>)
    requires m != [] && Distinct(t) && Request(r, d, |t|) && r != [] && !Consecutive(r, d)
    ensures Walk(k + m + t, |k|, |k + m|, d, r) != k + m + Picked(t, d, r) + Kept(t, d, r)
  {
    hide *;
    RequestParts(r, d, |t|);
    var s, last := k + m + t, r[|r| - 1] - d;
    var far := |k + m| + last;
    WalkLeavesTail(s, |k|, |k + m|, d, r, far);
    SpreadOut(r, d);
    PickedIs(t, d, r);
    LastPicked(t, d, r);
    PickedNotKept(t, d, r, t[last]);
    Sizes(t, d, r);
    Behind(k + m, t, last);
    BehindPicked(k + m, Picked(t, d, r), Kept(t, d, r), last);
  }

  lemma RequestParts(r: seq<nat>, d: nat, n: nat)
    requires Request(r, d, n) && r != []
    ensures Increasing(r) && d <= r[0] && d <= r[|r| - 1] < d + n
    ensures forall i :: 0 <= i < |r| ==> d <= r[i] <= r[|r| - 1]
  {
  }

  lemma Behind<T>(a: seq<T>, t: seq<T>, i: nat)
    requires i < |t|
    ensures |(a + t)[|a| + i..]| > 0 && (a + t)[|a| + i..][0] == t[i]
  {
  }

  lemma BehindPicked<T>(a: seq<T>, picked: seq<T>, kept: seq<T>, i: nat)
    requires |picked| <= i < |picked| + |kept|
    ensures |(a + picked + kept)[|a| + i..]| > 0 && (a + picked + kept)[|a| + i..][0] in kept
  {
    assert (a + picked + kept)[|a| + i..][0] == kept[i - |picked|];
  }

  /** plt_move_items inside one list does exactly what was asked for if and only if the guard
      `Exact` holds. */
  lemma MoveExact<T>(s: seq<T>, d: nat, ix: seq<nat>)
    requires Distinct(s) && d <= |s| && Request(ix, 0, |s|)
    ensures Walk(s, 0, d, 0, ix) == Intended(s, d, ix) <==> Exact(ix, d)
  {
    hide *;
    var u, t := s[..d], s[d..];
    var k, b := Kept(u, 0, ix), Picked(u, 0, ix);
    assert u + t == s;
    DistinctParts(s, d);
    BelowPicks(s, 0, d, ix);
    DistinctPicks(u, ix);
    RequestBehind(ix, d, |s|);
    IntendedForm(s, d, ix);
    FromStart(u, t, ix);
    LoneLast(u, ix, |s|);
    Phases(ix, d, k, b, t);
  }

  lemma DistinctParts<T>(s: seq<T>, d: nat)
    requires Distinct(s) && d <= |s|
    ensures Distinct(s[..d]) && Distinct(s[d..])
  {
  }

  lemma {:induction false} RequestBehind(ix: seq<nat>, d: nat, n: nat)
    requires Request(ix, 0, n) && d <= n
    ensures Below(ix, d) <= |ix| && Request(ix[Below(ix, d)..], d, n - d)
  {
  }

  lemma IntendedForm<T>(s: seq<T>, d: nat, ix: seq<nat>)
    requires d <= |s| && Request(ix, 0, |s|)
    ensures var u, t := s[..d], s[d..];
      var k, b := Kept(u, 0, ix), Picked(u, 0, ix);
      && |b| == Below(ix, d)
      && Intended(s, d, ix) == k + b + Picked(t, d, ix[|b|..]) + Kept(t, d, ix[|b|..])
  {
    hide Picked, Kept;
    BelowPicks(s, 0, d, ix);
    Assoc(Kept(s[..d], 0, ix), Picked(s[..d], 0, ix), Picked(s[d..], d, ix[Below(ix, d)..]));
  }

  /** The walk over the front part, from the start of the list. */
  lemma FromStart<T>(u: seq<T>, t: seq<T>, ix: seq<nat>)
    ensures |Picked(u, 0, ix)| <= |ix| && |Kept(u, 0, ix) + Picked(u, 0, ix)| == |u|
    ensures var k, b := Kept(u, 0, ix), Picked(u, 0, ix);
      Walk(u + t, 0, |u|, 0, ix) == Walk(k + b + t, if InPlace(u, [], 0, ix) then |u| else |k|, |u|, |u|, ix[|b|..])
  {
    hide Walk, Picked, Kept;
    Sizes(u, 0, ix);
    WalkBefore([], u, [], t, 0, ix);
    var k, b := Kept(u, 0, ix), Picked(u, 0, ix);
    assert [] + u == u && u + [] == u && [] + k == k && [] + b == b;
  }

  lemma LoneLast<T>(u: seq<T>, ix: seq<nat>, n: nat)
    requires Request(ix, 0, n)
    ensures InPlace(u, [], 0, ix) <==> Below(ix, |u|) == 1 && ix[0] + 1 == |u|
  {
    var d := |u|;
    if u != [] && ix != [] && ix[0] == d - 1 && |ix| > 1 {
      assert ix[1..][0] == ix[1] >= d;
    }
  }

  lemma DistinctPicks<T>(u: seq<T>, ix: seq<nat>)
    requires Distinct(u)
    ensures Distinct(Picked(u, 0, ix))
  {
    PickedOrKept(u, 0, ix);
    forall i, j | 0 <= i < j < |Picked(u, 0, ix)|
      ensures Picked(u, 0, ix)[i] != Picked(u, 0, ix)[j]
    {
      var p := Picked(u, 0, ix);
      if p[i] == p[j] {
        assert p == p[..i] + [p[i]] + p[i + 1..j] + [p[j]] + p[j + 1..];
        assert multiset(p)[p[i]] >= 2;
        CountDistinct(u, p[i]);
      }
    }
  }

  /** The result of the second half of the walk, after the front part has been passed. */
  lemma Phases<T>(ix: seq<nat>, d: nat, k: seq<T>, b: seq<T>, t: seq<T>)
    requires Distinct(t) && Distinct(b) && |b| == Below(ix, d) && |k + b| == d && Request(ix[|b|..], d, |t|)
    ensures var r, p := ix[|b|..], if |b| == 1 && ix[0] + 1 == d then d else |k|;
      Walk(k + b + t, p, d, d, r) == k + b + Picked(t, d, r) + Kept(t, d, r) <==> Exact(ix, d)
  {
    var r := ix[|b|..];
    hide Walk, Distinct, Picked, Kept;
    if |b| == 0 || (|b| == 1 && ix[0] + 1 == d) {
      NoRevisit(k, b, t, d, r);
    } else if r == [] {
      NothingLeft(k, b, t, d);
    } else if Consecutive(r, d) {
      assert r[|r| - 1] == d + |r| - 1;
      FullTurns(k, b, t, d, r);
    } else {
      GapFails(k, b, t, d, r);
    }
  }

  lemma NoRevisit<T>(k: seq<T>, b: seq<T>, t: seq<T>, d: nat, r: seq<nat>)
    requires |k + b| == d
    ensures Walk(k + b + t, d, d, d, r) == k + b + Picked(t, d, r) + Kept(t, d, r)
  {
    hide Walk;
    WalkAhead(k + b, t, d, r);
  }

  lemma NothingLeft<T>(k: seq<T>, b: seq<T>, t: seq<T>, d: nat)
    requires |k + b| == d
    ensures Walk(k + b + t, |k|, d, d, []) == k + b + Picked(t, d, []) + Kept(t, d, [])
  {
    assert k + b + [] + t == k + b + t;
  }

  lemma FullTurns<T>(k: seq<T>, b: seq<T>, t: seq<T>, d: nat, r: seq<nat>)
    requires b != [] && Distinct(b) && |k + b| == d && Consecutive(r, d) && |r| <= |t|
    ensures Walk(k + b + t, |k|, d, d, r) == k + b + Picked(t, d, r) + Kept(t, d, r) <==> |r| % |b| == 0
  {
    hide Walk, Picked, Kept, Turn;
    WalkTurns(k, b, t, d, r);
    ConsecutiveStays(t, d, r);
    Assoc(k + b, Picked(t, d, r), Kept(t, d, r));
    TurnIdentity(b, |r|);
    var x, y := k + Turn(b, |r|) + t, k + b + t;
    assert x[|k|..d] == Turn(b, |r|) && y[|k|..d] == b;
  }

  /** The smallest failure: moving elements 0 and 3 of four in front of element 2 moves 2, not 3. */
  lemma StraddlingMoveFails()
    ensures var s, ix := ['A', 'B', 'C', 'D'], [0, 3];
      && Walk(s, 0, 2, 0, ix) == ['B', 'A', 'C', 'D']
      && Intended(s, 2, ix) == ['B', 'A', 'D', 'C']
  {
    var s, ix := ['A', 'B', 'C', 'D'], [0, 3];
    assert MoveTo(s, 0, 2) == ['B', 'A', 'C', 'D'];
    assert ix[1..] == [3];
    var r := ['B', 'A', 'C', 'D'];
    assert MoveTo(r, 2, 2) == r;
    assert Walk(r, 2, 2, 3, [3]) == Walk(r, 3, 3, 4, []) == r;
    assert Walk(r, 0, 2, 1, [3]) == Walk(r, 1, 2, 2, [3]) == Walk(r, 2, 2, 3, [3]);
    assert Walk(s, 0, 2, 0, ix) == r;
    assert s[..2] == ['A', 'B'] && s[2..] == ['C', 'D'];
    assert Kept(['A', 'B'], 0, ix) == ['B'] && Kept(['C', 'D'], 2, [3]) == ['C'];
    assert Picked(['C', 'D'], 2, [3]) == ['D'] && Picked(['B', 'C', 'D'], 1, [3]) == ['D'];
    assert Picked(s, 0, ix) == ['A', 'D'];
    assert Below(ix, 2) == 1;
  }
}
