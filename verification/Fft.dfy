/** The in-place radix-2 transform of src/fft.c, in exact complex arithmetic.
    Main result: loading a real signal through the bit-reversal table and running the
    butterfly stages leaves, in slot k, the sum over n of x[n] * w^(n*k). */
module Fft {

  // ----- complex numbers ---------------------------------------------------------------

  datatype Complex = Complex(re: real, im: real)

  const ZERO := Complex(0.0, 0.0)
  const ONE := Complex(1.0, 0.0)
  const MINUS_ONE := Complex(-1.0, 0.0)

  function Add(a: Complex, b: Complex): Complex {
    Complex(a.re + b.re, a.im + b.im)
  }

  function Sub(a: Complex, b: Complex): Complex {
    Complex(a.re - b.re, a.im - b.im)
  }

  function Mul(a: Complex, b: Complex): Complex {
    Complex(a.re * b.re - a.im * b.im, a.re * b.im + a.im * b.re)
  }

  function Conj(a: Complex): Complex {
    Complex(a.re, -a.im)
  }

  function Pow(w: Complex, n: nat): Complex {
    if n == 0 then ONE else Mul(w, Pow(w, n - 1))
  }

  lemma MulAssoc(a: Complex, b: Complex, c: Complex)
    ensures Mul(Mul(a, b), c) == Mul(a, Mul(b, c))
  {
    assert (a.re * b.re - a.im * b.im) * c.re - (a.re * b.im + a.im * b.re) * c.im
        == a.re * (b.re * c.re - b.im * c.im) - a.im * (b.re * c.im + b.im * c.re);
    assert (a.re * b.re - a.im * b.im) * c.im + (a.re * b.im + a.im * b.re) * c.re
        == a.re * (b.re * c.im + b.im * c.re) + a.im * (b.re * c.re - b.im * c.im);
  }

  lemma MulComm(a: Complex, b: Complex)
    ensures Mul(a, b) == Mul(b, a)
  {
  }

  lemma MulDistrib(a: Complex, b: Complex, c: Complex)
    ensures Mul(a, Add(b, c)) == Add(Mul(a, b), Mul(a, c))
  {
    assert a.re * (b.re + c.re) - a.im * (b.im + c.im)
        == (a.re * b.re - a.im * b.im) + (a.re * c.re - a.im * c.im);
    assert a.re * (b.im + c.im) + a.im * (b.re + c.re)
        == (a.re * b.im + a.im * b.re) + (a.re * c.im + a.im * c.re);
  }

  lemma {:induction false} PowAdd(w: Complex, m: nat, n: nat)
    ensures Pow(w, m + n) == Mul(Pow(w, m), Pow(w, n))
  {
    hide Mul;
    if m == 0 {
      MulUnits(Pow(w, n));
    } else {
      PowAdd(w, m - 1, n);
      MulAssoc(w, Pow(w, m - 1), Pow(w, n));
    }
  }

  lemma {:induction false} PowMul(w: Complex, m: nat, n: nat)
    ensures Pow(w, m * n) == Pow(Pow(w, m), n)
  {
    hide Mul;
    if n == 0 {
      assert m * n == 0;
    } else {
      assert m * n == m + m * (n - 1);
      PowAdd(w, m, m * (n - 1));
      PowMul(w, m, n - 1);
    }
  }

  lemma MulUnits(a: Complex)
    ensures Mul(ONE, a) == a == Mul(a, ONE)
    ensures Mul(ZERO, a) == ZERO == Mul(a, ZERO)
  {
  }

  lemma MinusOne(a: Complex)
    ensures Mul(MINUS_ONE, a) == Sub(ZERO, a)
  {
  }

  // ----- the reference: polynomial evaluation and the Fourier sum -----------------------

  /** x[0] + z*x[1] + z^2*x[2] + ... */
  function Eval(x: seq<Complex>, z: Complex): Complex {
    if x == [] then ZERO else Add(x[0], Mul(z, Eval(x[1..], z)))
  }

  /** The first `n` terms of the discrete Fourier sum for bin `k`. */
  function DftSum(x: seq<Complex>, w: Complex, k: nat, n: nat): Complex
    requires n <= |x|
  {
    if n == 0 then ZERO else Add(DftSum(x, w, k, n - 1), Mul(x[n - 1], Pow(w, (n - 1) * k)))
  }

  lemma {:induction false} EvalSnoc(x: seq<Complex>, c: Complex, z: Complex)
    ensures Eval(x + [c], z) == Add(Eval(x, z), Mul(c, Pow(z, |x|)))
  {
    hide Mul;
    if x == [] {
      assert (x + [c])[1..] == [] && x + [c] == [c];
      MulUnits(c);
      MulUnits(z);
    } else {
      var t, p := Eval(x[1..], z), Mul(c, Pow(z, |x| - 1));
      EvalSnoc(x[1..], c, z);
      assert (x + [c])[1..] == x[1..] + [c];
      MulDistrib(z, t, p);
      MulAssoc(z, c, Pow(z, |x| - 1));
      MulComm(z, c);
      MulAssoc(c, z, Pow(z, |x| - 1));
    }
  }

  lemma {:induction false} DftSumIsEval(x: seq<Complex>, w: Complex, k: nat, n: nat)
    requires n <= |x|
    ensures DftSum(x, w, k, n) == Eval(x[..n], Pow(w, k))
  {
    hide Mul;
    if n > 0 {
      DftSumIsEval(x, w, k, n - 1);
      assert x[..n] == x[..n - 1] + [x[n - 1]];
      EvalSnoc(x[..n - 1], x[n - 1], Pow(w, k));
      PowMul(w, k, n - 1);
      assert k * (n - 1) == (n - 1) * k;
    }
  }

  // ----- even and odd samples ------------------------------------------------------------

  function Evens(x: seq<Complex>): seq<Complex> {
    seq((|x| + 1) / 2, m requires 0 <= m < (|x| + 1) / 2 => x[2 * m])
  }

  function Odds(x: seq<Complex>): seq<Complex> {
    seq(|x| / 2, m requires 0 <= m < |x| / 2 => x[2 * m + 1])
  }

  lemma TwoMore(x: seq<Complex>)
    requires |x| >= 2
    ensures x == [x[0]] + ([x[1]] + x[2..])
    ensures Evens(x) == [x[0]] + Evens(x[2..]) && Odds(x) == [x[1]] + Odds(x[2..])
  {
  }

  lemma SplitStep(a: Complex, b: Complex, e: Complex, o: Complex, z: Complex)
    ensures var q := Mul(z, z);
      Add(a, Mul(z, Add(b, Mul(z, Add(e, Mul(z, o))))))
      == Add(Add(a, Mul(q, e)), Mul(z, Add(b, Mul(q, o))))
  {
    var q := Mul(z, z);
    MulDistrib(z, e, Mul(z, o));
    MulDistrib(z, b, Add(Mul(z, e), Mul(z, Mul(z, o))));
    MulDistrib(z, Mul(z, e), Mul(z, Mul(z, o)));
    MulAssoc(z, z, e);
    MulAssoc(z, z, o);
    MulDistrib(z, b, Mul(q, o));
  }

  lemma EvalCons(a: Complex, x: seq<Complex>, z: Complex)
    ensures Eval([a] + x, z) == Add(a, Mul(z, Eval(x, z)))
  {
    assert ([a] + x)[1..] == x;
  }

  /** Evaluation splits into the even and the odd samples, both at the squared point. */
  lemma {:induction false} EvalSplit(x: seq<Complex>, z: Complex)
    requires |x| % 2 == 0
    ensures Eval(x, z) == Add(Eval(Evens(x), Mul(z, z)), Mul(z, Eval(Odds(x), Mul(z, z))))
  {
    hide Mul;
    if |x| >= 2 {
      TwoMore(x);
      EvalSplit(x[2..], z);
      EvalSplitCons(x[0], x[1], x[2..], z);
    } else {
      assert x == Evens(x) == Odds(x) == [];
      MulUnits(z);
      MulUnits(Mul(z, z));
    }
  }

  lemma EvalSplitCons(a: Complex, b: Complex, x: seq<Complex>, z: Complex)
    requires Eval(x, z) == Add(Eval(Evens(x), Mul(z, z)), Mul(z, Eval(Odds(x), Mul(z, z))))
    ensures Eval([a] + ([b] + x), z) == Add(Eval([a] + Evens(x), Mul(z, z)), Mul(z, Eval([b] + Odds(x), Mul(z, z))))
  {
    hide Mul;
      var q := Mul(z, z);
      EvalCons(a, [b] + x, z);
      EvalCons(b, x, z);
      EvalCons(a, Evens(x), q);
      EvalCons(b, Odds(x), q);
      SplitStep(a, b, Eval(Evens(x), q), Eval(Odds(x), q), z);
  }

  // ----- bit reversal --------------------------------------------------------------------

  function Pow2(n: nat): (r: nat)
    ensures r > 0
  {
    if n == 0 then 1 else 2 * Pow2(n - 1)
  }

  /** The lowest `bits` bits of `x`, in reverse order. */
  function Rev(x: nat, bits: nat): (y: nat)
    ensures y < Pow2(bits)
  {
    if bits == 0 then 0 else (if x % 2 == 0 then 0 else Pow2(bits - 1)) + Rev(x / 2, bits - 1)
  }

  /** The index that bit reversal sends to `y`. */
  function RevInverse(y: nat, bits: nat): (x: nat)
    requires y < Pow2(bits)
    ensures x < Pow2(bits)
  {
    if bits == 0 then 0
    else if y < Pow2(bits - 1) then 2 * RevInverse(y, bits - 1)
    else 2 * RevInverse(y - Pow2(bits - 1), bits - 1) + 1
  }

  /** Bit reversal is a bijection of the slots: each is written exactly once by the load. */
  lemma {:induction false} RevBijective(x: nat, y: nat, bits: nat)
    requires x < Pow2(bits) && y < Pow2(bits)
    ensures RevInverse(Rev(x, bits), bits) == x
    ensures Rev(RevInverse(y, bits), bits) == y
  {
    if bits > 0 {
      var h := Pow2(bits - 1);
      RevBijective(x / 2, if y < h then y else y - h, bits - 1);
      RevStep(x, bits);
      RevInverseStep(Rev(x, bits), bits);
      RevInverseStep(y, bits);
      RevStep(RevInverse(y, bits), bits);
      hide Rev, RevInverse;
    }
  }

  lemma RevStep(x: nat, bits: nat)
    requires bits > 0
    ensures Rev(x, bits) == (if x % 2 == 0 then 0 else Pow2(bits - 1)) + Rev(x / 2, bits - 1)
    ensures Rev(x / 2, bits - 1) < Pow2(bits - 1)
  {
  }

  lemma RevInverseStep(y: nat, bits: nat)
    requires bits > 0 && y < Pow2(bits)
    ensures var h := Pow2(bits - 1); var low := if y < h then y else y - h;
      && low < h && RevInverse(y, bits) == 2 * RevInverse(low, bits - 1) + (if y < h then 0 else 1)
      && RevInverse(y, bits) / 2 == RevInverse(low, bits - 1)
  {
  }

  /** The samples in bit-reversed order. */
  function Reordered(x: seq<Complex>, bits: nat): (r: seq<Complex>)
    requires |x| == Pow2(bits)
    ensures |r| == |x|
    decreases bits
  {
    if bits == 0 then x else Reordered(Evens(x), bits - 1) + Reordered(Odds(x), bits - 1)
  }

  lemma {:induction false} ReorderedAt(x: seq<Complex>, bits: nat, n: nat)
    requires |x| == Pow2(bits) && n < |x|
    ensures Reordered(x, bits)[Rev(n, bits)] == x[n]
    decreases bits
  {
    if bits == 0 {
      assert n == 0 && Rev(n, bits) == 0;
    } else {
      var h := Pow2(bits - 1);
      var e, o := Reordered(Evens(x), bits - 1), Reordered(Odds(x), bits - 1);
      assert |e| == h && Reordered(x, bits) == e + o;
      var m := Rev(n / 2, bits - 1);
      if n % 2 == 0 {
        ReorderedAt(Evens(x), bits - 1, n / 2);
        assert Rev(n, bits) == m && (e + o)[m] == e[m];
      } else {
        ReorderedAt(Odds(x), bits - 1, n / 2);
        assert Rev(n, bits) == h + m && (e + o)[h + m] == o[m];
      }
    }
  }

  // ----- the transform as recursion, and as a run of stages ------------------------------

  function Sums(e: seq<Complex>, o: seq<Complex>, z: Complex, n: nat): (r: seq<Complex>)
    requires n <= |e| == |o|
    ensures |r| == n
  {
    if n == 0 then [] else Sums(e, o, z, n - 1) + [Add(e[n - 1], Mul(Pow(z, n - 1), o[n - 1]))]
  }

  function Differences(e: seq<Complex>, o: seq<Complex>, z: Complex, n: nat): (r: seq<Complex>)
    requires n <= |e| == |o|
    ensures |r| == n
  {
    if n == 0 then [] else Differences(e, o, z, n - 1) + [Sub(e[n - 1], Mul(Pow(z, n - 1), o[n - 1]))]
  }

  /** One group of butterflies: e[k] + z^k*o[k] for all k, then e[k] - z^k*o[k]. */
  function Butterfly(e: seq<Complex>, o: seq<Complex>, z: Complex): (r: seq<Complex>)
    requires |e| == |o|
    ensures |r| == 2 * |e|
  {
    Sums(e, o, z, |e|) + Differences(e, o, z, |e|)
  }

  lemma {:induction false} ButterflyAt(e: seq<Complex>, o: seq<Complex>, z: Complex, n: nat, j: nat)
    requires j < n <= |e| == |o|
    ensures Sums(e, o, z, n)[j] == Add(e[j], Mul(Pow(z, j), o[j]))
    ensures Differences(e, o, z, n)[j] == Sub(e[j], Mul(Pow(z, j), o[j]))
  {
    if j < n - 1 {
      ButterflyAt(e, o, z, n - 1, j);
    }
  }

  function FftRec(b: seq<Complex>, bits: nat, w: Complex): (r: seq<Complex>)
    requires |b| == Pow2(bits)
    ensures |r| == |b|
  {
    if bits == 0 then b
    else
      var h := Pow2(bits - 1);
      Butterfly(FftRec(b[..h], bits - 1, Mul(w, w)), FftRec(b[h..], bits - 1, Mul(w, w)), w)
  }

  lemma PowUnit(w: Complex)
    ensures Pow(w, 1) == w
  {
    hide Mul;
    assert Pow(w, 1) == Mul(w, Pow(w, 0));
    MulUnits(w);
  }

  lemma PowSquare(w: Complex, k: nat)
    ensures Pow(Mul(w, w), k) == Mul(Pow(w, k), Pow(w, k)) == Pow(w, 2 * k)
  {
    hide Mul;
    PowUnit(w);
    assert Pow(w, 2) == Mul(w, Pow(w, 1));
    PowMul(w, 2, k);
    PowAdd(w, k, k);
    assert k + k == 2 * k;
  }

  lemma FftRecAt(e: seq<Complex>, o: seq<Complex>, bits: nat, w: Complex, j: nat)
    requires |e| == |o| == Pow2(bits) && j < |e|
    ensures var a, b := FftRec(e, bits, Mul(w, w))[j], FftRec(o, bits, Mul(w, w))[j];
      && FftRec(e + o, bits + 1, w)[j] == Add(a, Mul(Pow(w, j), b))
      && FftRec(e + o, bits + 1, w)[|e| + j] == Sub(a, Mul(Pow(w, j), b))
  {
    hide Mul;
    assert (e + o)[..|e|] == e && (e + o)[|e|..] == o;
    ButterflyAt(FftRec(e, bits, Mul(w, w)), FftRec(o, bits, Mul(w, w)), w, |e|, j);
  }

  /** The recursion computes the Fourier sum, given only that w^(N/2) is -1. */
  lemma {:induction false} FftRecCorrect(x: seq<Complex>, bits: nat, w: Complex, k: nat)
    requires |x| == Pow2(bits) && k < |x|
    requires bits > 0 ==> Pow(w, Pow2(bits - 1)) == MINUS_ONE
    ensures FftRec(Reordered(x, bits), bits, w)[k] == Eval(x, Pow(w, k))
    decreases bits
  {
    hide Mul, Evens, Odds, FftRec, Eval, Pow;
    if bits == 0 {
      FftRecOne(x, w);
    } else {
      var h, q := Pow2(bits - 1), Mul(w, w);
      var j := if k < h then k else k - h;
      HalfRoot(w, bits);
      var e, o := Reordered(EvenHalf(x, bits), bits - 1), Reordered(OddHalf(x, bits), bits - 1);
      assert Reordered(x, bits) == e + o;
      FftRecCorrect(EvenHalf(x, bits), bits - 1, q, j);
      FftRecCorrect(OddHalf(x, bits), bits - 1, q, j);
      FftRecAt(e, o, bits - 1, w, j);
      Combine(x, w, h, j, FftRec(e, bits - 1, q)[j], FftRec(o, bits - 1, q)[j]);
    }
  }

  lemma FftRecOne(x: seq<Complex>, w: Complex)
    requires |x| == 1
    ensures FftRec(Reordered(x, 0), 0, w)[0] == Eval(x, Pow(w, 0))
  {
    assert x[1..] == [];
    MulUnits(ONE);
  }

  ghost function EvenHalf(x: seq<Complex>, bits: nat): (r: seq<Complex>)
    requires bits > 0 && |x| == Pow2(bits)
    ensures |r| == Pow2(bits - 1) && r == Evens(x)
  {
    Evens(x)
  }

  ghost function OddHalf(x: seq<Complex>, bits: nat): (r: seq<Complex>)
    requires bits > 0 && |x| == Pow2(bits)
    ensures |r| == Pow2(bits - 1) && r == Odds(x)
  {
    Odds(x)
  }

  lemma HalfRoot(w: Complex, bits: nat)
    requires bits > 0 && Pow(w, Pow2(bits - 1)) == MINUS_ONE
    ensures bits > 1 ==> Pow(Mul(w, w), Pow2(bits - 2)) == MINUS_ONE
  {
    if bits > 1 { PowSquare(w, Pow2(bits - 2)); }
  }

  /** Two half-size results combine into bins j and h+j. */
  lemma Combine(x: seq<Complex>, w: Complex, h: nat, j: nat, e: Complex, o: Complex)
    requires |x| % 2 == 0 && Pow(w, h) == MINUS_ONE
    requires e == Eval(Evens(x), Pow(Mul(w, w), j)) && o == Eval(Odds(x), Pow(Mul(w, w), j))
    ensures Eval(x, Pow(w, j)) == Add(e, Mul(Pow(w, j), o))
    ensures Eval(x, Pow(w, h + j)) == Sub(e, Mul(Pow(w, j), o))
  {
    hide Mul;
    PowSquare(w, j);
    EvalSplit(x, Pow(w, j));
    EvalSplit(x, Pow(w, h + j));
    SecondHalf(w, h, j, o, e);
  }

  lemma SecondHalf(w: Complex, h: nat, j: nat, o: Complex, e: Complex)
    requires Pow(w, h) == MINUS_ONE
    ensures Mul(Pow(w, h + j), Pow(w, h + j)) == Mul(Pow(w, j), Pow(w, j))
    ensures Add(e, Mul(Pow(w, h + j), o)) == Sub(e, Mul(Pow(w, j), o))
  {
    PowAdd(w, h, j);
    MinusOne(Pow(w, j));
    hide Pow;
    Negated(Pow(w, j), o, e);
  }

  lemma Negated(p: Complex, o: Complex, e: Complex)
    ensures Mul(Sub(ZERO, p), Sub(ZERO, p)) == Mul(p, p)
    ensures Add(e, Mul(Sub(ZERO, p), o)) == Sub(e, Mul(p, o))
  {
  }

  ghost predicate Multiple(n: nat, d: nat) {
    n == 0 || (0 < d <= n && Multiple(n - d, d))
  }

  lemma {:induction false} MultipleAdd(a: nat, b: nat, d: nat)
    requires Multiple(a, d) && Multiple(b, d)
    ensures Multiple(a + b, d)
    decreases a
  {
    if a > 0 {
      MultipleAdd(a - d, b, d);
      assert a + b - d == (a - d) + b;
    }
  }

  lemma {:induction false} Pow2Multiple(n: nat, s: nat)
    requires s <= n
    ensures Multiple(Pow2(n), Pow2(s))
  {
    if s == n {
      assert Multiple(Pow2(s) - Pow2(s), Pow2(s));
    } else {
      Pow2Multiple(n - 1, s);
      MultipleAdd(Pow2(n - 1), Pow2(n - 1), Pow2(s));
    }
  }

  /** Consecutive blocks of 2^bits samples, each transformed on its own. */
  function BlockFft(b: seq<Complex>, bits: nat, w: Complex): (r: seq<Complex>)
    ensures |r| == |b|
  {
    if |b| < Pow2(bits) then b
    else FftRec(b[..Pow2(bits)], bits, w) + BlockFft(b[Pow2(bits)..], bits, w)
  }

  /** One pass over the array: consecutive groups of butterflies of half-width `h`. */
  function Stage(b: seq<Complex>, h: nat, z: Complex): (r: seq<Complex>)
    requires 0 < h
    ensures |r| == |b|
  {
    if |b| < 2 * h then b else Butterfly(b[..h], b[h..2 * h], z) + Stage(b[2 * h..], h, z)
  }

  lemma TwoBlocks(b: seq<Complex>, bits: nat, w: Complex)
    requires 2 * Pow2(bits) <= |b|
    ensures BlockFft(b, bits, w)
         == FftRec(b[..Pow2(bits)], bits, w) + FftRec(b[Pow2(bits)..2 * Pow2(bits)], bits, w)
            + BlockFft(b[2 * Pow2(bits)..], bits, w)
  {
    var h := Pow2(bits);
    assert b[h..][..h] == b[h..2 * h] && b[h..][h..] == b[2 * h..];
    assert BlockFft(b[h..], bits, w) == FftRec(b[h..2 * h], bits, w) + BlockFft(b[2 * h..], bits, w);
  }

  /** A stage turns transformed blocks into transformed blocks of twice the size. */
  lemma {:induction false} StageDoublesBlocks(b: seq<Complex>, bits: nat, z: Complex)
    requires Multiple(|b|, 2 * Pow2(bits))
    ensures Stage(BlockFft(b, bits, Mul(z, z)), Pow2(bits), z) == BlockFft(b, bits + 1, z)
    decreases |b|
  {
    hide Mul, Pow, Sums, Differences;
    var h, q := Pow2(bits), Mul(z, z);
    if b != [] {
      TwoBlocks(b, bits, q);
      var s := BlockFft(b, bits, q);
      var first, second := FftRec(b[..h], bits, q), FftRec(b[h..2 * h], bits, q);
      assert s[..h] == first && s[h..2 * h] == second && s[2 * h..] == BlockFft(b[2 * h..], bits, q);
      assert b[..2 * h][..h] == b[..h] && b[..2 * h][h..] == b[h..2 * h];
      assert FftRec(b[..2 * h], bits + 1, z) == Butterfly(first, second, z);
      StageDoublesBlocks(b[2 * h..], bits, z);
    }
  }

  lemma {:induction false} BlocksOfOne(b: seq<Complex>, w: Complex)
    ensures BlockFft(b, 0, w) == b
  {
    if b != [] {
      BlocksOfOne(b[1..], w);
    }
  }

  // ----- the code: tables, load and in-place loops ---------------------------------------

  /** Shifts `bits` bits of `x` out at the bottom and into the result. */
  method BitReverse(x: nat, bits: nat) returns (y: nat)
    ensures y == Rev(x, bits)
  {
    y := 0;
    var rest, n := x, bits;
    while n != 0
      invariant 0 <= n <= bits
      invariant Rev(x, bits) == Shifted(y, n) + Rev(rest, n)
    {
      n := n - 1;
      ShiftStep(y, rest % 2, n);
      y, rest := 2 * y + rest % 2, rest / 2;
    }
  }

  function Shifted(y: nat, n: nat): (r: nat)
    ensures y == 0 ==> r == 0
  {
    if n == 0 then y else 2 * Shifted(y, n - 1)
  }

  lemma {:induction false} ShiftStep(y: nat, bit: nat, n: nat)
    requires bit < 2
    ensures Shifted(2 * y + bit, n) == Shifted(y, n + 1) + if bit == 0 then 0 else Pow2(n)
  {
    if n > 0 { ShiftStep(y, bit, n - 1); }
  }

  /** The signal that enters the transform: samples times window, no imaginary part. */
  function Windowed(data: seq<real>, window: seq<real>): (x: seq<Complex>)
    requires |data| == |window|
    ensures |x| == |data|
  {
    seq(|data|, n requires 0 <= n < |data| => Complex(data[n] * window[n], 0.0))
  }

  /** The static tables: sizes, the bit-reversal table and the N/2 roots of unity. */
  class Tables {
    const bits: nat
    const size: nat
    const w: Complex
    const reversed: array<nat>
    const roots: array<Complex>

    ghost predicate Valid()
      reads reversed, roots
    {
      && size == Pow2(bits)
      && reversed.Length == size && (forall n :: 0 <= n < size ==> reversed[n] == Rev(n, bits))
      && roots.Length == size / 2 && (forall n :: 0 <= n < size / 2 ==> roots[n] == Pow(w, n))
      && (bits > 0 ==> Pow(w, size / 2) == MINUS_ONE)
    }

    /** `w` stands for e^(2*pi*i/N), whose N/2-th power is -1. */
    constructor (bits: nat, w: Complex)
      requires bits > 0 ==> Pow(w, Pow2(bits - 1)) == MINUS_ONE
      ensures Valid() && fresh(reversed) && fresh(roots)
      ensures this.bits == bits && this.w == w
    {
      this.bits, this.w, this.size := bits, w, Pow2(bits);
      var rev := new nat[Pow2(bits)];
      var rts := new Complex[Pow2(bits) / 2];
      for n := 0 to rev.Length
        invariant forall m :: 0 <= m < n ==> rev[m] == Rev(m, bits)
      {
        rev[n] := BitReverse(n, bits);
      }
      for n := 0 to rts.Length
        invariant forall m :: 0 <= m < n ==> rts[m] == Pow(w, m)
        invariant forall m :: 0 <= m < rev.Length ==> rev[m] == Rev(m, bits)
      {
        rts[n] := Pow(w, n);
      }
      reversed, roots := rev, rts;
    }

    /** The butterflies of the group at `g`: only slots g .. g + 2*half change. */
    method Group(a: array<Complex>, g: nat, half: nat, inv: nat, ghost s: seq<Complex>, ghost z: Complex)
      requires Valid() && a != roots
      requires Times(half, inv) == size / 2 && 0 < inv && g + 2 * half <= a.Length
      requires z == Pow(w, inv) && StageDone(s, a[..], g, half, z)
      modifies a
      ensures StageDone(s, a[..], g + 2 * half, half, z)
    {
      hide Mul, Pow, Add, Sub, Butterfly, Stage;
      ghost var was := a[..];
      var b, r := 0, 0;
      while b < half
        invariant 0 <= b <= half && r == Times(b, inv)
        invariant forall i :: 0 <= i < a.Length ==> a[i] == Slot(was, g, half, b, z, i)
      {
        RootIndex(w, b, half, inv);
        var even := a[g + b];
        var odd := Mul(roots[r], a[g + half + b]);
        a[g + b] := Add(even, odd);
        a[g + half + b] := Sub(even, odd);
        b, r := b + 1, r + inv;
      }
      SlotsAreButterfly(was, a[..], g, half, z);
      StageStep(s, was, a[..], g, half, z);
    }

    /** All groups of one step. */
    method Step(a: array<Complex>, half: nat, inv: nat, ghost z: Complex)
      requires Valid() && a != roots && a.Length == size
      requires 0 < half && 0 < inv && Times(half, inv) == size / 2 && Multiple(size, 2 * half)
      requires z == Pow(w, inv)
      modifies a
      ensures a[..] == Stage(old(a[..]), half, z)
    {
      hide Pow, Stage, StageDone;
      ghost var s := a[..];
      var g := 0;
      StageBounds(s, s, half, z);
      while g < size
        invariant 0 <= g <= size && Multiple(size - g, 2 * half)
        invariant StageDone(s, a[..], g, half, z)
        decreases size - g
      {
        assert Multiple(size - (g + 2 * half), 2 * half);
        Group(a, g, half, inv, s, z);
        g := g + 2 * half;
      }
      StageBounds(s, a[..], half, z);
    }

    /** The three nested loops: one step per bit, with doubling half-width. */
    method DoFft(a: array<Complex>)
      requires Valid() && a != roots && a.Length == size
      modifies a
      ensures a[..] == FftRec(old(a[..]), bits, w)
    {
      hide Mul, Pow, FftRec, Stage, BlockFft, Multiple, Times;
      ghost var b := a[..];
      ghost var s: nat := 0;
      var half, inv := 1, size / 2;
      BlocksOfOne(b, Pow(w, Pow2(bits)));
      while inv != 0
        invariant s <= bits && half == Pow2(s)
        invariant inv == if s == bits then 0 else Pow2(bits - s - 1)
        invariant a[..] == BlockFft(b, s, Pow(w, Pow2(bits - s)))
        decreases inv
      {
        StageStart(w, bits, s);
        ghost var z := Pow(w, inv);
        Step(a, half, inv, z);
        StageDoublesBlocks(b, s, z);
        half, inv := half * 2, inv / 2;
        s := s + 1;
      }
      OneBlock(b, bits, w);
    }

    /** The loading loop followed by the transform: every slot k ends as the k-th Fourier sum. */
    method Calculate(data: seq<real>, hamming: seq<real>) returns (a: array<Complex>)
      requires Valid() && |data| == |hamming| == size
      ensures fresh(a) && a.Length == size
      ensures forall k :: 0 <= k < size ==> a[k] == DftSum(Windowed(data, hamming), w, k, size)
    {
      hide Mul, Pow, FftRec, Rev, Reordered, DftSum;
      ghost var x := Windowed(data, hamming);
      a := new Complex[size](_ => ZERO);
      for n := 0 to size
        invariant forall m :: 0 <= m < n ==> a[Rev(m, bits)] == x[m]
      {
        RevDistinct(n, bits);
        a[reversed[n]] := Complex(data[n] * hamming[n], 0.0);
      }
      AllSlotsLoaded(a[..], x, bits);
      DoFft(a);
      FftRecIsDft(x, bits, w);
    }
  }

  /** Slot `i` when the first `b` butterflies of the group at `g` are done. */
  ghost function Slot(was: seq<Complex>, g: nat, half: nat, b: nat, z: Complex, i: nat): Complex
    requires b <= half && g + 2 * half <= |was| && i < |was|
  {
    if g <= i < g + b then Add(was[i], Mul(Pow(z, i - g), was[i + half]))
    else if g + half <= i < g + half + b then Sub(was[i - half], Mul(Pow(z, i - g - half), was[i]))
    else was[i]
  }

  lemma SlotsAreButterfly(was: seq<Complex>, now: seq<Complex>, g: nat, half: nat, z: Complex)
    requires g + 2 * half <= |was| == |now|
    requires forall i :: 0 <= i < |now| ==> now[i] == Slot(was, g, half, half, z, i)
    ensures now[..g] == was[..g]
    ensures var rest := was[g..];
      now[g..] == Butterfly(rest[..half], rest[half..2 * half], z) + rest[2 * half..]
  {
    hide Mul, Pow, Add, Sub;
    var rest := was[g..];
    var e, o := rest[..half], rest[half..2 * half];
    var sums, diffs := Sums(e, o, z, half), Differences(e, o, z, half);
    forall i | 0 <= i < half
      ensures now[g + i] == sums[i] && now[g + half + i] == diffs[i]
    {
      ButterflyAt(e, o, z, half, i);
    }
    assert now[g..] == (sums + diffs) + rest[2 * half..];
  }

  /** The groups before slot `g` are done, the rest is as it was. */
  ghost predicate StageDone(s: seq<Complex>, now: seq<Complex>, g: nat, half: nat, z: Complex) {
    && 0 < half && g <= |s| == |now|
    && now[g..] == s[g..]
    && Stage(s, half, z) == now[..g] + Stage(s[g..], half, z)
  }

  lemma StageBounds(s: seq<Complex>, now: seq<Complex>, half: nat, z: Complex)
    requires 0 < half && |s| == |now|
    ensures StageDone(s, s, 0, half, z)
    ensures StageDone(s, now, |s|, half, z) ==> now == Stage(s, half, z)
  {
    hide Mul;
    assert s[0..] == s && s[..0] == [];
    assert s[|s|..] == [] && now[..|s|] == now;
  }

  lemma StageStep(s: seq<Complex>, before: seq<Complex>, after: seq<Complex>, g: nat, half: nat, z: Complex)
    requires StageDone(s, before, g, half, z) && g + 2 * half <= |s| == |after|
    requires after[..g] == before[..g]
    requires var rest := before[g..];
      after[g..] == Butterfly(rest[..half], rest[half..2 * half], z) + rest[2 * half..]
    ensures StageDone(s, after, g + 2 * half, half, z)
  {
    hide Mul, Stage, Butterfly;
    var rest := s[g..];
    var group := Butterfly(rest[..half], rest[half..2 * half], z);
    StageIs(rest, half, z);
    Splice(s, before, after, group, g, Stage(rest[2 * half..], half, z));
  }

  lemma StageIs(b: seq<Complex>, h: nat, z: Complex)
    requires 0 < h && 2 * h <= |b|
    ensures Stage(b, h, z) == Butterfly(b[..h], b[h..2 * h], z) + Stage(b[2 * h..], h, z)
  {
    hide Butterfly;
  }

  lemma Splice<T>(s: seq<T>, before: seq<T>, after: seq<T>, group: seq<T>, g: nat, tail: seq<T>)
    requires g + |group| <= |s| == |before| == |after|
    requires before[g..] == s[g..] && after[..g] == before[..g]
    requires after[g..] == group + s[g..][|group|..]
    ensures s[g..][|group|..] == s[g + |group|..] == after[g + |group|..]
    ensures before[..g] + (group + tail) == after[..g + |group|] + tail
  {
    assert after[g + |group|..] == after[g..][|group|..];
    assert after[..g + |group|] == after[..g] + after[g..][..|group|];
  }

  /** b steps of `inv`: the root index after b butterflies. */
  ghost function Times(b: nat, inv: nat): nat {
    if b == 0 then 0 else Times(b - 1, inv) + inv
  }

  /** The root index stays inside the table, and the root found there is z^b for z = w^inv. */
  lemma {:induction false} RootIndex(w: Complex, b: nat, half: nat, inv: nat)
    requires b < half && 0 < inv
    ensures Times(b, inv) < Times(half, inv)
    ensures Pow(w, Times(b, inv)) == Pow(Pow(w, inv), b)
  {
    hide Mul;
    if b < half - 1 {
      RootIndex(w, b, half - 1, inv);
    } else if b > 0 {
      RootIndex(w, b - 1, half - 1, inv);
      PowAdd(w, inv, Times(b - 1, inv));
    }
  }

  lemma {:induction false} HalfTimesInverse(s: nat, t: nat)
    ensures Times(Pow2(s), Pow2(t)) == Pow2(s + t)
  {
    if s == 0 {
      assert Times(1, Pow2(t)) == Times(0, Pow2(t)) + Pow2(t);
    } else {
      HalfTimesInverse(s - 1, t);
      TimesAdd(Pow2(s - 1), Pow2(s - 1), Pow2(t));
    }
  }

  lemma {:induction false} TimesAdd(a: nat, b: nat, inv: nat)
    ensures Times(a + b, inv) == Times(a, inv) + Times(b, inv)
  {
    if b > 0 { TimesAdd(a, b - 1, inv); }
  }

  lemma StageStart(w: Complex, bits: nat, s: nat)
    requires s < bits
    ensures var inv := Pow2(bits - s - 1);
      && Times(Pow2(s), inv) == Pow2(bits) / 2
      && Mul(Pow(w, inv), Pow(w, inv)) == Pow(w, Pow2(bits - s))
    ensures Multiple(Pow2(bits), 2 * Pow2(s))
  {
    hide Mul;
    HalfTimesInverse(s, bits - s - 1);
    Pow2Multiple(bits, s + 1);
    PowAdd(w, Pow2(bits - s - 1), Pow2(bits - s - 1));
  }

  lemma OneBlock(b: seq<Complex>, bits: nat, w: Complex)
    requires |b| == Pow2(bits)
    ensures BlockFft(b, bits, Pow(w, Pow2(0))) == FftRec(b, bits, w)
  {
    hide Mul;
    PowUnit(w);
    assert b[..Pow2(bits)] == b && b[Pow2(bits)..] == [];
    assert BlockFft([], bits, w) == [];
  }

  lemma FftRecIsDft(x: seq<Complex>, bits: nat, w: Complex)
    requires |x| == Pow2(bits)
    requires bits > 0 ==> Pow(w, Pow2(bits - 1)) == MINUS_ONE
    ensures forall k :: 0 <= k < |x| ==> FftRec(Reordered(x, bits), bits, w)[k] == DftSum(x, w, k, |x|)
  {
    hide Mul;
    assert x[..|x|] == x;
    forall k | 0 <= k < |x|
      ensures FftRec(Reordered(x, bits), bits, w)[k] == DftSum(x, w, k, |x|)
    {
      FftRecCorrect(x, bits, w, k);
      DftSumIsEval(x, w, k, |x|);
    }
  }

  lemma RevDistinct(n: nat, bits: nat)
    requires n < Pow2(bits)
    ensures forall m :: 0 <= m < n ==> Rev(m, bits) != Rev(n, bits)
  {
    forall m | 0 <= m < n
      ensures Rev(m, bits) != Rev(n, bits)
    {
      RevBijective(m, 0, bits);
      RevBijective(n, 0, bits);
    }
  }

  lemma AllSlotsLoaded(a: seq<Complex>, x: seq<Complex>, bits: nat)
    requires |a| == |x| == Pow2(bits)
    requires forall m :: 0 <= m < |x| ==> a[Rev(m, bits)] == x[m]
    ensures a == Reordered(x, bits)
  {
    forall p | 0 <= p < |a|
      ensures a[p] == Reordered(x, bits)[p]
    {
      RevBijective(0, p, bits);
      ReorderedAt(x, bits, RevInverse(p, bits));
    }
  }
  // ----- a real signal fills only half of the bins -------------------------------------------

  lemma ConjMul(a: Complex, b: Complex)
    ensures Conj(Mul(a, b)) == Mul(Conj(a), Conj(b))
  {
  }

  lemma {:induction false} ConjPow(w: Complex, n: nat)
    ensures Conj(Pow(w, n)) == Pow(Conj(w), n)
  {
    hide Mul;
    if n > 0 {
      ConjPow(w, n - 1);
      ConjMul(w, Pow(w, n - 1));
    }
  }

  /** A root on the unit circle keeps its powers there. */
  lemma {:induction false} PowTimesConj(w: Complex, n: nat)
    requires Mul(w, Conj(w)) == ONE
    ensures Mul(Pow(w, n), Pow(Conj(w), n)) == ONE
  {
    MulUnits(ONE);
    hide Mul, Conj;
    if n > 0 {
      var v, p, q := Conj(w), Pow(w, n - 1), Pow(Conj(w), n - 1);
      PowTimesConj(w, n - 1);
      MulAssoc(w, p, Mul(v, q));
      MulAssoc(p, v, q);
      MulComm(p, v);
      MulAssoc(v, p, q);
      MulUnits(v);
    }
  }

  /** Counting backwards round the circle is conjugation. */
  lemma MirrorPower(w: Complex, size: nat, k: nat, n: nat)
    requires Mul(w, Conj(w)) == ONE && Pow(w, size) == ONE && k <= size
    ensures Pow(w, n * (size - k)) == Conj(Pow(w, n * k))
  {
    hide Mul, Pow, Conj;
    MirrorRoot(w, size, k);
    PowMul(w, size - k, n);
    PowMul(Conj(w), k, n);
    assert (size - k) * n == n * (size - k) && k * n == n * k;
    ConjPow(w, n * k);
  }

  lemma MirrorRoot(w: Complex, size: nat, k: nat)
    requires Mul(w, Conj(w)) == ONE && Pow(w, size) == ONE && k <= size
    ensures Pow(w, size - k) == Pow(Conj(w), k)
  {
    PowTimesConj(w, k);
    PowAdd(w, k, size - k);
    assert k + (size - k) == size;
    hide Mul, Pow, Conj;
    var u, v, c := Pow(w, k), Pow(w, size - k), Pow(Conj(w), k);
    MulComm(u, c);
    MulAssoc(c, u, v);
    MulUnits(v);
    MulUnits(c);
  }

  lemma ConjZero()
    ensures Conj(ZERO) == ZERO
  {
  }

  lemma ConjAdd(a: Complex, b: Complex)
    ensures Conj(Add(a, b)) == Add(Conj(a), Conj(b))
  {
  }

  lemma {:induction false} MirrorSum(x: seq<Complex>, w: Complex, size: nat, k: nat, n: nat)
    requires n <= |x| && forall i :: 0 <= i < |x| ==> x[i] == Conj(x[i])
    requires Mul(w, Conj(w)) == ONE && Pow(w, size) == ONE && k <= size
    ensures DftSum(x, w, size - k, n) == Conj(DftSum(x, w, k, n))
  {
    hide Mul, Pow, Conj, Add;
    if n > 0 {
      MirrorSum(x, w, size, k, n - 1);
      MirrorPower(w, size, k, n - 1);
      ConjMul(x[n - 1], Pow(w, (n - 1) * k));
      ConjAdd(DftSum(x, w, k, n - 1), Mul(x[n - 1], Pow(w, (n - 1) * k)));
    } else {
      ConjZero();
    }
  }

  /** Bins k and N - k of a real signal are conjugate, so the bins up to N/2 that fft_calculate reads
      tell the rest. */
  lemma BinsMirror(data: seq<real>, window: seq<real>, w: Complex, bits: nat, k: nat)
    requires bits > 0 && |data| == |window| == Pow2(bits) && 0 < k < Pow2(bits)
    requires Mul(w, Conj(w)) == ONE && Pow(w, Pow2(bits - 1)) == MINUS_ONE
    ensures var x := Windowed(data, window);
      DftSum(x, w, Pow2(bits) - k, Pow2(bits)) == Conj(DftSum(x, w, k, Pow2(bits)))
  {
    var h := Pow2(bits - 1);
    PowAdd(w, h, h);
    MinusOne(MINUS_ONE);
    assert Pow2(bits) == h + h && Pow(w, h + h) == ONE;
    hide Mul, Pow, DftSum, Pow2;
    MirrorSum(Windowed(data, window), w, h + h, k, h + h);
  }
}
