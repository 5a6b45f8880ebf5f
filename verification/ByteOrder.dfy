/** Integers as the file formats store them. */
module ByteOrder {
  import opened PlayItems

  const U32 := 0x1_0000_0000
  const U28 := 0x1000_0000

  /** Unsigned 32-bit subtraction. */
  function Sub32(a: int, b: int): (r: int)
    ensures 0 <= r < U32
  {
    (a - b) % U32
  }

  /** The bit of `x` that `mask`, a power of two, selects. */
  predicate Has(x: nat, mask: nat)
    requires mask > 0
  {
    (x / mask) % 2 == 1
  }

  /** The value of four digits, lowest first. */
  function Horner(d0: int, d1: int, d2: int, d3: int, base: int): int {
    d0 + base * (d1 + base * (d2 + base * d3))
  }

  // ----- little endian ---------------------------------------------------------------------

  function Le32(x: nat): (r: seq<byte>)
    ensures |r| == 4
  {
    var y := x / 0x100;
    var z := y / 0x100;
    [x % 0x100, y % 0x100, z % 0x100, z / 0x100 % 0x100]
  }

  function FromLe32(b: seq<byte>): (x: nat)
    requires |b| == 4
    ensures x < U32
  {
    Horner(b[0], b[1], b[2], b[3], 0x100)
  }

  lemma Le32Back(x: nat)
    requires x < U32
    ensures FromLe32(Le32(x)) == x
  {
    Digits(x, 0x100);
  }

  /** Four digits make up a number. */
  lemma Digits(x: nat, b: nat)
    requires b > 0
    ensures var y := x / b; var z := y / b; var w := z / b;
      x == Horner(x % b, y % b, z % b, w, b)
  {
  }

  // ----- big endian ------------------------------------------------------------------------

  function Be32(x: nat): (r: seq<byte>)
    ensures |r| == 4
  {
    var y := x / 0x100;
    var z := y / 0x100;
    [z / 0x100 % 0x100, z % 0x100, y % 0x100, x % 0x100]
  }

  function FromBe32(b: seq<byte>): (x: nat)
    requires |b| == 4
    ensures x < U32
  {
    Horner(b[3], b[2], b[1], b[0], 0x100)
  }

  lemma Be32Back(x: nat)
    requires x < U32
    ensures FromBe32(Be32(x)) == x
  {
    Digits(x, 0x100);
  }

  function Be24(x: nat): (r: seq<byte>)
    ensures |r| == 3
  {
    var y := x / 0x100;
    [y / 0x100 % 0x100, y % 0x100, x % 0x100]
  }

  function FromBe24(b: seq<byte>): (x: nat)
    requires |b| == 3
    ensures x < 0x100_0000
  {
    Horner(b[2], b[1], b[0], 0, 0x100)
  }

  lemma Be24Back(x: nat)
    requires x < 0x100_0000
    ensures FromBe24(Be24(x)) == x
  {
    Digits(x, 0x100);
  }

  // ----- syncsafe --------------------------------------------------------------------------

  /** Seven bits a byte. */
  function Sync28(x: nat): (r: seq<byte>)
    ensures |r| == 4 && forall i :: 0 <= i < 4 ==> r[i] < 0x80
  {
    var y := x / 0x80;
    var z := y / 0x80;
    [z / 0x80 % 0x80, z % 0x80, y % 0x80, x % 0x80]
  }

  /** The four bytes shifted by seven bits each and or-ed; a byte with its top bit set overlaps the
      lowest bit of the next. */
  function FromSync28(b: seq<byte>): (x: nat)
    requires |b| == 4
    ensures x < 0x2000_0000
    ensures (forall i :: 0 <= i < 4 ==> b[i] < 0x80) ==> x == Horner(b[3], b[2], b[1], b[0], 0x80) < U28
  {
    Horner(b[3], b[2], b[1], b[0], 0x80)
    - (if b[3] >= 0x80 && b[2] % 2 == 1 then 0x80 else 0)
    - (if b[2] >= 0x80 && b[1] % 2 == 1 then 0x4000 else 0)
    - (if b[1] >= 0x80 && b[0] % 2 == 1 then 0x20_0000 else 0)
  }

  lemma Sync28Back(x: nat)
    requires x < U28
    ensures FromSync28(Sync28(x)) == x
  {
    Digits(x, 0x80);
  }

  // ----- slices ----------------------------------------------------------------------------

  lemma Assoc<T>(a: seq<T>, b: seq<T>, c: seq<T>)
    ensures (a + b) + c == a + (b + c)
  {
  }

  lemma SubSlice<T>(s: seq<T>, a: nat, b: nat, c: nat, d: nat)
    requires a <= b <= |s| && c <= d <= b - a
    ensures s[a..b][c..d] == s[a + c..a + d]
  {
    var t, u := s[a..b][c..d], s[a + c..a + d];
    assert |t| == |u| && forall i :: 0 <= i < |t| ==> t[i] == s[a + c + i] == u[i];
  }

  lemma AddWord(a: nat, b: nat)
    ensures (a % U32 + b) % U32 == (a + b) % U32
  {
  }
}
