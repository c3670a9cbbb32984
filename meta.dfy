/** Standard metafile definitions: the 2^14 metafile coordinate space, its
    conversion to and from device units, line-width specifications, the
    integer min/max/abs macros and the table of command letters. */
module Meta {

  /** The C `int` range (32 bits, two's complement). */
  const INT_MIN: int := -0x8000_0000
  const INT_MAX: int := 0x7fff_ffff
  type Int32 = x: int | INT_MIN <= x <= INT_MAX

  /** The `(int)` cast of a wider integer: keeps the low 32 bits, two's complement. */
  function ToInt32(x: int): (r: Int32)
    ensures INT_MIN <= x <= INT_MAX ==> r == x
    ensures (x - r) % 0x1_0000_0000 == 0
  {
    var m := x % 0x1_0000_0000;
    if m > INT_MAX then m - 0x1_0000_0000 else m
  }

  /** C integer division, which truncates toward zero (Dafny's `/` is Euclidean). */
  function CDiv(a: int, b: int): (q: int)
    requires b != 0
    ensures a >= 0 && b > 0 ==> q == a / b
  {
    if b > 0 then (if a >= 0 then a / b else -((-a) / b))
    else (if a >= 0 then -(a / -b) else (-a) / (-b))
  }

  /** C division truncates toward zero: negating either operand negates the quotient,
      so with the non-negative case it fixes every quotient. */
  lemma CDivTruncates(a: int, b: int)
    requires b != 0
    ensures CDiv(-a, b) == -CDiv(a, b) && CDiv(a, -b) == -CDiv(a, b)
  {
  }

  /** Metafile coordinate size, `1 << 14`. */
  const XYSIZE: int := 16384

  /** CONV: metafile coordinate to device coordinate for a device of `size` units.
      The product is formed in a `long`, taken here to be 64 bits wide as on LP64
      platforms, where the product of two `int`s always fits; it is shifted right by
      14 (an arithmetic shift, i.e. floor division by 2^14) and cast back to `int`. */
  function Conv(coord: Int32, size: Int32): (r: Int32)
    ensures coord == 0 ==> r == 0
    ensures coord == XYSIZE ==> r == size
    ensures 0 <= coord <= XYSIZE && 0 <= size ==> 0 <= r <= size
  {
    ConvBounds(coord, size);
    ToInt32((coord * size) / XYSIZE)
  }

  /** ICONV: device coordinate back to metafile units, `((long)dcoord << 14) / size`
      with C's truncating division, cast back to `int`. The shift is taken as the
      exact product dcoord * 2^14 in a 64-bit `long`; the C division needs a non-zero
      size. */
  function IConv(dcoord: Int32, size: Int32): Int32
    requires size != 0
  {
    ToInt32(CDiv(dcoord * XYSIZE, size))
  }

  /** ICONV maps the ends of the device range to the ends of the metafile range. */
  lemma IConvEnds(dcoord: Int32, size: Int32)
    requires size != 0
    ensures dcoord == 0 ==> IConv(dcoord, size) == 0
    ensures dcoord == size ==> IConv(dcoord, size) == XYSIZE
  {
    if dcoord == 0 {
      ZeroDiv(size);
    } else if dcoord == size {
      SelfDiv(size);
    }
  }

  lemma ZeroDiv(b: int)
    requires b != 0
    ensures CDiv(0, b) == 0
  {
    if b > 0 {
      assert 0 / b == 0;
    } else {
      assert 0 / -b == 0;
    }
  }

  // Facts about products and floor division, one nonlinear step each.

  lemma MulMono(a: int, b: int, k: int)
    requires a <= b && k >= 0
    ensures a * k <= b * k
  {
    assert b * k - a * k == (b - a) * k;
  }

  lemma CancelLe(k: int, a: int, b: int)
    requires k > 0 && k * a <= k * b
    ensures a <= b
  {
    if a > b {
      MulMono(b + 1, a, k);
    }
  }

  lemma BelowNext(k: int, a: int, b: int)
    requires k > 0 && k * a < k * b + k
    ensures a <= b
  {
    if a > b {
      MulMono(b + 1, a, k);
    }
  }

  lemma FloorMonotone(a: int, b: int, d: int)
    requires a <= b && d > 0
    ensures a / d <= b / d
  {
    assert d * (a / d) <= a;
    assert b < d * (b / d) + d;
    BelowNext(d, a / d, b / d);
  }

  lemma FloorUnique(a: int, d: int, q: int)
    requires d > 0 && d * q <= a < d * q + d
    ensures a / d == q
  {
    var r := a / d;
    assert d * r <= a < d * r + d;
    BelowNext(d, r, q);
    BelowNext(d, q, r);
  }

  lemma MulDiv(s: int, k: int)
    requires k > 0
    ensures (k * s) / k == s && (s * k) / k == s
  {
    FloorUnique(k * s, k, s);
  }

  lemma SelfDiv(size: int)
    requires size != 0
    ensures CDiv(size * XYSIZE, size) == XYSIZE
  {
    if size > 0 {
      MulDiv(XYSIZE, size);
    } else {
      MulDiv(XYSIZE, -size);
      assert -(size * XYSIZE) == (-size) * XYSIZE;
    }
  }

  /** Bounds of the scaled product for a coordinate within the metafile square
      or its mirror image. */
  lemma ScaleBounds(coord: int, size: int)
    requires -XYSIZE <= coord <= XYSIZE && 0 <= size
    ensures -size <= (coord * size) / XYSIZE <= size
  {
    MulMono(-XYSIZE, coord, size);
    MulMono(coord, XYSIZE, size);
    FloorMonotone(-XYSIZE * size, coord * size, XYSIZE);
    FloorMonotone(coord * size, XYSIZE * size, XYSIZE);
    MulDiv(-size, XYSIZE);
    MulDiv(size, XYSIZE);
  }

  lemma ConvBounds(coord: int, size: int)
    ensures -XYSIZE <= coord <= XYSIZE && 0 <= size ==> -size <= (coord * size) / XYSIZE <= size
    ensures 0 <= coord && 0 <= size ==> 0 <= (coord * size) / XYSIZE
    ensures coord == XYSIZE ==> (coord * size) / XYSIZE == size
  {
    if -XYSIZE <= coord <= XYSIZE && 0 <= size {
      ScaleBounds(coord, size);
    }
    if 0 <= coord && 0 <= size {
      MulMono(0, coord, size);
    }
    if coord == XYSIZE {
      MulDiv(size, XYSIZE);
    }
  }

  lemma ConvValue(c: Int32, size: Int32)
    requires -XYSIZE <= c <= XYSIZE && 0 <= size
    ensures Conv(c, size) == (c * size) / XYSIZE
  {
    ScaleBounds(c, size);
  }

  /** CONV is monotone in the coordinate for a non-negative device size, over the
      coordinates of the metafile square and its mirror image (no 32-bit wrap there). */
  lemma ConvMonotone(c1: Int32, c2: Int32, size: Int32)
    requires -XYSIZE <= c1 <= c2 <= XYSIZE && 0 <= size
    ensures Conv(c1, size) <= Conv(c2, size)
  {
    MulMono(c1, c2, size);
    ConvValue(c1, size);
    ConvValue(c2, size);
    FloorMonotone(c1 * size, c2 * size, XYSIZE);
  }

  lemma IConvValue(d: Int32, size: Int32)
    requires 0 <= d <= size && 0 < size
    ensures IConv(d, size) == (d * XYSIZE) / size
    ensures 0 <= IConv(d, size) <= XYSIZE
  {
    IConvNonNegative(d, size);
    FloorMonotone(0, d * XYSIZE, size);
    FloorMonotone(d * XYSIZE, size * XYSIZE, size);
    MulDiv(XYSIZE, size);
  }

  lemma IConvNonNegative(d: Int32, size: Int32)
    requires 0 <= d && 0 < size
    ensures IConv(d, size) == ToInt32((d * XYSIZE) / size)
  {
  }

  /** Going from the metafile to a device and back never moves a coordinate
      of the metafile square upward. */
  lemma IConvAfterConv(c: Int32, size: Int32)
    requires 0 <= c <= XYSIZE && 0 < size
    ensures IConv(Conv(c, size), size) <= c
  {
    ConvValue(c, size);
    ConvBounds(c, size);
    var p := (c * size) / XYSIZE;
    assert XYSIZE * p <= c * size;
    IConvNonNegative(p, size);
    var q := (p * XYSIZE) / size;
    assert size * q <= p * XYSIZE;
    CancelLe(size, q, c);
    assert q <= c;
  }

  /** Going from a device to the metafile and back loses at most one device unit,
      for devices no finer than the metafile. */
  lemma ConvAfterIConv(d: Int32, size: Int32)
    requires 0 <= d <= size <= XYSIZE && 0 < size
    ensures d - 1 <= Conv(IConv(d, size), size) <= d
  {
    IConvValue(d, size);
    var q := (d * XYSIZE) / size;
    assert size * q <= d * XYSIZE < size * q + size;
    ConvValue(q, size);
    var r := (q * size) / XYSIZE;
    assert XYSIZE * r <= q * size < XYSIZE * r + XYSIZE;
    CancelLe(XYSIZE, r, d);
    BelowNext(XYSIZE, d - 1, r);
  }


  function Pow2(n: nat): (r: nat)
    ensures r >= 1
  {
    if n == 0 then 1 else 2 * Pow2(n - 1)
  }

  lemma {:induction false} Pow2Add(a: nat, b: nat)
    ensures Pow2(a + b) == Pow2(a) * Pow2(b)
    decreases a
  {
    if a > 0 {
      Pow2Add(a - 1, b);
    }
  }

  /** WIDTH: 0 for width specification 0, otherwise 12 * 2^w. Shifting by 31 or more,
      by a negative amount, or overflowing `int` (w >= 28) is undefined in C. */
  function Width(w: int): (r: Int32)
    requires 0 <= w < 28
    ensures w == 0 ==> r == 0
    ensures w != 0 ==> r == 12 * Pow2(w) && r >= 24
  {
    if w == 0 then 0 else WidthFits(w); 12 * Pow2(w)
  }

  lemma WidthFits(w: nat)
    requires w < 28
    ensures 12 * Pow2(w) <= 12 * Pow2(27) < INT_MAX
  {
    Pow2Mono(w, 27);
    Pow2Of27();
  }

  lemma {:induction false} Pow2Mono(a: nat, b: nat)
    requires a <= b
    ensures Pow2(a) <= Pow2(b)
    decreases b - a
  {
    if a < b {
      Pow2Mono(a, b - 1);
    }
  }

  lemma Pow2Of27()
    ensures Pow2(27) == 0x800_0000
  {
    Pow2Add(9, 9);
    Pow2Add(18, 9);
    assert Pow2(9) == 512;
  }

  /** Each step up in width specification doubles the width. */
  lemma {:induction false} WidthDoubles(w: int)
    requires 1 <= w < 27
    ensures Width(w + 1) == 2 * Width(w)
  {
    assert Pow2(w + 1) == 2 * Pow2(w);
  }

  /** `max`, `min` and `abs` macros. */
  function Max(x: int, y: int): (r: int)
    ensures r >= x && r >= y && (r == x || r == y)
  {
    if x > y then x else y
  }

  function Min(x: int, y: int): (r: int)
    ensures r <= x && r <= y && (r == x || r == y)
  {
    if x < y then x else y
  }

  /** `abs` of an `int`; negating INT_MIN overflows, so it is excluded. */
  function Abs(x: Int32): (r: Int32)
    requires x != INT_MIN
    ensures r >= 0 && (r == x || r == -x)
  {
    if x < 0 then -x else x
  }

  /** Global (page-level) command codes. */
  const PEOF: char := 'F'
  const PEOP: char := 'E'
  const PPAUS: char := 'P'
  const PDRAW: char := 'D'
  const POPEN: char := 'O'
  const PCLOSE: char := 'C'
  const PSET: char := 'S'
  const PUNSET: char := 'U'
  const PRESET: char := 'R'
  const PINCL: char := 'I'

  /** Primitive command codes. */
  const PLSEG: char := 'l'
  const PRFILL: char := 'r'
  const PTFILL: char := 't'
  const PMSTR: char := 'm'
  const PVSTR: char := 'v'
  const PSEG: char := 's'
  const PPFILL: char := 'p'

  const NCOMMANDS: int := 17
  const COML: string := "lrtmsvpOCESURPDIF"

  const GLOBALS: set<char> := {PEOF, PEOP, PPAUS, PDRAW, POPEN, PCLOSE, PSET, PUNSET, PRESET, PINCL}
  const PRIMITIVES: set<char> := {PLSEG, PRFILL, PTFILL, PMSTR, PVSTR, PSEG, PPFILL}

  /** `isglob` is `isupper` and `isprim` is `islower` (C locale). */
  predicate IsGlob(c: char) { 'A' <= c <= 'Z' }
  predicate IsPrim(c: char) { 'a' <= c <= 'z' }

  /** The command table holds NCOMMANDS distinct letters, whose upper-case letters
      are exactly the global codes and whose lower-case letters are exactly the
      primitive codes. */
  lemma CommandTable()
    ensures |COML| == NCOMMANDS
    ensures forall i, j :: 0 <= i < j < |COML| ==> COML[i] != COML[j]
    ensures forall c :: c in COML ==> (IsGlob(c) <==> c in GLOBALS) && (IsPrim(c) <==> c in PRIMITIVES)
    ensures forall c :: c in GLOBALS + PRIMITIVES <==> c in COML
    ensures GLOBALS !! PRIMITIVES
  {
    CommandKinds();
    CommandLetters();
  }

  lemma CommandKinds()
    ensures forall c :: c in COML ==> (IsGlob(c) <==> c in GLOBALS) && (IsPrim(c) <==> c in PRIMITIVES)
    ensures GLOBALS !! PRIMITIVES
  {
  }

  lemma CommandLetters()
    ensures |COML| == NCOMMANDS
    ensures forall i, j :: 0 <= i < j < |COML| ==> COML[i] != COML[j]
    ensures forall c :: c in GLOBALS + PRIMITIVES <==> c in COML
  {
  }
}
