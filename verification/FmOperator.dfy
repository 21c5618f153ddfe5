/**
  The wave forms of the FM synthesiser, functions of an integer phase with pi at 0x10000.
  The phase is unbounded here; the C code agrees as long as its `int` does not overflow.
*/
module FmOperator {

  const FMSYNTH_PI := 0x1_0000
  const SHRT_MAX := 32767

  // The phase brought into [0, 2 pi).
  function PhaseAdjust(th: int): (r: nat)
    ensures r < FMSYNTH_PI * 2
  {
    (if th < 0 then FMSYNTH_PI - th else th) % (FMSYNTH_PI * 2)
  }

  // Rows of sixteen samples of the first quarter of a sine.
  datatype Samples = Samples(a: int, b: int, c: int, d: int, e: int, f: int, g: int, h: int,
                             i: int, j: int, k: int, l: int, m: int, n: int, o: int, p: int)
  {
    function At(x: nat): int
      requires x < 16
    {
      match x
      case 0 => a case 1 => b case 2 => c case 3 => d
      case 4 => e case 5 => f case 6 => g case 7 => h
      case 8 => i case 9 => j case 10 => k case 11 => l
      case 12 => m case 13 => n case 14 => o case 15 => p
    }

    predicate Rises() {
      && 0 <= a <= b <= c <= d <= e <= f <= g <= h <= i
      && i <= j <= k <= l <= m <= n <= o <= p <= SHRT_MAX
    }
  }

  function Row(k: nat): (row: Samples)
    requires k < 16
    ensures row.Rises()
  {
    match k
    case 0 => Samples(0x0000, 0x00c9, 0x0192, 0x025b, 0x0324, 0x03ed, 0x04b6, 0x057e,
                      0x0647, 0x0710, 0x07d9, 0x08a1, 0x096a, 0x0a32, 0x0afb, 0x0bc3)
    case 1 => Samples(0x0c8b, 0x0d53, 0x0e1b, 0x0ee3, 0x0fab, 0x1072, 0x1139, 0x1200,
                      0x12c7, 0x138e, 0x1455, 0x151b, 0x15e1, 0x16a7, 0x176d, 0x1833)
    case 2 => Samples(0x18f8, 0x19bd, 0x1a82, 0x1b46, 0x1c0b, 0x1ccf, 0x1d93, 0x1e56,
                      0x1f19, 0x1fdc, 0x209f, 0x2161, 0x2223, 0x22e4, 0x23a6, 0x2467)
    case 3 => Samples(0x2527, 0x25e7, 0x26a7, 0x2767, 0x2826, 0x28e5, 0x29a3, 0x2a61,
                      0x2b1e, 0x2bdb, 0x2c98, 0x2d54, 0x2e10, 0x2ecc, 0x2f86, 0x3041)
    case 4 => Samples(0x30fb, 0x31b4, 0x326d, 0x3326, 0x33de, 0x3496, 0x354d, 0x3603,
                      0x36b9, 0x376f, 0x3824, 0x38d8, 0x398c, 0x3a3f, 0x3af2, 0x3ba4)
    case 5 => Samples(0x3c56, 0x3d07, 0x3db7, 0x3e67, 0x3f16, 0x3fc5, 0x4073, 0x4120,
                      0x41cd, 0x4279, 0x4325, 0x43d0, 0x447a, 0x4523, 0x45cc, 0x4674)
    case 6 => Samples(0x471c, 0x47c3, 0x4869, 0x490e, 0x49b3, 0x4a57, 0x4afa, 0x4b9d,
                      0x4c3f, 0x4ce0, 0x4d80, 0x4e20, 0x4ebf, 0x4f5d, 0x4ffa, 0x5097)
    case 7 => Samples(0x5133, 0x51ce, 0x5268, 0x5301, 0x539a, 0x5432, 0x54c9, 0x555f,
                      0x55f4, 0x5689, 0x571d, 0x57b0, 0x5842, 0x58d3, 0x5963, 0x59f3)
    case 8 => Samples(0x5a81, 0x5b0f, 0x5b9c, 0x5c28, 0x5cb3, 0x5d3d, 0x5dc6, 0x5e4f,
                      0x5ed6, 0x5f5d, 0x5fe2, 0x6067, 0x60eb, 0x616e, 0x61f0, 0x6271)
    case 9 => Samples(0x62f1, 0x6370, 0x63ee, 0x646b, 0x64e7, 0x6562, 0x65dd, 0x6656,
                      0x66ce, 0x6745, 0x67bc, 0x6831, 0x68a5, 0x6919, 0x698b, 0x69fc)
    case 10 => Samples(0x6a6c, 0x6adb, 0x6b4a, 0x6bb7, 0x6c23, 0x6c8e, 0x6cf8, 0x6d61,
                       0x6dc9, 0x6e30, 0x6e95, 0x6efa, 0x6f5e, 0x6fc0, 0x7022, 0x7082)
    case 11 => Samples(0x70e1, 0x7140, 0x719d, 0x71f9, 0x7254, 0x72ae, 0x7306, 0x735e,
                       0x73b5, 0x740a, 0x745e, 0x74b1, 0x7503, 0x7554, 0x75a4, 0x75f3)
    case 12 => Samples(0x7640, 0x768d, 0x76d8, 0x7722, 0x776b, 0x77b3, 0x77f9, 0x783f,
                       0x7883, 0x78c6, 0x7908, 0x7949, 0x7989, 0x79c7, 0x7a04, 0x7a41)
    case 13 => Samples(0x7a7c, 0x7ab5, 0x7aee, 0x7b25, 0x7b5c, 0x7b91, 0x7bc4, 0x7bf7,
                       0x7c29, 0x7c59, 0x7c88, 0x7cb6, 0x7ce2, 0x7d0e, 0x7d38, 0x7d61)
    case 14 => Samples(0x7d89, 0x7db0, 0x7dd5, 0x7df9, 0x7e1c, 0x7e3e, 0x7e5e, 0x7e7e,
                       0x7e9c, 0x7eb9, 0x7ed4, 0x7eef, 0x7f08, 0x7f20, 0x7f37, 0x7f4c)
    case 15 => Samples(0x7f61, 0x7f74, 0x7f86, 0x7f96, 0x7fa6, 0x7fb4, 0x7fc1, 0x7fcd,
                       0x7fd7, 0x7fe0, 0x7fe8, 0x7fef, 0x7ff5, 0x7ff9, 0x7ffc, 0x7ffe)
  }

  // The table: one sample before the quarter, the quarter, and its final value.
  function SinTbl(i: nat): int
    requires i < 258
  {
    if i == 0 then -201 else if i == 257 then 0x7fff else Row((i - 1) / 16).At((i - 1) % 16)
  }

  function PseudoSin256(theta: int): int {
    SinAt(PhaseAdjust(theta))
  }

  // From `v` towards `next`, `rest` of 128 parts of the way, rounded down.
  function Interpolate(v: int, next: int, rest: nat): int {
    v + (next - v) * rest / 128
  }

  function SinAt(theta: nat): int
    requires theta < FMSYNTH_PI * 2
  {
    var rest := theta % 128;
    var phase := theta / (FMSYNTH_PI / 2);
    var tblidx := theta % (FMSYNTH_PI / 2) / 128;
    var shortSin :=
      if phase % 2 == 1 then Interpolate(SinTbl(257 - tblidx), SinTbl(256 - tblidx), rest)
      else Interpolate(SinTbl(tblidx + 1), SinTbl(tblidx + 2), rest);
    if phase / 2 % 2 == 1 then -shortSin else shortSin
  }

  // ----- The table rises from 0 to 0x7fff -----

  lemma RowsJoin(k: nat)
    requires k < 15
    ensures Row(k).p <= Row(k + 1).a
  {
  }

  lemma WithinRow(s: Samples, j: nat)
    requires s.Rises() && j < 16
    ensures 0 <= s.At(j) <= SHRT_MAX && (j < 15 ==> s.At(j) <= s.At(j + 1))
  {
  }

  lemma TableRises(i: nat)
    requires 1 <= i < 257
    ensures 0 <= SinTbl(i) <= SinTbl(i + 1) <= SHRT_MAX
  {
    hide Row, Samples.Rises;
    var k, j := (i - 1) / 16, (i - 1) % 16;
    WithinRow(Row(k), j);
    if j < 15 {
      assert i / 16 == k && i % 16 == j + 1;
      WithinRow(Row(k), j + 1);
    } else if k < 15 {
      assert i / 16 == k + 1 && i % 16 == 0;
      RowsJoin(k);
      WithinRow(Row(k + 1), 0);
    }
  }

  // ----- The table is a sine -----

  predicate OnCircle(x: int, y: int) {
    SHRT_MAX * SHRT_MAX - 83000 <= x * x + y * y <= SHRT_MAX * SHRT_MAX
  }

  // The samples of a row with those as far before the quarter turn as they are after zero;
  // `first` belongs to the first one.
  predicate RowOnCircle(r: Samples, q: Samples, first: int) {
    && OnCircle(r.a, first) && OnCircle(r.b, q.p) && OnCircle(r.c, q.o) && OnCircle(r.d, q.n)
    && OnCircle(r.e, q.m) && OnCircle(r.f, q.l) && OnCircle(r.g, q.k) && OnCircle(r.h, q.j)
    && OnCircle(r.i, q.i) && OnCircle(r.j, q.h) && OnCircle(r.k, q.g) && OnCircle(r.l, q.f)
    && OnCircle(r.m, q.e) && OnCircle(r.n, q.d) && OnCircle(r.o, q.c) && OnCircle(r.p, q.b)
  }

  function RowHead(k: nat): int
    requires k <= 16
  {
    if k == 16 then 0x7fff else Row(k).a
  }

  lemma RowsOnCircle0()
    ensures RowOnCircle(Row(0), Row(15), RowHead(16))
    ensures RowOnCircle(Row(1), Row(14), RowHead(15))
  {
  }

  lemma RowsOnCircle2()
    ensures RowOnCircle(Row(2), Row(13), RowHead(14))
    ensures RowOnCircle(Row(3), Row(12), RowHead(13))
  {
  }

  lemma RowsOnCircle4()
    ensures RowOnCircle(Row(4), Row(11), RowHead(12))
    ensures RowOnCircle(Row(5), Row(10), RowHead(11))
  {
  }

  lemma RowsOnCircle6()
    ensures RowOnCircle(Row(6), Row(9), RowHead(10))
    ensures RowOnCircle(Row(7), Row(8), RowHead(9))
  {
  }

  lemma RowsOnCircle(k: nat)
    requires k < 8
    ensures RowOnCircle(Row(k), Row(15 - k), RowHead(16 - k))
  {
    hide Row, RowOnCircle, RowHead;
    if k < 2 {
      RowsOnCircle0();
    } else if k < 4 {
      RowsOnCircle2();
    } else if k < 6 {
      RowsOnCircle4();
    } else {
      RowsOnCircle6();
    }
  }

  lemma RowCircleAt(r: Samples, q: Samples, first: int, j: nat)
    requires RowOnCircle(r, q, first) && j < 16
    ensures OnCircle(r.At(j), if j == 0 then first else q.At(16 - j))
  {
    hide OnCircle;
  }

  /** The square of an entry and that of the one as far from the other end make the square of 0x7fff. */
  lemma TableOnCircle(i: nat)
    requires i <= 256
    ensures OnCircle(SinTbl(1 + i), SinTbl(257 - i))
    decreases i
  {
    hide Row, RowOnCircle;
    if i > 128 {
      TableOnCircle(256 - i);
    } else if i == 128 {
      MiddleOnCircle();
    } else {
      hide OnCircle;
      var k, j := i / 16, i % 16;
      RowsOnCircle(k);
      RowCircleAt(Row(k), Row(15 - k), RowHead(16 - k), j);
      if j == 0 {
        HeadOf(16 - k);
      } else {
        assert (256 - i) / 16 == 15 - k && (256 - i) % 16 == 16 - j;
      }
    }
  }

  lemma HeadOf(k: nat)
    requires k <= 16
    ensures RowHead(k) == SinTbl(1 + 16 * k)
  {
    hide Row;
    if k < 16 {
      assert 16 * k / 16 == k && 16 * k % 16 == 0;
    }
  }

  lemma MiddleOnCircle()
    ensures OnCircle(SinTbl(129), SinTbl(129))
  {
  }

  // Twice the product of two such entries belongs to twice the angle.
  predicate Doubles(x: int, y: int, z: int) {
    -73000 <= SHRT_MAX * z - 2 * x * y <= 73000
  }

  predicate RowDoubles(r: Samples, q: Samples, first: int, d: Samples, e: Samples) {
    && Doubles(r.a, first, d.a) && Doubles(r.b, q.p, d.c) && Doubles(r.c, q.o, d.e) && Doubles(r.d, q.n, d.g)
    && Doubles(r.e, q.m, d.i) && Doubles(r.f, q.l, d.k) && Doubles(r.g, q.k, d.m) && Doubles(r.h, q.j, d.o)
    && Doubles(r.i, q.i, e.a) && Doubles(r.j, q.h, e.c) && Doubles(r.k, q.g, e.e) && Doubles(r.l, q.f, e.g)
    && Doubles(r.m, q.e, e.i) && Doubles(r.n, q.d, e.k) && Doubles(r.o, q.c, e.m) && Doubles(r.p, q.b, e.o)
  }

  lemma RowsDouble0()
    ensures RowDoubles(Row(0), Row(15), RowHead(16), Row(0), Row(1))
    ensures RowDoubles(Row(1), Row(14), RowHead(15), Row(2), Row(3))
  {
  }

  lemma RowsDouble2()
    ensures RowDoubles(Row(2), Row(13), RowHead(14), Row(4), Row(5))
    ensures RowDoubles(Row(3), Row(12), RowHead(13), Row(6), Row(7))
  {
  }

  lemma RowsDouble4()
    ensures RowDoubles(Row(4), Row(11), RowHead(12), Row(8), Row(9))
    ensures RowDoubles(Row(5), Row(10), RowHead(11), Row(10), Row(11))
  {
  }

  lemma RowsDouble6()
    ensures RowDoubles(Row(6), Row(9), RowHead(10), Row(12), Row(13))
    ensures RowDoubles(Row(7), Row(8), RowHead(9), Row(14), Row(15))
  {
  }

  lemma RowsDouble(k: nat)
    requires k < 8
    ensures RowDoubles(Row(k), Row(15 - k), RowHead(16 - k), Row(2 * k), Row(2 * k + 1))
  {
    hide Row, RowDoubles, RowHead;
    if k < 2 {
      RowsDouble0();
    } else if k < 4 {
      RowsDouble2();
    } else if k < 6 {
      RowsDouble4();
    } else {
      RowsDouble6();
    }
  }

  lemma RowDoublesAt(r: Samples, q: Samples, first: int, d: Samples, e: Samples, j: nat)
    requires RowDoubles(r, q, first, d, e) && j < 16
    ensures Doubles(r.At(j), if j == 0 then first else q.At(16 - j), if j < 8 then d.At(2 * j) else e.At(2 * j - 16))
  {
    hide Doubles;
  }

  /** The table obeys the formula for twice an angle, over its first half. */
  lemma TableDoubles(i: nat)
    requires i < 128
    ensures Doubles(SinTbl(1 + i), SinTbl(257 - i), SinTbl(1 + 2 * i))
  {
    hide Row, RowDoubles, Doubles;
    var k, j := i / 16, i % 16;
    RowsDouble(k);
    RowDoublesAt(Row(k), Row(15 - k), RowHead(16 - k), Row(2 * k), Row(2 * k + 1), j);
    if j < 8 {
      assert 2 * i / 16 == 2 * k && 2 * i % 16 == 2 * j;
    } else {
      assert 2 * i / 16 == 2 * k + 1 && 2 * i % 16 == 2 * j - 16;
    }
    if j == 0 {
      HeadOf(16 - k);
    } else {
      assert (256 - i) / 16 == 15 - k && (256 - i) % 16 == 16 - j;
    }
  }

  // ----- Sine -----

  // Walking back from `next` over the remaining parts gives the same value, rounding included.
  lemma InterpolateMirror(v: int, next: int, rest: nat)
    requires rest <= 128
    ensures Interpolate(next, v, 128 - rest) == Interpolate(v, next, rest)
  {
    assert (v - next) * (128 - rest) == (v - next) * 128 + (next - v) * rest;
  }

  lemma InterpolateBetween(v: int, next: int, rest: nat)
    requires v <= next && rest <= 128
    ensures v <= Interpolate(v, next, rest) <= next
  {
    assert 0 <= (next - v) * rest <= (next - v) * 128;
  }

  // The first quarter, both ends included.
  function Quarter(x: nat): int
    requires x <= FMSYNTH_PI / 2
  {
    if x == FMSYNTH_PI / 2 then SinTbl(257) else Interpolate(SinTbl(x / 128 + 1), SinTbl(x / 128 + 2), x % 128)
  }

  lemma FirstQuarter(x: nat)
    requires x < FMSYNTH_PI / 2
    ensures SinAt(x) == Quarter(x)
  {
    hide SinTbl, Interpolate;
    assert x % 0x8000 == x && x / 0x8000 == 0;
  }

  lemma SecondQuarter(x: nat)
    requires FMSYNTH_PI / 2 <= x < FMSYNTH_PI
    ensures var i := (x - 0x8000) / 128; SinAt(x) == Interpolate(SinTbl(257 - i), SinTbl(256 - i), x % 128)
  {
    hide SinTbl, Interpolate;
    assert x % 0x8000 == x - 0x8000 && x / 0x8000 == 1;
  }

  lemma FirstTwoQuarters(x: nat)
    requires x <= FMSYNTH_PI
    ensures x < FMSYNTH_PI ==> SinAt(x) == if x <= FMSYNTH_PI / 2 then Quarter(x) else Quarter(FMSYNTH_PI - x)
  {
    hide SinTbl, SinAt;
    if x < FMSYNTH_PI / 2 {
      FirstQuarter(x);
    } else if x < FMSYNTH_PI {
      SecondQuarter(x);
      var y, i, r := FMSYNTH_PI - x, (x - 0x8000) / 128, x % 128;
      assert x - 0x8000 == 128 * i + r;
      if r == 0 {
        assert y % 128 == 0 && y / 128 == 256 - i;
      } else {
        assert y % 128 == 128 - r && y / 128 == 255 - i;
        InterpolateMirror(SinTbl(256 - i), SinTbl(257 - i), y % 128);
      }
    }
  }

  lemma HalfTurnAhead(x: nat)
    requires x < FMSYNTH_PI
    ensures SinAt(x + FMSYNTH_PI) == -SinAt(x)
  {
    hide SinTbl, Interpolate;
    var y := x + FMSYNTH_PI;
    assert y % 128 == x % 128 && y % 0x8000 == x % 0x8000 && y / 0x8000 == x / 0x8000 + 2;
  }

  lemma TableStart()
    ensures SinTbl(1) == 0
  {
  }

  lemma SinZero()
    ensures SinAt(0) == 0 && SinAt(FMSYNTH_PI) == 0
  {
    hide SinTbl;
    TableStart();
  }

  lemma HalfTurnModulo(n: nat)
    ensures var x, y := n % 0x2_0000, (n + 0x1_0000) % 0x2_0000;
            y == if x < 0x1_0000 then x + 0x1_0000 else x - 0x1_0000
    ensures n % 0x2_0000 % 0x8000 == n % 0x8000
  {
    var q, x := n / 0x2_0000, n % 0x2_0000;
    assert n == 0x2_0000 * q + x;
    if x < 0x1_0000 {
      Wraps(q, x + 0x1_0000);
    } else {
      Wraps(q + 1, x - 0x1_0000);
    }
    assert n == 0x8000 * (4 * q + x / 0x8000) + x % 0x8000;
    WrapsQuarter(4 * q + x / 0x8000, x % 0x8000);
  }

  lemma WrapsQuarter(q: nat, r: nat)
    requires r < 0x8000
    ensures (0x8000 * q + r) % 0x8000 == r
  {
  }

  // Away from [-pi, 0) a half turn of the phase is a half turn of the adjusted phase.
  lemma PhaseHalfTurn(th: int)
    requires th >= 0 || th < -FMSYNTH_PI
    ensures var x, y := PhaseAdjust(th), PhaseAdjust(th + FMSYNTH_PI);
            y == x + FMSYNTH_PI || x == y + FMSYNTH_PI
  {
    HalfTurnModulo(if th >= 0 then th else -th);
  }

  lemma Corners(n: int)
    ensures -n % 0x8000 == 0 <==> n % 0x8000 == 0
    ensures (n + FMSYNTH_PI) % 0x8000 == n % 0x8000
  {
    assert n == 0x8000 * (n / 0x8000) + n % 0x8000;
  }

  lemma PhaseCorner(th: int)
    ensures PhaseAdjust(th) % 0x8000 == 0 <==> th % 0x8000 == 0
  {
    if th < 0 {
      Corners(th);
      Corners(-th);
      HalfTurnModulo(FMSYNTH_PI - th);
    } else {
      HalfTurnModulo(th);
    }
  }

  lemma PhaseNear(th: int)
    requires -FMSYNTH_PI <= th < 0
    ensures PhaseAdjust(th) == (if th == -FMSYNTH_PI then 0 else FMSYNTH_PI - th)
    ensures PhaseAdjust(th + FMSYNTH_PI) == FMSYNTH_PI + th
  {
  }

  /** A half turn changes the sign, for every phase. */
  lemma SinHalfTurn(th: int)
    ensures PseudoSin256(th + FMSYNTH_PI) == -PseudoSin256(th)
  {
    hide SinAt, Quarter, PhaseAdjust;
    SinZero();
    if -FMSYNTH_PI <= th < 0 {
      PhaseNear(th);
      SinMirror(-th);
      HalfTurnAhead(if th == -FMSYNTH_PI then 0 else -th);
    } else {
      PhaseHalfTurn(th);
      HalfTurnAhead(if PhaseAdjust(th) < FMSYNTH_PI then PhaseAdjust(th) else PhaseAdjust(th + FMSYNTH_PI));
    }
  }

  /** The wave form is odd. */
  lemma SinOdd(th: int)
    ensures PseudoSin256(-th) == -PseudoSin256(th)
  {
    hide SinAt;
    SinZero();
    var t := if th < 0 then -th else th;
    if t > 0 {
      SinHalfTurn(t);
    }
  }

  /** It is mirror-symmetric about a quarter turn, although interpolation rounds down. */
  lemma SinMirror(x: nat)
    requires x <= FMSYNTH_PI
    ensures SinAt(FMSYNTH_PI - x) == SinAt(x)
  {
    hide SinAt, Quarter;
    SinZero();
    FirstTwoQuarters(x);
    FirstTwoQuarters(FMSYNTH_PI - x);
  }

  lemma QuarterRange(x: nat)
    requires x <= FMSYNTH_PI / 2
    ensures 0 <= Quarter(x) <= SHRT_MAX
  {
    hide Interpolate, SinTbl;
    if x == FMSYNTH_PI / 2 {
      TableRises(256);
    } else {
      TableRises(x / 128 + 1);
      InterpolateBetween(SinTbl(x / 128 + 1), SinTbl(x / 128 + 2), x % 128);
    }
  }

  /** The result fits a signed 16-bit sample, its negation too. */
  lemma SinRange(th: int)
    ensures -SHRT_MAX <= PseudoSin256(th) <= SHRT_MAX
  {
    hide SinAt, Quarter;
    var x := PhaseAdjust(th);
    var y := if x < FMSYNTH_PI then x else x - FMSYNTH_PI;
    HalfTurnAhead(y);
    FirstTwoQuarters(y);
    QuarterRange(if y <= FMSYNTH_PI / 2 then y else FMSYNTH_PI - y);
  }

  /** Over the first quarter it never falls. */
  lemma {:induction false} SinRises(x: nat, y: nat)
    requires x <= y <= FMSYNTH_PI / 2
    ensures SinAt(x) <= SinAt(y)
    decreases y - x
  {
    hide SinAt, Quarter;
    FirstTwoQuarters(x);
    FirstTwoQuarters(y);
    if x == y {
    } else {
      SinRises(x + 1, y);
      FirstTwoQuarters(x + 1);
      QuarterStep(x);
    }
  }

  lemma QuarterStep(x: nat)
    requires x < FMSYNTH_PI / 2
    ensures Quarter(x) <= Quarter(x + 1)
  {
    hide SinTbl;
    var i, r := x / 128, x % 128;
    TableRises(i + 1);
    var v, next := SinTbl(i + 1), SinTbl(i + 2);
    assert (next - v) * r <= (next - v) * (r + 1);
    if r < 127 {
      assert (x + 1) / 128 == i && (x + 1) % 128 == r + 1;
    } else {
      assert (x + 1) / 128 == i + 1 && (x + 1) % 128 == 0;
      InterpolateBetween(v, next, r);
    }
  }

  /** Over the first quarter it is the table at every 128th phase, and straight in between. */
  lemma SinOnTable(x: nat)
    requires x < FMSYNTH_PI / 2
    ensures var v, next, d := SinTbl(x / 128 + 1), SinTbl(x / 128 + 2), SinAt(x) - SinTbl(x / 128 + 1);
            128 * d <= (next - v) * (x % 128) < 128 * (d + 1)
  {
    hide SinTbl, SinAt, Interpolate;
    FirstTwoQuarters(x);
    InterpolateOnLine(SinTbl(x / 128 + 1), SinTbl(x / 128 + 2), x % 128);
  }

  lemma InterpolateOnLine(v: int, next: int, rest: nat)
    ensures var d := Interpolate(v, next, rest) - v; 128 * d <= (next - v) * rest < 128 * (d + 1)
  {
  }

  // ----- Triangle, sawtooth and square -----

  function TriangleWave(theta: int): int {
    TriangleAt(PhaseAdjust(theta))
  }

  function TriangleAt(theta: nat): int
    requires theta < FMSYNTH_PI * 2
  {
    var phase := theta / (FMSYNTH_PI / 2);
    var offset := theta % (FMSYNTH_PI / 2);
    match phase
    case 0 => SHRT_MAX * offset / 0x8000
    case 1 => SHRT_MAX + -SHRT_MAX * offset / 0x8000
    case 2 => -SHRT_MAX * offset / 0x8000
    case _ => -SHRT_MAX + SHRT_MAX * offset / 0x8000
  }

  /**
    The triangle goes straight from zero to the top, down to the bottom and back, over a quarter,
    a half and a quarter of a turn, rounded down.
  */
  lemma TriangleIsLine(x: nat)
    requires x < FMSYNTH_PI * 2
    ensures var y := if x <= FMSYNTH_PI / 2 then x
                     else if x <= FMSYNTH_PI + FMSYNTH_PI / 2 then FMSYNTH_PI - x
                     else x - 2 * FMSYNTH_PI;
            0x8000 * TriangleAt(x) <= SHRT_MAX * y < 0x8000 * (TriangleAt(x) + 1)
  {
    var phase, offset := x / 0x8000, x % 0x8000;
    assert x == 0x8000 * phase + offset;
  }

  function SawtoothWave(theta: int): int {
    PhaseAdjust(theta) / 2 - SHRT_MAX
  }

  /** The sawtooth rises by one with every second phase of the turn, from the bottom. */
  lemma SawtoothRises(th: nat)
    ensures th % (2 * FMSYNTH_PI) == 0 ==> SawtoothWave(th) == -SHRT_MAX
    ensures (th + 2) % (2 * FMSYNTH_PI) >= 2 ==> SawtoothWave(th + 2) == SawtoothWave(th) + 1
    ensures SawtoothWave(th + 2 * FMSYNTH_PI) == SawtoothWave(th)
  {
    var m := 2 * FMSYNTH_PI;
    assert th == m * (th / m) + th % m;
    if th % m + 2 < m {
      Wraps(th / m, th % m + 2);
    } else {
      Wraps(th / m + 1, th % m + 2 - m);
    }
    Wraps(th / m + 1, th % m);
  }

  lemma Wraps(q: nat, r: nat)
    requires r < 0x2_0000
    ensures (0x2_0000 * q + r) % 0x2_0000 == r
  {
  }

  /** It fits a signed 16-bit sample at every phase but the last two of the turn. */
  lemma SawtoothRange(th: int)
    ensures -SHRT_MAX <= SawtoothWave(th) <= SHRT_MAX + 1
    ensures SawtoothWave(th) <= SHRT_MAX <==> PhaseAdjust(th) < 2 * FMSYNTH_PI - 2
  {
  }

  /**
    The triangle rounds down on both sides of zero: a half turn changes the sign exactly
    at the corners and the zero crossings, and elsewhere comes out one lower.
  */
  lemma TriangleHalfTurn(th: int)
    ensures TriangleWave(th + FMSYNTH_PI) + TriangleWave(th) == if th % (FMSYNTH_PI / 2) == 0 then 0 else -1
  {
    hide TriangleAt, PhaseAdjust;
    PhaseCorner(th);
    Corners(th);
    if -FMSYNTH_PI <= th < 0 {
      PhaseNear(th);
      TriangleMirror(-th);
      TriangleAhead(if th == -FMSYNTH_PI then 0 else -th);
    } else {
      PhaseHalfTurn(th);
      PhaseCorner(th + FMSYNTH_PI);
      TriangleAhead(if PhaseAdjust(th) < FMSYNTH_PI then PhaseAdjust(th) else PhaseAdjust(th + FMSYNTH_PI));
    }
  }

  lemma TriangleAhead(x: nat)
    requires x < FMSYNTH_PI
    ensures TriangleAt(x + FMSYNTH_PI) + TriangleAt(x) == if x % (FMSYNTH_PI / 2) == 0 then 0 else -1
  {
  }

  lemma TriangleMirror(x: nat)
    requires x <= FMSYNTH_PI
    ensures TriangleAt(FMSYNTH_PI - x) == TriangleAt(x)
  {
  }

  function SquareWave(theta: int): int {
    if PhaseAdjust(theta) < FMSYNTH_PI then SHRT_MAX else -SHRT_MAX
  }

  /**
    The square wave changes sign with a half turn at every phase but one: the adjustment
    of negative phases takes -pi to 0 where it should go to pi.
  */
  lemma SquareHalfTurn(th: int)
    ensures SquareWave(th + FMSYNTH_PI) == -SquareWave(th) <==> th != -FMSYNTH_PI
  {
  }

  /** It has the sign of the sine, and the largest value of a sample. */
  lemma SquareIsSign(th: int)
    ensures PseudoSin256(th) > 0 ==> SquareWave(th) == SHRT_MAX
    ensures PseudoSin256(th) < 0 ==> SquareWave(th) == -SHRT_MAX
  {
    hide SinAt, Quarter, PhaseAdjust;
    var x := PhaseAdjust(th);
    var y := if x < FMSYNTH_PI then x else x - FMSYNTH_PI;
    HalfTurnAhead(y);
    FirstTwoQuarters(y);
    QuarterRange(if y <= FMSYNTH_PI / 2 then y else FMSYNTH_PI - y);
  }
}
