/**
  Run-length encoding of one row of a bitmap: each pixel is replaced by its closest
  palette entry, and runs of at most 255 equal entries by a count and the entry.
*/
module BitmapRle {

  const MAX_REPEATS := 255

  datatype Color = Color(r: int, g: int, b: int)

  function Square(x: int): int {
    x * x
  }

  function Distance(a: Color, b: Color): int {
    Square(a.r - b.r) + Square(a.g - b.g) + Square(a.b - b.b)
  }

  lemma DistanceZero(a: Color, b: Color)
    ensures Distance(a, b) >= 0 && (Distance(a, b) == 0 <==> a == b)
  {
    SquareZero(a.r - b.r);
    SquareZero(a.g - b.g);
    SquareZero(a.b - b.b);
  }

  lemma SquareZero(x: int)
    ensures Square(x) >= 0 && (Square(x) == 0 <==> x == 0)
  {
    if x > 0 {
      assert x * x > 0;
    } else if x < 0 {
      assert x * x == (-x) * (-x) > 0;
    }
  }

  /** In one channel the distance is the square of the difference, in whichever channel. */
  lemma OneChannel(a: Color, n: int)
    ensures Distance(a, a.(r := a.r + n)) == Distance(a, a.(g := a.g + n)) == Distance(a, a.(b := a.b + n)) == n * n
    ensures Distance(a.(r := a.r + n), a) == n * n
  {
    assert Square(-n) == Square(n) by { assert (-n) * (-n) == n * n; }
    assert a.r - (a.r + n) == -n && a.g - (a.g + n) == -n && a.b - (a.b + n) == -n;
  }

  /** Distances in the three channels add up. */
  lemma ChannelsAdd(a: Color, b: Color)
    ensures Distance(a, b) == Distance(a, a.(r := b.r)) + Distance(a, a.(g := b.g)) + Distance(a, a.(b := b.b))
  {
  }

  // The first of the palette entries that are closest.
  ghost predicate IsClosest(color: Color, palette: seq<Color>, k: nat) {
    && k < |palette|
    && (forall j :: 0 <= j < |palette| ==> Distance(color, palette[k]) <= Distance(color, palette[j]))
    && (forall j :: 0 <= j < k ==> Distance(color, palette[k]) < Distance(color, palette[j]))
  }

  lemma ClosestUnique(color: Color, palette: seq<Color>, k: nat, l: nat)
    requires IsClosest(color, palette, k) && IsClosest(color, palette, l)
    ensures k == l
  {
    hide Distance;
    assert Distance(color, palette[k]) == Distance(color, palette[l]);
  }

  // Looks at entry `i` next; `best` is the first closest one so far.
  function ClosestFrom(color: Color, palette: seq<Color>, best: nat, i: nat): (k: nat)
    requires best < i <= |palette|
    requires forall j :: 0 <= j < i ==> Distance(color, palette[best]) <= Distance(color, palette[j])
    requires forall j :: 0 <= j < best ==> Distance(color, palette[best]) < Distance(color, palette[j])
    ensures IsClosest(color, palette, k)
    decreases |palette| - i
  {
    if i == |palette| then best
    else if Distance(color, palette[i]) < Distance(color, palette[best]) then ClosestFrom(color, palette, i, i + 1)
    else ClosestFrom(color, palette, best, i + 1)
  }

  function Closest(color: Color, palette: seq<Color>): (k: nat)
    requires palette != []
    ensures IsClosest(color, palette, k)
  {
    ClosestFrom(color, palette, 0, 1)
  }

  // list.index
  method Index(palette: seq<Color>, color: Color) returns (k: nat)
    ensures k <= |palette| && (k < |palette| ==> palette[k] == color)
    ensures forall j :: 0 <= j < k ==> palette[j] != color
  {
    k := 0;
    while k < |palette| && palette[k] != color
      invariant k <= |palette| && forall j :: 0 <= j < k ==> palette[j] != color
    {
      k := k + 1;
    }
  }

  /** Both ways of finding an entry, by equality and by distance, find the first closest one. */
  method Quantize(color: Color, palette: seq<Color>) returns (k: nat)
    requires palette != []
    ensures IsClosest(color, palette, k) && k == Closest(color, palette)
  {
    hide Distance, ClosestFrom;
    k := Index(palette, color);
    if k < |palette| {
      forall j | 0 <= j < |palette| ensures Distance(color, palette[k]) <= Distance(color, palette[j])
                                         && (palette[j] != color
                                            ==> Distance(color, palette[k]) < Distance(color, palette[j])) {
        DistanceZero(color, palette[j]);
        DistanceZero(color, palette[k]);
      }
      ClosestUnique(color, palette, k, Closest(color, palette));
      return;
    }
    var best := 0;
    for i := 1 to |palette|
      invariant best < i
      invariant forall j :: 0 <= j < i ==> Distance(color, palette[best]) <= Distance(color, palette[j])
      invariant forall j :: 0 <= j < best ==> Distance(color, palette[best]) < Distance(color, palette[j])
    {
      if Distance(color, palette[i]) < Distance(color, palette[best]) {
        best := i;
      }
    }
    k := Index(palette, palette[best]);
    assert k == best;
    ClosestUnique(color, palette, k, Closest(color, palette));
  }

  // ----- Runs -----

  datatype Entry = Entry(count: nat, color: nat)

  // The number of leading elements equal to the first, but at most 255.
  function Run(s: seq<nat>, k: nat): (n: nat)
    requires 1 <= k <= |s| && k <= MAX_REPEATS && forall i :: 0 <= i < k ==> s[i] == s[0]
    ensures k <= n <= |s| && n <= MAX_REPEATS
    ensures forall i :: 0 <= i < n ==> s[i] == s[0]
    ensures n == |s| || n == MAX_REPEATS || s[n] != s[0]
    decreases |s| - k
  {
    if k < |s| && k < MAX_REPEATS && s[k] == s[0] then Run(s, k + 1) else k
  }

  function Greedy(s: seq<nat>): seq<Entry> {
    if s == [] then [] else [Entry(Run(s, 1), s[0])] + Greedy(s[Run(s, 1)..])
  }

  function Repeat(n: nat, c: nat): seq<nat> {
    seq(n, _ => c)
  }

  function Expand(es: seq<Entry>): seq<nat> {
    if es == [] then [] else Repeat(es[0].count, es[0].color) + Expand(es[1..])
  }

  // Counts that the format can hold.
  ghost predicate Proper(es: seq<Entry>) {
    forall i :: 0 <= i < |es| ==> 1 <= es[i].count <= MAX_REPEATS
  }

  lemma ExpandCons(e: Entry, es: seq<Entry>)
    ensures Expand([e] + es) == Repeat(e.count, e.color) + Expand(es)
  {
    assert ([e] + es)[1..] == es;
  }

  /** Nothing is lost and every count fits. */
  lemma {:induction false} GreedyLossless(s: seq<nat>)
    ensures Expand(Greedy(s)) == s
    ensures Proper(Greedy(s))
    decreases |s|
  {
    hide Greedy, Expand;
    if s == [] {
      GreedyNothing();
    } else {
      var n := Run(s, 1);
      var first, rest := Entry(n, s[0]), Greedy(s[n..]);
      GreedyHead(s, n);
      GreedyLossless(s[n..]);
      ExpandCons(first, rest);
      assert Repeat(n, s[0]) == s[..n];
      assert s == s[..n] + s[n..];
    }
  }

  // Equal neighbours occur only after a full count.
  ghost predicate Merged(es: seq<Entry>) {
    forall i :: 0 <= i < |es| - 1 && es[i].color == es[i + 1].color ==> es[i].count == MAX_REPEATS
  }

  lemma {:induction false} GreedyMerged(s: seq<nat>)
    ensures Merged(Greedy(s)) && (s != [] ==> Greedy(s) != [] && Greedy(s)[0].color == s[0])
    decreases |s|
  {
    if s == [] {
    } else {
      var n := Run(s, 1);
      var es, rest := Greedy(s), Greedy(s[n..]);
      GreedyMerged(s[n..]);
      assert es == [Entry(n, s[0])] + rest;
      forall i | 0 <= i < |es| - 1 && es[i].color == es[i + 1].color ensures es[i].count == MAX_REPEATS {
        if i > 0 {
          assert es[i] == rest[i - 1] && es[i + 1] == rest[i];
        }
      }
    }
  }

  // Dropping the first element never takes more entries.
  lemma {:induction false} GreedyMonotone(s: seq<nat>)
    requires s != []
    ensures |Greedy(s[1..])| <= |Greedy(s)|
    decreases |s|
  {
    var n := Run(s, 1);
    if n == 1 {
      assert s[n..] == s[1..];
    } else {
      var t := s[1..];
      var m := Run(t, 1);
      assert forall i :: 0 <= i < n - 1 ==> t[i] == t[0];
      assert m >= n - 1;
      assert t[m..] == s[m + 1..];
      if m == n {
        assert s[n + 1..] == s[n..][1..];
        GreedyMonotone(s[n..]);
      }
    }
  }

  lemma {:induction false} GreedyDrop(s: seq<nat>, k: nat)
    requires k <= |s|
    ensures |Greedy(s[k..])| <= |Greedy(s)|
    decreases k
  {
    if k == 0 {
      assert s[0..] == s;
    } else {
      GreedyDrop(s, k - 1);
      assert s[k..] == s[k - 1..][1..];
      GreedyMonotone(s[k - 1..]);
    }
  }

  // The first entry of any encoding covers no more than the longest run.
  lemma FirstEntry(s: seq<nat>, es: seq<Entry>)
    requires es != [] && Proper(es) && Expand(es) == s
    ensures s != [] && es[0].count <= Run(s, 1) && s[es[0].count..] == Expand(es[1..]) && Proper(es[1..])
  {
    var c := es[0].count;
    assert s == Repeat(c, es[0].color) + Expand(es[1..]);
    assert forall i :: 0 <= i < c ==> s[i] == es[0].color;
  }

  lemma GreedyFirst(s: seq<nat>, c: nat)
    requires s != [] && c <= Run(s, 1)
    ensures |Greedy(s)| <= 1 + |Greedy(s[c..])|
  {
    var n := Run(s, 1);
    assert |Greedy(s)| == 1 + |Greedy(s[n..])|;
    assert s[n..] == s[c..][n - c..];
    GreedyDrop(s[c..], n - c);
  }

  /** No encoding of the row has fewer entries. */
  lemma {:induction false} GreedyOptimal(s: seq<nat>, es: seq<Entry>)
    requires Proper(es) && Expand(es) == s
    ensures |Greedy(s)| <= |es|
    decreases |es|
  {
    if es == [] {
    } else {
      FirstEntry(s, es);
      GreedyOptimal(s[es[0].count..], es[1..]);
      GreedyFirst(s, es[0].count);
    }
  }

  // ----- The loop -----

  // The row as palette entries.
  function Quantized(row: seq<Color>, palette: seq<Color>): (s: seq<nat>)
    requires row != [] ==> palette != []
    ensures |s| == |row| && forall i :: 0 <= i < |row| ==> IsClosest(row[i], palette, s[i])
  {
    seq(|row|, i requires 0 <= i < |row| => Closest(row[i], palette))
  }

  /** The shortest encoding of the row. */
  method EncodeRow(row: seq<Color>, palette: seq<Color>) returns (entries: seq<Entry>)
    requires row != [] ==> palette != []
    ensures Expand(entries) == Quantized(row, palette)
    ensures Proper(entries) && Merged(entries)
    ensures forall es :: Proper(es) && Expand(es) == Quantized(row, palette) ==> |entries| <= |es|
  {
    hide IsClosest, Closest, Greedy;
    ghost var s := Quantized(row, palette);
    entries := [];
    var color, repeats := 0, 0;
    assert s[0..] == s && [] + Greedy(s) == Greedy(s);
    for x := 0 to |row|
      invariant repeats <= x && (repeats == 0 <==> x == 0) && repeats <= MAX_REPEATS
      invariant forall i :: x - repeats <= i < x ==> s[i] == color
      invariant Greedy(s) == entries + Greedy(s[x - repeats..])
    {
      var c := Quantize(row[x], palette);
      assert c == s[x];
      if repeats > 0 && c == color && repeats < MAX_REPEATS {
        repeats := repeats + 1;
      } else {
        if repeats > 0 {
          GreedyHead(s[x - repeats..], repeats);
          assert s[x - repeats..][repeats..] == s[x..];
          entries := entries + [Entry(repeats, color)];
        }
        repeats := 1;
        color := c;
      }
    }
    if repeats > 0 {
      GreedyHead(s[|s| - repeats..], repeats);
      assert s[|s| - repeats..][repeats..] == [];
      entries := entries + [Entry(repeats, color)];
    } else {
      assert s == [];
    }
    GreedyNothing();
    assert entries == Greedy(s);
    GreedyLossless(s);
    GreedyMerged(s);
    forall es | Proper(es) && Expand(es) == s ensures |entries| <= |es| {
      GreedyOptimal(s, es);
    }
  }

  lemma GreedyNothing()
    ensures Greedy([]) == [] && Expand([]) == []
  {
  }

  // A run of `n` that something has ended is the first entry.
  lemma GreedyHead(s: seq<nat>, n: nat)
    requires 1 <= n <= |s| && n <= MAX_REPEATS && forall i :: 0 <= i < n ==> s[i] == s[0]
    requires n == |s| || n == MAX_REPEATS || s[n] != s[0]
    ensures Greedy(s) == [Entry(n, s[0])] + Greedy(s[n..])
  {
    RunIs(s, 1, n);
  }

  lemma {:induction false} RunIs(s: seq<nat>, k: nat, n: nat)
    requires 1 <= k <= n <= |s| && n <= MAX_REPEATS && forall i :: 0 <= i < n ==> s[i] == s[0]
    requires n == |s| || n == MAX_REPEATS || s[n] != s[0]
    ensures Run(s, k) == n
    decreases n - k
  {
    if k == n {
    } else {
      RunIs(s, k + 1, n);
    }
  }
}
