/**
  The envelope generator of the FM synthesiser: five timed segments from attack to release
  and a final resting level.  Levels are real numbers; `int` does not overflow here.
*/
module FmEnvelope {
  import opened CLang

  const MAX_EGLEVEL := 4095
  const RELEASED := 5

  datatype Level = Level(level: real, periodMs: int)
  datatype Levels = Levels(attack: Level, decaybrk: Level, decay: Level, sustain: Level, release: Level)
  datatype Param = Param(initval: int, period: int, diff2next: int)
  datatype Eg = Eg(state: nat, counter: nat, params: seq<Param>)

  // C's conversion rounds towards zero.
  function Convert(lv: real): int {
    var x := lv * MAX_EGLEVEL as real;
    if x >= 0.0 then x.Floor else -(-x).Floor
  }

  predicate Shape(g: Eg) {
    g.state <= RELEASED && |g.params| == 6
  }

  // ----- Setting up the segments -----

  function Segment(fs: int, target: Level, last: Level): Param {
    Param(Convert(last.level), TruncDiv(fs * target.periodMs, 1000), Convert(target.level) - Convert(last.level))
  }

  predicate SegmentOk(p: Param) {
    -MAX_EGLEVEL <= p.initval <= MAX_EGLEVEL && p.period >= 0
  }

  function Segments(fs: int, l: Levels, old5: Param): (r: seq<Param>)
    ensures |r| == 6
  {
    [Segment(fs, l.attack, l.release), Segment(fs, l.decaybrk, l.attack), Segment(fs, l.decay, l.decaybrk),
     Segment(fs, l.sustain, l.decay), Segment(fs, l.release, l.sustain),
     old5.(initval := Convert(l.release.level))]
  }

  predicate Accepted(ps: seq<Param>)
    requires |ps| == 6
  {
    SegmentOk(ps[0]) && SegmentOk(ps[1]) && SegmentOk(ps[2]) && SegmentOk(ps[3]) && SegmentOk(ps[4])
  }

  predicate LevelFits(fs: int, l: Level) {
    var x := l.level * MAX_EGLEVEL as real;
    -((MAX_EGLEVEL + 1) as real) < x < (MAX_EGLEVEL + 1) as real && fs * l.periodMs > -1000
  }

  lemma ConvertRange(lv: real)
    ensures -MAX_EGLEVEL <= Convert(lv) <= MAX_EGLEVEL <==>
            -((MAX_EGLEVEL + 1) as real) < lv * MAX_EGLEVEL as real < (MAX_EGLEVEL + 1) as real
  {
  }

  lemma PeriodSign(n: int)
    ensures TruncDiv(n, 1000) >= 0 <==> n > -1000
  {
  }

  /** The set-up is accepted exactly when every level and every duration given fits. */
  lemma AcceptedIff(fs: int, l: Levels, old5: Param)
    ensures Accepted(Segments(fs, l, old5)) <==>
            LevelFits(fs, l.attack) && LevelFits(fs, l.decaybrk) && LevelFits(fs, l.decay) &&
            LevelFits(fs, l.sustain) && LevelFits(fs, l.release)
  {
    hide Convert, TruncDiv;
    ConvertRange(l.attack.level);
    ConvertRange(l.decaybrk.level);
    ConvertRange(l.decay.level);
    ConvertRange(l.sustain.level);
    ConvertRange(l.release.level);
    PeriodSign(fs * l.attack.periodMs);
    PeriodSign(fs * l.decaybrk.periodMs);
    PeriodSign(fs * l.decay.periodMs);
    PeriodSign(fs * l.sustain.periodMs);
    PeriodSign(fs * l.release.periodMs);
  }

  // `v` is `x` rounded towards zero.
  predicate Rounds(v: int, x: real) {
    if x >= 0.0 then v >= 0 && v as real <= x < (v + 1) as real else v <= 0 && (v - 1) as real < x <= v as real
  }

  /**
    A segment starts at the last level and ends at the target level, as fractions of the largest
    one, and lasts as many samples as the sampling rate gives for its milliseconds; all rounded
    towards zero.
  */
  lemma SegmentExact(fs: nat, target: Level, last: Level)
    requires target.periodMs >= 0
    ensures var p := Segment(fs, target, last);
            && 1000 * p.period <= fs * target.periodMs < 1000 * (p.period + 1)
            && Rounds(p.initval, last.level * 4095.0) && Rounds(p.initval + p.diff2next, target.level * 4095.0)
  {
    ConvertRounds(last.level);
    ConvertRounds(target.level);
    hide Convert;
    assert fs * target.periodMs >= 0;
  }

  lemma ConvertRounds(lv: real)
    ensures Rounds(Convert(lv), lv * 4095.0)
  {
  }

  // Every timed segment ends where the next one starts; levels are in range.
  ghost predicate Good(g: Eg) {
    && Shape(g)
    && (forall k :: 0 <= k < 6 ==> -MAX_EGLEVEL <= g.params[k].initval <= MAX_EGLEVEL)
    && (forall k :: 0 <= k < 5 ==> g.params[k].period >= 0)
    && (forall k :: 0 <= k < 5 && g.params[k].period > 0 ==>
          g.params[k].initval + g.params[k].diff2next == g.params[k + 1].initval)
  }

  lemma SegmentsGood(g: Eg, fs: int, l: Levels)
    requires Shape(g) && Accepted(Segments(fs, l, g.params[5]))
    ensures Good(g.(params := Segments(fs, l, g.params[5])))
  {
    hide Convert, TruncDiv;
    var ps := Segments(fs, l, g.params[5]);
    assert ps[5].initval == ps[0].initval;
    assert SegmentOk(ps[0]);
  }

  // ----- One sample -----

  function NextState(ps: seq<Param>, s: nat): (t: nat)
    requires |ps| == 6 && s < RELEASED
    ensures s < t <= RELEASED && (t < RELEASED ==> ps[t].period != 0)
    ensures forall k :: s < k < t ==> ps[k].period == 0
    decreases RELEASED - s
  {
    if s + 1 == RELEASED || ps[s + 1].period != 0 then s + 1 else NextState(ps, s + 1)
  }

  // The first state from `s` on that is timed, or the resting state.
  function FirstTimed(ps: seq<Param>, s: nat): nat
    requires |ps| == 6 && s <= RELEASED
  {
    if s < RELEASED && ps[s].period == 0 then NextState(ps, s) else s
  }

  lemma NextStep(ps: seq<Param>, s: nat)
    requires |ps| == 6 && s < RELEASED
    ensures NextState(ps, s) == FirstTimed(ps, s + 1)
  {
  }

  datatype Sample = Sample(eg: Eg, value: int)

  function NextSample(g: Eg): (r: Sample)
    requires Shape(g)
    ensures Shape(r.eg) && r.eg.params == g.params
  {
    var p := g.params[g.state];
    if g.state == RELEASED then Sample(g, p.initval)
    else if g.counter >= p.period then
      var t := NextState(g.params, g.state);
      Sample(g.(state := t, counter := 0), g.params[t].initval)
    else Sample(g.(counter := g.counter + 1), p.initval + TruncDiv(p.diff2next * g.counter, p.period))
  }

  predicate Between(v: int, a: int, b: int) {
    a <= v <= b || b <= v <= a
  }

  lemma FractionBetween(d: int, c: nat, p: nat)
    requires c < p
    ensures Between(TruncDiv(d * c, p), 0, d)
  {
    var m := if d >= 0 then d else -d;
    assert 0 <= m * c <= m * p;
    assert d * c == if d >= 0 then m * c else -(m * c);
    QuotientBound(m * c, m, p);
  }

  lemma QuotientBound(n: nat, m: nat, p: nat)
    requires p > 0 && n <= m * p
    ensures 0 <= n / p <= m
  {
  }

  /**
    A sample lies between the start of the segment the generator is in afterwards and the
    start of the following one, and is the resting level once released; the state never
    moves back.
  */
  lemma SampleBetween(g: Eg)
    requires Good(g)
    ensures var r := NextSample(g);
            && Good(r.eg) && g.state <= r.eg.state
            && (if r.eg.state < RELEASED
                then Between(r.value, g.params[r.eg.state].initval, g.params[r.eg.state + 1].initval)
                else r.value == g.params[RELEASED].initval)
            && -MAX_EGLEVEL <= r.value <= MAX_EGLEVEL
  {
    hide TruncDiv;
    if g.state < RELEASED && g.counter < g.params[g.state].period {
      var p := g.params[g.state];
      FractionBetween(p.diff2next, g.counter, p.period);
    }
  }

  lemma FractionRises(d: int, c: nat, p: nat)
    requires c + 1 < p
    ensures Between(TruncDiv(d * c, p), 0, TruncDiv(d * (c + 1), p))
  {
    var m := if d >= 0 then d else -d;
    assert d * c == if d >= 0 then m * c else -(m * c);
    assert d * (c + 1) == if d >= 0 then m * (c + 1) else -(m * (c + 1));
    assert 0 <= m * c <= m * (c + 1);
    QuotientMonotone(m * c, m * (c + 1), p);
  }

  lemma QuotientMonotone(a: nat, b: nat, p: nat)
    requires p > 0 && a <= b
    ensures 0 <= a / p <= b / p
  {
    assert a / p * p <= a && b < (b / p + 1) * p;
    Cancel(a / p, b / p + 1, p);
  }

  lemma Cancel(q: int, r: int, p: nat)
    requires q * p < r * p
    ensures q < r
  {
    assert (r - q) * p > 0;
  }

  /** Within a segment each sample is at least as near to the target as the one before. */
  lemma SegmentMonotone(g: Eg)
    requires Good(g) && g.state < RELEASED && g.counter + 1 < g.params[g.state].period
    ensures var r := NextSample(g);
            Between(NextSample(r.eg).value, r.value, g.params[g.state + 1].initval)
  {
    hide TruncDiv;
    var p := g.params[g.state];
    FractionRises(p.diff2next, g.counter, p.period);
    FractionBetween(p.diff2next, g.counter + 1, p.period);
  }

  // ----- Whole runs -----

  function After(g: Eg, n: nat): (r: Eg)
    requires Shape(g)
    ensures Shape(r) && r.params == g.params
    decreases n
  {
    if n == 0 then g else After(NextSample(g).eg, n - 1)
  }

  // Samples spent in the segments from `k` on: one more than its period in each timed one.
  function Ticks(ps: seq<Param>, k: nat): int
    requires |ps| == 6 && k <= RELEASED
    decreases RELEASED - k
  {
    if k == RELEASED then 0
    else (if ps[k].period == 0 then 0 else ps[k].period + 1) + Ticks(ps, k + 1)
  }

  lemma {:induction false} AfterAdd(g: Eg, m: nat, n: nat)
    requires Shape(g)
    ensures After(g, m + n) == After(After(g, m), n)
    decreases m
  {
    if m == 0 {
    } else {
      AfterAdd(NextSample(g).eg, m - 1, n);
    }
  }

  lemma {:induction false} TicksSkip(ps: seq<Param>, s: nat)
    requires |ps| == 6 && s < RELEASED
    ensures var t := NextState(ps, s);
            Ticks(ps, s + 1) == if t == RELEASED then 0 else ps[t].period + 1 + Ticks(ps, t + 1)
    decreases RELEASED - s
  {
    if s + 1 >= RELEASED || ps[s + 1].period != 0 {
    } else {
      TicksSkip(ps, s + 1);
    }
  }

  lemma {:induction false} TicksNonNegative(ps: seq<Param>, k: nat)
    requires |ps| == 6 && k <= RELEASED
    requires forall i :: 0 <= i < 5 ==> ps[i].period >= 0
    ensures Ticks(ps, k) >= 0
    decreases RELEASED - k
  {
    if k == RELEASED {
    } else {
      TicksNonNegative(ps, k + 1);
    }
  }

  lemma {:induction false} WithinSegment(g: Eg, n: nat)
    requires Shape(g) && g.state < RELEASED && g.counter + n <= g.params[g.state].period
    ensures After(g, n) == g.(counter := g.counter + n)
    decreases n
  {
    hide TruncDiv;
    if n == 0 {
    } else {
      WithinSegment(NextSample(g).eg, n - 1);
    }
  }

  lemma {:induction false} StaysReleased(g: Eg, n: nat)
    requires Shape(g) && g.state == RELEASED
    ensures After(g, n) == g
  {
    if n == 0 {
    } else {
      StaysReleased(g, n - 1);
    }
  }

  /**
    From the beginning of segment `s` the generator comes to rest after exactly one more
    sample than the period for that segment and for each later one that is timed.
  */
  lemma {:induction false} ReleaseTime(g: Eg, n: nat)
    requires Shape(g) && g.counter == 0 && g.state < RELEASED
    requires forall k :: 0 <= k < 5 ==> g.params[k].period >= 0
    ensures After(g, n).state == RELEASED <==>
            n >= g.params[g.state].period + 1 + Ticks(g.params, g.state + 1)
    decreases RELEASED - g.state
  {
    hide TruncDiv, Ticks, NextState;
    var p := g.params[g.state].period;
    TicksNonNegative(g.params, g.state + 1);
    if n <= p {
      WithinSegment(g, n);
    } else {
      WithinSegment(g, p);
      TicksSkip(g.params, g.state);
      AfterAdd(g, p, n - p);
      var h := NextSample(After(g, p)).eg;
      assert After(After(g, p), n - p) == After(h, n - p - 1);
      if h.state == RELEASED {
        StaysReleased(h, n - p - 1);
      } else {
        ReleaseTime(h, n - p - 1);
      }
    }
  }

  // Samples that a level takes: none if it has no time, else one more than its milliseconds give.
  function Lasts(fs: int, l: Level): int {
    var n := fs * l.periodMs / 1000;
    if n <= 0 then 0 else n + 1
  }

  lemma LastsPeriod(fs: int, target: Level, last: Level)
    requires fs * target.periodMs > -1000
    ensures var p := Segment(fs, target, last).period;
            p >= 0 && Lasts(fs, target) == if p == 0 then 0 else p + 1
  {
  }

  /**
    From the start after an accepted set-up the generator comes to rest after as many samples as
    its five levels take together, and one if the attack has no time.
  */
  lemma SetupTime(g: Eg, fs: int, l: Levels, n: nat)
    requires Shape(g) && fs > 0 && Accepted(Segments(fs, l, g.params[5]))
    ensures var h := Apply(Apply(g, Setup(fs, l)), Start);
            After(h, n).state == RELEASED <==>
              n >= (if Lasts(fs, l.attack) == 0 then 1 else Lasts(fs, l.attack)) + Lasts(fs, l.decaybrk)
                   + Lasts(fs, l.decay) + Lasts(fs, l.sustain) + Lasts(fs, l.release)
  {
    hide After, Lasts, Segment;
    AcceptedIff(fs, l, g.params[5]);
    LastsPeriod(fs, l.attack, l.release);
    LastsPeriod(fs, l.decaybrk, l.attack);
    LastsPeriod(fs, l.decay, l.decaybrk);
    LastsPeriod(fs, l.sustain, l.decay);
    LastsPeriod(fs, l.release, l.sustain);
    var ps := Segments(fs, l, g.params[5]);
    ReleaseTime(Apply(Apply(g, Setup(fs, l)), Start), n);
    assert Ticks(ps, 5) == 0;
    assert Ticks(ps, 3) == Lasts(fs, l.sustain) + Lasts(fs, l.release);
    assert Ticks(ps, 1) == Lasts(fs, l.decaybrk) + Lasts(fs, l.decay) + Ticks(ps, 3);
  }

  /** Within a segment each sample is the point of the straight line, rounded towards its start. */
  lemma OnTheLine(g: Eg)
    requires Shape(g) && g.state < RELEASED && g.counter < g.params[g.state].period
    ensures var p := g.params[g.state];
            var d, x := NextSample(g).value - p.initval, p.diff2next * g.counter;
            if x >= 0 then d * p.period <= x < (d + 1) * p.period else (d - 1) * p.period < x <= d * p.period
    ensures NextSample(g).eg == g.(counter := g.counter + 1)
  {
    var p := g.params[g.state];
    LineRounds(p.diff2next * g.counter, p.period);
  }

  lemma LineRounds(x: int, k: int)
    requires k > 0
    ensures var d := TruncDiv(x, k);
            if x >= 0 then d * k <= x < (d + 1) * k else (d - 1) * k < x <= d * k
  {
    var y := if x >= 0 then x else -x;
    assert y == (y / k) * k + y % k;
  }

  datatype Act = Start | Stop | Tick | Setup(fs: int, levels: Levels)

  function Apply(g: Eg, a: Act): (r: Eg)
    requires Shape(g)
    ensures Shape(r)
  {
    match a
    case Start => g.(state := 0, counter := 0)
    case Stop => g.(state := RELEASED, counter := 0)
    case Tick => NextSample(g).eg
    case Setup(fs, l) => if fs <= 0 then g else g.(params := Segments(fs, l, g.params[5]))
  }

  // ----- Levels -----

  predicate InRange(v: int) {
    -MAX_EGLEVEL <= v <= MAX_EGLEVEL
  }

  // The sample after `c` others in a timed segment.
  function At(p: Param, c: nat): int
    requires p.period > 0
  {
    p.initval + TruncDiv(p.diff2next * c, p.period)
  }

  // The first and the last sample of a timed segment are in range; so is the first of a
  // later one that has a negative period and is left at once.
  predicate Sounds(ps: seq<Param>)
    requires |ps| == 6
  {
    && (forall k :: 0 <= k < 5 && ps[k].period > 0 ==> InRange(ps[k].initval) && InRange(At(ps[k], ps[k].period - 1)))
    && (forall k :: 1 <= k < 5 && ps[k].period < 0 ==> InRange(ps[k].initval))
    && InRange(ps[RELEASED].initval)
  }

  lemma {:induction false} FractionUpTo(d: int, c: nat, last: nat, p: nat)
    requires c <= last < p
    ensures Between(TruncDiv(d * c, p), 0, TruncDiv(d * last, p))
    decreases last - c
  {
    if c < last {
      FractionRises(d, c, p);
      FractionUpTo(d, c + 1, last, p);
      hide TruncDiv;
      Between0(TruncDiv(d * c, p), TruncDiv(d * (c + 1), p), TruncDiv(d * last, p));
    } else {
      FractionBetween(d, c, p);
    }
  }

  lemma Between0(a: int, b: int, c: int)
    requires Between(a, 0, b) && Between(b, 0, c)
    ensures Between(a, 0, c)
  {
  }

  // In whatever state the generator is.
  lemma SoundsInRange(g: Eg)
    requires Shape(g) && Sounds(g.params)
    ensures InRange(NextSample(g).value)
  {
    hide TruncDiv;
    if g.state < RELEASED && g.counter < g.params[g.state].period {
      var p := g.params[g.state];
      FractionUpTo(p.diff2next, g.counter, p.period - 1, p.period);
      assert InRange(p.initval) && InRange(At(p, p.period - 1));
    }
  }

  // From the beginning of a segment to that of the next one.
  lemma NextVisit(g: Eg) returns (m: nat)
    requires Shape(g) && g.counter == 0 && g.state < RELEASED
    ensures var t := NextState(g.params, g.state);
            After(g, m + 1) == g.(state := t, counter := 0) && NextSample(After(g, m)).value == g.params[t].initval
  {
    hide TruncDiv, NextState;
    var p := g.params[g.state].period;
    m := if p < 0 then 0 else p;
    if p >= 0 { WithinSegment(g, m); }
    AfterAdd(g, m, 1);
    var h := NextSample(After(g, m)).eg;
    assert After(h, 0) == h;
  }

  // Every timed segment is reached from an earlier one, and so is rest.
  lemma {:induction false} Visits(g: Eg, k: nat) returns (n: nat)
    requires Shape(g) && g.counter == 0 && g.state < k <= RELEASED && (k < RELEASED ==> g.params[k].period != 0)
    ensures n >= 1 && After(g, n) == g.(state := k, counter := 0)
    ensures NextSample(After(g, n - 1)).value == g.params[k].initval
    decreases k - g.state
  {
    hide NextSample, After, NextState;
    var m := NextVisit(g);
    var t := NextState(g.params, g.state);
    if t == k {
      n := m + 1;
    } else {
      n := Visits(g.(state := t), k);
      AfterAdd(g, m + 1, n);
      AfterAdd(g, m + 1, n - 1);
      n := m + 1 + n;
    }
  }

  lemma VisitsTimed(g: Eg, k: nat, c: nat) returns (n: nat)
    requires Shape(g) && g.counter == 0 && g.state <= k < RELEASED && c < g.params[k].period
    ensures NextSample(After(g, n)).value == At(g.params[k], c)
  {
    hide TruncDiv;
    n := 0;
    if g.state < k {
      n := Visits(g, k);
    }
    WithinSegment(After(g, n), c);
    AfterAdd(g, n, c);
    n := n + c;
  }

  ghost predicate AlwaysInRange(g: Eg)
    requires Shape(g)
  {
    forall n: nat :: InRange(NextSample(After(g, n)).value)
  }

  /**
    Whatever the segments are, accepted or refused: from the start all samples are in range
    if and only if the first and last of each timed segment are, the first of each later
    one with a negative period, and the resting level.
  */
  lemma AllInRangeIff(g: Eg)
    requires Shape(g) && g.state == 0 && g.counter == 0
    ensures AlwaysInRange(g) <==> Sounds(g.params)
  {
    hide NextSample, After, Sounds;
    if Sounds(g.params) {
      forall n: nat ensures InRange(NextSample(After(g, n)).value) {
        SoundsInRange(After(g, n));
      }
    } else if AlwaysInRange(g) {
      AllSound(g);
    }
  }

  lemma AllSound(g: Eg)
    requires Shape(g) && g.state == 0 && g.counter == 0 && AlwaysInRange(g)
    ensures Sounds(g.params)
  {
    hide TruncDiv, NextSample, After;
    var ps := g.params;
    forall k | 0 <= k < 5 && ps[k].period > 0 ensures InRange(ps[k].initval) && InRange(At(ps[k], ps[k].period - 1)) {
      var first := VisitsTimed(g, k, 0);
      var last := VisitsTimed(g, k, ps[k].period - 1);
      AtFirst(ps[k]);
    }
    forall k | 1 <= k < 5 && ps[k].period < 0 ensures InRange(ps[k].initval) {
      var n := Visits(g, k);
    }
    var n := Visits(g, RELEASED);
  }

  lemma AtFirst(p: Param)
    requires p.period > 0
    ensures At(p, 0) == p.initval
  {
  }

  lemma AcceptedSounds(fs: int, l: Levels, old5: Param)
    requires Accepted(Segments(fs, l, old5))
    ensures Sounds(Segments(fs, l, old5))
  {
    hide Convert, TruncDiv, Segment;
    var ps := Segments(fs, l, old5);
    SegmentsGood(Eg(0, 0, [old5, old5, old5, old5, old5, old5]), fs, l);
    forall k | 0 <= k < 5 && ps[k].period > 0 ensures InRange(ps[k].initval) && InRange(At(ps[k], ps[k].period - 1)) {
      FractionBetween(ps[k].diff2next, ps[k].period - 1, ps[k].period);
      assert ps[k].initval + ps[k].diff2next == ps[k + 1].initval;
    }
  }

  /** A set-up that is refused is played all the same, and may be out of range. */
  lemma RefusedIsPlayed(g: Eg)
    requires Shape(g)
    ensures var loud := Level(2.0, 1);
            var l := Levels(loud, loud, loud, loud, loud);
            var h := Apply(Apply(g, Setup(1000, l)), Start);
            !Accepted(h.params) && NextSample(h).value > MAX_EGLEVEL
  {
    assert Convert(2.0) == 8190 && TruncDiv(1000, 1000) == 1 && TruncDiv(0, 1) == 0;
  }

  /** Stopped, the generator gives its resting level for ever. */
  lemma StopRests(g: Eg, n: nat)
    requires Shape(g)
    ensures NextSample(After(Apply(g, Stop), n)).value == g.params[RELEASED].initval
  {
    StaysReleased(Apply(g, Stop), n);
  }

  /** Started, it gives the attack from its beginning, if that is timed. */
  lemma StartAttacks(g: Eg, n: nat)
    requires Shape(g) && n < g.params[0].period
    ensures NextSample(After(Apply(g, Start), n)).value == At(g.params[0], n)
  {
    hide TruncDiv;
    WithinSegment(Apply(g, Start), n);
  }

  // The segments of a set-up stay in range.
  predicate Welcome(g: Eg, a: Act)
    requires Shape(g)
  {
    a.Setup? && a.fs > 0 ==> Sounds(Segments(a.fs, a.levels, g.params[5]))
  }

  predicate AllWelcome(g: Eg, acts: seq<Act>)
    requires Shape(g)
    decreases |acts|
  {
    acts != [] ==> Welcome(g, acts[0]) && AllWelcome(Apply(g, acts[0]), acts[1..])
  }

  function RunActs(g: Eg, acts: seq<Act>): (r: Eg)
    requires Shape(g)
    ensures Shape(r)
    decreases |acts|
  {
    if acts == [] then g else RunActs(Apply(g, acts[0]), acts[1..])
  }

  /**
    Whatever is done, in whatever order, every sample stays within the level limits, as long
    as the segments of each set-up do.
  */
  lemma {:induction false} EveryRunInRange(g: Eg, acts: seq<Act>)
    requires Shape(g) && Sounds(g.params) && AllWelcome(g, acts)
    ensures InRange(NextSample(RunActs(g, acts)).value)
    decreases |acts|
  {
    hide NextSample, Segments, Sounds;
    if acts == [] {
      SoundsInRange(g);
    } else {
      EveryRunInRange(Apply(g, acts[0]), acts[1..]);
    }
  }

  // ----- The generator in place -----

  class Generator {
    var state: nat
    var counter: nat
    const params: array<Param>

    ghost predicate Valid()
      reads this
    {
      state <= RELEASED && params.Length == 6
    }

    ghost function State(): (g: Eg)
      requires Valid()
      reads this, params
      ensures Shape(g)
    {
      Eg(state, counter, params[..])
    }

    // `junk` is what the allocated memory happens to hold.
    constructor (junk: int)
      ensures Valid() && fresh(params) && Good(State()) && Sounds(State().params) && state == RELEASED
    {
      state := RELEASED;
      counter := 0;
      params := new Param[6](i => Param(if i == RELEASED then MAX_EGLEVEL else 0, 0, junk));
    }

    method SetEgParams(fs: int, at: nat, target: Level, last: Level) returns (ok: bool)
      requires Valid() && at < RELEASED
      modifies params
      ensures params[..] == old(params[..])[at := Segment(fs, target, last)]
      ensures ok == SegmentOk(Segment(fs, target, last))
    {
      params[at] := Param(Convert(last.level), TruncDiv(fs * target.periodMs, 1000),
                          Convert(target.level) - Convert(last.level));
      ok := !(params[at].initval < -MAX_EGLEVEL || params[at].initval > MAX_EGLEVEL || params[at].period < 0);
    }

    method SetParam(fs: int, l: Levels) returns (ok: bool)
      requires Valid()
      modifies params
      ensures Valid() && State() == Apply(old(State()), Setup(fs, l))
      ensures ok <==> fs > 0 && Accepted(params[..])
    {
      hide Convert, TruncDiv, SegmentOk;
      if fs <= 0 {
        return false;
      }
      var ok0 := SetEgParams(fs, 0, l.attack, l.release);
      var ok1 := SetEgParams(fs, 1, l.decaybrk, l.attack);
      var ok2 := SetEgParams(fs, 2, l.decay, l.decaybrk);
      var ok3 := SetEgParams(fs, 3, l.sustain, l.decay);
      var ok4 := SetEgParams(fs, 4, l.release, l.sustain);
      params[RELEASED] := params[RELEASED].(initval := Convert(l.release.level));
      ok := ok0 && ok1 && ok2 && ok3 && ok4;
    }

    method Start()
      requires Valid()
      modifies `state, `counter
      ensures Valid() && State() == Apply(old(State()), Act.Start)
    {
      state, counter := 0, 0;
    }

    method Stop()
      requires Valid()
      modifies `state, `counter
      ensures Valid() && State() == Apply(old(State()), Act.Stop)
    {
      state, counter := RELEASED, 0;
    }

    method Operate() returns (val: int)
      requires Valid()
      modifies `state, `counter
      ensures Valid() && Sample(State(), val) == NextSample(old(State()))
    {
      hide TruncDiv, NextState;
      var at := state;
      ghost var g := State();
      val := params[at].initval;
      if at != RELEASED {
        if counter >= params[at].period {
          counter := 0;
          NextStep(g.params, at);
          state := at + 1;
          while state < RELEASED && params[state].period == 0
            invariant at < state <= RELEASED && params[..] == g.params && counter == 0
            invariant NextState(g.params, at) == FirstTimed(g.params, state)
            decreases RELEASED - state
          {
            NextStep(g.params, state);
            state := state + 1;
          }
          val := params[state].initval;
        } else {
          val := val + TruncDiv(params[at].diff2next * counter, params[at].period);
          counter := counter + 1;
        }
      }
    }
  }
}
