/**
  The count taken ahead of a tuplet is the number of events that are then parsed, and
  the lengths handed out add up to the length of the tuplet.  Note lengths are the exact
  fractions they stand for, rounded down once.
*/
module MmlTuplet {
  import opened CLang
  import opened MmlSpec

  // ----- The pre-scan, from position to position -----

  // Characters that the pre-scan passes over.
  predicate Neutral(c: char) {
    !IsNoteOrRest(c) && c != '[' && c != '}' && c != NUL
  }

  lemma {:induction false} CountNeutral(s: string, p: nat, q: nat)
    requires p <= q <= |s| && forall i :: p <= i < q ==> Neutral(At(s, i))
    ensures Count(s, p) == Count(s, q)
    decreases q - p
  {
    if p == q {
    } else {
      assert Neutral(At(s, p));
      CountNeutral(s, p + 1, q);
    }
  }

  lemma {:induction false} SpaceNeutral(s: string, p: nat)
    requires p <= |s|
    ensures forall i :: p <= i < SkipSpace(s, p) ==> Neutral(At(s, i))
    decreases |s| - p
  {
    if !IsSpace(At(s, p)) {
    } else {
      SpaceNeutral(s, p + 1);
    }
  }

  lemma CountSkipsSpace(s: string, p: nat)
    requires p <= |s|
    ensures Count(s, p) == Count(s, SkipSpace(s, p))
  {
    SpaceNeutral(s, p);
    CountNeutral(s, p, SkipSpace(s, p));
  }

  // One character of the pre-scan.
  lemma CountStep(s: string, p: nat)
    requires p < |s| && s[p] != '}'
    ensures var q := if s[p] == '[' then SkipUntil(s, p, ']') else p;
            Count(s, p) == if q == |s| then Scan(1, false, q)
                           else Count(s, q + 1).(notes := Count(s, q + 1).notes
                                                          + if IsNoteOrRest(s[p]) || s[p] == '[' then 1 else 0)
  {
  }

  // ----- Chords -----

  // No closing bracket from `p` to `q`.
  ghost predicate Open(s: string, p: nat, q: nat) {
    forall i :: p <= i < q ==> At(s, i) != ']'
  }

  lemma {:induction false} SpaceOpen(s: string, p: nat)
    requires p <= |s|
    ensures Open(s, p, SkipSpace(s, p))
    decreases |s| - p
  {
    if !IsSpace(At(s, p)) {
    } else {
      SpaceOpen(s, p + 1);
    }
  }

  lemma OctaveOpen(m: Mml, code: char, s: string, p: nat)
    requires p <= |s|
    ensures var r := OctaveOf(m, code, s, p); p <= r.p <= |s| && Open(s, p, r.p)
  {
  }

  // One code of a chord passes no closing bracket but the last.
  lemma CodeOpen(m: Mml, s: string, p: nat, notes: seq<int>)
    requires p <= |s|
    ensures match ChordCode(m, s, p, notes)
            case ChordDone(r) => r.ok ==> At(s, r.p - 1) == ']' && Open(s, p, r.p - 1)
            case ChordMore(_, q, _) => Open(s, p, q)
  {
    hide HalfScale, Atoi, OctaveOf;
    SpaceOpen(s, p);
    var q := SkipSpace(s, p);
    OctaveOpen(m, At(s, q), s, if q < |s| then q + 1 else q);
    assert q < |s| ==> Open(s, q + 1, HalfEnd(s, q + 1));
  }

  // A chord that parses ends just after the first closing bracket.
  lemma {:induction false} ChordEnds(m: Mml, s: string, p: nat, notes: seq<int>)
    requires p <= |s| && ChordLoop(m, s, p, notes).ok
    ensures var r := ChordLoop(m, s, p, notes);
            At(s, r.p - 1) == ']' && Open(s, p, r.p - 1)
    decreases |s| - p
  {
    hide ChordCode;
    CodeOpen(m, s, p, notes);
    match ChordCode(m, s, p, notes)
    case ChordDone(_) =>
    case ChordMore(m', p', notes') => ChordEnds(m', s, p', notes');
  }

  lemma {:induction false} SkipUntilIs(s: string, p: nat, q: nat, c: char)
    requires p <= q < |s| && s[q] == c && forall i :: p <= i < q ==> At(s, i) != c
    ensures SkipUntil(s, p, c) == q
    decreases q - p
  {
    if p == q {
    } else {
      assert At(s, p) != c;
      SkipUntilIs(s, p + 1, q, c);
    }
  }

  // The pre-scan passes over a chord to where its parse ends.
  lemma CountChord(m: Mml, s: string, p: nat)
    requires p < |s| && s[p] == '[' && ChordLoop(m, s, p + 1, []).ok
    ensures var r := ChordLoop(m, s, p + 1, []);
            Count(s, p) == Count(s, r.p).(notes := Count(s, r.p).notes + 1)
  {
    ChordEnds(m, s, p + 1, []);
    var r := ChordLoop(m, s, p + 1, []);
    SkipUntilIs(s, p, r.p - 1, ']');
  }

  // ----- One event inside a tuplet -----

  // The events parsed so far and those still ahead make up the count.
  predicate InTuplet(m: Mml, s: string, p: nat)
    requires p <= |s|
  {
    && m.tuplet && Ready(m)
    && Count(s, p).closed
    && 0 <= m.curTuplet
    && m.curTuplet + Count(s, p).notes == m.tupletNotes
  }

  // What an event inside a tuplet may do.
  predicate EventOk(m: Mml, s: string, p: nat, r: Parsed)
    requires p <= |s| && Ready(m) && m.tuplet
  {
    && r.kind !in {TooManyNotes, TooFewNotes, Eof, TupletStart}
    && (!IsError(r.kind) ==> p < r.p <= |s|)
    && (Sounding(r.kind) ==>
          && r.length == Share(m) && r.m.curTuplet == m.curTuplet + 1
          && r.m.tuplet && r.m.tupletNotes == m.tupletNotes && r.m.tupletLength == m.tupletLength
          && Count(s, r.p).closed && Count(s, r.p).notes == Count(s, p).notes - 1)
    && (!Sounding(r.kind) && !IsError(r.kind) && r.kind != TupletDone ==>
          && r.m == m.(tempo := r.m.tempo, octave := r.m.octave, defLength := r.m.defLength)
          && Count(s, r.p) == Count(s, p))
    && (r.kind == TupletDone ==> m.curTuplet == m.tupletNotes && !r.m.tuplet)
  }

  lemma NoteCounts(m: Mml, s: string, q: nat)
    requires q < |s| && InTuplet(m, s, q) && IsNoteOrRest(s[q])
    ensures EventOk(m, s, q, Notes(m, s[q], s, q + 1)) && EventOk(m, s, q, RestOf(m, s, q + 1))
  {
    hide HalfScale, NoteIndex, Share;
    CountNeutral(s, q + 1, HalfEnd(s, q + 1));
  }

  lemma ChordCounts(m: Mml, s: string, q: nat)
    requires q < |s| && InTuplet(m, s, q) && s[q] == '['
    ensures EventOk(m, s, q, ChordOf(m, s, q + 1))
  {
    hide ChordLoop, Share, Count;
    var r := ChordLoop(m, s, q + 1, []);
    if r.ok {
      CountChord(m, s, q);
      SameShare(m, r.m);
    }
  }

  // The share does not depend on the octave.
  lemma SameShare(m: Mml, u: Mml)
    requires m.tupletNotes != 0 && u == m.(octave := u.octave)
    ensures Share(u) == Share(m)
  {
  }

  lemma ValueCounts(m: Mml, s: string, q: nat, r: Parsed)
    requires q < |s| && InTuplet(m, s, q) && Neutral(s[q])
    requires r.kind in {Tempo, Length, Octave, Volume, Tone, TempoError, LengthError, OctaveError, VolumeError,
                       ToneError}
    requires !IsError(r.kind) ==>
               && r.p in {q + 1, DigitsEnd(s, q + 1)}
               && r.m == m.(tempo := r.m.tempo, octave := r.m.octave, defLength := r.m.defLength)
    ensures EventOk(m, s, q, r)
  {
    CountNeutral(s, q, q + 1);
    CountNeutral(s, q + 1, DigitsEnd(s, q + 1));
  }

  /**
    One call inside a tuplet.  It never finds too many notes, never reaches the end of the
    score, and finds the closing brace exactly when all events have been parsed.
  */
  lemma EventCounts(m: Mml, s: string, p: nat)
    requires p <= |s| && InTuplet(m, s, p) && Parsable(m, s, p)
    ensures EventOk(m, s, p, Parse(m, s, p))
  {
    hide EventOk, Count, Parse;
    CountSkipsSpace(s, p);
    ParseSkipsSpace(m, s, p);
    var q := SkipSpace(s, p);
    EventAt(m, s, q);
    EventLater(m, s, p, q, Parse(m, s, q));
  }

  lemma ParseSkipsSpace(m: Mml, s: string, p: nat)
    requires Parsable(m, s, p)
    ensures Parsable(m, s, SkipSpace(s, p)) && Parse(m, s, SkipSpace(s, p)) == Parse(m, s, p)
  {
    hide Notes, RestOf, ChordOf, OctaveOf, VolumeOf, StartTuplet, StopTuplet, Atoi, DigitsEnd;
    assert SkipSpace(s, SkipSpace(s, p)) == SkipSpace(s, p);
  }

  lemma EventLater(m: Mml, s: string, p: nat, q: nat, r: Parsed)
    requires p <= q <= |s| && Ready(m) && m.tuplet && Count(s, p) == Count(s, q) && EventOk(m, s, q, r)
    ensures EventOk(m, s, p, r)
  {
    hide Count;
  }

  lemma EventAt(m: Mml, s: string, q: nat)
    requires q <= |s| && InTuplet(m, s, q) && !IsSpace(At(s, q)) && Parsable(m, s, q)
    ensures q < |s| && EventOk(m, s, q, Parse(m, s, q))
  {
    hide Notes, RestOf, ChordOf, EventOk, HalfScale, HalfEnd, Share, Atoi, SampleLength;
    assert SkipSpace(s, q) == q;
    match s[q]
    case 'A' | 'B' | 'C' | 'D' | 'E' | 'F' | 'G' => NoteCounts(m, s, q);
    case 'R' => NoteCounts(m, s, q);
    case '[' => ChordCounts(m, s, q);
    case '}' => CloseCounts(m, s, q);
    case 'O' | '>' | '<' | 'T' | 'L' | 'V' | '@' => ValueCounts(m, s, q, Parse(m, s, q));
    case _ => ErrorCounts(m, s, q, Parse(m, s, q));
  }

  lemma CloseCounts(m: Mml, s: string, q: nat)
    requires q < |s| && InTuplet(m, s, q) && s[q] == '}' && m.tempo != 0
    ensures EventOk(m, s, q, StopTuplet(m, s, q + 1))
  {
    hide SampleLength;
  }

  lemma ErrorCounts(m: Mml, s: string, q: nat, r: Parsed)
    requires q < |s| && InTuplet(m, s, q) && IsError(r.kind) && r.kind != TooManyNotes && r.kind != TooFewNotes
    ensures EventOk(m, s, q, r)
  {
  }

  // ----- A whole tuplet -----

  datatype Outcome =
    | Closed(events: nat, total: int)
    | Failed(kind: Kind)
    | NoTempo

  // Calls from `p` on until the closing brace or an error, with the events so far and the
  // sum of their lengths.  A tempo of zero leaves the length after the brace undefined.
  function RunTuplet(m: Mml, s: string, p: nat, events: nat, total: int): Outcome
    requires p <= |s| && Ready(m)
    decreases |s| - p
  {
    if !Parsable(m, s, p) then NoTempo
    else
      var r := Parse(m, s, p);
      if r.kind == TupletDone then Closed(events, total)
      else if IsError(r.kind) || r.p > |s| || r.p <= p || !Ready(r.m) then Failed(r.kind)
      else if Sounding(r.kind) then RunTuplet(r.m, s, r.p, events + 1, total + r.length)
      else RunTuplet(r.m, s, r.p, events, total)
  }

  // What `k` of `n` events have got of a length `len`.
  function Shares(len: nat, n: nat, k: nat): int
    requires n != 0 && k <= n
  {
    if k < n then (len / n) * k else len
  }

  lemma NextShare(m: Mml, k: nat)
    requires m.tupletLength >= 0 && m.tupletNotes > 0 && k == m.curTuplet && k < m.tupletNotes
    ensures Shares(m.tupletLength, m.tupletNotes, k) + Share(m) == Shares(m.tupletLength, m.tupletNotes, k + 1)
    ensures Share(m) >= 0
  {
    var n, each := m.tupletNotes, m.tupletLength / m.tupletNotes;
    assert each * (k + 1) == each * k + each;
    if k + 1 == n {
      assert each * k == each * (n - 1);
      assert each * n <= m.tupletLength;
      assert each * (n - 1) <= each * n by { assert each * n == each * (n - 1) + each; }
    }
  }

  // At some point the closing brace comes with a tempo of zero.
  predicate EndsWithoutTempo(m: Mml, s: string, p: nat)
    requires p <= |s| && Ready(m)
    decreases |s| - p
  {
    if !Parsable(m, s, p) then m.tempo == 0 && SkipSpace(s, p) < |s| && s[SkipSpace(s, p)] == '}'
    else
      var r := Parse(m, s, p);
      p < r.p <= |s| && Ready(r.m) && EndsWithoutTempo(r.m, s, r.p)
  }

  lemma {:induction false} TupletRuns(m: Mml, s: string, p: nat)
    requires p <= |s| && InTuplet(m, s, p) && m.tupletNotes > 0 && m.tupletLength >= 0
    ensures match RunTuplet(m, s, p, m.curTuplet, Shares(m.tupletLength, m.tupletNotes, m.curTuplet))
            case Closed(events, total) => events == m.tupletNotes && total == m.tupletLength
            case Failed(kind) => IsError(kind) && kind != TooManyNotes && kind != TooFewNotes
            case NoTempo => EndsWithoutTempo(m, s, p)
    decreases |s| - p
  {
    hide Parse, Count, Share, Parsable;
    if Parsable(m, s, p) {
      EventCounts(m, s, p);
      var r := Parse(m, s, p);
      if !IsError(r.kind) && r.kind != TupletDone {
        if Sounding(r.kind) {
          NextShare(m, m.curTuplet);
        }
        TupletRuns(r.m, s, r.p);
      }
    } else {
      AtTheBrace(m, s, p);
    }
  }

  // Inside a tuplet nothing else needs the tempo.
  lemma AtTheBrace(m: Mml, s: string, p: nat)
    requires p <= |s| && Ready(m) && m.tuplet && !Parsable(m, s, p)
    ensures m.tempo == 0 && SkipSpace(s, p) < |s| && s[SkipSpace(s, p)] == '}'
  {
  }

  /**
    A tuplet that opens, with a length that is not an error: however many calls it takes,
    either one of them reports an error that has nothing to do with the count, or the
    closing brace is accepted after exactly the events that were counted, whose lengths
    add up to that of the tuplet.
  */
  lemma TupletAgrees(m: Mml, s: string, p: nat)
    requires Parsable(m, s, p)
    requires Parse(m, s, p).kind == TupletStart && Parse(m, s, p).length >= 0
    ensures var r := Parse(m, s, p);
            && r.p <= |s| && Ready(r.m)
            && match RunTuplet(r.m, s, r.p, 0, 0)
               case Closed(events, total) => events == r.m.tupletNotes && total == r.length
               case Failed(kind) => IsError(kind) && kind != TooManyNotes && kind != TooFewNotes
               case NoTempo => EndsWithoutTempo(r.m, s, r.p)
  {
    StartCounts(m, s, p);
    var r := Parse(m, s, p);
    TupletRuns(r.m, s, r.p);
  }

  lemma StartCounts(m: Mml, s: string, p: nat)
    requires Parsable(m, s, p) && Parse(m, s, p).kind == TupletStart
    ensures var r := Parse(m, s, p);
            r.p <= |s| && InTuplet(r.m, s, r.p) && r.m.curTuplet == 0 && r.m.tupletNotes > 0
                && r.m.tupletLength == r.length
  {
  }

  // ----- Note lengths -----

  lemma DotSumIs(dots: nat)
    requires dots <= 4
    ensures (16 + DotSum(dots)) * Pow2(dots) == 16 * (Pow2(dots + 1) - 1)
  {
    assert Pow2(0) == 1 && Pow2(1) == 2 && Pow2(2) == 4 && Pow2(3) == 8 && Pow2(4) == 16 && Pow2(5) == 32;
    assert DotSum(0) == 0;
    assert dots >= 1 ==> DotSum(1) == 8;
    assert dots >= 2 ==> DotSum(2) == 12;
    assert dots >= 3 ==> DotSum(3) == 14;
    assert dots >= 4 ==> DotSum(4) == 15;
  }

  /** `r` is `a / b` rounded down. */
  predicate IsFloor(r: int, a: int, b: int) {
    r * b <= a < (r + 1) * b
  }

  // Rounding down twice is rounding down once.
  lemma FloorTwice(a: nat, b: nat, c: nat)
    requires b > 0 && c > 0
    ensures b * c > 0 && IsFloor(a / b / c, a, b * c)
  {
    var q := a / b;
    var r := q / c;
    assert q * b <= a < (q + 1) * b;
    assert r * c <= q && q + 1 <= (r + 1) * c;
    MulLe(r * c, q, b);
    MulLe(q + 1, (r + 1) * c, b);
    assert r * c * b == r * (b * c) && (r + 1) * c * b == (r + 1) * (b * c);
    assert b * c > 0;
  }

  lemma MulLe(x: int, y: int, b: nat)
    requires x <= y
    ensures x * b <= y * b
  {
  }

  // A fraction in larger or smaller terms has the same floor.
  lemma FloorScaled(r: int, a: int, b: int, k: int)
    requires k > 0
    ensures IsFloor(r, a * k, b * k) <==> IsFloor(r, a, b)
  {
    assert r * (b * k) == (r * b) * k && (r + 1) * (b * k) == ((r + 1) * b) * k;
    MulOrder(r * b, a, k);
    MulOrder((r + 1) * b, a, k);
  }

  lemma MulOrder(x: int, y: int, k: int)
    requires k > 0
    ensures x * k <= y * k <==> x <= y
  {
    assert y * k - x * k == (y - x) * k;
    if x <= y {
      assert (y - x) * k >= 0;
    } else {
      assert (y - x) * k < 0;
    }
  }

  // The shifts stand for a division by the number of the note length.
  lemma ShiftsDivide(num: int)
    requires num in {1, 2, 4, 8, 16, 32, 64}
    ensures var sh := ShiftsOf(num); sh.Shifts? && Pow2(2 + sh.div) == num * Pow2(sh.n)
  {
    assert Pow2(0) == 1 && Pow2(1) == 2 && Pow2(2) == 4 && Pow2(3) == 8 && Pow2(4) == 16 && Pow2(5) == 32
        && Pow2(6) == 64;
  }

  /**
    A note length in samples is 240 fs (2^(dots+1) - 1) / (num 2^dots tempo), rounded down
    once, although the code doubles, halves and divides in several steps.
  */
  lemma CalcSamplesExact(fs: nat, tempo: nat, num: int, dots: nat)
    requires tempo > 0 && dots <= 4 && num in {1, 2, 4, 8, 16, 32, 64}
    ensures IsFloor(CalcSamples(fs, tempo, num, dots), 240 * fs * (Pow2(dots + 1) - 1), num * Pow2(dots) * tempo)
  {
    ShiftsDivide(num);
    DotSumIs(dots);
    var sh := ShiftsOf(num);
    ExactCore(fs, tempo, num, 16 + DotSum(dots), Pow2(sh.n), Pow2(dots), Pow2(dots + 1) - 1);
  }

  /** Length 0 is a breve: twice a whole note, rounded down once after the doubling. */
  lemma CalcSamplesBreve(fs: nat, tempo: nat, dots: nat)
    requires tempo > 0 && dots <= 4
    ensures IsFloor(CalcSamples(fs, tempo, 0, dots), 240 * (2 * fs) * (Pow2(dots + 1) - 1), 1 * Pow2(dots) * tempo)
  {
    hide DotSum;
    DotSumIs(dots);
    var mul := 16 + DotSum(dots);
    assert Pow2(1) == 2 && Pow2(2) == 4 && Pow2(3) == 8;
    assert 15 * fs * mul * 8 == 15 * (2 * fs) * mul * 4;
    ExactCore(2 * fs, tempo, 1, mul, 4, Pow2(dots), Pow2(dots + 1) - 1);
  }

  lemma ExactCore(fs: nat, tempo: nat, num: nat, mul: nat, pn: nat, pd: nat, e: int)
    requires tempo > 0 && num > 0 && pn > 0 && pd > 0 && mul * pd == 16 * e
    ensures num * pn > 0
    ensures var a := 15 * fs * mul * pn;
            a >= 0 && IsFloor(a / (num * pn) / tempo, 240 * fs * e, num * pd * tempo)
  {
    var a, b := 15 * fs * mul * pn, num * pn;
    assert b > 0;
    NonNegative(fs, mul, pn);
    var r := a / b / tempo;
    hide IsFloor;
    FloorTwice(a, b, tempo);
    FloorScaled(r, a, b * tempo, pd);
    Rearrange(fs, mul, pn, pd, e, num, tempo);
    FloorScaled(r, 240 * fs * e, num * pd * tempo, pn);
  }

  lemma NonNegative(x: nat, y: nat, z: nat)
    ensures 15 * x * y * z >= 0
  {
    assert 15 * x * y >= 0;
  }

  lemma Rearrange(fs: int, mul: int, pn: int, pd: int, e: int, num: int, tempo: int)
    requires mul * pd == 16 * e
    ensures 15 * fs * mul * pn * pd == 240 * fs * e * pn
    ensures num * pn * tempo * pd == num * pd * tempo * pn
  {
    assert 15 * fs * mul * pn * pd == 15 * fs * pn * (mul * pd);
    assert 15 * fs * pn * (16 * e) == 240 * fs * e * pn;
  }

  /** Any other number of a note length, or more than four dots, is an error. */
  lemma CalcSamplesRejects(fs: int, tempo: int, num: int, dots: nat)
    requires tempo != 0
    requires num !in {0, 1, 2, 4, 8, 16, 32, 64} || dots > 4
    ensures CalcSamples(fs, tempo, num, dots) == -EINVAL
  {
  }
}
