/**
  The music macro language parser: one call consumes one event of the score.  Inside
  braces (a tuplet) the events share the length that follows the closing brace, which
  is why the opening brace counts them ahead of parsing them.
*/
module MmlSpec {
  import opened CLang

  const EINVAL := 22
  const MAX_CHORD_NOTES := 5

  // ----- Characters -----

  // The character at `p`; the score is NUL-terminated.
  function At(s: string, p: nat): char {
    if p < |s| then s[p] else NUL
  }

  predicate IsSpace(c: char) {
    c == ' ' || '\t' <= c <= '\r'
  }

  predicate IsDigit(c: char) {
    '0' <= c <= '9'
  }

  function SkipSpace(s: string, p: nat): (q: nat)
    ensures p <= q && (p <= |s| ==> q <= |s|) && !IsSpace(At(s, q))
    decreases |s| - p
  {
    if IsSpace(At(s, p)) then SkipSpace(s, p + 1) else p
  }

  function SkipUntil(s: string, p: nat, c: char): (q: nat)
    ensures p <= q && (p <= |s| ==> q <= |s|)
    ensures p <= |s| ==> (q < |s| && s[q] == c) || q == |s|
    ensures forall i :: p <= i < q ==> At(s, i) != c
    decreases |s| - p
  {
    if p >= |s| || s[p] == c then p else SkipUntil(s, p + 1, c)
  }

  // The end of the digits from `p` on, and their value after `n`.
  function DigitsEnd(s: string, p: nat): (q: nat)
    ensures p <= q && (p <= |s| ==> q <= |s|)
    ensures forall i :: p <= i < q ==> IsDigit(At(s, i))
    decreases |s| - p
  {
    if IsDigit(At(s, p)) then DigitsEnd(s, p + 1) else p
  }

  function Atoi(s: string, p: nat, n: nat): nat
    decreases |s| - p
  {
    if IsDigit(At(s, p)) then Atoi(s, p + 1, n * 10 + (At(s, p) as int - '0' as int)) else n
  }

  // atoi where nothing has been checked before: it passes over blanks and takes a sign.
  function AtoiSigned(s: string, p: nat): int {
    var q := SkipSpace(s, p);
    if At(s, q) == '-' then -(Atoi(s, q + 1, 0) as int)
    else Atoi(s, if At(s, q) == '+' then q + 1 else q, 0)
  }

  // Sharps and flats.
  predicate IsHalf(c: char) {
    c == '+' || c == '#' || c == '-'
  }

  function HalfEnd(s: string, p: nat): (q: nat)
    ensures p <= q && (p <= |s| ==> q <= |s|)
    ensures forall i :: p <= i < q ==> IsHalf(At(s, i))
    decreases |s| - p
  {
    if IsHalf(At(s, p)) then HalfEnd(s, p + 1) else p
  }

  function HalfScale(s: string, p: nat): int
    decreases |s| - p
  {
    if !IsHalf(At(s, p)) then 0
    else (if At(s, p) == '-' then -1 else 1) + HalfScale(s, p + 1)
  }

  function NoteIndex(c: char): int {
    match c
    case 'C' => 0
    case '+' => 1
    case 'D' => 2
    case 'E' => 4
    case 'F' => 5
    case 'G' => 7
    case 'A' => 9
    case 'B' => 11
    case _ => -1
  }

  // ----- Lengths -----

  function Pow2(n: nat): (p: nat)
    ensures p >= 1
  {
    if n == 0 then 1 else 2 * Pow2(n - 1)
  }

  // Left and right shifts for a note length; None if there is no such length.
  datatype Shifts = NoShift | Shifts(n: nat, div: nat)

  function ShiftsOf(num: int): Shifts {
    match num
    case 0 => Shifts(3, 0)
    case 1 => Shifts(2, 0)
    case 2 => Shifts(1, 0)
    case 4 => Shifts(0, 0)
    case 8 => Shifts(0, 1)
    case 16 => Shifts(0, 2)
    case 32 => Shifts(0, 3)
    case 64 => Shifts(0, 4)
    case _ => NoShift
  }

  // Sixteenths of the undotted length that the dots add, for at most four dots.
  function DotSum(dots: nat): nat
    requires dots <= 4
  {
    if dots == 0 then 0 else Pow2(4 - dots) + DotSum(dots - 1)
  }

  function CalcSamples(fs: int, tempo: int, num: int, dots: nat): int
    requires tempo != 0
  {
    match ShiftsOf(num)
    case NoShift => -EINVAL
    case Shifts(n, div) =>
      if dots > 4 then -EINVAL
      else TruncDiv(15 * fs * (16 + DotSum(dots)) * Pow2(n) / Pow2(2 + div), tempo)
  }

  // ----- State -----

  datatype Mml = Mml(
    tempo: int, octave: int, defLength: int, fs: int,
    tuplet: bool, curTuplet: int, tupletNotes: int, tupletLength: int)

  function GetSamples(m: Mml, samples: int, num: int, dots: nat, plus: bool): int
    requires m.tempo != 0
  {
    var len := CalcSamples(m.fs, m.tempo, if num < 0 then m.defLength else num, dots);
    if len > 0 && plus then samples + len else len
  }

  // A length and the position after it.
  datatype Len = Len(samples: int, p: nat)

  // The rest of a length: dots and plus signs after a number (`after`), or the number
  // that a plus sign calls for.
  function LengthLoop(m: Mml, s: string, p: nat, after: bool, samples: int, num: int, dots: nat, plus: bool): (r: Len)
    requires m.tempo != 0 && p <= |s|
    ensures p <= r.p <= |s|
    decreases |s| - p, after
  {
    if after then
      if At(s, p) == '.' then LengthLoop(m, s, p + 1, true, samples, num, dots + 1, plus)
      else
        var sum := GetSamples(m, samples, num, dots, plus);
        if At(s, p) != '+' then Len(sum, p)
        else if sum < 0 then Len(sum, p + 1)
        else LengthLoop(m, s, p + 1, false, sum, -1, dots, true)
    else if IsDigit(At(s, p)) then
      LengthLoop(m, s, DigitsEnd(s, p), true, samples, Atoi(s, p, 0), dots, plus)
    else Len(-EINVAL, p)
  }

  function SampleLength(m: Mml, s: string, p: nat): (r: Len)
    requires m.tempo != 0 && p <= |s|
    ensures p <= r.p <= |s|
  {
    if IsDigit(At(s, p)) then LengthLoop(m, s, DigitsEnd(s, p), true, 0, Atoi(s, p, 0), 0, false)
    else if At(s, p) == '.' then LengthLoop(m, s, p + 1, true, 0, -1, 1, false)
    else Len(GetSamples(m, 0, -1, 0, false), p)
  }

  // ----- Events -----

  datatype Kind =
    | Eof | Note | Rest | Tempo | Length | Octave | TupletStart | TupletDone | Volume | Tone | Chord
    | NoteError | RestError | TempoError | LengthError | OctaveError | VolumeError | TupletError | ToneError
    | ChordError
    | IllegalComposition | TooManyNotes | TooFewNotes | DoubleTuplet

  // An event with a length inside a tuplet.
  predicate Sounding(k: Kind) {
    k == Note || k == Rest || k == Chord
  }

  predicate IsError(k: Kind) {
    k in {NoteError, RestError, TempoError, LengthError, OctaveError, VolumeError, TupletError, ToneError, ChordError,
          IllegalComposition, TooManyNotes, TooFewNotes, DoubleTuplet}
  }

  // The outcome of one call: new state and position, kind of event, its length or value,
  // and its notes.
  datatype Parsed = Parsed(m: Mml, p: nat, kind: Kind, length: int, notes: seq<int>)

  // tuplet_length: equal shares, the last one taking what is left over.
  function Share(m: Mml): int
    requires m.tupletNotes != 0
  {
    var each := TruncDiv(m.tupletLength, m.tupletNotes);
    if m.curTuplet + 1 == m.tupletNotes then m.tupletLength - each * (m.tupletNotes - 1) else each
  }

  function Counted(m: Mml): Mml {
    m.(curTuplet := m.curTuplet + 1)
  }

  // A tuplet in progress has notes to share its length among.
  predicate Ready(m: Mml) {
    m.tuplet ==> m.tupletNotes != 0
  }

  // The pre-scan: events up to the closing brace, whether there is one, and where.
  datatype Scan = Scan(notes: nat, closed: bool, end: nat)

  predicate IsNoteOrRest(c: char) {
    c == 'C' || c == 'D' || c == 'E' || c == 'F' || c == 'G' || c == 'A' || c == 'B' || c == 'R'
  }

  function Count(s: string, p: nat): (c: Scan)
    requires p <= |s|
    ensures p <= c.end <= |s| && (c.closed ==> c.end < |s| && s[c.end] == '}')
    decreases |s| - p
  {
    if p == |s| then Scan(1, false, p)
    else if s[p] == '}' then Scan(0, true, p)
    else if IsNoteOrRest(s[p]) then var c := Count(s, p + 1); c.(notes := c.notes + 1)
    else if s[p] == '[' then
      var q := SkipUntil(s, p, ']');
      if q == |s| then Scan(1, false, q)
      else var c := Count(s, q + 1); c.(notes := c.notes + 1)
    else Count(s, p + 1)
  }

  // Lengths are measured by the tempo where they are given: outside of tuplets, and after
  // the closing brace of one.  With a tempo of zero that is a division by zero.
  function StartTuplet(m: Mml, s: string, p: nat): Parsed
    requires p <= |s| && (m.tempo != 0 || m.tuplet || !Count(s, p).closed)
  {
    if m.tuplet then Parsed(m, p, DoubleTuplet, 0, [])
    else
      var c := Count(s, p);
      if !c.closed then Parsed(m.(tupletNotes := c.notes), p, TupletError, 0, [])
      else
        var len := SampleLength(m, s, c.end + 1).samples;
        var u := m.(tupletNotes := c.notes, tupletLength := len);
        if c.notes == 0 then Parsed(u, p, TupletError, 0, [])
        else Parsed(u.(tuplet := true, curTuplet := 0), p, TupletStart, len, [])
  }

  function StopTuplet(m: Mml, s: string, p: nat): Parsed
    requires m.tempo != 0 && p <= |s|
  {
    var u := m.(tuplet := false);
    Parsed(u, SampleLength(u, s, p).p, if m.curTuplet != m.tupletNotes then TooFewNotes else TupletDone, 0, [])
  }

  function Notes(m: Mml, code: char, s: string, p: nat): Parsed
    requires Ready(m) && p <= |s| && (m.tempo != 0 || m.tuplet)
  {
    var idx := NoteIndex(code) + HalfScale(s, p) + m.octave * 12;
    if m.tuplet then
      if m.curTuplet < m.tupletNotes then
        Parsed(Counted(m), HalfEnd(s, p), Note, Share(m), [idx])
      else Parsed(m, p, TooManyNotes, 0, [])
    else
      var len := SampleLength(m, s, HalfEnd(s, p));
      Parsed(m, len.p, if len.samples < 0 then NoteError else Note, len.samples, [idx])
  }

  function RestOf(m: Mml, s: string, p: nat): Parsed
    requires Ready(m) && p <= |s| && (m.tempo != 0 || m.tuplet)
  {
    if m.tuplet then Parsed(Counted(m), p, Rest, Share(m), [])
    else
      var len := SampleLength(m, s, p);
      Parsed(m, len.p, if len.samples < 0 then RestError else Rest, len.samples, [])
  }

  // A command that takes digits: the value, or the error.
  function Value(m: Mml, update: int -> Mml, s: string, p: nat, kind: Kind, error: Kind): Parsed {
    if IsDigit(At(s, p)) then Parsed(update(Atoi(s, p, 0)), DigitsEnd(s, p), kind, Atoi(s, p, 0), [])
    else Parsed(m, p, error, 0, [])
  }

  function OctaveOf(m: Mml, code: char, s: string, p: nat): Parsed {
    if code == '>' then Parsed(m.(octave := m.octave + 1), p, Octave, m.octave + 1, [])
    else if code == '<' then Parsed(m.(octave := m.octave - 1), p, Octave, m.octave - 1, [])
    else Value(m, v => m.(octave := v), s, p, Octave, OctaveError)
  }

  function VolumeOf(m: Mml, s: string, p: nat): Parsed {
    var v := AtoiSigned(s, p);
    Parsed(m, DigitsEnd(s, p), if v < 0 || v > 100 then VolumeError else Volume, v, [])
  }

  // The number of the tone comes back where notes do.
  function ToneOf(m: Mml, s: string, p: nat): Parsed {
    if IsDigit(At(s, p)) then Parsed(m, DigitsEnd(s, p), Tone, 0, [Atoi(s, p, 0)])
    else Parsed(m, p, ToneError, 0, [])
  }

  // The inside of a chord, from `p` to after the closing bracket.
  datatype Inside = Inside(m: Mml, p: nat, ok: bool, notes: seq<int>)

  // After one code of a chord: its end, an error, or more to come.
  datatype ChordTurn = ChordDone(r: Inside) | ChordMore(m: Mml, p: nat, notes: seq<int>)

  function ChordCode(m: Mml, s: string, p: nat, notes: seq<int>): (t: ChordTurn)
    requires p <= |s|
    ensures t.ChordMore? ==> p < t.p <= |s| && t.m == m.(octave := t.m.octave)
    ensures t.ChordDone? && t.r.ok ==> p < t.r.p <= |s| && t.r.m == m
  {
    var q := SkipSpace(s, p);
    var code := At(s, q);
    if q == |s| || code == NUL then ChordDone(Inside(m, q + 1, false, notes))
    else if code == ']' then ChordDone(Inside(m, q + 1, true, notes))
    else if NoteIndex(code) >= 0 then
      var idx := NoteIndex(code) + HalfScale(s, q + 1) + m.octave * 12;
      ChordMore(m, HalfEnd(s, q + 1), if |notes| < MAX_CHORD_NOTES then notes + [idx] else notes)
    else if code == 'O' || code == '>' || code == '<' then
      var r := OctaveOf(m, code, s, q + 1);
      if r.kind == OctaveError then ChordDone(Inside(r.m, r.p, false, notes)) else ChordMore(r.m, r.p, notes)
    else ChordDone(Inside(m, q + 1, false, notes))
  }

  function ChordLoop(m: Mml, s: string, p: nat, notes: seq<int>): (r: Inside)
    requires p <= |s|
    ensures r.ok ==> p < r.p <= |s| && r.m == m.(octave := r.m.octave)
    decreases |s| - p
  {
    match ChordCode(m, s, p, notes)
    case ChordDone(r) => r
    case ChordMore(m', p', notes') => ChordLoop(m', s, p', notes')
  }

  function ChordOf(m: Mml, s: string, p: nat): Parsed
    requires Ready(m) && p <= |s| && (m.tempo != 0 || m.tuplet || !ChordLoop(m, s, p, []).ok)
  {
    var r := ChordLoop(m, s, p, []);
    if !r.ok then Parsed(r.m, r.p, ChordError, 0, r.notes)
    else if m.tuplet then
      var len := Share(r.m);
      Parsed(Counted(r.m), r.p, if len < 0 then ChordError else Chord, len, r.notes)
    else
      var len := SampleLength(r.m, s, r.p);
      Parsed(r.m, len.p, if len.samples < 0 then ChordError else Chord, len.samples, r.notes)
  }

  // The event at `q` measures a length by the tempo.
  predicate Measures(m: Mml, s: string, q: nat) {
    q < |s| &&
      match s[q]
      case '{' => !m.tuplet && Count(s, q + 1).closed
      case '}' => true
      case '[' => !m.tuplet && ChordLoop(m, s, q + 1, []).ok
      case c => !m.tuplet && IsNoteOrRest(c)
  }

  // The next event can be parsed.
  predicate Parsable(m: Mml, s: string, p: nat) {
    Ready(m) && p <= |s| && (m.tempo != 0 || !Measures(m, s, SkipSpace(s, p)))
  }

  /** parse_mml */
  function Parse(m: Mml, s: string, p: nat): Parsed
    requires Parsable(m, s, p)
  {
    var q := SkipSpace(s, p);
    if q == |s| then Parsed(m, q, Eof, 0, [])
    else
      match s[q]
      case 'A' | 'B' | 'C' | 'D' | 'E' | 'F' | 'G' => Notes(m, s[q], s, q + 1)
      case 'R' => RestOf(m, s, q + 1)
      case 'T' => Value(m, v => m.(tempo := v), s, q + 1, Tempo, TempoError)
      case 'L' => Value(m, v => m.(defLength := v), s, q + 1, Length, LengthError)
      case 'O' | '>' | '<' => OctaveOf(m, s[q], s, q + 1)
      case 'V' => VolumeOf(m, s, q + 1)
      case '[' => ChordOf(m, s, q + 1)
      case '{' => StartTuplet(m, s, q + 1)
      case '}' => StopTuplet(m, s, q + 1)
      case '@' => ToneOf(m, s, q + 1)
      case _ => Parsed(m, q + 1, IllegalComposition, 0, [])
  }
}
