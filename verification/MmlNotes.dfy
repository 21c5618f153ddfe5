/**
  What is heard: the pitches of notes and chords, and the values that the other commands set.
*/
module MmlNotes {
  import opened CLang
  import opened MmlSpec

  // ----- Pitches -----

  // The first place of `c` in `s`, or -1.
  function FirstIn(s: string, c: char): (i: int)
    ensures -1 <= i < |s|
    ensures i == -1 <==> c !in s
    ensures i >= 0 ==> s[i] == c && c !in s[..i]
  {
    if s == "" then -1
    else if s[0] == c then 0
    else
      var i := FirstIn(s[1..], c);
      assert i >= 0 ==> s[..i + 1] == [s[0]] + s[1..][..i];
      if i == -1 then -1 else i + 1
  }

  lemma {:induction false} FirstAgain(s: string, c: char, i: nat)
    requires i < |s| && s[i] == c && c !in s[..i]
    ensures FirstIn(s, c) == i
  {
    if i == 0 {
    } else {
      assert s[..i] == [s[0]] + s[1..][..i - 1];
      FirstAgain(s[1..], c, i - 1);
    }
  }

  /** A note stands for its place among the half tones of an octave. */
  lemma NoteIndexIs(c: char)
    ensures NoteIndex(c) == FirstIn("C+D+EF+G+A+B", c)
  {
    var s := "C+D+EF+G+A+B";
    if c in s {
      FirstAgain(s, c, NoteIndex(c));
    }
  }

  const SIGNS := {'+', '#', '-'}

  // Half tones up less half tones down.
  function Shift(signs: string): int {
    multiset(signs)['+'] as int + multiset(signs)['#'] as int - multiset(signs)['-'] as int
  }

  /** Sharps and flats are counted up to the first other character. */
  lemma {:induction false} HalfScaleIs(s: string, p: nat)
    requires p <= |s|
    ensures var e := HalfEnd(s, p);
            && (forall i :: p <= i < e ==> s[i] in SIGNS) && At(s, e) !in SIGNS
            && HalfScale(s, p) == Shift(s[p..e])
    decreases |s| - p
  {
    var e := HalfEnd(s, p);
    if IsHalf(At(s, p)) {
      HalfScaleIs(s, p + 1);
      assert s[p..e] == [s[p]] + s[p + 1..e];
    } else {
      assert s[p..e] == "";
    }
  }

  // A note of the given name with the signs after it.
  function Pitch(octave: int, name: char, signs: string): int {
    12 * octave + FirstIn("C+D+EF+G+A+B", name) + Shift(signs)
  }

  // The note at `q`.
  ghost predicate IsNote(m: Mml, s: string, q: nat, r: Parsed)
    requires q < |s|
  {
    var e := HalfEnd(s, q + 1);
    && e <= |s| && r.notes == [Pitch(m.octave, s[q], s[q + 1..e])] && r.m.octave == m.octave
    && (!m.tuplet ==> m.tempo != 0 && Len(r.length, r.p) == SampleLength(m, s, e))
  }

  /**
    A note has the pitch of its name, its signs and the octave in force, and outside of a tuplet
    the length written after them.
  */
  lemma NotePitch(m: Mml, s: string, p: nat)
    requires Parsable(m, s, p) && Parse(m, s, p).kind == Note
    ensures var q := SkipSpace(s, p); q < |s| && s[q] in "ABCDEFG" && IsNote(m, s, q, Parse(m, s, p))
  {
    hide HalfScale, HalfEnd, SampleLength, Share, Shift, FirstIn, NoteIndex, SkipSpace, ChordLoop, Count, Atoi,
         DigitsEnd;
    var q := SkipSpace(s, p);
    KindOf(m, s, p);
    HalfScaleIs(s, q + 1);
    NoteIndexIs(s[q]);
  }

  // Only a note gives a note.
  lemma KindOf(m: Mml, s: string, p: nat)
    requires Parsable(m, s, p) && Parse(m, s, p).kind == Note
    ensures var q := SkipSpace(s, p); q < |s| && s[q] in "ABCDEFG" && Parse(m, s, p) == Notes(m, s[q], s, q + 1)
  {
    hide HalfScale, HalfEnd, SampleLength, Share, NoteIndex, SkipSpace, ChordLoop, Count, Atoi, DigitsEnd, AtoiSigned;
  }

  // ----- Numbers -----

  function Digit(d: nat): char
    requires d < 10
  {
    '0' + d as char
  }

  // A number in decimal, without leading zeros.
  function Dec(n: nat): (t: string)
    ensures t != ""
  {
    if n < 10 then [Digit(n)] else Dec(n / 10) + [Digit(n % 10)]
  }

  // `s` has the text `t` at `p`, and no digit after it.
  ghost predicate Reads(s: string, p: nat, t: string) {
    p + |t| <= |s| && s[p..p + |t|] == t && !IsDigit(At(s, p + |t|))
  }

  lemma AtoiStep(s: string, p: nat, a: nat, d: nat)
    requires p < |s| && d < 10 && s[p] == Digit(d)
    ensures Atoi(s, p, a) == Atoi(s, p + 1, a * 10 + d) && DigitsEnd(s, p) == DigitsEnd(s, p + 1)
  {
  }

  // Reading on after the digits of a number.
  lemma {:induction false} AtoiOf(s: string, p: nat, n: nat)
    requires p + |Dec(n)| <= |s| && s[p..p + |Dec(n)|] == Dec(n)
    ensures Atoi(s, p, 0) == Atoi(s, p + |Dec(n)|, n) && DigitsEnd(s, p) == DigitsEnd(s, p + |Dec(n)|)
    decreases n
  {
    hide Atoi, DigitsEnd;
    var t := Dec(n);
    if n < 10 {
      assert s[p] == s[p..p + 1][0];
      AtoiStep(s, p, 0, n);
    } else {
      var k := |t| - 1;
      assert s[p..p + k] == s[p..p + |t|][..k];
      AtoiOf(s, p, n / 10);
      assert s[p + k] == s[p..p + |t|][k];
      AtoiStep(s, p + k, n / 10, n % 10);
    }
  }

  /** A number that is written in decimal is read as that number, to its end. */
  lemma AtoiDec(s: string, p: nat, n: nat)
    requires Reads(s, p, Dec(n))
    ensures Atoi(s, p, 0) == n && DigitsEnd(s, p) == p + |Dec(n)| && IsDigit(At(s, p))
  {
    AtoiOf(s, p, n);
    FirstDigit(n);
    assert At(s, p) == s[p..p + |Dec(n)|][0];
  }

  lemma {:induction false} FirstDigit(n: nat)
    ensures IsDigit(Dec(n)[0])
    decreases n
  {
    if n < 10 {
    } else {
      FirstDigit(n / 10);
    }
  }

  // ----- Commands that set a value -----

  /** `T`, `L` and `O` set the tempo, the default length and the octave to the number written. */
  lemma SetsValue(m: Mml, s: string, p: nat, code: char, n: nat)
    requires Parsable(m, s, p) && p < |s| && s[p] == code && code in "TLO" && Reads(s, p + 1, Dec(n))
    ensures var end := p + 1 + |Dec(n)|;
            Parse(m, s, p) == match code
                              case 'T' => Parsed(m.(tempo := n), end, Tempo, n, [])
                              case 'L' => Parsed(m.(defLength := n), end, Length, n, [])
                              case _ => Parsed(m.(octave := n), end, Octave, n, [])
  {
    hide Atoi, DigitsEnd, Dec;
    assert SkipSpace(s, p) == p;
    AtoiDec(s, p + 1, n);
  }

  /** A volume up to 100 and a tone are reported, and nothing changes. */
  lemma ReportsValue(m: Mml, s: string, p: nat, code: char, n: nat)
    requires Parsable(m, s, p) && p < |s| && s[p] == code && code in "V@" && Reads(s, p + 1, Dec(n))
    ensures var end := p + 1 + |Dec(n)|;
            Parse(m, s, p) == if code == '@' then Parsed(m, end, Tone, 0, [n])
                              else Parsed(m, end, if n > 100 then VolumeError else Volume, n, [])
  {
    hide Atoi, DigitsEnd, Dec;
    assert SkipSpace(s, p) == p;
    AtoiDec(s, p + 1, n);
    assert SkipSpace(s, p + 1) == p + 1;
  }

  /** A negative volume is an error, and its number is left to be read again. */
  lemma NegativeVolume(m: Mml, s: string, p: nat, n: nat)
    requires Parsable(m, s, p) && p + 1 < |s| && s[p] == 'V' && s[p + 1] == '-' && Reads(s, p + 2, Dec(n))
    ensures Parse(m, s, p) == Parsed(m, p + 1, if n > 0 then VolumeError else Volume, 0 - n, [])
  {
    hide Atoi, Dec;
    assert SkipSpace(s, p) == p && SkipSpace(s, p + 1) == p + 1;
    AtoiDec(s, p + 2, n);
  }

  /** A rest outside of a tuplet has the length written after it. */
  lemma RestLasts(m: Mml, s: string, p: nat)
    requires Parsable(m, s, p) && p < |s| && s[p] == 'R' && !m.tuplet
    ensures var len := SampleLength(m, s, p + 1);
            Parse(m, s, p) == Parsed(m, len.p, if len.samples < 0 then RestError else Rest, len.samples, [])
  {
    hide SampleLength;
    assert SkipSpace(s, p) == p;
  }

  /** So has a note, after its signs, and it is an error if and only if the length is. */
  lemma NoteLasts(m: Mml, s: string, p: nat)
    requires Parsable(m, s, p) && p < |s| && s[p] in "ABCDEFG" && !m.tuplet
    ensures var len := SampleLength(m, s, HalfEnd(s, p + 1));
            && Parse(m, s, p).kind == (if len.samples < 0 then NoteError else Note)
            && Parse(m, s, p).m == m && Len(Parse(m, s, p).length, Parse(m, s, p).p) == len
  {
    NoteAt(m, s, p);
    hide SampleLength, HalfEnd, HalfScale, Parse, Parsable;
  }

  lemma NoteAt(m: Mml, s: string, p: nat)
    requires Parsable(m, s, p) && p < |s| && s[p] in "ABCDEFG"
    ensures (m.tempo != 0 || m.tuplet) && Parse(m, s, p) == Notes(m, s[p], s, p + 1)
  {
    hide Notes, Count, ChordLoop;
    assert SkipSpace(s, p) == p;
  }

  /** A closing brace ends the tuplet and passes over its length; too few notes are an error. */
  lemma TupletCloses(m: Mml, s: string, p: nat)
    requires Parsable(m, s, p) && p < |s| && s[p] == '}'
    ensures var r := Parse(m, s, p);
            && r.m == m.(tuplet := false)
               && r.kind == (if m.curTuplet == m.tupletNotes then TupletDone else TooFewNotes)
            && m.tempo != 0 && r.p == SampleLength(m.(tuplet := false), s, p + 1).p
  {
    hide SampleLength;
    assert SkipSpace(s, p) == p;
  }

  /** Blanks before an event are the six of the C locale. */
  lemma Blanks(c: char)
    ensures IsSpace(c) <==> c as int in {32, 9, 10, 11, 12, 13}
  {
  }

  /** `>` and `<` go one octave up and down, which undo each other. */
  lemma OctaveSteps(m: Mml, s: string, p: nat, up: bool)
    requires Parsable(m, s, p) && p < |s| && s[p] == (if up then '>' else '<')
    ensures var octave := m.octave + (if up then 1 else -1);
            Parse(m, s, p) == Parsed(m.(octave := octave), p + 1, Octave, octave, [])
  {
    assert SkipSpace(s, p) == p;
  }

  /** Without a number after it, such a command is an error that changes nothing. */
  lemma NoValue(m: Mml, s: string, p: nat)
    requires Parsable(m, s, p) && p < |s| && s[p] in "TLO@" && !IsDigit(At(s, p + 1))
    ensures Parse(m, s, p).m == m && Parse(m, s, p).p == p + 1
    ensures Parse(m, s, p).kind == match s[p]
                                   case 'T' => TempoError
                                   case 'L' => LengthError
                                   case 'O' => OctaveError
                                   case _ => ToneError
  {
    assert SkipSpace(s, p) == p;
  }

  // ----- Chords -----

  // What stands in a chord: notes and changes of the octave, each after some blanks.
  datatype Piece =
    | Sound(pad: string, name: char, signs: string)
    | Up(pad: string)
    | Down(pad: string)
    | Set(pad: string, octave: nat)

  predicate AllSpace(t: string) {
    forall i :: 0 <= i < |t| ==> IsSpace(t[i])
  }

  predicate ProperPiece(x: Piece) {
    AllSpace(x.pad) && (x.Sound? ==> x.name in "ABCDEFG" && forall i :: 0 <= i < |x.signs| ==> x.signs[i] in SIGNS)
  }

  predicate ProperPieces(xs: seq<Piece>) {
    forall i :: 0 <= i < |xs| ==> ProperPiece(xs[i])
  }

  // The text of a piece after its blanks.
  function Bare(x: Piece): (t: string)
    ensures t != ""
  {
    match x
    case Sound(_, name, signs) => [name] + signs
    case Up(_) => ">"
    case Down(_) => "<"
    case Set(_, octave) => "O" + Dec(octave)
  }

  // The inside of a chord up to its closing bracket.
  function Written(xs: seq<Piece>, pad: string): string {
    if xs == [] then pad + "]" else xs[0].pad + Bare(xs[0]) + Written(xs[1..], pad)
  }

  function OctaveAfter(octave: int, x: Piece): int {
    match x
    case Sound(_, _, _) => octave
    case Up(_) => octave + 1
    case Down(_) => octave - 1
    case Set(_, n) => n
  }

  // The pitches of its notes in order, each in the octave in force, and the octave at the end.
  function Heard(octave: int, xs: seq<Piece>): seq<int>
    decreases |xs|
  {
    if xs == [] then []
    else
      var rest := Heard(OctaveAfter(octave, xs[0]), xs[1..]);
      if xs[0].Sound? then [Pitch(octave, xs[0].name, xs[0].signs)] + rest else rest
  }

  function LastOctave(octave: int, xs: seq<Piece>): int
    decreases |xs|
  {
    if xs == [] then octave else LastOctave(OctaveAfter(octave, xs[0]), xs[1..])
  }

  // At most five notes are kept.
  function Kept(notes: seq<int>): seq<int> {
    if |notes| <= 5 then notes else notes[..5]
  }

  ghost predicate Stands(s: string, p: nat, t: string) {
    p + |t| <= |s| && s[p..p + |t|] == t
  }

  lemma StandsSplit(s: string, p: nat, t: string, u: string)
    requires Stands(s, p, t + u)
    ensures Stands(s, p, t) && Stands(s, p + |t|, u)
  {
    var w := s[p..p + |t + u|];
    assert s[p..p + |t|] == w[..|t|] && s[p + |t|..p + |t| + |u|] == w[|t|..];
  }

  lemma {:induction false} SkipPad(s: string, p: nat, pad: string)
    requires Stands(s, p, pad) && AllSpace(pad) && !IsSpace(At(s, p + |pad|))
    ensures SkipSpace(s, p) == p + |pad|
    decreases |pad|
  {
    if pad == "" {
    } else {
      assert s[p] == s[p..p + |pad|][0];
      assert s[p + 1..p + 1 + |pad[1..]|] == s[p..p + |pad|][1..];
      SkipPad(s, p + 1, pad[1..]);
    }
  }

  lemma {:induction false} HalfOf(s: string, p: nat, signs: string)
    requires Stands(s, p, signs) && (forall i :: 0 <= i < |signs| ==> signs[i] in SIGNS) && At(s, p + |signs|) !in SIGNS
    ensures HalfEnd(s, p) == p + |signs|
    decreases |signs|
  {
    if signs == "" {
    } else {
      assert s[p] == s[p..p + |signs|][0];
      assert s[p + 1..p + 1 + |signs[1..]|] == s[p..p + |signs|][1..];
      HalfOf(s, p + 1, signs[1..]);
    }
  }

  // One piece of a chord, where neither a sign nor a digit comes after it.
  lemma PieceHeard(m: Mml, s: string, p: nat, x: Piece, notes: seq<int>)
    requires ProperPiece(x) && Stands(s, p, x.pad + Bare(x))
    requires var e := p + |x.pad| + |Bare(x)|; At(s, e) !in SIGNS && !IsDigit(At(s, e))
    ensures ChordCode(m, s, p, notes)
            == ChordMore(m.(octave := OctaveAfter(m.octave, x)), p + |x.pad| + |Bare(x)|,
                         if x.Sound? && |notes| < 5 then notes + [Pitch(m.octave, x.name, x.signs)] else notes)
  {
    hide ChordCode, Dec, Pitch;
    StandsSplit(s, p, x.pad, Bare(x));
    var q := p + |x.pad|;
    assert s[q] == s[q..q + |Bare(x)|][0];
    SkipPad(s, p, x.pad);
    match x
    case Sound(_, name, signs) =>
      StandsSplit(s, q, [name], signs);
      SoundHeard(m, s, p, q, signs, notes);
    case Set(_, octave) =>
      StandsSplit(s, q, "O", Dec(octave));
      SetHeard(m, s, p, q, octave, notes);
    case _ => StepHeard(m, s, p, q, notes);
  }

  lemma SoundHeard(m: Mml, s: string, p: nat, q: nat, signs: string, notes: seq<int>)
    requires p <= q == SkipSpace(s, p) < |s| && s[q] in "ABCDEFG" && Stands(s, q + 1, signs)
    requires (forall i :: 0 <= i < |signs| ==> signs[i] in SIGNS) && At(s, q + 1 + |signs|) !in SIGNS
    ensures ChordCode(m, s, p, notes)
            == ChordMore(m, q + 1 + |signs|, if |notes| < 5 then notes + [Pitch(m.octave, s[q], signs)] else notes)
  {
    hide HalfScale, HalfEnd, SkipSpace, Shift, FirstIn, NoteIndex;
    HalfOf(s, q + 1, signs);
    HalfScaleIs(s, q + 1);
    NameIndex(s[q]);
    NoteIndexIs(s[q]);
  }

  lemma SetHeard(m: Mml, s: string, p: nat, q: nat, octave: nat, notes: seq<int>)
    requires p <= q == SkipSpace(s, p) < |s| && s[q] == 'O' && Reads(s, q + 1, Dec(octave))
    ensures ChordCode(m, s, p, notes) == ChordMore(m.(octave := octave), q + 1 + |Dec(octave)|, notes)
  {
    hide Atoi, DigitsEnd, Dec, SkipSpace, NoteIndex;
    AtoiDec(s, q + 1, octave);
    NoName('O');
  }

  lemma StepHeard(m: Mml, s: string, p: nat, q: nat, notes: seq<int>)
    requires p <= q == SkipSpace(s, p) < |s| && s[q] in "<>"
    ensures ChordCode(m, s, p, notes)
            == ChordMore(m.(octave := m.octave + (if s[q] == '>' then 1 else -1)), q + 1, notes)
  {
    hide SkipSpace, NoteIndex;
    NoName(s[q]);
  }

  lemma NameIndex(name: char)
    requires name in "ABCDEFG"
    ensures NoteIndex(name) >= 0 && name != ']' && name != NUL
  {
  }

  lemma NoName(code: char)
    requires code in "O<>"
    ensures NoteIndex(code) < 0 && code != ']' && code != NUL
  {
  }

  // After a piece comes a blank, another piece or the bracket.
  lemma WrittenFirst(xs: seq<Piece>, pad: string)
    requires ProperPieces(xs) && AllSpace(pad)
    ensures var t := Written(xs, pad); t != "" && t[0] !in SIGNS && !IsDigit(t[0])
  {
    hide Dec;
    if xs != [] {
      assert ProperPiece(xs[0]);
    }
  }

  lemma {:induction false} PiecesHeard(m: Mml, s: string, p: nat, xs: seq<Piece>, pad: string, notes: seq<int>)
    requires ProperPieces(xs) && AllSpace(pad) && Stands(s, p, Written(xs, pad)) && |notes| <= 5
    ensures ChordLoop(m, s, p, notes) == Inside(m.(octave := LastOctave(m.octave, xs)), p + |Written(xs, pad)|, true,
                                                Kept(notes + Heard(m.octave, xs)))
    decreases |xs|
  {
    hide ChordCode, Bare, Pitch;
    var t := Written(xs, pad);
    if xs == [] {
      StandsSplit(s, p, pad, "]");
      BracketEnds(m, s, p, pad, notes);
    } else {
      var x, rest := xs[0], Written(xs[1..], pad);
      assert ProperPiece(x);
      StandsSplit(s, p, x.pad + Bare(x), rest);
      WrittenFirst(xs[1..], pad);
      var e := p + |x.pad + Bare(x)|;
      assert s[e] == s[e..e + |rest|][0];
      PieceHeard(m, s, p, x, notes);
      var notes' := if x.Sound? && |notes| < 5 then notes + [Pitch(m.octave, x.name, x.signs)] else notes;
      PiecesHeard(m.(octave := OctaveAfter(m.octave, x)), s, e, xs[1..], pad, notes');
      KeptSame(notes, x, m.octave, Heard(OctaveAfter(m.octave, x), xs[1..]));
    }
  }

  lemma BracketEnds(m: Mml, s: string, p: nat, pad: string, notes: seq<int>)
    requires Stands(s, p, pad) && Stands(s, p + |pad|, "]") && AllSpace(pad)
    ensures ChordCode(m, s, p, notes) == ChordDone(Inside(m, p + |pad| + 1, true, notes))
  {
    var q := p + |pad|;
    assert s[q] == s[q..q + 1][0];
    SkipPad(s, p, pad);
  }

  lemma KeptSame(notes: seq<int>, x: Piece, octave: int, rest: seq<int>)
    requires |notes| <= 5
    ensures var one := if x.Sound? then [Pitch(octave, x.name, x.signs)] else [];
            Kept((if x.Sound? && |notes| < 5 then notes + one else notes) + rest) == Kept(notes + (one + rest))
  {
    hide Pitch;
    var one := if x.Sound? then [Pitch(octave, x.name, x.signs)] else [];
    if |notes| < 5 || !x.Sound? {
      assert notes + one + rest == notes + (one + rest);
      assert notes + [] + rest == notes + rest;
    } else {
      assert Kept(notes + rest) == notes && Kept(notes + (one + rest)) == notes;
    }
  }

  /**
    A chord, written with notes and changes of the octave: its first five notes are heard, in
    order and each in the octave in force where it stands, and the last octave stays in force.
  */
  lemma ChordHeard(m: Mml, s: string, p: nat, xs: seq<Piece>, pad: string)
    requires Parsable(m, s, p) && p < |s| && s[p] == '[' && Stands(s, p + 1, Written(xs, pad))
    requires ProperPieces(xs) && AllSpace(pad)
    ensures Parse(m, s, p).kind == if Parse(m, s, p).length < 0 then ChordError else Chord
    ensures Parse(m, s, p).notes == Kept(Heard(m.octave, xs))
    ensures Parse(m, s, p).m.octave == LastOctave(m.octave, xs)
  {
    hide ChordLoop, Written, Heard, Kept, SampleLength;
    assert SkipSpace(s, p) == p;
    PiecesHeard(m, s, p + 1, xs, pad, []);
    assert [] + Heard(m.octave, xs) == Heard(m.octave, xs);
  }

  /** A chord that is not closed is an error. */
  lemma {:induction false} ChordUnclosed(m: Mml, s: string, p: nat, notes: seq<int>)
    requires p <= |s| && ']' !in s[p..]
    ensures !ChordLoop(m, s, p, notes).ok
    decreases |s| - p
  {
    hide HalfScale, HalfEnd, Atoi, DigitsEnd, NoteIndex;
    var q := SkipSpace(s, p);
    if q < |s| {
      assert s[q] == s[p..][q - p];
    }
    match ChordCode(m, s, p, notes)
    case ChordDone(_) =>
    case ChordMore(m', p', notes') =>
      assert s[p'..] == s[p..][p' - p..];
      ChordUnclosed(m', s, p', notes');
  }

  /** So is one that holds anything but notes and changes of the octave. */
  lemma ChordRejects(m: Mml, s: string, p: nat, notes: seq<int>)
    requires p < |s| && !IsSpace(s[p]) && s[p] !in "C+D+EF+G+A+BO<>]"
    ensures !ChordLoop(m, s, p, notes).ok
  {
    hide HalfScale, HalfEnd, Atoi, DigitsEnd;
    assert SkipSpace(s, p) == p;
    NoteIndexIs(s[p]);
    assert s[p] !in "C+D+EF+G+A+B";
  }

  // ----- Tuplets and other codes -----

  // Notes and rests, as the pre-scan takes them.
  function Names(t: string): nat {
    if t == "" then 0 else (if t[0] in "CDEFGABR" then 1 else 0) + Names(t[1..])
  }

  lemma {:induction false} CountPlain(s: string, p: nat, e: nat)
    requires p <= e < |s| && s[e] == '}' && '[' !in s[p..e] && '}' !in s[p..e]
    ensures Count(s, p) == Scan(Names(s[p..e]), true, e)
    decreases e - p
  {
    if p == e {
    } else {
      assert s[p..e] == [s[p]] + s[p + 1..e];
      assert s[p..e][1..] == s[p + 1..e];
      CountPlain(s, p + 1, e);
    }
  }

  /**
    A tuplet without chords takes its length from what stands after its closing brace, and as
    many notes as there are names of notes and rests in it; without any it is an error.
  */
  lemma TupletOpens(m: Mml, s: string, p: nat, e: nat)
    requires p < e < |s| && s[p] == '{' && s[e] == '}' && '[' !in s[p + 1..e] && '}' !in s[p + 1..e]
    requires Parsable(m, s, p) && !m.tuplet && m.tempo != 0
    ensures var r, n, len := Parse(m, s, p), Names(s[p + 1..e]), SampleLength(m, s, e + 1).samples;
            && r.p == p + 1 && r.m.tupletNotes == n && r.m.tupletLength == len
            && (if n == 0 then r.kind == TupletError && !r.m.tuplet
                else r.kind == TupletStart && r.length == len && r.m.tuplet && r.m.curTuplet == 0)
  {
    hide Count, SampleLength, Names;
    assert SkipSpace(s, p) == p;
    CountPlain(s, p + 1, e);
  }

  /** A note beyond those that a tuplet has room for is refused, and not passed over. */
  lemma NoteBeyond(m: Mml, s: string, p: nat)
    requires Parsable(m, s, p) && p < |s| && s[p] in "ABCDEFG" && m.tuplet
    ensures Parse(m, s, p).kind == TooManyNotes <==> m.curTuplet >= m.tupletNotes
    ensures m.curTuplet >= m.tupletNotes ==> Parse(m, s, p) == Parsed(m, p + 1, TooManyNotes, 0, [])
  {
    hide HalfScale, HalfEnd, Share;
    assert SkipSpace(s, p) == p;
  }

  /** A tuplet cannot open in another. */
  lemma NoNesting(m: Mml, s: string, p: nat)
    requires Parsable(m, s, p) && p < |s| && s[p] == '{' && m.tuplet
    ensures Parse(m, s, p) == Parsed(m, p + 1, DoubleTuplet, 0, [])
  {
    assert SkipSpace(s, p) == p;
  }

  /** Any other code is no event; it is passed over. */
  lemma NoSuchCode(m: Mml, s: string, p: nat)
    requires Parsable(m, s, p) && p < |s| && !IsSpace(s[p]) && s[p] !in "ABCDEFGRTLO><V[{}@"
    ensures Parse(m, s, p) == Parsed(m, p + 1, IllegalComposition, 0, [])
  {
    assert SkipSpace(s, p) == p;
  }
}
