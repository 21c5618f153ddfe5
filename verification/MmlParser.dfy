/**
  The parser as it runs: it advances through the score and updates its state in place.
  Every method is proved to compute its function in `MmlSpec`.
*/
module MmlParser {
  import opened CLang
  import opened MmlSpec
  import opened MmlTuplet
  import opened MmlNotes

  method FindSpaceEnd(s: string, p: nat) returns (q: nat)
    ensures q == SkipSpace(s, p)
  {
    q := p;
    while IsSpace(At(s, q))
      invariant SkipSpace(s, q) == SkipSpace(s, p)
      decreases |s| - q
    {
      q := q + 1;
    }
  }

  method FindChar(s: string, p: nat, c: char) returns (q: nat)
    requires p <= |s|
    ensures q == SkipUntil(s, p, c)
  {
    q := p;
    while q < |s| && s[q] != c
      invariant p <= q <= |s| && SkipUntil(s, q, c) == SkipUntil(s, p, c)
    {
      q := q + 1;
    }
  }

  // atoi and the length of the digits.
  method ReadDigits(s: string, p: nat) returns (n: nat, q: nat)
    ensures n == Atoi(s, p, 0) && q == DigitsEnd(s, p)
  {
    n, q := 0, p;
    while IsDigit(At(s, q))
      invariant Atoi(s, q, n) == Atoi(s, p, 0) && DigitsEnd(s, q) == DigitsEnd(s, p)
      decreases |s| - q
    {
      n := n * 10 + (At(s, q) as int - '0' as int);
      q := q + 1;
    }
  }

  // note_index
  method FindNoteIndex(code: char) returns (i: int)
    ensures i == NoteIndex(code)
  {
    var codeTypes := "C+D+EF+G+A+B";
    i := 0;
    while i < 12
      invariant 0 <= i <= 12 && code !in codeTypes[..i]
    {
      if codeTypes[i] == code {
        NoteIndexIs(code);
        FirstAgain(codeTypes, code, i);
        return;
      }
      i := i + 1;
    }
    NoteIndexIs(code);
    assert codeTypes[..12] == codeTypes;
    return -1;
  }

  method ReadHalfScale(s: string, p: nat) returns (ret: int, q: nat)
    ensures ret == HalfScale(s, p) && q == HalfEnd(s, p)
  {
    ret, q := 0, p;
    while IsHalf(At(s, q))
      invariant ret + HalfScale(s, q) == HalfScale(s, p) && HalfEnd(s, q) == HalfEnd(s, p)
      decreases |s| - q
    {
      ret := if At(s, q) == '-' then ret - 1 else ret + 1;
      q := q + 1;
    }
  }

  method CalcSamplesOf(fs: int, tempo: int, num: int, dots: nat) returns (r: int)
    requires tempo != 0
    ensures r == CalcSamples(fs, tempo, num, dots)
  {
    var shifts := ShiftsOf(num);
    if shifts.NoShift? || dots > 4 {
      return -EINVAL;
    }
    var mul: int, left: nat := 16, dots;
    while left > 0
      invariant left <= dots && mul + DotSum(left) == 16 + DotSum(dots)
    {
      mul := mul + Pow2(4 - left);
      left := left - 1;
    }
    r := TruncDiv(15 * fs * mul * Pow2(shifts.n) / Pow2(2 + shifts.div), tempo);
  }

  class Player {
    const text: string
    var score: nat
    var tempo: int
    var octave: int
    var defLength: int
    var fs: int
    var tuplet: bool
    var curTuplet: int
    var tupletNotes: int
    var tupletLength: int

    function State(): Mml
      reads this
    {
      Mml(tempo, octave, defLength, fs, tuplet, curTuplet, tupletNotes, tupletLength)
    }

    constructor (text: string, fs: int, tempo: int, octave: int, length: int)
      ensures this.text == text && score == 0
      ensures State() == Mml(tempo, octave, length, fs, false, 0, 0, 0)
    {
      this.text, score := text, 0;
      this.fs, this.tempo, this.octave, defLength := fs, tempo, octave, length;
      tuplet, curTuplet, tupletNotes, tupletLength := false, 0, 0, 0;
    }

    method GetSamplesOf(samples: int, num: int, dots: nat, plus: bool) returns (r: int)
      requires tempo != 0
      ensures r == GetSamples(State(), samples, num, dots, plus)
    {
      r := CalcSamplesOf(fs, tempo, if num < 0 then defLength else num, dots);
      if r > 0 && plus {
        r := samples + r;
      }
    }

    // sample_length from position `p`; the caller moves on to `q`.
    method LengthAt(p: nat) returns (samples: int, q: nat)
      requires tempo != 0 && p <= |text|
      ensures Len(samples, q) == SampleLength(State(), text, p)
    {
      q := p;
      if !IsDigit(At(text, q)) && At(text, q) != '.' {
        samples := GetSamplesOf(0, -1, 0, false);
        return;
      }
      var num: int, dots: nat, plus, after := -1, 0, false, true;
      samples := 0;
      if IsDigit(At(text, q)) {
        num, q := ReadDigits(text, q);
      } else {
        dots, q := 1, q + 1;
      }
      var parsing := true;
      while parsing
        invariant q <= |text|
        invariant SampleLength(State(), text, p)
               == if parsing then LengthLoop(State(), text, q, after, samples, num, dots, plus) else Len(samples, q)
        decreases parsing, |text| - q, after
      {
        if after {
          if At(text, q) == '.' {
            dots, q := dots + 1, q + 1;
          } else {
            samples := GetSamplesOf(samples, num, dots, plus);
            if At(text, q) == '+' {
              parsing := samples >= 0;
              num, plus, after, q := -1, true, false, q + 1;
            } else {
              parsing := false;
            }
          }
        } else if IsDigit(At(text, q)) {
          num, q := ReadDigits(text, q);
          after := true;
        } else {
          samples, parsing := -EINVAL, false;
        }
      }
    }

    // tuplet_length
    method NextShareOf() returns (r: int)
      requires tupletNotes != 0
      modifies this`curTuplet
      ensures r == Share(old(State())) && State() == Counted(old(State()))
    {
      r := TruncDiv(tupletLength, tupletNotes);
      curTuplet := curTuplet + 1;
      if curTuplet == tupletNotes {
        r := tupletLength - r * (tupletNotes - 1);
      }
    }

    // count_tupletnotes, up to the length after the closing brace.
    method CountTupletNotes(p: nat) returns (closed: bool, end: nat)
      requires p <= |text|
      modifies this`tupletNotes
      ensures var c := Count(text, p);
              closed == c.closed && end == c.end
              && State() == old(State()).(tupletNotes := old(tupletNotes) + c.notes)
    {
      hide Count, SkipSpace, SkipUntil;
      CountSkipsSpace(text, p);
      end := FindSpaceEnd(text, p);
      while end < |text| && text[end] != '}'
        invariant p <= end <= |text|
        invariant Count(text, p).closed == Count(text, end).closed && Count(text, p).end == Count(text, end).end
        invariant State() == old(State()).(tupletNotes := tupletNotes)
        invariant tupletNotes + Count(text, end).notes == old(tupletNotes) + Count(text, p).notes
        decreases |text| - end
      {
        CountStep(text, end);
        if IsNoteOrRest(text[end]) {
          tupletNotes := tupletNotes + 1;
        } else if text[end] == '[' {
          end := FindChar(text, end, ']');
          tupletNotes := tupletNotes + 1;
          if end == |text| {
            return false, end;
          }
        }
        CountSkipsSpace(text, end + 1);
        end := FindSpaceEnd(text, end + 1);
      }
      CountAtEnd(text, end);
      if end == |text| {
        tupletNotes := tupletNotes + 1;
        return false, end;
      }
      return true, end;
    }

    method HandleStartTuplet() returns (kind: Kind, length: int)
      requires score <= |text| && (tempo != 0 || tuplet || !Count(text, score).closed)
      modifies this
      ensures Parsed(State(), score, kind, length, []) == StartTuplet(old(State()), text, old(score))
    {
      if tuplet {
        return DoubleTuplet, 0;
      }
      tupletNotes := 0;
      var closed, end := CountTupletNotes(score);
      if !closed {
        return TupletError, 0;
      }
      ghost var q := Count(text, score);
      var len, _ := LengthAt(end + 1);
      SameLength(State(), old(State()), text, end + 1);
      tupletLength := len;
      if tupletNotes == 0 {
        return TupletError, 0;
      }
      tuplet := true;
      curTuplet := 0;
      return TupletStart, tupletLength;
    }

    method HandleStopTuplet() returns (kind: Kind)
      requires tempo != 0 && score <= |text|
      modifies this
      ensures Parsed(State(), score, kind, 0, []) == StopTuplet(old(State()), text, old(score))
    {
      tuplet := false;
      var _, q := LengthAt(score);
      score := q;
      return if curTuplet != tupletNotes then TooFewNotes else TupletDone;
    }

    method HandleNotes(code: char) returns (kind: Kind, length: int, notes: seq<int>)
      requires Ready(State()) && score <= |text| && (tempo != 0 || tuplet)
      modifies this
      ensures Parsed(State(), score, kind, length, notes) == Notes(old(State()), code, text, old(score))
    {
      if tuplet {
        if curTuplet >= tupletNotes {
          return TooManyNotes, 0, [];
        }
        var half, q := ReadHalfScale(text, score);
        var index := FindNoteIndex(code);
        notes := [index + half + octave * 12];
        score := q;
        length := NextShareOf();
        return Note, length, notes;
      }
      var half, q := ReadHalfScale(text, score);
      var index := FindNoteIndex(code);
      notes := [index + half + octave * 12];
      length, q := LengthAt(q);
      score := q;
      return if length < 0 then NoteError else Note, length, notes;
    }

    method HandleRest() returns (kind: Kind, length: int)
      requires Ready(State()) && score <= |text| && (tempo != 0 || tuplet)
      modifies this
      ensures Parsed(State(), score, kind, length, []) == RestOf(old(State()), text, old(score))
    {
      if tuplet {
        length := NextShareOf();
        return Rest, length;
      }
      var q;
      length, q := LengthAt(score);
      score := q;
      return if length < 0 then RestError else Rest, length;
    }

    method HandleOctave(code: char) returns (kind: Kind, length: int)
      requires score <= |text|
      modifies this`octave, this`score
      ensures Parsed(State(), score, kind, length, []) == OctaveOf(old(State()), code, text, old(score))
    {
      if code == '>' {
        octave := octave + 1;
        return Octave, octave;
      } else if code == '<' {
        octave := octave - 1;
        return Octave, octave;
      } else if IsDigit(At(text, score)) {
        var v, q := ReadDigits(text, score);
        octave, score := v, q;
        return Octave, v;
      }
      return OctaveError, 0;
    }

    // One code of a chord; `done` at its end or at an error.
    method NextChordCode(notes: seq<int>) returns (done: bool, ok: bool, notes': seq<int>)
      requires score <= |text|
      modifies this`octave, this`score
      ensures ChordCode(old(State()), text, old(score), notes)
           == if done then ChordDone(Inside(State(), score, ok, notes')) else ChordMore(State(), score, notes')
    {
      hide HalfScale, HalfEnd, SkipSpace, OctaveOf;
      notes' := notes;
      var q := FindSpaceEnd(text, score);
      var code := At(text, q);
      var index := FindNoteIndex(code);
      score := q + 1;
      if q == |text| || code == NUL {
        return true, false, notes;
      } else if code == ']' {
        return true, true, notes;
      } else if index >= 0 {
        var half;
        half, score := ReadHalfScale(text, score);
        if |notes| < MAX_CHORD_NOTES {
          notes' := notes + [index + half + octave * 12];
        }
        return false, true, notes';
      } else if code == 'O' || code == '>' || code == '<' {
        var kind, _ := HandleOctave(code);
        return kind == OctaveError, false, notes;
      }
      return true, false, notes;
    }

    method ChordCodes() returns (ok: bool, notes: seq<int>)
      requires score <= |text|
      modifies this`octave, this`score
      ensures Inside(State(), score, ok, notes) == ChordLoop(old(State()), text, old(score), [])
    {
      hide ChordCode;
      notes, ok := [], false;
      var done := false;
      while !done
        invariant !done ==> score <= |text|
        invariant ChordLoop(old(State()), text, old(score), [])
               == if done then Inside(State(), score, ok, notes) else ChordLoop(State(), text, score, notes)
        decreases !done, |text| - score
      {
        done, ok, notes := NextChordCode(notes);
      }
    }

    method HandleStartChord() returns (kind: Kind, length: int, notes: seq<int>)
      requires Ready(State()) && score <= |text| && (tempo != 0 || tuplet || !ChordLoop(State(), text, score, []).ok)
      modifies this
      ensures Parsed(State(), score, kind, length, notes) == ChordOf(old(State()), text, old(score))
    {
      var ok;
      ok, notes := ChordCodes();
      if !ok {
        return ChordError, 0, notes;
      }
      if tuplet {
        length := NextShareOf();
      } else {
        var q;
        length, q := LengthAt(score);
        score := q;
      }
      return if length < 0 then ChordError else Chord, length, notes;
    }

    method HandleVolume() returns (kind: Kind, length: int)
      modifies this`score
      ensures Parsed(State(), score, kind, length, []) == VolumeOf(old(State()), text, old(score))
    {
      length := AtoiSigned(text, score);
      var _, q := ReadDigits(text, score);
      score := q;
      return if length < 0 || length > 100 then VolumeError else Volume, length;
    }

    /** One event of the score. */
    method ParseMml() returns (kind: Kind, length: int, notes: seq<int>)
      requires Parsable(State(), text, score)
      modifies this
      ensures Parsed(State(), score, kind, length, notes) == Parse(old(State()), text, old(score))
    {
      hide Notes, RestOf, OctaveOf, VolumeOf, ChordOf, StartTuplet, StopTuplet, Atoi, DigitsEnd, SkipSpace;
      var q := FindSpaceEnd(text, score);
      length, notes := 0, [];
      if q == |text| {
        score := q;
        return Eof, 0, [];
      }
      var code := text[q];
      score := q + 1;
      match code
      case 'A' | 'B' | 'C' | 'D' | 'E' | 'F' | 'G' => kind, length, notes := HandleNotes(code);
      case 'R' => kind, length := HandleRest();
      case 'O' | '>' | '<' => kind, length := HandleOctave(code);
      case 'V' => kind, length := HandleVolume();
      case '[' => kind, length, notes := HandleStartChord();
      case '{' => kind, length := HandleStartTuplet();
      case '}' => kind := HandleStopTuplet();
      case 'T' =>
        kind := TempoError;
        if IsDigit(At(text, score)) {
          kind := Tempo;
          tempo, score := ReadDigits(text, score);
          length := tempo;
        }
      case 'L' =>
        kind := LengthError;
        if IsDigit(At(text, score)) {
          kind := Length;
          defLength, score := ReadDigits(text, score);
          length := defLength;
        }
      case '@' =>
        kind := ToneError;
        if IsDigit(At(text, score)) {
          kind := Tone;
          var v;
          v, score := ReadDigits(text, score);
          notes := [v];
        }
      case _ => kind := IllegalComposition;
    }
  }

  lemma CountAtEnd(s: string, p: nat)
    requires p <= |s| && (p < |s| ==> s[p] == '}')
    ensures Count(s, p) == if p == |s| then Scan(1, false, p) else Scan(0, true, p)
  {
  }

  // A length depends on the sampling rate, the tempo and the default length only.
  lemma SameLength(a: Mml, b: Mml, s: string, p: nat)
    requires a.tempo != 0 && a.tempo == b.tempo && a.fs == b.fs && a.defLength == b.defLength && p <= |s|
    ensures SampleLength(a, s, p) == SampleLength(b, s, p)
  {
    if IsDigit(At(s, p)) {
      SameLengthLoop(a, b, s, DigitsEnd(s, p), true, 0, Atoi(s, p, 0), 0, false);
    } else if At(s, p) == '.' {
      SameLengthLoop(a, b, s, p + 1, true, 0, -1, 1, false);
    }
  }

  lemma {:induction false} SameLengthLoop(a: Mml, b: Mml, s: string, p: nat, after: bool, samples: int, num: int,
                                          dots: nat, plus: bool)
    requires a.tempo != 0 && a.tempo == b.tempo && a.fs == b.fs && a.defLength == b.defLength && p <= |s|
    ensures LengthLoop(a, s, p, after, samples, num, dots, plus) == LengthLoop(b, s, p, after, samples, num, dots, plus)
    decreases |s| - p, after
  {
    if after {
      if At(s, p) == '.' {
        SameLengthLoop(a, b, s, p + 1, true, samples, num, dots + 1, plus);
      } else if At(s, p) == '+' && GetSamples(a, samples, num, dots, plus) >= 0 {
        SameLengthLoop(a, b, s, p + 1, false, GetSamples(a, samples, num, dots, plus), -1, dots, true);
      }
    } else if IsDigit(At(s, p)) {
      SameLengthLoop(a, b, s, DigitsEnd(s, p), true, samples, Atoi(s, p, 0), dots, plus);
    }
  }
}
