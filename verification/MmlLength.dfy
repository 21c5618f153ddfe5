/**
  Note lengths joined by `+`.  The dots of a term count for all terms after it too, and a term
  of no samples discards those before it.
*/
module MmlLength {
  import opened CLang
  import opened MmlSpec

  // One term as it is written; a negative number stands for the default length.
  datatype Term = Term(num: int, dots: nat)

  function DotsEnd(s: string, p: nat): (q: nat)
    requires p <= |s|
    ensures p <= q <= |s| && At(s, q) != '.'
    decreases |s| - p
  {
    if At(s, p) == '.' then DotsEnd(s, p + 1) else p
  }

  // The terms from the dots at `p` on, whether each `+` has a number after it, and the end.
  datatype Terms = Terms(terms: seq<Term>, closed: bool, p: nat)

  function TermsFrom(s: string, p: nat, num: int): (r: Terms)
    requires p <= |s|
    ensures p <= r.p <= |s| && r.terms != []
    decreases |s| - p
  {
    var q := DotsEnd(s, p);
    var first := Term(num, q - p);
    if At(s, q) != '+' then Terms([first], true, q)
    else if !IsDigit(At(s, q + 1)) then Terms([first], false, q + 1)
    else
      var rest := TermsFrom(s, DigitsEnd(s, q + 1), Atoi(s, q + 1, 0));
      Terms([first] + rest.terms, rest.closed, rest.p)
  }

  function TermsAt(s: string, p: nat): Terms
    requires p <= |s|
  {
    if IsDigit(At(s, p)) then TermsFrom(s, DigitsEnd(s, p), Atoi(s, p, 0))
    else if At(s, p) == '.' then TermsFrom(s, p, -1)
    else Terms([Term(-1, 0)], true, p)
  }

  // The samples of one term with `carried` dots more than it has.
  function Samples(m: Mml, t: Term, carried: nat): int
    requires m.tempo != 0
  {
    CalcSamples(m.fs, m.tempo, if t.num < 0 then m.defLength else t.num, carried + t.dots)
  }

  // Each term with its own dots and those of all terms before it.
  function Values(m: Mml, terms: seq<Term>, carried: nat): (v: seq<int>)
    requires m.tempo != 0
    ensures |v| == |terms|
  {
    if terms == [] then []
    else [Samples(m, terms[0], carried)] + Values(m, terms[1..], carried + terms[0].dots)
  }

  function Sum(v: seq<int>): int {
    if v == [] then 0 else v[0] + Sum(v[1..])
  }

  // The sum of what comes after the last zero, on top of `sum` if there is none.
  function Total(sum: int, v: seq<int>): int
    decreases |v|
  {
    if v == [] then sum else Total(if v[0] == 0 then 0 else sum + v[0], v[1..])
  }

  ghost predicate NoneNegative(v: seq<int>) {
    forall i :: 0 <= i < |v| ==> v[i] >= 0
  }

  // `r` is the length that the terms `t` make, on top of `sum`.
  ghost predicate Adds(m: Mml, t: Terms, carried: nat, sum: int, r: Len)
    requires m.tempo != 0
  {
    var v := Values(m, t.terms, carried);
    && (r.samples >= 0 <==> t.closed && NoneNegative(v))
    && (r.samples >= 0 ==> r == Len(Total(sum, v), t.p))
  }

  lemma {:induction false} DotsCount(m: Mml, s: string, p: nat, samples: int, num: int, dots: nat, plus: bool)
    requires m.tempo != 0 && p <= |s|
    ensures LengthLoop(m, s, p, true, samples, num, dots, plus)
         == LengthLoop(m, s, DotsEnd(s, p), true, samples, num, dots + DotsEnd(s, p) - p, plus)
    decreases |s| - p
  {
    if At(s, p) == '.' {
      DotsCount(m, s, p + 1, samples, num, dots + 1, plus);
    } else {
      assert DotsEnd(s, p) == p;
    }
  }

  // One term on.
  lemma LoopTerm(m: Mml, s: string, p: nat, samples: int, num: int, dots: nat, plus: bool)
    requires m.tempo != 0 && p <= |s|
    ensures var q := DotsEnd(s, p);
            var sum := GetSamples(m, samples, num, dots + q - p, plus);
            LengthLoop(m, s, p, true, samples, num, dots, plus)
            == if At(s, q) != '+' then Len(sum, q)
               else if sum < 0 then Len(sum, q + 1)
               else if !IsDigit(At(s, q + 1)) then Len(-EINVAL, q + 1)
               else LengthLoop(m, s, DigitsEnd(s, q + 1), true, sum, Atoi(s, q + 1, 0), dots + q - p, true)
  {
    hide GetSamples, DotsEnd;
    DotsCount(m, s, p, samples, num, dots, plus);
  }

  lemma {:induction false} LoopAdds(m: Mml, s: string, p: nat, samples: int, num: int, dots: nat, plus: bool)
    requires m.tempo != 0 && p <= |s| && samples >= 0 && (plus || samples == 0)
    ensures Adds(m, TermsFrom(s, p, num), dots, samples, LengthLoop(m, s, p, true, samples, num, dots, plus))
    decreases |s| - p
  {
    hide GetSamples, Samples, DotsEnd, LengthLoop, Values;
    var q, t := DotsEnd(s, p), TermsFrom(s, p, num);
    var first := Term(num, q - p);
    LoopTerm(m, s, p, samples, num, dots, plus);
    SamplesAdd(m, first, dots, samples, plus);
    var value := Samples(m, first, dots);
    var sum := GetSamples(m, samples, num, dots + q - p, plus);
    FirstValue(m, t.terms, dots);
    var v := Values(m, t.terms, dots);
    if value < 0 {
      assert v[0] < 0;
    } else {
      NegativeTail(v);
      if At(s, q) == '+' && IsDigit(At(s, q + 1)) {
        LoopAdds(m, s, DigitsEnd(s, q + 1), sum, Atoi(s, q + 1, 0), dots + first.dots, true);
        assert t.terms[1..] == TermsFrom(s, DigitsEnd(s, q + 1), Atoi(s, q + 1, 0)).terms;
      } else {
        OneValue(m, first, dots, samples);
      }
    }
  }

  lemma SamplesAdd(m: Mml, t: Term, carried: nat, samples: int, plus: bool)
    requires m.tempo != 0 && (plus || samples == 0)
    ensures var value := Samples(m, t, carried);
            GetSamples(m, samples, t.num, carried + t.dots, plus)
            == if value < 0 then value else if value == 0 then 0 else samples + value
  {
    hide CalcSamples;
  }

  lemma FirstValue(m: Mml, terms: seq<Term>, carried: nat)
    requires m.tempo != 0 && terms != []
    ensures var v := Values(m, terms, carried);
            v[0] == Samples(m, terms[0], carried) && v[1..] == Values(m, terms[1..], carried + terms[0].dots)
  {
  }

  lemma NegativeTail(v: seq<int>)
    requires v != [] && v[0] >= 0
    ensures NoneNegative(v) <==> NoneNegative(v[1..])
  {
    assert v == [v[0]] + v[1..];
  }

  lemma OneValue(m: Mml, t: Term, carried: nat, sum: int)
    requires m.tempo != 0
    ensures var x, v := Samples(m, t, carried), Values(m, [t], carried);
            && v == [x] && (NoneNegative(v) <==> x >= 0)
            && Total(sum, v) == if x == 0 then 0 else sum + x
  {
    var x := Samples(m, t, carried);
    assert [x][0] == x && [x][1..] == [];
    assert [t][1..] == [];
  }

  /**
    A length with terms joined by `+` is an error if and only if a `+` is not followed by a
    number or some term is one; otherwise it is the sum of the terms after the last one of no
    samples, each with the dots of all terms up to it.
  */
  lemma LengthIsSum(m: Mml, s: string, p: nat)
    requires m.tempo != 0 && p <= |s|
    ensures Adds(m, TermsAt(s, p), 0, 0, SampleLength(m, s, p))
  {
    hide Values, CalcSamples;
    if IsDigit(At(s, p)) {
      LoopAdds(m, s, DigitsEnd(s, p), 0, Atoi(s, p, 0), 0, false);
    } else if At(s, p) == '.' {
      LoopAdds(m, s, p, 0, -1, 0, false);
    } else {
      OneValue(m, Term(-1, 0), 0, 0);
    }
  }

  // ----- Which terms count -----

  /** Without a zero everything counts. */
  lemma {:induction false} TotalOfAll(sum: int, v: seq<int>)
    requires 0 !in v
    ensures Total(sum, v) == sum + Sum(v)
    decreases |v|
  {
    if v == [] {
    } else {
      TotalOfAll(sum + v[0], v[1..]);
    }
  }

  /** A zero discards what came before it. */
  lemma {:induction false} TotalAfterZero(sum: int, before: seq<int>, after: seq<int>)
    requires 0 !in after
    ensures Total(sum, before + [0] + after) == Sum(after)
    decreases |before|
  {
    var v := before + [0] + after;
    if before == [] {
      assert v[0] == 0 && v[1..] == after;
      TotalOfAll(0, after);
    } else {
      assert v[1..] == before[1..] + [0] + after;
      TotalAfterZero(if v[0] == 0 then 0 else sum + v[0], before[1..], after);
    }
  }

  // ----- The plain sum -----

  // Each term with its own dots only.
  function Plain(m: Mml, terms: seq<Term>): (v: seq<int>)
    requires m.tempo != 0
    ensures |v| == |terms|
  {
    seq(|terms|, i requires 0 <= i < |terms| => Samples(m, terms[i], 0))
  }

  lemma {:induction false} DotSumGrows(d: nat, c: nat)
    requires d + c <= 4
    ensures DotSum(d) <= DotSum(d + c)
    decreases c
  {
    if c == 0 {
    } else {
      DotSumGrows(d, c - 1);
    }
  }

  lemma ScaledGrows(fs: nat, x: nat, y: nat, n: nat, k: nat, tempo: nat)
    requires x <= y && k > 0 && tempo > 0
    ensures 0 <= TruncDiv(15 * fs * x * n / k, tempo) <= TruncDiv(15 * fs * y * n / k, tempo)
  {
    var a, b := 15 * fs * x * n, 15 * fs * y * n;
    assert b - a == 15 * fs * (y - x) * n;
    Less(a, b, k);
    Less(a / k, b / k, tempo);
  }

  lemma Positive(x: int, k: int)
    requires k > 0 && x * k > 0
    ensures x > 0
  {
  }

  lemma Less(a: int, b: int, k: int)
    requires 0 <= a <= b && k > 0
    ensures 0 <= a / k <= b / k
  {
    var q, r := a / k, b / k;
    assert q * k <= a && b < (r + 1) * k;
    assert (r + 1 - q) * k == (r + 1) * k - q * k > 0;
    Positive(r + 1 - q, k);
  }

  // Dots carried over never make a term shorter.
  lemma CarriedGrows(m: Mml, t: Term, carried: nat)
    requires m.tempo > 0 && m.fs >= 0 && Samples(m, t, carried) >= 0
    ensures 0 <= Samples(m, t, 0) <= Samples(m, t, carried)
  {
    hide TruncDiv, DotSum, Pow2;
    var num := if t.num < 0 then m.defLength else t.num;
    var sh := ShiftsOf(num);
    assert sh.Shifts? && carried + t.dots <= 4;
    DotSumGrows(t.dots, carried);
    ScaledGrows(m.fs, 16 + DotSum(t.dots), 16 + DotSum(t.dots + carried), Pow2(sh.n), Pow2(2 + sh.div), m.tempo);
  }

  lemma PlainTail(m: Mml, terms: seq<Term>)
    requires m.tempo != 0 && terms != []
    ensures Plain(m, terms)[0] == Samples(m, terms[0], 0) && Plain(m, terms)[1..] == Plain(m, terms[1..])
  {
  }

  lemma {:induction false} SumAtLeast(m: Mml, terms: seq<Term>, carried: nat)
    requires m.tempo > 0 && m.fs >= 0 && NoneNegative(Values(m, terms, carried))
    ensures Sum(Plain(m, terms)) <= Sum(Values(m, terms, carried))
    ensures Sum(Plain(m, terms)) == Sum(Values(m, terms, carried)) <==> Plain(m, terms) == Values(m, terms, carried)
    decreases |terms|
  {
    hide Samples, Plain, Values;
    if terms == [] {
      assert Plain(m, terms) == Values(m, terms, carried);
    } else {
      var v, w := Values(m, terms, carried), Plain(m, terms);
      FirstValue(m, terms, carried);
      PlainTail(m, terms);
      NegativeTail(v);
      CarriedGrows(m, terms[0], carried);
      SumAtLeast(m, terms[1..], carried + terms[0].dots);
      assert v == [v[0]] + v[1..] && w == [w[0]] + w[1..];
    }
  }

  /**
    A length in which every term has samples is the plain sum of its terms if and only if no
    term changes when the dots before it are carried over to it; it is never less.
  */
  lemma LengthIsPlainSum(m: Mml, s: string, p: nat)
    requires m.tempo > 0 && m.fs >= 0 && p <= |s| && SampleLength(m, s, p).samples >= 0
    requires 0 !in Values(m, TermsAt(s, p).terms, 0)
    ensures var terms := TermsAt(s, p).terms;
            && Sum(Plain(m, terms)) <= SampleLength(m, s, p).samples
            && (SampleLength(m, s, p).samples == Sum(Plain(m, terms)) <==> Plain(m, terms) == Values(m, terms, 0))
  {
    hide Values, Plain, SampleLength, Sum;
    LengthIsSum(m, s, p);
    TotalOfAll(0, Values(m, TermsAt(s, p).terms, 0));
    SumAtLeast(m, TermsAt(s, p).terms, 0);
  }

  /** So it is if all dots are on the last term. */
  lemma {:induction false} DotsLast(m: Mml, terms: seq<Term>)
    requires m.tempo != 0 && forall i :: 0 <= i < |terms| - 1 ==> terms[i].dots == 0
    ensures Plain(m, terms) == Values(m, terms, 0)
    decreases |terms|
  {
    hide Samples, Plain, Values;
    if terms == [] {
      assert Plain(m, terms) == Values(m, terms, 0);
    } else {
      FirstValue(m, terms, 0);
      PlainTail(m, terms);
      var v, w := Values(m, terms, 0), Plain(m, terms);
      if |terms| > 1 {
        DotsLast(m, terms[1..]);
      } else {
        assert v[1..] == w[1..] == [];
      }
      assert v == [v[0]] + v[1..] && w == [w[0]] + w[1..];
    }
  }

  /** In `4.+4` at 48000 samples a second and 120 beats a minute both quarters are dotted. */
  lemma CarriedDot(m: Mml)
    requires m.fs == 48000 && m.tempo == 120
    ensures SampleLength(m, "4.+4", 0) == Len(72000, 4)
    ensures Sum(Plain(m, TermsAt("4.+4", 0).terms)) == 60000
  {
    var s := "4.+4";
    assert DigitsEnd(s, 0) == 1 && Atoi(s, 0, 0) == 4 && DigitsEnd(s, 3) == 4 && Atoi(s, 3, 0) == 4;
    assert DotsEnd(s, 1) == 2 && DotsEnd(s, 4) == 4;
    assert TermsFrom(s, 4, 4).terms == [Term(4, 0)];
    var terms := TermsAt(s, 0).terms;
    assert terms == [Term(4, 1), Term(4, 0)];
    assert Pow2(0) == 1 && Pow2(1) == 2 && Pow2(2) == 4 && Pow2(3) == 8 && DotSum(1) == 8 && DotSum(0) == 0;
    assert CalcSamples(48000, 120, 4, 1) == 36000 && CalcSamples(48000, 120, 4, 0) == 24000;
    assert Plain(m, terms) == [36000, 24000];
    assert [36000, 24000][1..] == [24000] && [24000][1..] == [];
    LoopTerm(m, s, 1, 0, 4, 0, false);
    LoopTerm(m, s, 4, 36000, 4, 1, true);
  }
}
