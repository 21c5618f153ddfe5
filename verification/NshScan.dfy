/**
  Where a command ends and what the parser notes as its place: with quotes in it, that is
  where the search for its end last started, and no longer where the command does.
*/
module NshScan {
  import opened NshOption
  import opened NshMachine
  import opened NshRun
  import opened NshSteps
  import opened NshText
  import opened NshReading
  import Esc = NshEscape

  /** The place noted is that of the command if and only if no quote comes before any other separator. */
  lemma HandedIff(line: string, start: nat)
    requires start <= |line| && !ScanFrom(line, start, start).Unclosed?
    ensures ScanFrom(line, start, start).handed == start <==> !QuoteFirst(line, start)
  {
  }

  lemma {:induction false} SepShift(line: string, k: nat, i: nat)
    requires k <= i <= |line|
    ensures SepFrom(line[k..], i - k) == SepFrom(line, i) - k
    decreases |line| - i
  {
    if i == |line| || LineSep(line[i]) {
    } else {
      SepShift(line, k, i + 1);
    }
  }

  function Shifted(r: Scan, k: nat): Scan
    requires !r.Unclosed? ==> r.handed >= k
    requires r.Semicolon? ==> r.end >= k
  {
    match r
    case Unclosed => Unclosed
    case WithLine(handed) => WithLine(handed - k)
    case Semicolon(end, handed) => Semicolon(end - k, handed - k)
  }

  lemma SearchShift(line: string, start: nat, working: nat)
    requires start <= working <= |line|
    ensures SearchFrom(line[start..], 0, working - start)
            == match SearchFrom(line, start, working)
               case Found(scan) => Found(Shifted(scan, start))
               case On(working') => On(working' - start)
  {
    hide SepFrom, Esc.StrChr, Esc.Hit;
    SepShift(line, start, working);
    var e := SepFrom(line, working);
    if e < |line| && Quote(line[e]) {
      assert line[start..][e - start + 1..] == line[e + 1..];
    }
  }

  // A command is the same when the line is read again from its start on.
  lemma {:induction false} ScanShift(line: string, start: nat, working: nat)
    requires start <= working <= |line|
    ensures ScanFrom(line[start..], 0, working - start) == Shifted(ScanFrom(line, start, working), start)
    decreases |line| - working
  {
    hide SearchFrom;
    SearchShift(line, start, working);
    match SearchFrom(line, start, working)
    case Found(_) =>
    case On(working') => ScanShift(line, start, working');
  }

  // What parsing a line does with the command that starts at `start`.
  ghost predicate Handles(x: Setting, line: string, start: nat, np: Np, trace: seq<Command>, scan: Scan, r: LineResult)
    requires Safe(np) && start <= |line| && (scan.Semicolon? ==> start <= scan.end < |line|)
  {
    match scan
    case Unclosed =>
      r == LineResult(np.(loffs := r.np.loffs), false, trace)
    case WithLine(handed) =>
      var q := np.(loffs := handed);
      && Safe(q)
      && var p := ParseCommand(q, x.tok(line[start..]), trace, x.oracle);
      r == LineResult(p.np, p.ok, Ran(trace, p))
    case Semicolon(end, handed) =>
      var q := np.(loffs := handed);
      && Safe(q)
      && var p := ParseCommand(q, x.tok(line[start..end]), trace, x.oracle);
      && Safe(p.np)
      && r == if (!p.ok && !x.ignore) || p.np.jump then LineResult(p.np, p.ok || x.ignore, Ran(trace, p))
              else ParseLineFrom(x, line, end + 1, end + 1, p.np, Ran(trace, p))
  }

  lemma TurnIsSearch(x: Setting, line: string, start: nat, working: nat, np: Np, trace: seq<Command>)
    requires Safe(np) && start <= working <= |line|
    ensures var q, t := np.(loffs := working), LineTurn(x, line, start, working, np, trace);
            && Safe(q)
            && match SearchFrom(line, start, working)
               case On(working') => t == Go(q, start, working', trace)
               case Found(Unclosed) => t == Done(LineResult(q, false, trace))
               case Found(WithLine(_)) =>
                 var p := ParseCommand(q, x.tok(line[start..]), trace, x.oracle);
                 t == Done(LineResult(p.np, p.ok, Ran(trace, p)))
               case Found(Semicolon(e, _)) =>
                 t == AfterCommand(x, ParseCommand(q, x.tok(line[start..e]), trace, x.oracle), e + 1, trace)
  {
    hide ParseCommand, Safe, SepFrom, Esc.StrChr, Esc.Hit, AfterCommand;
    SafeAnywhere(np, np.foffs, working, np.seek, np.jump);
  }

  /** One command of a line, quotes and all; without a closing quote nothing is run or recorded. */
  lemma {:induction false} ParseLineScan(x: Setting, line: string, start: nat, working: nat, np: Np,
                                         trace: seq<Command>)
    requires Safe(np) && start <= working <= |line|
    ensures Handles(x, line, start, np, trace, ScanFrom(line, start, working),
                    ParseLineFrom(x, line, start, working, np, trace))
    decreases |line| - working
  {
    hide ParseCommand, Safe, SearchFrom, LineTurn;
    TurnIsSearch(x, line, start, working, np, trace);
    var q := np.(loffs := working);
    match SearchFrom(line, start, working)
    case On(working') =>
      hide Handles;
      ParseLineScan(x, line, start, working', q, trace);
      HandlesMoved(x, line, start, np, q, trace, ScanFrom(line, start, working),
                   ParseLineFrom(x, line, start, working, np, trace));
    case Found(scan) =>
      if scan.Semicolon? {
        CommandKeepsSafe(q, x.tok(line[start..scan.end]), trace, x.oracle);
      }
  }

  lemma HandlesMoved(x: Setting, line: string, start: nat, np: Np, q: Np, trace: seq<Command>, scan: Scan,
                     r: LineResult)
    requires Safe(np) && Safe(q) && start <= |line| && (scan.Semicolon? ==> start <= scan.end < |line|)
    requires q == np.(loffs := q.loffs) && Handles(x, line, start, q, trace, scan, r)
    ensures Handles(x, line, start, np, trace, scan, r)
  {
    hide ParseCommand, ParseLineFrom, Safe;
  }
}
