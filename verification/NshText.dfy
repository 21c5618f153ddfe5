/**
  Reading a script file: lines, the commands that share a line through `;`, and the
  file offsets that loops go back to.  Words are recognised by a tokenizer that is
  left open: everything here holds for any one.
*/
module NshText {
  import opened NshOption
  import opened NshMachine
  import opened NshRun
  import Esc = NshEscape

  type Tokenizer = string -> Command

  // The surroundings of a run: file contents, tokenizer, command results and whether
  // errors are ignored.
  datatype Setting = Setting(file: string, tok: Tokenizer, oracle: Oracle, ignore: bool)

  // A command ends at one of these, or holds a quoted string from there on.
  predicate LineSep(c: char) {
    c == '"' || c == '\'' || c == '#' || c == ';' || c == '\n'
  }

  // strcspn over the line separators.
  function SepFrom(s: string, i: nat): (k: nat)
    requires i <= |s|
    ensures i <= k <= |s|
    ensures k < |s| ==> LineSep(s[k])
    ensures forall j :: i <= j < k ==> !LineSep(s[j])
    decreases |s| - i
  {
    if i == |s| || LineSep(s[i]) then i else SepFrom(s, i + 1)
  }

  // Just after the line end at or after `i`.
  function LineEnd(s: string, i: nat): (k: nat)
    requires i <= |s|
    ensures i <= k <= |s|
    ensures i < |s| ==> i < k
    decreases |s| - i
  {
    if i == |s| then i else if s[i] == '\n' then i + 1 else LineEnd(s, i + 1)
  }

  predicate Quote(c: char) {
    c == '"' || c == '\''
  }

  // Where a command ends: at a `;`, with the line, or nowhere, for want of a closing quote.
  // `handed` is how far the search had come when it found that.
  datatype Scan =
    | Unclosed
    | WithLine(handed: nat)
    | Semicolon(end: nat, handed: nat)

  // One turn of the search: the end is found, or it goes on from `working`.
  datatype Search = Found(scan: Scan) | On(working: nat)

  function SearchFrom(line: string, start: nat, working: nat): (r: Search)
    requires start <= working <= |line|
    ensures r.On? ==> working < r.working <= |line|
    ensures r.Found? && !r.scan.Unclosed? ==> r.scan.handed == working
    ensures r.Found? && r.scan.Semicolon? ==> working <= r.scan.end < |line| && line[r.scan.end] == ';'
  {
    var e := SepFrom(line, working);
    if e == |line| || line[e] == '\n' || line[e] == '#' then Found(WithLine(working))
    else if line[e] == ';' then Found(Semicolon(e, working))
    else if e > start && line[e - 1] == '\\' then On(working + 1)
    else
      match Esc.StrChr(line[e + 1..], line[e])
      case None => Found(Unclosed)
      case Some(j) =>
        Esc.StrChrFinds(line[e + 1..], line[e]);
        On(e + 1 + j + 1)
  }

  // The end of the command that starts at `start`; the search has come to `working`.
  function ScanFrom(line: string, start: nat, working: nat): (r: Scan)
    requires start <= working <= |line|
    ensures !r.Unclosed? ==> working <= r.handed <= |line|
    ensures r.Semicolon? ==> r.handed <= r.end < |line| && line[r.end] == ';'
    decreases |line| - working
  {
    match SearchFrom(line, start, working)
    case Found(scan) => scan
    case On(working') => ScanFrom(line, start, working')
  }

  datatype LineResult = LineResult(np: Np, ok: bool, trace: seq<Command>)

  // After one turn of the loop in nsh_parse: the line is done with, or the command that
  // starts at `start` is looked at on from `working`.
  datatype Turn =
    | Done(result: LineResult)
    | Go(np: Np, start: nat, working: nat, trace: seq<Command>)

  function AfterCommand(x: Setting, p: Parsed, next: nat, trace: seq<Command>): Turn {
    if !p.ok && !x.ignore then Done(LineResult(p.np, false, Ran(trace, p)))
    else if p.np.jump then Done(LineResult(p.np, true, Ran(trace, p)))
    else Go(p.np, next, next, Ran(trace, p))
  }

  ghost function LineTurn(x: Setting, line: string, start: nat, working: nat, np: Np, trace: seq<Command>): (t: Turn)
    requires Safe(np) && start <= working <= |line|
    ensures t.Done? ==> Safe(t.result.np)
    ensures t.Go? ==> Safe(t.np) && t.start <= t.working <= |line| && working < t.working
  {
    var q := np.(loffs := working);
    SafeAnywhere(np, np.foffs, working, np.seek, np.jump);
    var e := SepFrom(line, working);
    if e == |line| || line[e] == '\n' || line[e] == '#' then
      var p := ParseCommand(q, x.tok(line[start..]), trace, x.oracle);
      CommandKeepsSafe(q, x.tok(line[start..]), trace, x.oracle);
      Done(LineResult(p.np, p.ok, Ran(trace, p)))
    else if line[e] == ';' then
      CommandKeepsSafe(q, x.tok(line[start..e]), trace, x.oracle);
      AfterCommand(x, ParseCommand(q, x.tok(line[start..e]), trace, x.oracle), e + 1, trace)
    else if e > start && line[e - 1] == '\\' then
      Go(q, start, working + 1, trace)
    else
      match Esc.StrChr(line[e + 1..], line[e])
      case None => Done(LineResult(q, false, trace))
      case Some(j) =>
        Esc.StrChrFinds(line[e + 1..], line[e]);
        Go(q, start, e + 1 + j + 1, trace)
  }

  // nsh_parse, from the command that starts at `start`; the search for its end has
  // reached `working`.
  ghost function ParseLineFrom(x: Setting, line: string, start: nat, working: nat, np: Np, trace: seq<Command>)
      : (r: LineResult)
    requires Safe(np) && start <= working <= |line|
    ensures Safe(r.np)
    decreases |line| - working
  {
    match LineTurn(x, line, start, working, np, trace)
    case Done(r) => r
    case Go(np', start', working', trace') => ParseLineFrom(x, line, start', working', np', trace')
  }

  ghost function ParseLine(x: Setting, line: string, np: Np, trace: seq<Command>): (r: LineResult)
    requires Safe(np)
    ensures Safe(r.np)
  {
    ParseLineFrom(x, line, 0, 0, np.(jump := false), trace)
  }

  // nsh_script between two lines, or after it has stopped.
  datatype Progress =
    | Reading(np: Np, trace: seq<Command>)
    | Over(np: Np, trace: seq<Command>, atEnd: bool)

  // One turn of the line loop of nsh_script.
  ghost function ReadLine(x: Setting, c: Progress): (c': Progress)
    requires Safe(c.np)
    ensures Safe(c'.np)
  {
    match c
    case Over(_, _, _) => c
    case Reading(np, trace) =>
      if !(0 <= np.seek < |x.file|) then Over(np, trace, true)
      else
        var start, end := np.seek, LineEnd(x.file, np.seek);
        var q := np.(foffs := start, loffs := 0, seek := end);
        var r := ParseLine(x, x.file[start..end], q, trace);
        if !r.ok && !x.ignore then Over(r.np, r.trace, false) else Reading(r.np, r.trace)
  }

  ghost function ReadLines(x: Setting, c: Progress, n: nat): (c': Progress)
    requires Safe(c.np)
    ensures Safe(c'.np)
    decreases n
  {
    if n == 0 then c else ReadLines(x, ReadLine(x, c), n - 1)
  }
}
