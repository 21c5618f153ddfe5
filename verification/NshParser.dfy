/**
  The in-place form of the command parser.  Every method is proved to turn the
  state it finds into the one its function in `NshMachine` prescribes.
*/
module NshParser {
  import opened NshOption
  import opened NshMachine
  import opened NshRun
  import opened NshText
  import Esc = NshEscape

  method StrCspn(s: string, i: nat) returns (k: nat)
    requires i <= |s|
    ensures k == SepFrom(s, i)
  {
    k := i;
    while k < |s| && !LineSep(s[k])
      invariant i <= k <= |s| && SepFrom(s, k) == SepFrom(s, i)
    {
      k := k + 1;
    }
  }

  method FindLineEnd(s: string, i: nat) returns (k: nat)
    requires i <= |s|
    ensures k == LineEnd(s, i)
  {
    k := i;
    while k < |s| && s[k] != '\n'
      invariant i <= k <= |s| && LineEnd(s, k) == LineEnd(s, i)
    {
      k := k + 1;
    }
    if k < |s| {
      k := k + 1;
    }
  }

  class Parser {
    var fail: bool
    var fd: int
    var foffs: int
    var loffs: int
    var jump: bool
    var seek: int
    var lpndx: nat
    var iendx: nat
    const iestate: array<Itef>
    const lpstate: array<Loop>

    // The parser state, as a value.
    function State(): (np: Np)
      reads this, iestate, lpstate
    {
      Np(fail, fd, foffs, loffs, jump, seek, lpndx, iendx, iestate[..], lpstate[..])
    }

    constructor (depth: nat)
      requires depth >= 1
      ensures State() == Zeroed(depth)
      ensures fresh(iestate) && fresh(lpstate)
    {
      fail, jump := false, false;
      fd, foffs, loffs, seek := 0, 0, 0, 0;
      lpndx, iendx := 0, 0;
      iestate := new Itef[depth](_ => ITEF_RESET);
      lpstate := new Loop[depth](_ => LOOP_RESET);
      new;
      assert iestate[..] == seq(depth, _ => ITEF_RESET);
      assert lpstate[..] == seq(depth, _ => LOOP_RESET);
    }

    method NshSaveResult(failed: bool) returns (ok: bool)
      requires State().InBounds()
      modifies this, iestate, lpstate
      ensures Ret(State(), ok) == SaveResult(old(State()), failed)
    {
      if lpstate[lpndx].state == LpWhile {
        fail := false;
        lpstate[lpndx] := lpstate[lpndx].(enable := !failed);
        return true;
      } else if lpstate[lpndx].state == LpUntil {
        fail := false;
        lpstate[lpndx] := lpstate[lpndx].(enable := failed);
        return true;
      } else if iestate[iendx].state == IeIf {
        fail := false;
        iestate[iendx] := iestate[iendx].(ifcond := iestate[iendx].inverted != failed);
        return true;
      } else {
        fail := failed;
        return !failed;
      }
    }

    method NshLoopEnabled() returns (b: bool)
      requires State().InBounds()
      ensures b == LoopEnabled(State())
    {
      if lpstate[lpndx].state == LpDo {
        return lpstate[lpndx].enable;
      }
      return true;
    }

    method NshItefEnabled() returns (b: bool)
      requires State().InBounds()
      ensures b == ItefEnabled(State())
    {
      b := !iestate[iendx].disabled;
      if b {
        match iestate[iendx].state
        case IeNormal | IeIf =>
        case IeThen => b := !iestate[iendx].ifcond;
        case IeElse => b := iestate[iendx].ifcond;
      }
    }

    method NshCmdEnabled() returns (b: bool)
      requires State().InBounds()
      ensures b == CmdEnabled(State())
    {
      b := NshLoopEnabled();
      if b {
        b := NshItefEnabled();
      }
    }

    // The `errout` exit of `NshLoop`.
    method ResetLoops()
      requires State().InBounds()
      modifies this, lpstate
      ensures State() == LoopError(old(State())).np
    {
      jump := false;
      lpndx := 0;
      lpstate[0] := lpstate[0].(state := LpNormal, enable := true, topoffs := 0);
    }

    method NshLoop(words: Command) returns (rest: Command, ok: bool)
      requires State().InBounds()
      modifies this, lpstate
      ensures Phase(State(), rest, ok) == LoopPhase(old(State()), words)
    {
      if words == [] {
        return words, true;
      }
      var cmd := words[0];
      if cmd == KwWhile || cmd == KwUntil {
        rest, ok := PushLoop(cmd == KwUntil, words[1..]);
      } else if cmd == KwDo {
        if lpstate[lpndx].state != LpWhile && lpstate[lpndx].state != LpUntil {
          ResetLoops();
          return [], false;
        }
        lpstate[lpndx] := lpstate[lpndx].(state := LpDo);
        return words[1..], true;
      } else if cmd == KwDone {
        rest, ok := PopLoop(words[1..]);
      } else if lpstate[lpndx].state == LpWhile || lpstate[lpndx].state == LpUntil {
        ResetLoops();
        return [], false;
      } else {
        return words, true;
      }
    }

    // The `while`/`until` branch of `NshLoop`.
    method PushLoop(until: bool, args: Command) returns (rest: Command, ok: bool)
      requires State().InBounds()
      modifies this, lpstate
      ensures Phase(State(), rest, ok) == LoopPush(old(State()), until, args)
    {
      if args == [] || args[0] == Text("") {
        ResetLoops();
        return [], false;
      }
      if iestate[iendx].state == IeIf || lpstate[lpndx].state == LpWhile
         || lpstate[lpndx].state == LpUntil || fd < 0 || foffs < 0 {
        ResetLoops();
        return [], false;
      }
      if lpndx >= lpstate.Length - 1 {
        ResetLoops();
        return [], false;
      }
      var enable := NshCmdEnabled();
      var offset := foffs + loffs;
      jump := false;
      lpndx := lpndx + 1;
      lpstate[lpndx] := Loop(enable, if until then LpUntil else LpWhile, iendx, offset);
      return args, true;
    }

    // The `done` branch of `NshLoop`.
    method PopLoop(args: Command) returns (rest: Command, ok: bool)
      requires State().InBounds()
      modifies this, lpstate
      ensures Phase(State(), rest, ok) == LoopPop(old(State()), args)
    {
      if args != [] || lpstate[lpndx].state != LpDo {
        ResetLoops();
        return [], false;
      }
      if lpndx < 1 {
        ResetLoops();
        return [], false;
      }
      if lpstate[lpndx].enable {
        seek := lpstate[lpndx].topoffs;
        jump := true;
      } else {
        lpstate[lpndx] := lpstate[lpndx].(enable := true);
      }
      lpstate[lpndx] := lpstate[lpndx].(state := LpNormal);
      lpndx := lpndx - 1;
      return args, true;
    }

    // The `errout` exit of `NshItef`.
    method ResetItef()
      requires State().InBounds()
      modifies this, iestate
      ensures State() == ItefError(old(State())).np
    {
      iendx := 0;
      iestate[0] := Itef(false, false, false, IeNormal);
    }

    // The `if` branch of `NshItef`.
    method PushIf(args: Command) returns (rest: Command, ok: bool)
      requires State().InBounds()
      modifies this, iestate
      ensures Phase(State(), rest, ok) == ItefPhase(old(State()), [KwIf] + args)
    {
      if args == [] || args[0] == Text("") {
        ResetItef();
        return [], false;
      }
      var inverted := false;
      rest := args;
      if args[0] == KwBang {
        inverted := true;
        rest := args[1..];
        assert rest == ([KwIf] + args)[2..];
        if rest == [] || rest[0] == Text("") {
          ResetItef();
          return [], false;
        }
      }
      if iestate[iendx].state == IeIf || iendx >= iestate.Length - 1 {
        ResetItef();
        return [], false;
      }
      var enabled := NshCmdEnabled();
      iendx := iendx + 1;
      iestate[iendx] := Itef(false, !enabled, inverted, IeIf);
      return rest, true;
    }

    method NshItef(words: Command) returns (rest: Command, ok: bool)
      requires State().InBounds()
      modifies this, iestate
      ensures Phase(State(), rest, ok) == ItefPhase(old(State()), words)
    {
      if words == [] {
        return words, true;
      }
      var cmd := words[0];
      if cmd == KwIf {
        assert words == [KwIf] + words[1..];
        rest, ok := PushIf(words[1..]);
      } else if cmd == KwThen {
        if iestate[iendx].state != IeIf {
          ResetItef();
          return [], false;
        }
        iestate[iendx] := iestate[iendx].(state := IeThen);
        return words[1..], true;
      } else if cmd == KwElse {
        if iestate[iendx].state != IeThen {
          ResetItef();
          return [], false;
        }
        iestate[iendx] := iestate[iendx].(state := IeElse);
        return words[1..], true;
      } else if cmd == KwFi {
        if words[1..] != [] || (iestate[iendx].state != IeThen && iestate[iendx].state != IeElse) {
          ResetItef();
          return [], false;
        }
        if iendx < 1 {
          ResetItef();
          return [], false;
        }
        iendx := iendx - 1;
        return [], true;
      } else if iestate[iendx].state == IeIf {
        ResetItef();
        return [], false;
      } else {
        return words, true;
      }
    }

    method CmdBreak() returns (ok: bool)
      requires Safe(State())
      modifies this, lpstate
      ensures State() == BreakLoop(old(State())) && ok
    {
      assert SafeSaved(State());
      if lpstate[lpndx].state == LpDo {
        assert Filled(State().ie, State().lp[lpndx].iendx);
        iendx := lpstate[lpndx].iendx;
        lpstate[lpndx] := lpstate[lpndx].(enable := false);
      }
      return true;
    }

    /** One command.  `ran` reports the command that was run, if any. */
    method NshParseCommand(words: Command, trace: seq<Command>, oracle: Oracle)
        returns (ok: bool, ran: Option<Command>, rejected: bool)
      requires Safe(State())
      modifies this, iestate, lpstate
      ensures Parsed(State(), ok, ran, rejected) == ParseCommand(old(State()), words, trace, oracle)
      ensures Safe(State())
    {
      CommandKeepsSafe(State(), words, trace, oracle);
      LoopPhaseKeepsSafe(State(), words);
      var rest, fine := NshLoop(words);
      if !fine {
        ok := NshSaveResult(true);
        return ok, None, true;
      }
      ok, ran, rejected := FinishCommand(rest, trace, oracle);
    }

    // What follows `NshLoop` in the handling of one command.
    method FinishCommand(words: Command, trace: seq<Command>, oracle: Oracle)
        returns (ok: bool, ran: Option<Command>, rejected: bool)
      requires Safe(State())
      modifies this, iestate, lpstate
      ensures Parsed(State(), ok, ran, rejected) == AfterLoop(old(State()), words, trace, oracle)
    {
      ItefPhaseKeepsSafe(State(), words);
      var argv, fine := NshItef(words);
      if !fine {
        ok := NshSaveResult(true);
        return ok, None, true;
      }
      var enabled := NshCmdEnabled();
      if argv == [] || !enabled {
        return true, None, false;
      }
      if argv == [KwBreak] {
        BreakLoopKeepsSafe(State());
        var _ := CmdBreak();
        ok := NshSaveResult(false);
      } else {
        ok := NshSaveResult(oracle(trace, fail, argv));
      }
      return ok, Some(argv), false;
    }

    // One command of a line; `trace'` records it if it was run.
    method ParseOne(x: Setting, words: Command, trace: seq<Command>) returns (ok: bool, trace': seq<Command>)
      requires Safe(State())
      modifies this, iestate, lpstate
      ensures var p := ParseCommand(old(State()), words, trace, x.oracle);
              State() == p.np && ok == p.ok && trace' == Ran(trace, p)
      ensures Safe(State())
    {
      hide ParseCommand, Safe;
      var ran, rejected;
      ok, ran, rejected := NshParseCommand(words, trace, x.oracle);
      trace' := match ran case None => trace case Some(argv) => trace + [argv];
    }

    // Finds the end of the string that is quoted from `ptr` on.
    method CloseQuote(cmdline: string, ptr: nat) returns (tmp: Option<nat>)
      requires ptr < |cmdline| && LineSep(cmdline[ptr])
      ensures tmp == Esc.StrChr(cmdline[ptr + 1..], cmdline[ptr])
      ensures tmp.Some? ==> ptr + 1 + tmp.value < |cmdline|
    {
      tmp := Esc.NshStrChr(cmdline[ptr + 1..], cmdline[ptr]);
      Esc.StrChrFinds(cmdline[ptr + 1..], cmdline[ptr]);
    }

    // One turn of the loop over a line: `stop` when the line is done with.
    method ParseTurn(x: Setting, cmdline: string, start: nat, working: nat, trace: seq<Command>)
        returns (stop: bool, ok: bool, start': nat, working': nat, trace': seq<Command>)
      requires Safe(State()) && start <= working <= |cmdline|
      modifies this, iestate, lpstate
      ensures LineTurn(x, cmdline, start, working, old(State()), trace)
           == if stop then Done(LineResult(State(), ok, trace')) else Go(State(), start', working', trace')
    {
      hide ParseCommand, Safe, Ran;
      SafeAnywhere(State(), foffs, working, seek, jump);
      loffs := working;
      var ptr := StrCspn(cmdline, working);
      if ptr == |cmdline| || cmdline[ptr] == '\n' || cmdline[ptr] == '#' {
        ok, trace' := ParseOne(x, x.tok(cmdline[start..]), trace);
        return true, ok, start, working, trace';
      } else if cmdline[ptr] == ';' {
        ok, trace' := ParseOne(x, x.tok(cmdline[start..ptr]), trace);
        if !ok && !x.ignore {
          return true, false, start, working, trace';
        }
        return jump, true, ptr + 1, ptr + 1, trace';
      } else if ptr > start && cmdline[ptr - 1] == '\\' {
        return false, true, start, working + 1, trace;
      } else {
        var tmp := CloseQuote(cmdline, ptr);
        if tmp.None? {
          return true, false, start, working, trace;
        }
        return false, true, start, ptr + 1 + tmp.value + 1, trace;
      }
    }

    /** The commands of one line. */
    method NshParse(x: Setting, cmdline: string, trace: seq<Command>) returns (ok: bool, trace': seq<Command>)
      requires Safe(State())
      modifies this, iestate, lpstate
      ensures LineResult(State(), ok, trace') == ParseLine(x, cmdline, old(State()), trace)
      ensures Safe(State())
    {
      hide LineTurn, Safe;
      jump := false;
      SafeAnywhere(old(State()), foffs, loffs, seek, jump);
      ok, trace' := true, trace;
      var start: nat, working: nat, stop := 0, 0, false;
      while !stop
        invariant Safe(State()) && (!stop ==> start <= working <= |cmdline|)
        invariant ParseLine(x, cmdline, old(State()), trace)
               == if stop then LineResult(State(), ok, trace')
                  else ParseLineFrom(x, cmdline, start, working, State(), trace')
        decreases !stop, |cmdline| - working
      {
        stop, ok, start, working, trace' := ParseTurn(x, cmdline, start, working, trace');
      }
    }

    // One turn of the line loop.
    method NextLine(x: Setting, trace: seq<Command>) returns (over: bool, atEnd: bool, trace': seq<Command>)
      requires Safe(State())
      modifies this, iestate, lpstate
      ensures ReadLine(x, Reading(old(State()), trace))
           == if over then Over(State(), trace', atEnd) else Reading(State(), trace')
      ensures Safe(State())
    {
      hide ParseLine, Safe;
      if !(0 <= seek < |x.file|) {
        return true, true, trace;
      }
      var start := seek;
      var end := FindLineEnd(x.file, start);
      SafeAnywhere(State(), start, 0, end, jump);
      foffs, loffs, seek := start, 0, end;
      var ok;
      ok, trace' := NshParse(x, x.file[start..end], trace);
      return !ok && !x.ignore, false, trace';
    }

    /** The lines of a script file, or the first `limit` of them to be read. */
    method NshScript(x: Setting, trace: seq<Command>, limit: nat)
        returns (over: bool, atEnd: bool, trace': seq<Command>)
      requires Safe(State())
      modifies this, iestate, lpstate
      ensures ReadLines(x, Reading(old(State()), trace), limit)
           == if over then Over(State(), trace', atEnd) else Reading(State(), trace')
      ensures Safe(State())
    {
      hide ReadLine, Safe;
      over, atEnd, trace' := false, false, trace;
      var lines := 0;
      while lines < limit && !over
        invariant lines <= limit && Safe(State())
        invariant ReadLines(x, Reading(old(State()), trace), limit)
               == ReadLines(x, if over then Over(State(), trace', atEnd) else Reading(State(), trace'), limit - lines)
      {
        over, atEnd, trace' := NextLine(x, trace');
        lines := lines + 1;
      }
      if over {
        ReadLinesOver(x, Over(State(), trace', atEnd), limit - lines);
      }
    }
  }

  lemma {:induction false} ReadLinesOver(x: Setting, c: Progress, n: nat)
    requires Safe(c.np) && c.Over?
    ensures ReadLines(x, c, n) == c
    decreases n
  {
    hide ParseLine;
    if n == 0 {
    } else {
      ReadLinesOver(x, c, n - 1);
    }
  }
}
