# NuttX applications: the script engine and its neighbours

A model of the hard algorithms of the NuttX `apps` tree, with proofs.

- **Script engine** (`nshlib/nsh_parse.c`, `nshlib/nsh_script.c`). The NuttShell runs
  if/else and while/until scripts without building a syntax tree: two bounded stacks, flags
  that switch commands off, and seeks back in the script file. `NshMachine` gives the effect
  of one command on the parser state, `NshParser` the same in place, `NshText` the reading of
  lines and files. `NshGrammar` says which commands are rejected and `NshAccepted` what the
  scripts are that pass. `NshStructured` has the syntax tree and its ordinary meaning. `NshSteps`,
  `NshSkip`, `NshSimulation` and `NshMeaning` prove that the machine follows that meaning over
  a list of commands, `NshReading` and `NshFileRun` that reading the file by lines and offsets
  is the same run, with `NshScan` and `NshModes` for quotes and comments and `NshQuoted` for
  loops that start with a quote. `NshNesting`, `NshPlaced`, `NshRescue`, `NshCost` and `NshDetour` follow
  the machine through scripts of any other shape, `NshExact` says exactly which scripts get
  their meaning, `NshRescued` why the endings alone do not show it, `NshIgnored` why it is
  another matter with errors ignored, and `NshTheorems` puts it together for files.
- **Argument text** (`NshEscape`, `NshExpand`): three ways to scan for escapes that agree, and
  `$` expansion on top of them.
- **Shell variables** (`NshVars`): a flat buffer of records that acts as a map.
- **Aliases** (`NshAlias`): a fixed table whose nodes move between two lists, with deletion
  put off during expansion.
- **Music macro language** (`MmlSpec`, `MmlTuplet`, `MmlLength`, `MmlNotes`, `MmlParser`): the
  pre-scan of a tuplet agrees with its parse, what lengths joined by `+` add up to, and which
  notes are heard.
- **Smaller ones**: run-length encoding (`BitmapRle`), word-wise copy and fill (`Ramspeed`),
  fixed-point wave forms (`FmOperator`) and the envelope generator (`FmEnvelope`).

What a command does is an oracle: a function of the commands run before it, the last result
and its own words that says whether it fails. The splitting of a command into words is a
parameter too, so the theorems hold for any. Memory shortage is a Boolean parameter of the
operation it can strike; stack depths, the size of the alias table and the alignment mask are
parameters. A character string stands for a NUL-terminated one, positions in it for pointers.
C's division (`CLang`) and shifts of negative numbers are written out where they matter.

The code and its intent part company in twelve places, and the model follows the code: a loop
directly inside a loop runs its test on the pass that should skip it; `break` under an `if`
unbalances the if-stack; a loop between an `if` and its `then` is rejected but passes for a
test; an `if` and a loop that cross are let through; a loop whose test is quoted goes back to
behind the quote; a variable name with `=` is stored but reads back differently; an alias saved
while it is marked for removal is lost; an envelope that is refused is played; the dots of a
joined note length count for the terms after it; the triangle wave is off by one on one side of
zero; the sawtooth leaves the range of a sample at the end of the turn; and the square wave is
wrong at the phase of minus pi. Each has a lemma that says exactly when: for the first two
`ScriptExact`, for the next three `RejectedIff`, `AcceptedIsStructured` and `TopIsStartIff`.

`dafny verify dfyconfig.toml` checks the whole project.

## Model

| member | source | states |
|---|---|---|
| `NshTheorems.SafetyOfEveryRun` | nshlib/nsh_parse.c:1933-2287 | From the zeroed state, after any sequence of commands with any results: both indices are within the stacks, entry 0 of each is normal, every loop below the innermost is in its body, no entry in use is normal; neither guard marked as one that should not happen can fire, the one on `fi` being tested after the loop phase of any next command |
| `NshTheorems.FileMeaning` | nshlib/nsh_script.c:146-189 | A script file of supported shape, with closed quotes and none first in a command that opens a loop, ends with given commands run, a given `$?` and a given reason if and only if the structured script does: same order, same results, at the end of the file or at a failing command |
| `NshTheorems.FileExact` | nshlib/nsh_script.c:146-189 | Such a file of any shape that fits the stacks, with errors not ignored, ends as the structured script does and runs each command at its own if-level, for all command results, if and only if the shape is supported; for the endings alone the same holds of every shape in which no outer `break` can restore what a `break` under `if`s has lost; with errors ignored a supported shape is enough |
| `NshTheorems.FileBalanced` | nshlib/nsh_script.c:146-189 | Such a file of supported shape that is read to its end leaves both indices and all entries in use as it found them, but for recorded file offsets |
| `NshTheorems.FileHaltsAsClauses` | nshlib/nsh_parse.c:2981-3116 | For every file with closed quotes and none first in a command that opens a loop, well-formed or not: reading it line by line and seeking back ends exactly as the run over the list of its commands does, both directions, so neither hangs where the other ends |
| `NshQuoted.TopIsStartIff` | nshlib/nsh_parse.c:1994-2006 | For every command that opens a loop, anywhere on a line: `done` will go back to its start if and only if no quote comes before any other separator in it |
| `NshQuoted.QuotedHeadMisruns` | nshlib/nsh_parse.c:3008-3109 | A file whose commands are those of a loop with a quoted test: it goes back to behind the quote and stops at a `do` without a loop, where the structured loop ends after one pass |
| `NshScan.HandedIff` | nshlib/nsh_parse.c:3008-3010 | The line offset recorded for a command is its own if and only if no quote comes before any other separator in it |
| `NshScan.ParseLineScan` | nshlib/nsh_parse.c:3002-3116 | One command of any line, with quotes, escaped quotes and separators within quotes: where it ends, the offset it is handled at, and what follows; for want of a closing quote the line fails with nothing run and no result recorded |
| `NshScan.ScanShift` | nshlib/nsh_parse.c:3018-3109 | Read again from its own start on, a command of the line ends at the same place |
| `NshModes.ScanTells` | nshlib/nsh_parse.c:3018-3109 | The search for the end of a command stops where one reading of the line from left to right, with a state for quotes, escapes and comments, first meets a `;` outside of them, at the end of the line, or fails exactly if a quote is open there |
| `NshModes.TextsAreSplit` | nshlib/nsh_parse.c:3002-3116 | The commands of a line are the parts between those `;` |
| `NshModes.CommentIsLast` | nshlib/nsh_parse.c:3018-3109 | After a `#` outside of quotes no `;` ends a command: the rest of the line belongs to the command it stands in |
| `NshModes.DeckIsSplit` | nshlib/nsh_parse.c:3002-3116 | The commands the file theorems take from a line are those of its parts |
| `NshTheorems.DirectLoopMisruns` | nshlib/nsh_parse.c:1856-1873 | A loop whose first test ends it, with a loop directly in its body: the machine also runs the inner test, the structured meaning does not |
| `NshTheorems.BreakUnderIfUnbalances` | nshlib/nsh_parse.c:3123-3149 | After `break` under an `if` of the body, the next `fi` is accepted if and only if an `if` is open around the loop, and then closes that one; otherwise it resets the if-stack |
| `NshExact.ScriptExact` | nshlib/nsh_parse.c:1933-2287 | For every structured script that fits the stacks, with errors not ignored: the machine gives it its structured endings and runs each command at the level of the `if`s around it, for all command results, if and only if no loop stands directly in a loop body and no reachable `break` stands under an `if` of its loop |
| `NshExact.SupportedAgrees` | nshlib/nsh_parse.c:1933-2287 | One direction of it with errors ignored as well |
| `NshIgnored.IgnoredAgrees` | nshlib/nsh_parse.c:2236-2265 | The other direction fails with errors ignored: a family of scripts of another shape that end as they should for all command results, and do not with errors not ignored |
| `NshExact.EndingsExact` | nshlib/nsh_parse.c:3123-3149 | For the endings alone, the same if-and-only-if for every script in which no loop that has a `break` directly in its body, under `n` levels of `if`, is around one left under at least one and at most `n` levels |
| `NshExact.UnsupportedMisruns` | nshlib/nsh_parse.c:445-502 | For every other shape, the command results that lead to the offending place make the structured script end where the machine does not, unless an outer `break` restores the if-index |
| `NshRescued.RescuedAgrees` | nshlib/nsh_parse.c:3123-3149 | A family of scripts with `break` under an `if` that all the same ends as it should for all command results, because the `break` of the loop around it restores the if-index: the endings alone do not tell the shape |
| `NshDetour.DetourCosts` | nshlib/nsh_parse.c:1856-1925 | Under those results, from any place in a script, the machine runs at least one command more than the structured block needs, or never reaches the end |
| `NshDetour.DetourTaken` | nshlib/nsh_parse.c:1856-1925 | Under those results the structured block runs exactly that many commands and ends normally or at a `break` |
| `NshCost.PassBlock` | nshlib/nsh_parse.c:1933-2287 | Whatever the results and the shape of a block, a run through it that reaches the end of the script runs at least as many commands as the cheapest way through the block |
| `NshCost.PassOff` | nshlib/nsh_parse.c:1883-1925 | So it does in a part that is switched off, where each stray loop test counts |
| `NshCost.BreakNeverEnds` | nshlib/nsh_parse.c:3123-3149 | After a `break` under an `if` of its loop the end of the script is never reached, unless an outer `break` restores the if-index |
| `NshPlaced.GoesStep` | nshlib/nsh_parse.c:2481-2593 | One command of a nested script, whatever its results: the if-index and the number of entries lost to `break` add up to the nesting, entries once lost stay lost unless an outer `break` restores them, and the script goes on or stops with an error |
| `NshPlaced.Stays` | nshlib/nsh_parse.c:2236-2265 | Over whole runs: once an if-entry is lost, the end of the script is not reached, unless an outer `break` restores the if-index |
| `NshNesting.BlockRegion` | nshlib/nsh_parse.c:1933-2287 | Scanning the words of a flattened block for its keywords finds the nesting of the block at every place, and the nesting around it afterwards |
| `NshRescue.FlatUnrescued` | nshlib/nsh_parse.c:3123-3149 | That condition on the syntax tree carries over to the list of commands |
| `NshMeaning.ScriptMeaning` | nshlib/nsh_parse.c:2481-2593 | Over the list of commands, the machine halts with a trace, `$?` and reason if and only if structured evaluation gives them |
| `NshMeaning.Agreement` | nshlib/nsh_parse.c:1933-2287 | For every bound on loop returns: either the machine halts as the structured script ends, stacks restored, or it has been running at least as many steps with the same commands run |
| `NshMeaning.ScriptBalanced` | nshlib/nsh_parse.c:2031-2092 | A script that is read to its end leaves both indices and every entry in use as it found them; FileBalanced is the same for files |
| `NshMeaning.ScriptOnLevel` | nshlib/nsh_parse.c:1917-1925 | At every step of a run of a supported script, a command is run at the if-level at which it stands in the script |
| `NshSimulation.SimBlock` | nshlib/nsh_parse.c:1933-2287 | From any place in a script and any state between statements, the machine follows the structured evaluation of a supported block to the same trace, `$?`, position and stacks, each command at its if-level |
| `NshSimulation.SimRepeat` | nshlib/nsh_parse.c:1949-2092 | The same for one while/until loop: test, body, seek back, exit, `break` |
| `NshSimulation.SimIf` | nshlib/nsh_parse.c:2139-2265 | The same for one if/else: test, `!`, either branch run and the other skipped |
| `NshSkip.SkipBlock` | nshlib/nsh_parse.c:1883-1907 | In a branch not taken, text of any shape within the depth runs no command or test, keeps `$?` and every entry at or below the current level, never jumps and ends at the same levels |
| `NshSkip.SkipLoopBody` | nshlib/nsh_parse.c:1856-1873 | The pass over a finished or left loop body does the same if no loop stands directly in it; otherwise it runs the test of the first one |
| `NshSteps.ParsePlain` | nshlib/nsh_parse.c:2581-2593 | Between statements a command without keywords passes both keyword phases unchanged |
| `NshSteps.ParseWhile` | nshlib/nsh_parse.c:1949-2006 | `while`/`until` opens an entry that remembers the file position; its test runs whenever the if-stack allows, and decides the entry |
| `NshSteps.ParseDone` | nshlib/nsh_parse.c:2031-2092 | `done` closes the innermost loop, and goes back to the remembered position exactly if it is enabled |
| `NshSteps.ParseIf` | nshlib/nsh_parse.c:2139-2190 | `if` opens an entry, disabled where commands are; the test runs exactly if enabled and decides the branch, inverted by `!` |
| `NshSteps.ParseFi` | nshlib/nsh_parse.c:2236-2265 | `fi` closes the innermost entry, which exists |
| `NshMachine.LoopPhaseKeepsSafe` | nshlib/nsh_parse.c:1933-2118 | Loop keywords, well placed or not, keep the safety invariant |
| `NshMachine.ItefPhaseKeepsSafe` | nshlib/nsh_parse.c:2126-2287 | If keywords, well placed or not, keep the safety invariant |
| `NshMachine.SaveResultKeepsSafe` | nshlib/nsh_parse.c:445-502 | Recording a result keeps the safety invariant |
| `NshMachine.BreakLoopKeepsSafe` | nshlib/nsh_parse.c:3123-3149 | `break` keeps the invariant: the if-index it restores never points above filled entries, even after a reset |
| `NshMachine.CommandKeepsSafe` | nshlib/nsh_parse.c:2481-2593 | One command, whatever its words and result, keeps the safety invariant |
| `NshGrammar.RejectedIff` | nshlib/nsh_parse.c:1933-2287 | In every reachable state a command is rejected if and only if it is out of place: a table of keyword, missing or extra words and the two innermost entries says when. A rejected command runs nothing and resets the stack it does not fit, not the other; `$?` is a failure and the call fails, unless a loop keyword between `if` and `then` is taken for the result of a test |
| `NshAccepted.AcceptedIsStructured` | nshlib/nsh_parse.c:2481-2593 | A script of separate clauses without `break` that is read to its end with no rejection and nothing left open, whatever the results it took, is the text of a structured script if and only if no `if` and loop cross |
| `NshAccepted.CrossingIsTaken` | nshlib/nsh_parse.c:1933-2287 | A script in which a loop ends between an `if` and its `then`, read to its end without a rejection |
| `NshAccepted.FlatUncrossed` | nshlib/nsh_parse.c:1933-2287 | In the text of a structured script no `if` and loop cross |
| `NshFileRun.SharedLine` | nshlib/nsh_parse.c:2194-2232 | `then cmd`, `else cmd`, `do cmd` act as the keyword followed by the command, or as the rejected keyword alone |
| `NshFileRun.OneCommand` | nshlib/nsh_parse.c:1994-2006 | A command handled at the file offset `np_foffs + np_loffs` takes corresponding states to corresponding ones; after `done` the file stands at the test of the matching loop |
| `NshFileRun.RunLine` | nshlib/nsh_parse.c:3002-3116 | So does a line of several commands joined by `;`, from any command of it on |
| `NshFileRun.ReadOne` | nshlib/nsh_script.c:146-189 | So does one turn of the line loop, which reads on or takes a step |
| `NshFileRun.ReadMany` | nshlib/nsh_script.c:146-189 | So does any number of lines, with a bound on the lines read per step |
| `NshParser.Parser.constructor` | nshlib/nsh.h:588-692 | The zeroed parser state with stacks of the given depth |
| `NshParser.Parser.NshSaveResult` | nshlib/nsh_parse.c:445-502 | In place, the new state and status of the specification |
| `NshParser.Parser.NshLoopEnabled` | nshlib/nsh_parse.c:1856-1873 | Returns whether the innermost loop allows commands |
| `NshParser.Parser.NshItefEnabled` | nshlib/nsh_parse.c:1883-1907 | Returns whether the innermost if allows commands |
| `NshParser.Parser.NshCmdEnabled` | nshlib/nsh_parse.c:1917-1925 | Returns whether both do |
| `NshParser.Parser.NshLoop` | nshlib/nsh_parse.c:1933-2118 | In place, the new state, remaining words and status of the loop phase, errors included |
| `NshParser.Parser.NshItef` | nshlib/nsh_parse.c:2126-2287 | In place, the new state, remaining words and status of the if phase, errors included |
| `NshParser.Parser.CmdBreak` | nshlib/nsh_parse.c:3123-3149 | In place, switches off the innermost loop body and restores its if-index; nothing outside a loop body |
| `NshParser.Parser.NshParseCommand` | nshlib/nsh_parse.c:2481-2593 | In place, the effect of one command on the state, and the command run if any; the invariant is kept |
| `NshParser.Parser.ParseTurn` | nshlib/nsh_parse.c:3002-3116 | In place, one turn of the loop that splits a line at `;`, `#` and quotes |
| `NshParser.Parser.NshParse` | nshlib/nsh_parse.c:2981-3116 | In place, the effect of one line |
| `NshParser.Parser.NextLine` | nshlib/nsh_script.c:146-189 | In place, one turn of the line loop of a script file |
| `NshParser.Parser.NshScript` | nshlib/nsh_script.c:146-189 | In place, up to `limit` lines of a script file, stopping as the specification does |
| `NshEscape.ParityIsFlag` | nshlib/nsh_parse.c:1304-1333 | A character is escaped by the flag carried forward if and only if an odd number of back-slashes stands before it |
| `NshEscape.StrChrFinds` | nshlib/nsh_parse.c:1040-1064 | The search returns the first unescaped occurrence, and nothing only if there is none |
| `NshEscape.NshStrChr` | nshlib/nsh_parse.c:1040-1064 | The loop computes that search |
| `NshEscape.UnescapeIsKept` | nshlib/nsh_parse.c:1193-1239 | The one-pass unescape keeps exactly the characters that are escaped or no back-slash |
| `NshEscape.UnescapeConcat` | nshlib/nsh_parse.c:1193-1239 | Unescaping distributes over a boundary that is not escaped |
| `NshEscape.UnescapeIdentity` | nshlib/nsh_parse.c:1193-1239 | Unescaping changes a string if and only if it holds a back-slash |
| `NshEscape.Dequote` | nshlib/nsh_parse.c:1193-1239 | Deleting back-slashes in place leaves the one-pass unescape in the buffer and nothing else changed |
| `NshExpand.CountBack` | nshlib/nsh_parse.c:1304-1333 | The backward count classifies a position as the forward flag does |
| `NshExpand.FindSep` | nshlib/nsh_parse.c:1297-1340 | Finds the first unescaped `$` or back-quote |
| `NshExpand.FindRef` | nshlib/nsh_parse.c:1342-1513 | Splits the text at the first reference: braced, unbraced or back-quoted, or malformed |
| `NshExpand.Dequoted` | nshlib/nsh_parse.c:1193-1239 | The unescape of a text, by way of the in-place deletion |
| `NshExpand.NshArgExpand` | nshlib/nsh_parse.c:1279-1528 | The loop returns the specified expansion, makes the specified look-ups in order, each answered in the light of those before it, and fails exactly on an unclosed reference |
| `NshExpand.ExpandsIff` | nshlib/nsh_parse.c:1279-1528 | A text expands if and only if it is made of literals and references, braced, back-quoted or unbraced, that are closed |
| `NshExpand.RawMeaning` | nshlib/nsh_parse.c:1342-1513 | Before the unescape, an argument of literals and references of all three kinds is its literals and values in order, each value answered after the look-ups before it |
| `NshExpand.ExpansionMeaning` | nshlib/nsh_parse.c:1342-1513 | The result is the unescape of literals and values in order, and exactly the variables named are looked up and the commands quoted are run |
| `NshExpand.ValuesVerbatim` | nshlib/nsh_parse.c:1342-1513 | When no value holds a back-slash, values appear verbatim between literals unescaped one by one |
| `NshExpand.ValuesVerbatimExact` | nshlib/nsh_parse.c:1360-1371 | Between literals without back-slashes, values appear verbatim if and only if no value holds one |
| `NshExpand.EscapeRoundTrip` | nshlib/nsh_parse.c:1193-1239 | Escaping every back-slash, `$` and back-quote and expanding gives the string back, with no look-up and no command run |
| `NshVars.SerInjective` | nshlib/nsh_vars.c:90-110 | The buffer determines its records |
| `NshVars.MatchIsName` | nshlib/nsh_vars.c:48-64 | A record is found under a `=`-free name if and only if that is exactly its name |
| `NshVars.VarStore.constructor` | nshlib/nsh_vars.c:227-290 | The empty store |
| `NshVars.VarStore.CmpName` | nshlib/nsh_vars.c:48-64 | Compares at a record start only, within the record |
| `NshVars.VarStore.FindVar` | nshlib/nsh_vars.c:90-110 | Returns the start of the first record with that name, or nothing |
| `NshVars.VarStore.GetVar` | nshlib/nsh_vars.c:196-220 | Returns the value of that record |
| `NshVars.VarStore.RemoveVar` | nshlib/nsh_vars.c:128-167 | Shifting the rest down removes exactly one record from the buffer |
| `NshVars.VarStore.SetVar` | nshlib/nsh_vars.c:227-290 | Replaces or appends one record; without memory the variable is gone |
| `NshVars.VarStore.UnsetVar` | nshlib/nsh_vars.c:298-352 | Removes one record, whether or not the buffer can be shrunk |
| `NshVars.VarStore.ForeachVar` | nshlib/nsh_vars.c:374-406 | Visits each record once, in order, up to the first one whose callback returns non-zero, and returns that |
| `NshVars.GetIsLookup` | nshlib/nsh_vars.c:196-220 | Get is look-up in the map the buffer stands for |
| `NshVars.SetIsUpdate` | nshlib/nsh_vars.c:227-290 | Set updates exactly one key and keeps names distinct |
| `NshVars.UnsetIsRemoval` | nshlib/nsh_vars.c:298-352 | Unset removes exactly one key and keeps names distinct |
| `NshVars.StoreIsMap` | nshlib/nsh_vars.c:227-352 | Over any sequence of operations the buffer is what a map would be |
| `NshVars.SetGet` | nshlib/nsh_vars.c:196-290 | Get after set returns the value set if and only if the name holds no `=` |
| `NshVars.PlainNamesSearchable` | nshlib/nsh_vars.c:48-64 | A name without `=` is never the whole text of a record, so the comparison never runs past one |
| `NshVars.SetGetWithEquals` | nshlib/nsh_vars.c:48-64 | With `=` in the name, get returns a longer value than was set |
| `NshVars.RunsPastIff` | nshlib/nsh_vars.c:48-64 | The comparison of a name with a record, whatever stands in memory after it, runs past the end of the name if and only if the name is the whole text of the record |
| `NshAlias.EveryRun` | nshlib/nsh_alias.c:76-271 | Over any sequence of operations: the lists partition the table, active names are distinct, free nodes are blank, an alias is marked `exp` exactly if it stands once on a live expansion list and is then active, `rem` implies `exp`, and no mark is left when no parse is in progress |
| `NshAlias.InitKeepsInv` | nshlib/nsh_alias.c:76-96 | A first use puts every node on the free list |
| `NshAlias.InitOnce` | nshlib/nsh_alias.c:76-96 | A table in use is not initialised again |
| `NshAlias.SaveKeepsInv` | nshlib/nsh_alias.c:158-194 | Saving keeps the invariant, with either duplication failing |
| `NshAlias.FailedNewSave` | nshlib/nsh_alias.c:158-194 | A new alias for which memory is short changes nothing |
| `NshAlias.SaveMeaning` | nshlib/nsh_alias.c:158-194 | Saving sets the value of that name only; without memory the name has none |
| `NshAlias.SaveSucceedsIff` | nshlib/nsh_alias.c:158-194 | Saving succeeds if and only if the name is not empty, its value can be duplicated, and it is defined already or can be duplicated too and a free node is left; it is invalid if and only if the name is empty |
| `NshAlias.SavedSurvives` | nshlib/nsh_parse.c:416-438 | A saved alias has its value after the innermost expansion list is released, unless it is on that list and was marked for removal before; then it is gone |
| `NshAlias.DeleteMeaning` | nshlib/nsh_alias.c:122-152 | Deleting removes that name only, or marks it while it is under expansion |
| `NshAlias.RemoveAllLeavesExpanded` | nshlib/nsh_alias.c:214-227 | Removing all leaves active exactly the aliases under expansion, each marked |
| `NshAlias.ReleaseKeepsInv` | nshlib/nsh_parse.c:416-438 | Releasing a list keeps the invariant, frees exactly those of its aliases that are marked and unmarks the others |
| `NshAlias.RoomToExpand` | nshlib/nsh_parse.c:395-408 | The capacity guard never fails |
| `NshAlias.ActKeepsGood` | nshlib/nsh_parse.c:395-438 | Every operation keeps the invariant over all live lists |
| `NshAlias.ExpandableIff` | nshlib/nsh_alias.c:248-271 | A token is an alias to expand if and only if an active alias of that name has a value and is not under expansion |
| `NshAlias.ExpandOnce` | nshlib/nsh_parse.c:1072-1126 | Once expanded, a token is not expanded again while its list is live; every other token is as before |
| `NshAlias.SavedBy` | nshlib/nsh_alias.c:158-194 | With memory and a free node, an alias saved at any time is found with its value |
| `NshAlias.DeletedBy` | nshlib/nsh_alias.c:122-152 | A deleted name is not found, unless it is under expansion; then nothing has changed for it |
| `NshAlias.RemovedAll` | nshlib/nsh_alias.c:214-227 | So with all names at once |
| `NshAlias.EnterLeave` | nshlib/nsh_parse.c:416-438 | A parse that expands nothing leaves the aliases as they were |
| `NshAlias.Aliases.AliasInit` | nshlib/nsh_alias.c:76-96 | In place, fills the free list once |
| `NshAlias.Aliases.AliasFind` | nshlib/nsh_alias.c:102-116 | Returns the active alias of that name |
| `NshAlias.Aliases.AliasDelete` | nshlib/nsh_alias.c:122-152 | In place, frees or marks the node |
| `NshAlias.Aliases.AliasSave` | nshlib/nsh_alias.c:158-194 | In place, saves an alias; the invariant is kept |
| `NshAlias.Aliases.AliasRemoveAll` | nshlib/nsh_alias.c:214-227 | In place, deletes every active alias; the invariant is kept |
| `NshAlias.Aliases.NshAliasFind` | nshlib/nsh_alias.c:248-271 | Returns an active alias of that name that is not under expansion |
| `NshAlias.Aliases.AliasExpand` | nshlib/nsh_parse.c:1072-1126 | In place, finds, marks and lists the alias of a token; the invariant is kept |
| `NshAlias.Aliases.AlistFree` | nshlib/nsh_parse.c:416-438 | In place, releases the innermost list; the invariant is kept |
| `MmlTuplet.TupletAgrees` | audioutils/mml_parser/mml_parser.c:544-655 | After `{` with a non-negative length, the events up to `}` number exactly what the pre-scan counted and their lengths add up to the tuplet length, unless an event fails on its own or the tempo is zero at `}`; too many and too few notes cannot occur |
| `MmlTuplet.AtTheBrace` | audioutils/mml_parser/mml_parser.c:612-630 | Inside a tuplet the tempo is needed at `}` only |
| `MmlTuplet.TupletRuns` | audioutils/mml_parser/mml_parser.c:582-655 | The same from any point within the tuplet, with the share handed out so far |
| `MmlTuplet.EventCounts` | audioutils/mml_parser/mml_parser.c:799-870 | One parse within a tuplet takes exactly one from the count that is left if it is a note, rest or chord, and nothing otherwise |
| `MmlTuplet.CountChord` | audioutils/mml_parser/mml_parser.c:544-576 | The pre-scan skips a chord to where its parse ends |
| `MmlTuplet.NextShare` | audioutils/mml_parser/mml_parser.c:376-390 | Each share continues the even division of the tuplet length exactly |
| `MmlTuplet.CalcSamplesExact` | audioutils/mml_parser/mml_parser.c:162-220 | For lengths 1 to 64 and up to four dots the result is one floor of the exact rational |
| `MmlTuplet.CalcSamplesBreve` | audioutils/mml_parser/mml_parser.c:162-220 | Length 0 is twice a whole note, likewise exact |
| `MmlTuplet.CalcSamplesRejects` | audioutils/mml_parser/mml_parser.c:162-220 | Every other length or more than four dots is an error |
| `MmlLength.LengthIsSum` | audioutils/mml_parser/mml_parser.c:226-370 | A length of terms joined by `+` is an error if and only if a `+` has no number after it or some term is an error; otherwise it is the sum of the terms after the last one of no samples, each with the dots of all terms up to it, and ends where the terms do |
| `MmlLength.TotalAfterZero` | audioutils/mml_parser/mml_parser.c:226-242 | A term of no samples discards the terms before it |
| `MmlLength.LengthIsPlainSum` | audioutils/mml_parser/mml_parser.c:260-370 | A length whose terms all have samples is never less than the plain sum of its terms, and equal to it if and only if the dots carried over change no term |
| `MmlLength.DotsLast` | audioutils/mml_parser/mml_parser.c:260-370 | They change none if only the last term has dots |
| `MmlLength.CarriedDot` | audioutils/mml_parser/mml_parser.c:260-370 | In `4.+4` both quarters are dotted |
| `MmlNotes.NoteIndexIs` | audioutils/mml_parser/mml_parser.c:96-110 | The index of a note is its first place in the chromatic scale, or -1 |
| `MmlNotes.HalfScaleIs` | audioutils/mml_parser/mml_parser.c:116-140 | The signs after a note shift it by the sharps less the flats among them |
| `MmlNotes.NotePitch` | audioutils/mml_parser/mml_parser.c:396-404 | The note returned is 12 per octave, plus the place of its name in the scale, plus its signs |
| `MmlNotes.ChordHeard` | audioutils/mml_parser/mml_parser.c:685-750 | A chord written as notes with signs and octave changes, with blanks anywhere, gives the pitches of the first five notes in order, each in the octave set before it, and leaves the last octave set |
| `MmlNotes.ChordUnclosed` | audioutils/mml_parser/mml_parser.c:685-750 | A chord without its bracket is an error |
| `MmlNotes.ChordRejects` | audioutils/mml_parser/mml_parser.c:685-750 | So is one with anything else in it |
| `MmlNotes.AtoiDec` | audioutils/mml_parser/mml_parser.c:430-504 | A decimal numeral is read as its number, and to its end |
| `MmlNotes.SetsValue` | audioutils/mml_parser/mml_parser.c:430-504 | `T`, `L` and `O` with a numeral set that value only, and end after it |
| `MmlNotes.ReportsValue` | audioutils/mml_parser/mml_parser.c:510-526 | `V` and `@` with a numeral report that value and change nothing; a volume is an error if and only if it is above 100 |
| `MmlNotes.NegativeVolume` | audioutils/mml_parser/mml_parser.c:510-526 | A volume with a minus sign is an error unless it is zero, and ends before the sign |
| `MmlNotes.NoValue` | audioutils/mml_parser/mml_parser.c:430-504 | A code without its numeral is an error of its own that changes nothing |
| `MmlNotes.OctaveSteps` | audioutils/mml_parser/mml_parser.c:472-504 | `>` and `<` move the octave by one |
| `MmlNotes.NoteLasts` | audioutils/mml_parser/mml_parser.c:661-679 | Outside a tuplet a note lasts the length written after its signs; it is an error if and only if that is |
| `MmlNotes.RestLasts` | audioutils/mml_parser/mml_parser.c:410-424 | So does a rest |
| `MmlNotes.TupletOpens` | audioutils/mml_parser/mml_parser.c:582-606 | A tuplet without chords has as many events as names of notes and rests up to its `}`, and the length written after it; one with none is an error |
| `MmlNotes.TupletCloses` | audioutils/mml_parser/mml_parser.c:612-630 | `}` ends the tuplet and passes over its length; it is an error if and only if the events are not as many as were counted |
| `MmlNotes.NoteBeyond` | audioutils/mml_parser/mml_parser.c:636-655 | A note in a tuplet is one too many if and only if all that were counted are used up |
| `MmlNotes.NoNesting` | audioutils/mml_parser/mml_parser.c:582-606 | A tuplet within a tuplet is an error |
| `MmlNotes.NoSuchCode` | audioutils/mml_parser/mml_parser.c:799-870 | Every other character is an error |
| `MmlNotes.Blanks` | audioutils/mml_parser/mml_parser.c:69-77 | The six characters that count as blank |
| `MmlParser.FindNoteIndex` | audioutils/mml_parser/mml_parser.c:96-110 | The loop over the scale returns that index |
| `MmlParser.CalcSamplesOf` | audioutils/mml_parser/mml_parser.c:162-220 | The dot loop computes the specified length |
| `MmlParser.Player.LengthAt` | audioutils/mml_parser/mml_parser.c:260-370 | The length scan computes the specified samples and end |
| `MmlParser.Player.NextShareOf` | audioutils/mml_parser/mml_parser.c:376-390 | In place, the share of the next event |
| `MmlParser.Player.CountTupletNotes` | audioutils/mml_parser/mml_parser.c:544-576 | In place, the pre-scan |
| `MmlParser.Player.HandleStartTuplet` | audioutils/mml_parser/mml_parser.c:582-606 | In place, the start of a tuplet |
| `MmlParser.Player.HandleStopTuplet` | audioutils/mml_parser/mml_parser.c:612-630 | In place, the end of a tuplet |
| `MmlParser.Player.HandleNotes` | audioutils/mml_parser/mml_parser.c:636-679 | In place, a note in or out of a tuplet |
| `MmlParser.Player.HandleRest` | audioutils/mml_parser/mml_parser.c:410-424 | In place, a rest |
| `MmlParser.Player.HandleOctave` | audioutils/mml_parser/mml_parser.c:472-504 | In place, an octave change |
| `MmlParser.Player.HandleStartChord` | audioutils/mml_parser/mml_parser.c:685-750 | In place, a chord |
| `MmlParser.Player.ParseMml` | audioutils/mml_parser/mml_parser.c:799-870 | In place, one event |
| `BitmapRle.Quantize` | tools/bitmap_converter.py:54-63 | Returns the first palette entry at the least distance, which is the colour itself if present |
| `BitmapRle.OneChannel` | tools/bitmap_converter.py:54-63 | In one channel the distance is the square of the difference, in either direction |
| `BitmapRle.ChannelsAdd` | tools/bitmap_converter.py:54-63 | The distance is the sum of those in the three channels |
| `BitmapRle.EncodeRow` | tools/bitmap_converter.py:66-86 | The entries expand to the quantized row, counts are 1 to 255, equal neighbours occur only after 255, and no such encoding has fewer entries |
| `BitmapRle.GreedyLossless` | tools/bitmap_converter.py:66-86 | The greedy encoding is lossless with counts from 1 to 255 |
| `BitmapRle.GreedyMerged` | tools/bitmap_converter.py:66-86 | Equal neighbours occur only after a count of 255 |
| `BitmapRle.GreedyOptimal` | tools/bitmap_converter.py:66-86 | No encoding of the same row with counts up to 255 is shorter |
| `Ramspeed.InternalMemcpy` | benchmarks/ramspeed/ramspeed_main.c:344-412 | For all lengths and alignments and regions that do not overlap, memory is as after a byte-by-byte copy; word accesses are aligned and in range |
| `Ramspeed.InternalMemset` | benchmarks/ramspeed/ramspeed_main.c:418-461 | Memory is as after a byte-by-byte fill; word accesses are aligned and in range |
| `Ramspeed.CopyHead` | benchmarks/ramspeed/ramspeed_main.c:382-391 | The head makes both addresses word-aligned, or is all there is |
| `Ramspeed.WordRoundTrip` | benchmarks/ramspeed/ramspeed_main.c:52-56 | A word loaded and stored keeps its bytes in place |
| `FmOperator.SinHalfTurn` | audioutils/fmsynth/fmsynth_op.c:125-153 | The sine changes sign under a half turn, for every phase, negative ones included |
| `FmOperator.SinOdd` | audioutils/fmsynth/fmsynth_op.c:125-153 | It is odd |
| `FmOperator.SinMirror` | audioutils/fmsynth/fmsynth_op.c:125-153 | It is mirror-symmetric about a quarter turn, rounding included |
| `FmOperator.SinRange` | audioutils/fmsynth/fmsynth_op.c:125-153 | Its magnitude is at most 0x7fff |
| `FmOperator.SinRises` | audioutils/fmsynth/fmsynth_op.c:125-153 | It never falls over the first quarter |
| `FmOperator.TableRises` | audioutils/fmsynth/fmsynth_op.c:41-113 | The table never falls, from 0 to 0x7fff |
| `FmOperator.TableOnCircle` | audioutils/fmsynth/fmsynth_op.c:41-113 | An entry and the one as far from the other end lie on the circle of radius 0x7fff, up to rounding |
| `FmOperator.TableDoubles` | audioutils/fmsynth/fmsynth_op.c:41-113 | The entries obey the formula for the sine of twice an angle, up to rounding |
| `FmOperator.SinOnTable` | audioutils/fmsynth/fmsynth_op.c:125-153 | Over the first quarter the sine is the table at every 128th phase and the straight line in between, rounded down |
| `FmOperator.TriangleHalfTurn` | audioutils/fmsynth/fmsynth_op.c:159-195 | The triangle changes sign under a half turn exactly at multiples of a quarter turn, and is one lower elsewhere |
| `FmOperator.TriangleIsLine` | audioutils/fmsynth/fmsynth_op.c:159-195 | Over the whole turn the triangle is the straight line up, down and up again, rounded down |
| `FmOperator.SawtoothRises` | audioutils/fmsynth/fmsynth_op.c:201-205 | The sawtooth rises from the bottom by one with every second phase and starts again with every turn |
| `FmOperator.SawtoothRange` | audioutils/fmsynth/fmsynth_op.c:201-205 | It fits a 16-bit sample if and only if the phase is not one of the last two of the turn |
| `FmOperator.SquareIsSign` | audioutils/fmsynth/fmsynth_op.c:211-215 | The square wave has the sign of the sine and the largest value |
| `FmOperator.SquareHalfTurn` | audioutils/fmsynth/fmsynth_op.c:211-215 | The square wave changes sign under a half turn at every phase but minus pi |
| `FmEnvelope.ReleaseTime` | audioutils/fmsynth/fmsynth_eg.c:175-209 | The envelope comes to rest after exactly one more sample than the period for the first segment and for each later timed one |
| `FmEnvelope.SegmentExact` | audioutils/fmsynth/fmsynth_eg.c:46-63 | A segment lasts the samples that the rate gives for its milliseconds, and starts and ends at its levels as fractions of the largest one, each rounded towards zero once |
| `FmEnvelope.SetupTime` | audioutils/fmsynth/fmsynth_eg.c:120-209 | From the start after an accepted set-up, rest is reached exactly when the samples of its five durations in milliseconds have passed |
| `FmEnvelope.OnTheLine` | audioutils/fmsynth/fmsynth_eg.c:175-209 | Each sample within a segment is the point on its straight line, rounded towards its start |
| `FmEnvelope.StartAttacks` | audioutils/fmsynth/fmsynth_eg.c:155-159 | Started in any state, it plays a timed attack from its beginning |
| `FmEnvelope.StopRests` | audioutils/fmsynth/fmsynth_eg.c:165-169 | Stopped in any state, it gives the resting level for ever |
| `FmEnvelope.SampleBetween` | audioutils/fmsynth/fmsynth_eg.c:175-209 | A sample lies between the ends of the segment the generator is in afterwards, and the state never moves back |
| `FmEnvelope.SegmentMonotone` | audioutils/fmsynth/fmsynth_eg.c:175-209 | Within a segment each sample is at least as near to the target |
| `FmEnvelope.AllInRangeIff` | audioutils/fmsynth/fmsynth_eg.c:175-209 | For any six segments, accepted or refused: from the start all samples are in range if and only if the first and last of each timed segment, the first of each later segment of negative period and the resting level are |
| `FmEnvelope.RefusedIsPlayed` | audioutils/fmsynth/fmsynth_eg.c:46-63 | A set-up that is refused and then played out of range |
| `FmEnvelope.AcceptedSounds` | audioutils/fmsynth/fmsynth_eg.c:120-149 | The segments of an accepted set-up meet that condition |
| `FmEnvelope.EveryRunInRange` | audioutils/fmsynth/fmsynth_eg.c:120-209 | Over any sequence of start, stop, sample and set-up, samples stay within the level limits if the segments of each set-up meet that condition, accepted or not |
| `FmEnvelope.AcceptedIff` | audioutils/fmsynth/fmsynth_eg.c:46-63 | A set-up is accepted if and only if every level and duration given fits |
| `FmEnvelope.SegmentsGood` | audioutils/fmsynth/fmsynth_eg.c:120-149 | An accepted set-up makes each timed segment end where the next starts |
| `FmEnvelope.Generator.constructor` | audioutils/fmsynth/fmsynth_eg.c:73-91 | A new generator is at rest and well set up |
| `FmEnvelope.Generator.SetEgParams` | audioutils/fmsynth/fmsynth_eg.c:46-63 | In place, one segment and whether it is acceptable |
| `FmEnvelope.Generator.SetParam` | audioutils/fmsynth/fmsynth_eg.c:120-149 | In place, all segments, and success if and only if all are acceptable |
| `FmEnvelope.Generator.Start` | audioutils/fmsynth/fmsynth_eg.c:155-159 | In place, back to the attack |
| `FmEnvelope.Generator.Stop` | audioutils/fmsynth/fmsynth_eg.c:165-169 | In place, to rest |
| `FmEnvelope.Generator.Operate` | audioutils/fmsynth/fmsynth_eg.c:175-209 | In place, one sample of the specification |

## Left out

- NshTheorems.FileMeaning: covers scripts in which an `if` stands between any two nested loops and no `break` that can be reached stands under an `if` of its loop. FileExact and ScriptExact show these conditions to be exact. The condition on NESTDEPTH is that the script fits.
- NshExact.EndingsExact: leaves out scripts in which an outer `break` under enough levels of `if` can restore what was lost. There the endings can be right all the same, as RescuedAgrees shows, depending on which `break` is reached on every way; ScriptExact covers these scripts with the endings and the if-levels together.
- NshExact.ScriptExact: starts with no `if` open, as a script file does; an `if` left open around the script would take the place of an entry that a `break` has lost. It is about errors that stop the script; with errors ignored a supported shape is enough but not needed, as IgnoredAgrees shows, and no exact condition is given.
- NshTheorems.FileHaltsAsClauses: a quote that is not closed is excluded, because the line then fails without any command, which the list of commands has no counterpart for; ParseLineScan says what it does. A quote before any other separator of a command that opens a loop is excluded, because the place noted is then another, as HandedIff, TopIsStartIff and QuotedHeadMisruns show.
- NshParser.Parser.NshScript: takes a limit on the number of lines, since a script may run for ever; the theorems quantify over the limit.
- NshAccepted.AcceptedIsStructured: asks for no rejection on the way rather than for success, because by RejectedIff one kind of rejection goes unnoticed and the script goes on. `if`s and loops that cross are let through by the parser, as CrossingIsTaken shows. It is about scripts with one command to a clause, no `break` and no keyword for a test.
- NshExpand.ValuesVerbatim: one direction; with back-slashes in the literals a value that ends in one can cancel against the next literal, so the converse is given by ValuesVerbatimExact for literals without them.
- NshVars.SetGet: the name must not equal the whole text of a record, for the reason given for FindVar; likewise SetGetWithEquals.
- NshVars.VarStore.FindVar: the name must hold no NUL and must not equal the whole text of a record, where by RunsPastIff the comparison in the source reads past the ends of both; a name without `=` always qualifies.
- NshEscape.Dequote: the buffer has room for the terminating NUL, and the string holds none.
- MmlTuplet.TupletAgrees: a tempo of zero at the closing brace, where the source divides by it, is an outcome of its own.
- MmlParser.Player.ParseMml: requires a tempo other than zero exactly where the next event divides by it.
- MmlTuplet.CalcSamplesExact: `int` overflow of large sample rates is not modelled.
- FmEnvelope.AcceptedIff: levels are real numbers, not floats.
- FmEnvelope.EveryRunInRange: assumes of each set-up what AllInRangeIff shows to be needed from a start; accepted set-ups have it by AcceptedSounds.
- Redirection, pipelines, background jobs, `nice`, argument limits and word splitting of a command: operating-system effects or configuration; a command is its words.
- Nested `source`, `time` and `watch`, which re-enter the same parser state.
- Failing `lseek` calls, truncation of lines at LINE_MAX, offsets beyond `uint16_t`, and NUL characters in script files.
- Words that become keywords by alias or variable expansion: the tokenizer returns the final words.
- The linked lists of the alias table are sequences of node numbers; the queue primitives themselves are not part of this model.
- Aliasing between a value handed to the variable store and the store's own buffer.
- The operator graph and phase accumulation of the synthesiser: floating point.
- All other commands of the shell and all other applications: input/output around libraries.
