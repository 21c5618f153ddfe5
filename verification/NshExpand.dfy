/**
  Expansion of one argument: `${name}` and `$name` references and back-quoted
  commands are replaced, and what results is unescaped once at the end.
*/
module NshExpand {
  import opened CLang
  import opened NshOption
  import opened NshEscape

  // What expansion asks of the world around it, in order.
  datatype Query = Lookup(name: string) | Run(cmd: string)

  // The value of a variable or the output of a command, after the queries made before: a
  // command may change what comes later.
  type World = (seq<Query>, Query) -> string

  predicate Separator(c: char) {
    c == '`' || c == '$'
  }

  // The first separator that the forward flag finds unescaped, or the end.
  function FirstSep(s: string, i: nat): (k: nat)
    requires i <= |s|
    ensures i <= k <= |s|
    ensures k < |s| ==> Separator(s[k]) && !Escaped(s, k)
    ensures forall j :: i <= j < k ==> !(Separator(s[j]) && !Escaped(s, j))
    decreases |s| - i
  {
    if i == |s| || (Separator(s[i]) && !Escaped(s, i)) then i else FirstSep(s, i + 1)
  }

  // One reference: the text before it, its query, and the text after it.
  datatype Ref = NoRef | BadRef | Ref(before: string, query: Query, after: string)

  function NextRef(s: string): (r: Ref)
    ensures r.Ref? ==> |r.after| < |s|
  {
    var k := FirstSep(s, 0);
    if k == |s| then NoRef
    else if s[k] == '`' then
      match StrChr(s[k + 1..], '`')
      case None => BadRef
      case Some(j) => StrChrFinds(s[k + 1..], '`');
                      Ref(s[..k], Run(s[k + 1..][..j]), s[k + 1..][j + 1..])
    else if k + 1 < |s| && s[k + 1] == '{' then
      match StrChr(s[k + 2..], '}')
      case None => BadRef
      case Some(j) => StrChrFinds(s[k + 2..], '}');
                      Ref(s[..k], Lookup(s[k + 2..][..j]), s[k + 2..][j + 1..])
    else Ref(s[..k], Lookup(s[k + 1..]), "")
  }

  // The concatenation before it is unescaped; None if a bracket or quote is not closed.
  function Raw(w: World, past: seq<Query>, s: string): Option<string>
    decreases |s|
  {
    match NextRef(s)
    case NoRef => Some(s)
    case BadRef => None
    case Ref(before, query, after) =>
      match Raw(w, past + [query], after)
      case None => None
      case Some(rest) => Some(before + w(past, query) + rest)
  }

  function Queries(s: string): seq<Query>
    decreases |s|
  {
    match NextRef(s)
    case NoRef => []
    case BadRef => []
    case Ref(_, query, after) => [query] + Queries(after)
  }

  function ArgExpand(w: World, s: string): string {
    match Raw(w, [], s)
    case None => ""
    case Some(r) => Unescape(r)
  }

  // ----- The loop -----

  // strcspn over the two separators.
  method NextSeparator(s: string, i: nat) returns (k: nat)
    requires i <= |s|
    ensures i <= k <= |s|
    ensures k < |s| ==> Separator(s[k])
    ensures forall j :: i <= j < k ==> !Separator(s[j])
  {
    k := i;
    while k < |s| && !Separator(s[k])
      invariant i <= k <= |s|
      invariant forall j :: i <= j < k ==> !Separator(s[j])
    {
      k := k + 1;
    }
  }

  // Counts the back-slashes before `len`, as a parity.
  method CountBack(s: string, len: nat) returns (quoted: bool)
    requires len <= |s|
    ensures quoted == Escaped(s, len)
  {
    var bcount := 0;
    quoted := false;
    while bcount < len && s[len - 1 - bcount] == '\\'
      invariant bcount <= len
      invariant quoted == (bcount % 2 == 1)
      invariant Backslashes(s, len) == bcount + Backslashes(s, len - bcount)
    {
      quoted := !quoted;
      bcount := bcount + 1;
    }
    ParityIsFlag(s, len);
  }

  // Looks for a separator, passing over the escaped ones.
  method FindSep(s: string) returns (len: nat)
    ensures len == FirstSep(s, 0)
  {
    len := NextSeparator(s, 0);
    SkipTo(s, 0, len);
    while len > 0 && len < |s|
      invariant len <= |s| && (len < |s| ==> Separator(s[len]))
      invariant FirstSep(s, 0) == FirstSep(s, len)
      decreases |s| - len
    {
      var quoted := CountBack(s, len);
      if quoted {
        var next := NextSeparator(s, len + 1);
        SkipTo(s, len, next);
        len := next;
      } else {
        break;
      }
    }
  }

  lemma {:induction false} SkipTo(s: string, i: nat, k: nat)
    requires i <= k <= |s|
    requires forall j :: i <= j < k ==> !Separator(s[j]) || Escaped(s, j)
    ensures FirstSep(s, i) == FirstSep(s, k)
    decreases k - i
  {
    if i == k {
    } else {
      SkipTo(s, i + 1, k);
    }
  }

  function After(sofar: string, r: Option<string>): Option<string> {
    match r
    case None => None
    case Some(t) => Some(sofar + t)
  }

  lemma AfterNothing(r: Option<string>)
    ensures After("", r) == r
  {
    assert r.Some? ==> "" + r.value == r.value;
  }

  lemma AfterTwice(a: string, b: string, r: Option<string>)
    ensures After(a, After(b, r)) == After(a + b, r)
  {
    assert r.Some? ==> a + (b + r.value) == a + b + r.value;
  }

  // One turn of the loop: the next reference in the rest of the argument.
  method FindRef(working: string) returns (r: Ref)
    ensures r == NextRef(working)
  {
    var len := FindSep(working);
    if len == |working| {
      return NoRef;
    }
    if working[len] == '`' {
      var ptr := working[len + 1..];
      var rptr := NshStrChr(ptr, '`');
      if rptr.None? {
        return BadRef;
      }
      StrChrFinds(ptr, '`');
      return Ref(working[..len], Run(ptr[..rptr.value]), ptr[rptr.value + 1..]);
    } else if len + 1 < |working| && working[len + 1] == '{' {
      var ptr := working[len + 2..];
      var rptr := NshStrChr(ptr, '}');
      if rptr.None? {
        return BadRef;
      }
      StrChrFinds(ptr, '}');
      return Ref(working[..len], Lookup(ptr[..rptr.value]), ptr[rptr.value + 1..]);
    } else {
      return Ref(working[..len], Lookup(working[len + 1..]), "");
    }
  }

  // What the world answers is a NUL-terminated string.
  ghost predicate Terminated(w: World) {
    forall past: seq<Query>, q: Query :: NUL !in w(past, q)
  }

  lemma RefParts(s: string)
    requires NUL !in s && NextRef(s).Ref?
    ensures NUL !in NextRef(s).before && NUL !in NextRef(s).after
  {
  }

  // The text in a buffer of its own, unescaped there.
  method Dequoted(text: string) returns (r: string)
    requires NUL !in text
    ensures r == Unescape(text)
  {
    var buf := new char[|text| + 1](i requires 0 <= i <= |text| => if i < |text| then text[i] else NUL);
    assert buf[..][..|text|] == text;
    Dequote(buf, text);
    ghost var u := Unescape(text);
    assert forall i :: 0 <= i < |u| ==> buf[i] == buf[..][..|u|][i];
    assert forall i :: 0 <= i < |u| ==> buf[i] == u[i] && u[i] != NUL;
    var n := 0;
    while buf[n] != NUL
      invariant n <= |u|
      decreases |u| - n
    {
      n := n + 1;
    }
    r := buf[..n];
    assert buf[..n] == buf[..][..n];
  }

  /** `ok` is false when a bracket or back-quote is not closed. */
  method NshArgExpand(w: World, cmdline: string) returns (ok: bool, argument: string, queries: seq<Query>)
    requires NUL !in cmdline && Terminated(w)
    ensures argument == ArgExpand(w, cmdline)
    ensures queries == Queries(cmdline)
    ensures ok == Raw(w, [], cmdline).Some?
  {
    hide NextRef, Unescape;
    var working, sofar := cmdline, "";
    queries := [];
    AfterNothing(Raw(w, [], working));
    while true
      invariant NUL !in sofar && NUL !in working
      invariant Queries(cmdline) == queries + Queries(working)
      invariant Raw(w, [], cmdline) == After(sofar, Raw(w, queries, working))
      decreases |working|
    {
      var ref := FindRef(working);
      match ref
      case NoRef =>
        argument := Dequoted(sofar + working);
        return true, argument, queries;
      case BadRef =>
        return false, "", queries;
      case Ref(before, query, after) =>
        RefParts(working);
        var value := w(queries, query);
        AfterTwice(sofar, before + value, Raw(w, queries + [query], after));
        sofar := sofar + (before + value);
        queries := queries + [query];
        working := after;
    }
  }

  // ----- What expansion means -----

  // An argument: literals with references between them, the last of which may be unbraced.
  datatype Arg =
    | Tail(lit: string)
    | Part(lit: string, query: Query, rest: Arg)
    | Bare(lit: string, name: string)

  // A braced name or a back-quoted command.
  function Written(query: Query): string {
    match query
    case Lookup(name) => "${" + name + "}"
    case Run(cmd) => "`" + cmd + "`"
  }

  function Render(a: Arg): string {
    match a
    case Tail(lit) => lit
    case Part(lit, query, rest) => lit + Written(query) + Render(rest)
    case Bare(lit, name) => lit + "$" + name
  }

  // No unescaped `close` in the text, and none right after it that is escaped.
  ghost predicate Enclosed(t: string, close: char) {
    !Escaped(t, |t|) && forall i :: 0 <= i < |t| ==> !Hit(t, close, i)
  }

  ghost predicate ProperQuery(query: Query) {
    match query
    case Lookup(name) => Enclosed(name, '}')
    case Run(cmd) => Enclosed(cmd, '`')
  }

  // Literals hold no unescaped separator and do not escape the one after them; names and
  // commands do not hold what closes them; an unbraced name does not start with a brace.
  ghost predicate ProperArg(a: Arg) {
    && Quiet(a.lit)
    && match a
       case Tail(_) => true
       case Part(lit, query, rest) => !Escaped(lit, |lit|) && ProperQuery(query) && ProperArg(rest)
       case Bare(lit, name) => !Escaped(lit, |lit|) && (name == "" || name[0] != '{')
  }

  ghost predicate Quiet(s: string) {
    forall i :: 0 <= i < |s| && Separator(s[i]) ==> Escaped(s, i)
  }

  function Names(a: Arg): seq<Query> {
    match a
    case Tail(_) => []
    case Part(_, query, rest) => [query] + Names(rest)
    case Bare(_, name) => [Lookup(name)]
  }

  // Literal and value segments in order.
  function Segments(w: World, past: seq<Query>, a: Arg): string
    decreases a
  {
    match a
    case Tail(lit) => lit
    case Part(lit, query, rest) => lit + w(past, query) + Segments(w, past + [query], rest)
    case Bare(lit, name) => lit + w(past, Lookup(name))
  }

  // Literals unescaped one by one, values as they are.
  function Interleaved(w: World, past: seq<Query>, a: Arg): string
    decreases a
  {
    match a
    case Tail(lit) => Unescape(lit)
    case Part(lit, query, rest) => Unescape(lit) + w(past, query) + Interleaved(w, past + [query], rest)
    case Bare(lit, name) => Unescape(lit) + w(past, Lookup(name))
  }

  lemma QuietEnd(s: string, i: nat)
    requires Quiet(s) && i <= |s|
    ensures FirstSep(s, i) == |s|
    decreases |s| - i
  {
    if i == |s| {
    } else {
      QuietEnd(s, i + 1);
    }
  }

  // The first reference of a rendered argument is its first part.
  lemma NextRefOfPart(lit: string, query: Query, tail: string)
    requires Quiet(lit) && !Escaped(lit, |lit|) && ProperQuery(query)
    ensures NextRef(lit + Written(query) + tail) == Ref(lit, query, tail)
  {
    match query
    case Lookup(name) => NextRefOfName(lit, name, tail);
    case Run(cmd) => NextRefOfCommand(lit, cmd, tail);
  }

  // A text cut at what opens a reference and at what closes it.
  lemma Cut(lit: string, open: string, t: string, close: string, tail: string)
    ensures var s, u := lit + (open + t + close) + tail, t + close + tail;
            && s == lit + (open + u) && s[..|lit|] == lit && s[|lit| + |open|..] == u
            && u[..|t|] == t && u[|t| + |close|..] == tail
  {
    var u := t + close + tail;
    assert lit + (open + t + close) + tail == lit + (open + u);
    assert (lit + (open + u))[|lit| + |open|..] == u;
  }

  lemma NextRefOfName(lit: string, name: string, tail: string)
    requires Quiet(lit) && !Escaped(lit, |lit|) && Enclosed(name, '}')
    ensures NextRef(lit + ("${" + name + "}") + tail) == Ref(lit, Lookup(name), tail)
  {
    hide Escaped, Quiet, StrChr, FirstSep, Hit, Enclosed;
    Cut(lit, "${", name, "}", tail);
    SepAfter(lit, "${" + (name + "}" + tail));
    CloseAfter(name, '}', tail);
  }

  lemma NextRefOfCommand(lit: string, cmd: string, tail: string)
    requires Quiet(lit) && !Escaped(lit, |lit|) && Enclosed(cmd, '`')
    ensures NextRef(lit + ("`" + cmd + "`") + tail) == Ref(lit, Run(cmd), tail)
  {
    hide Escaped, Quiet, StrChr, FirstSep, Hit, Enclosed;
    Cut(lit, "`", cmd, "`", tail);
    SepAfter(lit, "`" + (cmd + "`" + tail));
    CloseAfter(cmd, '`', tail);
  }

  lemma NextRefOfBare(lit: string, name: string)
    requires Quiet(lit) && !Escaped(lit, |lit|) && (name == "" || name[0] != '{')
    ensures NextRef(lit + "$" + name) == Ref(lit, Lookup(name), "")
  {
    hide Escaped, Quiet, StrChr, FirstSep;
    var s := lit + "$" + name;
    assert s == lit + ("$" + name);
    SepAfter(lit, "$" + name);
    assert s[|lit| + 1..] == name && s[..|lit|] == lit;
  }

  lemma SepAfter(lit: string, tail: string)
    requires Quiet(lit) && !Escaped(lit, |lit|) && tail != "" && Separator(tail[0])
    ensures FirstSep(lit + tail, 0) == |lit|
  {
    var s, k := lit + tail, |lit|;
    forall j | 0 <= j < k ensures !Separator(s[j]) || Escaped(s, j) {
      EscapedPrefix(s, lit, j);
    }
    EscapedPrefix(s, lit, k);
    SkipTo(s, 0, k);
  }

  lemma CloseAfter(t: string, close: char, tail: string)
    requires Enclosed(t, close) && close != '\\'
    ensures StrChr(t + [close] + tail, close) == Some(|t|)
  {
    var u, n := t + [close] + tail, |t|;
    assert Hit(u, close, n) by {
      EscapedPrefix(u, t, n);
    }
    forall j | 0 <= j < n ensures !Hit(u, close, j) {
      EscapedPrefix(u, t, j);
      assert !Hit(t, close, j);
    }
    StrChrFinds(u, close);
  }

  lemma {:induction false} RawMeaning(w: World, past: seq<Query>, a: Arg)
    requires ProperArg(a)
    ensures Raw(w, past, Render(a)) == Some(Segments(w, past, a)) && Queries(Render(a)) == Names(a)
    decreases a
  {
    hide NextRef, Written;
    match a
    case Tail(lit) =>
      NoRefIn(lit);
    case Part(lit, query, rest) =>
      NextRefOfPart(lit, query, Render(rest));
      RawMeaning(w, past + [query], rest);
    case Bare(lit, name) =>
      NextRefOfBare(lit, name);
      NoRefIn("");
      var v := w(past, Lookup(name));
      assert lit + v + "" == lit + v;
      assert Raw(w, past + [Lookup(name)], "") == Some("");
  }

  lemma NoRefIn(lit: string)
    requires Quiet(lit)
    ensures NextRef(lit) == NoRef
  {
    QuietEnd(lit, 0);
  }

  /**
    Expansion returns the unescaped concatenation of literals and values, and looks
    up exactly the names that are referred to, in order.
  */
  lemma ExpansionMeaning(w: World, a: Arg)
    requires ProperArg(a)
    ensures ArgExpand(w, Render(a)) == Unescape(Segments(w, [], a)) && Raw(w, [], Render(a)).Some?
    ensures Queries(Render(a)) == Names(a)
  {
    RawMeaning(w, [], a);
  }

  // ----- Which texts expand -----

  /** A text that expands is an argument like that. */
  lemma {:induction false} ArgOf(w: World, past: seq<Query>, s: string) returns (a: Arg)
    requires Raw(w, past, s).Some?
    ensures ProperArg(a) && Render(a) == s
    decreases |s|
  {
    hide Escaped, Hit, StrChr;
    match NextRef(s)
    case NoRef =>
      a := Tail(s);
    case Ref(before, query, after) =>
      RefShape(s);
      if s == before + Written(query) + after && ProperQuery(query) {
        var rest := ArgOf(w, past + [query], after);
        a := Part(before, query, rest);
      } else {
        a := Bare(before, query.name);
      }
  }

  // What stands at the first reference.
  lemma RefShape(s: string)
    requires NextRef(s).Ref?
    ensures var Ref(before, query, after) := NextRef(s);
            && Quiet(before) && !Escaped(before, |before|)
            && ((s == before + Written(query) + after && ProperQuery(query))
                || (query.Lookup? && s == before + "$" + query.name && (query.name == "" || query.name[0] != '{')))
  {
    hide StrChr, Escaped, Hit, Quiet, FirstSep, Enclosed;
    var k := FirstSep(s, 0);
    QuietBefore(s, k);
    if s[k] == '`' {
      EnclosedBy(s[k + 1..], '`');
      Joined(s, k, "`", StrChr(s[k + 1..], '`').value, "`");
    } else if k + 1 < |s| && s[k + 1] == '{' {
      EnclosedBy(s[k + 2..], '}');
      Joined(s, k, "${", StrChr(s[k + 2..], '}').value, "}");
    } else {
      assert s == s[..k] + "$" + s[k + 1..];
    }
  }

  lemma Joined(s: string, k: nat, open: string, j: nat, close: string)
    requires k + |open| <= |s| && s[k..k + |open|] == open
    requires var t := s[k + |open|..]; j + |close| <= |t| && t == t[..j] + close + t[j + |close|..]
    ensures var t := s[k + |open|..]; s == s[..k] + (open + t[..j] + close) + t[j + |close|..]
  {
    var t := s[k + |open|..];
    assert s == s[..k] + s[k..k + |open|] + t;
    assert open + (t[..j] + close + t[j + |close|..]) == (open + t[..j] + close) + t[j + |close|..];
  }

  lemma QuietBefore(s: string, k: nat)
    requires k <= |s| && !Escaped(s, k) && forall j :: 0 <= j < k ==> !(Separator(s[j]) && !Escaped(s, j))
    ensures Quiet(s[..k]) && !Escaped(s[..k], k)
  {
    forall j | 0 <= j <= k ensures Escaped(s[..k], j) == Escaped(s, j) {
      EscapedPrefix(s, s[..k], j);
    }
  }

  lemma EnclosedBy(t: string, close: char)
    requires StrChr(t, close).Some? && close != '\\'
    ensures var j := StrChr(t, close).value;
            j < |t| && Enclosed(t[..j], close) && t == t[..j] + [close] + t[j + 1..]
  {
    StrChrFinds(t, close);
    var j := StrChr(t, close).value;
    forall i | 0 <= i <= j ensures Escaped(t[..j], i) == Escaped(t, i) {
      EscapedPrefix(t, t[..j], i);
    }
    forall i | 0 <= i < j ensures !Hit(t[..j], close, i) {
      assert !Hit(t, close, i);
    }
  }

  /** A text expands if and only if it is made of literals and references that are closed. */
  lemma ExpandsIff(w: World, s: string)
    ensures Raw(w, [], s).Some? <==> exists a: Arg :: ProperArg(a) && Render(a) == s
  {
    hide ProperArg, Render;
    if Raw(w, [], s).Some? {
      var a := ArgOf(w, [], s);
    }
    if a: Arg :| ProperArg(a) && Render(a) == s {
      RawMeaning(w, [], a);
    }
  }

  predicate PlainLiterals(a: Arg) {
    '\\' !in a.lit && (a.Part? ==> PlainLiterals(a.rest))
  }

  predicate PlainValues(w: World, past: seq<Query>, a: Arg)
    decreases a
  {
    match a
    case Tail(_) => true
    case Part(_, query, rest) => '\\' !in w(past, query) && PlainValues(w, past + [query], rest)
    case Bare(_, name) => '\\' !in w(past, Lookup(name))
  }

  /** Values without a back-slash appear verbatim, and each literal is unescaped on its own. */
  lemma ValuesVerbatim(w: World, a: Arg)
    requires ProperArg(a) && PlainValues(w, [], a)
    ensures ArgExpand(w, Render(a)) == Interleaved(w, [], a)
  {
    ExpansionMeaning(w, a);
    SegmentsUnescaped(w, [], a);
  }

  /**
    Between literals without back-slashes the values come out verbatim exactly if they hold
    no back-slash either.
  */
  lemma ValuesVerbatimExact(w: World, a: Arg)
    requires ProperArg(a) && PlainLiterals(a)
    ensures ArgExpand(w, Render(a)) == Interleaved(w, [], a) <==> PlainValues(w, [], a)
  {
    hide ArgExpand;
    ExpansionMeaning(w, a);
    PlainSegments(w, [], a);
    UnescapeIdentity(Segments(w, [], a));
  }

  lemma {:induction false} PlainSegments(w: World, past: seq<Query>, a: Arg)
    requires PlainLiterals(a)
    ensures Interleaved(w, past, a) == Segments(w, past, a)
    ensures '\\' !in Segments(w, past, a) <==> PlainValues(w, past, a)
    decreases a
  {
    UnescapeIdentity(a.lit);
    match a
    case Part(_, query, rest) => PlainSegments(w, past + [query], rest);
    case _ =>
  }

  lemma {:induction false} SegmentsUnescaped(w: World, past: seq<Query>, a: Arg)
    requires ProperArg(a) && PlainValues(w, past, a)
    ensures Unescape(Segments(w, past, a)) == Interleaved(w, past, a)
    decreases a
  {
    match a
    case Tail(_) =>
    case Part(lit, query, rest) =>
      var v, tail := w(past, query), Segments(w, past + [query], rest);
      UnescapeIdentity(v);
      UnescapeConcat(v, tail);
      UnescapeConcat(lit, v + tail);
      assert lit + v + tail == lit + (v + tail);
      SegmentsUnescaped(w, past + [query], rest);
    case Bare(lit, name) =>
      UnescapeIdentity(w(past, Lookup(name)));
      UnescapeConcat(lit, w(past, Lookup(name)));
  }

  // ----- Escaping -----

  // A back-slash before every back-slash, `$` and back-quote.
  function Escape(s: string): string {
    if s == "" then ""
    else (if s[0] == '\\' || Separator(s[0]) then ['\\', s[0]] else [s[0]]) + Escape(s[1..])
  }

  lemma EscapeOne(c: char)
    ensures var head := if c == '\\' || Separator(c) then ['\\', c] else [c];
            !Escaped(head, |head|) && Unescape(head) == [c]
  {
    assert [c][1..] == "" && UnescapeFrom("", false) == "";
    assert !Escaped([c], 0);
    if c == '\\' || Separator(c) {
      var head := ['\\', c];
      assert head[1..] == [c];
      assert !Escaped(head, 0);
      assert Escaped(head, 1);
      assert UnescapeFrom([c], true) == [c];
    }
  }

  lemma {:induction false} EscapeIsQuiet(s: string)
    ensures Quiet(Escape(s)) && Unescape(Escape(s)) == s
  {
    if s == "" {
    } else {
      var head := if s[0] == '\\' || Separator(s[0]) then ['\\', s[0]] else [s[0]];
      var tail := Escape(s[1..]);
      EscapeIsQuiet(s[1..]);
      EscapeOne(s[0]);
      UnescapeConcat(head, tail);
      forall i | 0 <= i < |head + tail| && Separator((head + tail)[i]) ensures Escaped(head + tail, i) {
        if i < |head| {
          EscapedPrefix(head + tail, head, i);
        } else {
          EscapedSuffix(head, tail, i - |head|);
        }
      }
    }
  }

  /** Escaped text comes through expansion as it was, and nothing is looked up or run. */
  lemma EscapeRoundTrip(w: World, s: string)
    ensures ArgExpand(w, Escape(s)) == s
    ensures Queries(Escape(s)) == []
  {
    EscapeIsQuiet(s);
    NoRefIn(Escape(s));
  }
}
