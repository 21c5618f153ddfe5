/**
  Back-slash escapes and `$`-expansion of a command argument (the configuration with
  quoting, concatenation, variables and back-quoted commands).  The source finds out
  in three ways whether a character is escaped: a flag carried forward, a count of
  back-slashes taken backward, and deletion in place.
*/
module NshEscape {
  import opened CLang
  import opened NshOption

  // ----- Three scanners -----

  // The flag carried forward, on arrival at position `i`.
  predicate Escaped(s: string, i: nat)
    requires i <= |s|
  {
    i > 0 && s[i - 1] == '\\' && !Escaped(s, i - 1)
  }

  // The number of back-slashes immediately before position `i`.
  function Backslashes(s: string, i: nat): nat
    requires i <= |s|
  {
    if i > 0 && s[i - 1] == '\\' then 1 + Backslashes(s, i - 1) else 0
  }

  /** The backward parity count finds the same positions escaped as the forward flag. */
  lemma {:induction false} ParityIsFlag(s: string, i: nat)
    requires i <= |s|
    ensures Escaped(s, i) <==> Backslashes(s, i) % 2 == 1
  {
    if i == 0 {
    } else {
      ParityIsFlag(s, i - 1);
    }
  }

  // Only the text before a position matters.
  lemma {:induction false} EscapedPrefix(s: string, t: string, i: nat)
    requires i <= |s| && i <= |t| && s[..i] == t[..i]
    ensures Escaped(s, i) == Escaped(t, i)
  {
    if i == 0 {
    } else {
      assert s[..i - 1] == s[..i][..i - 1] && t[..i - 1] == t[..i][..i - 1];
      assert s[i - 1] == s[..i][i - 1] && t[i - 1] == t[..i][i - 1];
      EscapedPrefix(s, t, i - 1);
    }
  }

  // The scan starts afresh at an unescaped position.
  lemma {:induction false} EscapedSuffix(a: string, b: string, i: nat)
    requires i <= |b| && !Escaped(a, |a|)
    ensures Escaped(a + b, |a| + i) == Escaped(b, i)
  {
    if i == 0 {
      EscapedPrefix(a + b, a, |a|);
    } else {
      EscapedSuffix(a, b, i - 1);
    }
  }

  // `quoted` is the flag on arrival at the first character.
  function UnescapeFrom(s: string, quoted: bool): string {
    if s == "" then ""
    else if s[0] == '\\' && !quoted then UnescapeFrom(s[1..], true)
    else [s[0]] + UnescapeFrom(s[1..], false)
  }

  function Unescape(s: string): string {
    UnescapeFrom(s, false)
  }

  // The characters before `n` that are not unescaped back-slashes.
  function Kept(s: string, n: nat): string
    requires n <= |s|
  {
    if n == 0 then ""
    else Kept(s, n - 1) + (if s[n - 1] == '\\' && !Escaped(s, n - 1) then "" else [s[n - 1]])
  }

  lemma {:induction false} UnescapeResumes(s: string, n: nat)
    requires n <= |s|
    ensures Unescape(s) == Kept(s, n) + UnescapeFrom(s[n..], Escaped(s, n))
  {
    if n == 0 {
      assert s[0..] == s;
    } else {
      UnescapeResumes(s, n - 1);
      assert s[n - 1..][1..] == s[n..];
    }
  }

  /** Deletion removes exactly the back-slashes that the forward flag finds unescaped. */
  lemma UnescapeIsKept(s: string)
    ensures Unescape(s) == Kept(s, |s|)
  {
    UnescapeResumes(s, |s|);
  }

  /** Unescaping distributes over every boundary that no escape crosses. */
  lemma UnescapeConcat(a: string, b: string)
    requires !Escaped(a, |a|)
    ensures Unescape(a + b) == Unescape(a) + Unescape(b)
  {
    UnescapeResumes(a + b, |a|);
    EscapedPrefix(a + b, a, |a|);
    assert (a + b)[|a|..] == b;
    KeptPrefix(a, b, |a|);
    UnescapeIsKept(a);
  }

  lemma {:induction false} KeptPrefix(a: string, b: string, n: nat)
    requires n <= |a|
    ensures Kept(a + b, n) == Kept(a, n)
  {
    if n == 0 {
    } else {
      KeptPrefix(a, b, n - 1);
      EscapedPrefix(a + b, a, n - 1);
    }
  }

  /** Exactly the texts without a back-slash are their own unescaped form. */
  lemma UnescapeIdentity(s: string)
    ensures Unescape(s) == s <==> '\\' !in s
  {
    UnescapeShrinks(s, false);
  }

  lemma {:induction false} UnescapeShrinks(s: string, quoted: bool)
    ensures |UnescapeFrom(s, quoted)| <= |s|
    ensures '\\' !in s ==> UnescapeFrom(s, quoted) == s
    ensures '\\' in s && !quoted ==> |UnescapeFrom(s, quoted)| < |s|
    decreases s
  {
    if s == "" {
    } else {
      assert s == [s[0]] + s[1..];
      UnescapeShrinks(s[1..], s[0] == '\\' && !quoted);
    }
  }

  // ----- nsh_strchr -----

  function StrChrFrom(s: string, i: nat, quoted: bool, ch: char): Option<nat>
    requires i <= |s|
    decreases |s| - i
  {
    if i == |s| then None
    else if s[i] == '\\' && !quoted then StrChrFrom(s, i + 1, true, ch)
    else if s[i] == ch && !quoted then Some(i)
    else StrChrFrom(s, i + 1, false, ch)
  }

  function StrChr(s: string, ch: char): Option<nat> {
    StrChrFrom(s, 0, false, ch)
  }

  // `i` is an unescaped occurrence of `ch`.
  predicate Hit(s: string, ch: char, i: nat)
    requires i < |s|
  {
    s[i] == ch && !Escaped(s, i)
  }

  lemma {:induction false} StrChrFromFinds(s: string, i: nat, ch: char)
    requires i <= |s| && ch != '\\'
    ensures match StrChrFrom(s, i, Escaped(s, i), ch)
            case Some(j) => i <= j < |s| && Hit(s, ch, j) && forall k :: i <= k < j ==> !Hit(s, ch, k)
            case None => forall k :: i <= k < |s| ==> !Hit(s, ch, k)
    decreases |s| - i
  {
    if i == |s| {
    } else {
      StrChrFromFinds(s, i + 1, ch);
    }
  }

  /** `nsh_strchr` finds the first unescaped occurrence, if there is one. */
  lemma StrChrFinds(s: string, ch: char)
    requires ch != '\\'
    ensures match StrChr(s, ch)
            case Some(j) => j < |s| && Hit(s, ch, j) && forall k :: 0 <= k < j ==> !Hit(s, ch, k)
            case None => forall k :: 0 <= k < |s| ==> !Hit(s, ch, k)
  {
    StrChrFromFinds(s, 0, ch);
  }

  method NshStrChr(s: string, ch: char) returns (r: Option<nat>)
    ensures r == StrChr(s, ch)
  {
    var i, quoted := 0, false;
    while i < |s|
      invariant i <= |s|
      invariant StrChrFrom(s, i, quoted, ch) == StrChr(s, ch)
    {
      if s[i] == '\\' && !quoted {
        quoted := true;
      } else if s[i] == ch && !quoted {
        return Some(i);
      } else {
        quoted := false;
      }
      i := i + 1;
    }
    return None;
  }

  // ----- nsh_dequote: deletion in place -----

  // `buf` starts with the NUL-terminated string `s`.
  ghost predicate Holds(buf: seq<char>, s: string) {
    |s| < |buf| && buf[..|s|] == s && buf[|s|] == NUL && NUL !in s
  }

  // Moves the text after `at`, with its terminator, one place down.
  method ShiftDown(a: array<char>, at: nat, ghost s: string)
    requires Holds(a[..], s) && at < |s|
    modifies a
    ensures Holds(a[..], s[..at] + s[at + 1..])
    ensures forall i :: |s| < i < a.Length ==> a[i] == old(a[i])
  {
    var dest, src := at, at + 1;
    var ch := a[src];
    a[dest] := ch;
    while ch != NUL
      invariant at <= dest < |s| && src == dest + 1
      invariant forall i :: 0 <= i < at ==> a[i] == s[i]
      invariant forall i :: at <= i < dest ==> a[i] == s[i + 1]
      invariant a[dest] == ch && a[|s|] == NUL
      invariant ch == if dest + 1 == |s| then NUL else s[dest + 1]
      invariant forall i :: dest < i < |s| ==> a[i] == s[i]
      invariant forall i :: |s| < i < a.Length ==> a[i] == old(a[i])
      decreases |s| - dest
    {
      src := src + 1;
      dest := dest + 1;
      ch := a[src];
      a[dest] := ch;
    }
    ghost var t := s[..at] + s[at + 1..];
    assert forall i :: 0 <= i < |t| ==> a[i] == t[i];
    assert a[..][..|t|] == t;
  }

  /** Works in place on the text that `a` holds, and leaves the rest of `a` alone. */
  method Dequote(a: array<char>, ghost s: string)
    requires Holds(a[..], s)
    modifies a
    ensures Holds(a[..], Unescape(s))
    ensures forall i :: |s| < i < a.Length ==> a[i] == old(a[i])
  {
    var ptr, quoted := 0, false;
    ghost var t := s;
    while a[ptr] != NUL
      invariant Holds(a[..], t) && ptr <= |t| <= |s|
      invariant t[..ptr] + UnescapeFrom(t[ptr..], quoted) == Unescape(s)
      invariant forall i :: |s| < i < a.Length ==> a[i] == old(a[i])
      decreases |t| - ptr
    {
      assert a[ptr] == a[..][ptr];
      assert ptr < |t| && a[ptr] == t[ptr];
      if a[ptr] == '\\' && !quoted {
        ghost var u := t[..ptr] + t[ptr + 1..];
        assert t[ptr..][1..] == t[ptr + 1..] == u[ptr..];
        assert u[..ptr] == t[..ptr];
        ShiftDown(a, ptr, t);
        t := u;
        quoted := true;
      } else {
        assert t[ptr..][1..] == t[ptr + 1..];
        assert t[..ptr + 1] == t[..ptr] + [t[ptr]];
        quoted := false;
        ptr := ptr + 1;
      }
    }
    assert a[ptr] == a[..][ptr];
    assert ptr == |t|;
    a[ptr] := NUL;
    assert t[..ptr] == t && t == Unescape(s);
    assert a[..][..|t|] == t;
  }
}
