/**
  The shell variables: one flat buffer of `name=value` strings, each ended by NUL,
  searched from the front, compacted in place and extended at the end.
*/
module NshVars {
  import opened CLang
  import opened NshOption

  // A record of the buffer, split at its first `=`.
  datatype Rec = Rec(name: string, value: string)

  predicate ProperRec(r: Rec) {
    '=' !in r.name && NUL !in r.name && NUL !in r.value
  }

  ghost predicate Proper(rs: seq<Rec>) {
    forall i :: 0 <= i < |rs| ==> ProperRec(rs[i])
  }

  function Text(r: Rec): string {
    r.name + "=" + r.value
  }

  // The contents of the buffer.
  function Ser(rs: seq<Rec>): string {
    if rs == [] then "" else Text(rs[0]) + [NUL] + Ser(rs[1..])
  }

  // Where record `k` starts.
  function Offset(rs: seq<Rec>, k: nat): nat
    requires k <= |rs|
  {
    |Ser(rs[..k])|
  }

  lemma {:induction false} SerConcat(a: seq<Rec>, b: seq<Rec>)
    ensures Ser(a + b) == Ser(a) + Ser(b)
  {
    if a == [] {
      assert a + b == b;
    } else {
      assert (a + b)[1..] == a[1..] + b;
      SerConcat(a[1..], b);
    }
  }

  lemma SerSplit(rs: seq<Rec>, k: nat)
    requires k < |rs|
    ensures Ser(rs) == Ser(rs[..k]) + (Text(rs[k]) + [NUL]) + Ser(rs[k + 1..])
    ensures Offset(rs, k + 1) == Offset(rs, k) + |Text(rs[k])| + 1
  {
    assert rs == rs[..k] + rs[k..] && rs[k..][1..] == rs[k + 1..];
    SerConcat(rs[..k], rs[k..]);
    assert rs[..k + 1] == rs[..k] + [rs[k]];
    SerConcat(rs[..k], [rs[k]]);
    assert Ser([rs[k]]) == Text(rs[k]) + [NUL] + Ser([]) by { assert [rs[k]][1..] == []; }
  }

  // The first occurrence of a character is at one place only.
  lemma FirstUnique(u: string, c: char, n: nat, m: nat)
    requires n < |u| && m < |u| && u[n] == c && u[m] == c && c !in u[..n] && c !in u[..m]
    ensures n == m
  {
    forall i | 0 <= i < n ensures u[i] != c {
      assert u[i] == u[..n][i];
    }
    forall i | 0 <= i < m ensures u[i] != c {
      assert u[i] == u[..m][i];
    }
  }

  lemma SerEnds(rs: seq<Rec>)
    ensures Offset(rs, 0) == 0 && (Ser(rs) == "" ==> rs == [])
  {
  }

  /** The buffer determines its records. */
  lemma {:induction false} SerInjective(a: seq<Rec>, b: seq<Rec>)
    requires Proper(a) && Proper(b) && Ser(a) == Ser(b)
    ensures a == b
  {
    if a == [] || b == [] {
    } else {
      var s, t := Text(a[0]), Text(b[0]);
      var u := Ser(a);
      assert u[|s|] == NUL && u[|t|] == NUL && u[..|s|] == s && u[..|t|] == t;
      FirstUnique(u, NUL, |s|, |t|);
      SameText(a[0], b[0]);
      assert Ser(a[1..]) == u[|s| + 1..] == Ser(b[1..]);
      assert Proper(a[1..]) && Proper(b[1..]);
      SerInjective(a[1..], b[1..]);
    }
  }

  lemma SameText(r: Rec, q: Rec)
    requires ProperRec(r) && ProperRec(q) && Text(r) == Text(q)
    ensures r == q
  {
    assert Text(r)[..|r.name|] == r.name && Text(q)[..|q.name|] == q.name;
    FirstUnique(Text(r), '=', |r.name|, |q.name|);
    assert r.value == Text(r)[|r.name| + 1..] && q.value == Text(q)[|q.name| + 1..];
  }

  // ----- Search -----

  // What nsh_cmpname accepts: a record that begins with `name=`.
  predicate Match(r: Rec, name: string) {
    name + "=" <= Text(r)
  }

  /** For a name without `=`, that is the record of this very name. */
  lemma MatchIsName(r: Rec, name: string)
    requires ProperRec(r) && '=' !in name
    ensures Match(r, name) <==> r.name == name
  {
    assert Text(r)[..|r.name|] == r.name;
    if Match(r, name) {
      assert Text(r)[|name|] == (name + "=")[|name|];
      assert Text(r)[..|name|] == (name + "=")[..|name|] == name;
      FirstUnique(Text(r), '=', |name|, |r.name|);
    }
    if r.name == name {
      assert Text(r)[..|name| + 1] == name + "=";
    }
  }

  // The first record that matches, or the number of records.
  function IndexOf(rs: seq<Rec>, name: string): (k: nat)
    ensures k <= |rs|
    ensures k < |rs| ==> Match(rs[k], name)
    ensures forall i :: 0 <= i < k ==> !Match(rs[i], name)
  {
    if rs == [] || Match(rs[0], name) then 0 else 1 + IndexOf(rs[1..], name)
  }

  function Without(rs: seq<Rec>, k: nat): seq<Rec> {
    if k < |rs| then rs[..k] + rs[k + 1..] else rs
  }

  lemma SerWithout(rs: seq<Rec>, k: nat)
    requires Proper(rs) && k < |rs|
    ensures var buf, at, len := Ser(rs), Offset(rs, k), |Text(rs[k])| + 1;
            at + len <= |buf| && Ser(Without(rs, k)) == buf[..at] + buf[at + len..]
    ensures Proper(Without(rs, k))
  {
    hide Ser, Text, ProperRec;
    SerSplit(rs, k);
    SerConcat(rs[..k], rs[k + 1..]);
    var head, tail := Ser(rs[..k]), Ser(rs[k + 1..]);
    assert Ser(rs)[..|head|] == head && Ser(rs)[|head| + |Text(rs[k])| + 1..] == tail;
  }

  // The record that `name=value` is read as.
  function RecOf(name: string, value: string): Rec {
    if name == "" then Rec("", value)
    else if name[0] == '=' then Rec("", name[1..] + "=" + value)
    else var r := RecOf(name[1..], value); Rec([name[0]] + r.name, r.value)
  }

  lemma {:induction false} RecOfText(name: string, value: string)
    requires NUL !in name && NUL !in value
    ensures ProperRec(RecOf(name, value)) && Text(RecOf(name, value)) == name + "=" + value
    ensures '=' !in name ==> RecOf(name, value) == Rec(name, value)
  {
    if name == "" {
    } else {
      assert name == [name[0]] + name[1..];
      if name[0] != '=' {
        RecOfText(name[1..], value);
        assert Text(RecOf(name, value)) == [name[0]] + Text(RecOf(name[1..], value));
      } else {
        assert Text(RecOf(name, value)) == "=" + (name[1..] + "=" + value);
      }
    }
  }

  // ----- Specification of the operations on the records -----

  function Get(rs: seq<Rec>, name: string): Option<string> {
    var k := IndexOf(rs, name);
    if k < |rs| then Some(rs[k].value) else None
  }

  function Unset(rs: seq<Rec>, name: string): seq<Rec> {
    Without(rs, IndexOf(rs, name))
  }

  // If memory runs out the old record is lost all the same.
  function Set(rs: seq<Rec>, name: string, value: string, enough: bool): seq<Rec> {
    Unset(rs, name) + if enough then [RecOf(name, value)] else []
  }

  // ----- The buffer -----

  // What the C code needs of a name: no NUL, and no record that it equals as a whole,
  // for the comparison would run past the ends of both.
  ghost predicate Searchable(rs: seq<Rec>, name: string) {
    NUL !in name && forall i :: 0 <= i < |rs| ==> Text(rs[i]) != name
  }

  lemma PlainNamesSearchable(rs: seq<Rec>, name: string)
    requires NUL !in name && '=' !in name
    ensures Searchable(rs, name)
  {
    forall i | 0 <= i < |rs| ensures Text(rs[i]) != name {
      assert Text(rs[i])[|rs[i].name|] == '=';
    }
  }

  // Where the comparison of two stretches of memory stops: where they first differ, or where
  // one ends.
  function Stop(a: string, b: string, i: nat): nat
    requires i <= |a| && i <= |b|
    decreases |a| - i
  {
    if i < |a| && i < |b| && a[i] == b[i] then Stop(a, b, i + 1) else i
  }

  lemma {:induction false} StopsAt(a: string, b: string, i: nat, k: nat)
    requires i <= k <= |a| && k <= |b| && a[..i] == b[..i]
    ensures Stop(a, b, i) >= k <==> a[..k] == b[..k]
    decreases k - i
  {
    if i == k {
      StopGrows(a, b, i);
    } else if a[i] == b[i] {
      assert a[..i + 1] == a[..i] + [a[i]] && b[..i + 1] == b[..i] + [b[i]];
      StopsAt(a, b, i + 1, k);
    } else {
      assert a[..k][i] != b[..k][i];
    }
  }

  lemma {:induction false} StopGrows(a: string, b: string, i: nat)
    requires i <= |a| && i <= |b|
    ensures Stop(a, b, i) >= i
    decreases |a| - i
  {
    if i < |a| && i < |b| && a[i] == b[i] {
      StopGrows(a, b, i + 1);
    } else {
      assert Stop(a, b, i) == i;
    }
  }

  /**
    The comparison of a name with a record, and with whatever `rest` comes after it in memory,
    runs past the end of the name if and only if the name is the whole text of the record.
  */
  lemma RunsPastIff(name: string, r: Rec, rest: string)
    requires NUL !in name && ProperRec(r)
    ensures Stop(name + [NUL], Text(r) + [NUL] + rest, 0) > |name| <==> Text(r) == name
  {
    var a, b, t, n := name + [NUL], Text(r) + [NUL] + rest, Text(r), |name| + 1;
    if |b| < n {
      StopBound(a, b, 0);
    } else {
      StopsAt(a, b, 0, n);
      if |t| < |name| {
        assert name[|t|] in name;
        assert a[..n][|t|] == name[|t|] != NUL == b[..n][|t|];
      } else if |t| > |name| {
        assert t[|name|] in t;
        assert a[..n][|name|] == NUL != t[|name|] == b[..n][|name|];
      } else {
        assert a[..n][..|name|] == name && b[..n][..|name|] == t;
        assert a[..n] == name + [NUL] && b[..n] == t + [NUL];
      }
    }
  }

  lemma {:induction false} StopBound(a: string, b: string, i: nat)
    requires i <= |a| && i <= |b|
    ensures Stop(a, b, i) <= |b|
    decreases |a| - i
  {
    if i < |a| && i < |b| && a[i] == b[i] {
      StopBound(a, b, i + 1);
    } else {
      assert Stop(a, b, i) == i;
    }
  }

  // Short of the end of the buffer there is another record.
  lemma MoreRecords(rs: seq<Rec>, k: nat)
    requires k <= |rs| && Offset(rs, k) < |Ser(rs)|
    ensures k < |rs|
  {
    assert rs[..|rs|] == rs;
  }

  // Moves `count` bytes from `from` down to `to`.
  method MoveDown(a: array<char>, from: nat, to: nat, count: nat)
    requires to <= from && from + count <= a.Length
    modifies a
    ensures forall i :: to <= i < to + count ==> a[i] == old(a[i + (from - to)])
    ensures forall i :: 0 <= i < to ==> a[i] == old(a[i])
  {
    var dest, src, left := to, from, count;
    while left > 0
      invariant 0 <= left <= count && dest == to + (count - left) && src == from + (count - left)
      invariant forall i :: to <= i < dest ==> a[i] == old(a[i + (from - to)])
      invariant forall i :: 0 <= i < to ==> a[i] == old(a[i])
      invariant forall i :: src <= i < a.Length ==> a[i] == old(a[i])
    {
      a[dest] := a[src];
      dest, src := dest + 1, src + 1;
      left := left - 1;
    }
  }

  // snprintf of `text` at the end of a buffer.
  method Put(a: array<char>, at: nat, text: string)
    requires at + |text| == a.Length
    modifies a
    ensures a[..] == old(a[..at]) + text
  {
    for i := 0 to |text|
      invariant forall j :: 0 <= j < at ==> a[j] == old(a[j])
      invariant forall j :: 0 <= j < i ==> a[at + j] == text[j]
    {
      a[at + i] := text[i];
    }
  }

  // The part of a record after its first `=`, by strchr.
  method ValueOf(text: string, ghost r: Rec) returns (v: string)
    requires text == Text(r) && '=' !in r.name
    ensures v == r.value
  {
    var eq := 0;
    while text[eq] != '='
      invariant eq <= |r.name|
      decreases |text| - eq
    {
      eq := eq + 1;
    }
    assert text[..|r.name|] == r.name;
    assert forall i :: 0 <= i < |r.name| ==> text[i] == r.name[i] && r.name[i] in r.name;
    v := text[eq + 1..];
  }

  class VarStore {
    var varp: array?<char>
    var varsz: nat
    ghost var recs: seq<Rec>

    ghost predicate Valid()
      reads this, varp
    {
      && Proper(recs)
      && (varp == null ==> varsz == 0)
      && (varp != null ==> varsz <= varp.Length && varp[..varsz] == Ser(recs))
      && varsz == |Ser(recs)|
    }

    constructor ()
      ensures Valid() && recs == [] && varp == null
    {
      varp := null;
      varsz := 0;
      recs := [];
    }

    // At `at` stands the NUL-terminated text `t`.
    ghost predicate Stands(at: nat, t: string)
      requires varp != null
      reads this, varp
    {
      && at + |t| < varsz <= varp.Length
      && varp[at + |t|] == NUL
      && forall i :: at <= i < at + |t| ==> varp[i] == t[i - at] && varp[i] != NUL
    }

    lemma RecordStands(k: nat)
      requires Valid() && varp != null && k < |recs|
      ensures Stands(Offset(recs, k), Text(recs[k]))
    {
      var at, t := Offset(recs, k), Text(recs[k]);
      SerSplit(recs, k);
      var buf := varp[..varsz];
      assert buf == Ser(recs[..k]) + (t + [NUL]) + Ser(recs[k + 1..]);
      assert ProperRec(recs[k]);
      assert buf[at + |t|] == NUL;
      forall i | at <= i < at + |t| ensures varp[i] == t[i - at] && varp[i] != NUL {
        assert buf[i] == t[i - at] && t[i - at] in t;
      }
    }

    // nsh_cmpname, on the record that starts at `at`.
    method CmpName(name: string, at: nat, ghost k: nat) returns (b: bool)
      requires Valid() && varp != null && k < |recs| && at == Offset(recs, k)
      requires NUL !in name && Text(recs[k]) != name
      ensures b == Match(recs[k], name)
    {
      ghost var t := Text(recs[k]);
      RecordStands(k);
      hide Valid;
      var i := 0;
      while i < |name| && name[i] == varp[at + i]
        invariant i <= |name| && i <= |t|
        invariant name[..i] == t[..i]
      {
        assert name[i] in name;
        i := i + 1;
      }
      b := i == |name| && varp[at + i] == '=';
      assert i == |name| ==> name == t[..i];
      assert b ==> t[..i + 1] == name + "=";
      assert Match(recs[k], name) ==> t[i] == (name + "=")[i];
    }

    // strlen of the record that starts at `at`.
    method StrLen(at: nat, ghost k: nat) returns (n: nat)
      requires Valid() && varp != null && k < |recs| && at == Offset(recs, k)
      ensures n == |Text(recs[k])| && at + n < varsz <= varp.Length
      ensures varp[at..at + n] == Text(recs[k])
    {
      ghost var t := Text(recs[k]);
      RecordStands(k);
      hide Valid;
      n := 0;
      while varp[at + n] != NUL
        invariant n <= |t|
        decreases |t| - n
      {
        n := n + 1;
      }
    }

    /** The start of the first record that matches, never a place inside a record. */
    method FindVar(name: string) returns (r: Option<nat>)
      requires Valid() && Searchable(recs, name)
      ensures var k := IndexOf(recs, name);
              r == if k < |recs| then Some(Offset(recs, k)) else None
    {
      var ptr := 0;
      ghost var k := 0;
      while ptr < varsz
        invariant k <= |recs| && ptr == Offset(recs, k)
        invariant forall i :: 0 <= i < k ==> !Match(recs[i], name)
        decreases |recs| - k
      {
        MoreRecords(recs, k);
        var hit := CmpName(name, ptr, k);
        if hit {
          return Some(ptr);
        }
        var n := StrLen(ptr, k);
        SerSplit(recs, k);
        ptr := ptr + n + 1;
        k := k + 1;
      }
      if k < |recs| {
        SerSplit(recs, k);
      }
      return None;
    }

    method GetVar(name: string) returns (r: Option<string>)
      requires Valid() && Searchable(recs, name)
      ensures r == Get(recs, name)
    {
      var pair := FindVar(name);
      if pair.None? {
        return None;
      }
      ghost var k := IndexOf(recs, name);
      ghost var rec := recs[k];
      SerSplit(recs, k);
      var at := pair.value;
      var n := StrLen(at, k);
      assert ProperRec(rec);
      var value := ValueOf(varp[at..at + n], rec);
      r := Some(value);
    }

    /** Moves the records after the one at `pair` down over it. */
    method RemoveVar(pair: nat, ghost k: nat) returns (ok: bool)
      requires Valid() && varp != null
      requires pair < varsz ==> k < |recs| && pair == Offset(recs, k)
      modifies this`varsz, this`recs, varp
      ensures Valid() && ok == (pair < old(varsz))
      ensures recs == if ok then Without(old(recs), k) else old(recs)
    {
      hide Ser, Text, ProperRec, IndexOf;
      var end := varsz;
      if pair >= end {
        return false;
      }
      SerWithout(recs, k);
      var n := StrLen(pair, k);
      var len := n + 1;
      ghost var buf := varp[..varsz];
      MoveDown(varp, pair + len, pair, end - (pair + len));
      varsz := varsz - len;
      recs := Without(recs, k);
      assert varp[..varsz] == buf[..pair] + buf[pair + len..];
      return true;
    }

    // realloc: a new buffer with the old contents, unless memory runs out.
    method Realloc(newsize: nat, enough: bool) returns (p: array?<char>)
      requires Valid() && newsize >= varsz
      ensures p == null <==> !enough
      ensures p != null ==> fresh(p) && p.Length == newsize && (varp != null ==> p[..varsz] == varp[..varsz])
    {
      if !enough {
        return null;
      }
      p := new char[newsize];
      if varp != null {
        for i := 0 to varsz
          invariant forall j :: 0 <= j < i ==> p[j] == varp[j]
        {
          p[i] := varp[i];
        }
      }
    }

    /** `enough` says whether the allocation succeeds. */
    method SetVar(name: string, value: string, enough: bool) returns (ok: bool)
      requires Valid() && Searchable(recs, name) && NUL !in value
      modifies this, varp
      ensures Valid() && ok == enough
      ensures recs == Set(old(recs), name, value, enough)
    {
      hide Ser, Text, ProperRec, IndexOf, RecOf, Match;
      if varp != null {
        var pair := FindVar(name);
        if pair.Some? {
          SerSplit(recs, IndexOf(recs, name));
          ok := RemoveVar(pair.value, IndexOf(recs, name));
        }
      }
      SerEnds(old(recs));
      assert recs == Unset(old(recs), name);
      var varlen := |name| + |value| + 2;
      var newvarp := Realloc(varsz + varlen, enough);
      if newvarp == null {
        return false;
      }
      Put(newvarp, varsz, name + "=" + value + [NUL]);
      varp := newvarp;
      varsz := varsz + varlen;
      RecOfText(name, value);
      SerOne(recs, RecOf(name, value));
      recs := recs + [RecOf(name, value)];
      assert varp[..varsz] == varp[..];
      return true;
    }

    method UnsetVar(name: string, enough: bool) returns (ok: bool)
      requires Valid() && Searchable(recs, name)
      modifies this, varp
      ensures Valid() && recs == Unset(old(recs), name)
      ensures !ok ==> !enough
    {
      var pair := FindVar(name);
      if pair.None? {
        return true;
      }
      ghost var k := IndexOf(recs, name);
      SerSplit(recs, k);
      ok := RemoveVar(pair.value, k);
      if varsz == 0 {
        varp := null;
      } else {
        var newvarp := Realloc(varsz, enough);
        if newvarp == null {
          return false;
        }
        varp := newvarp;
      }
    }

    /**
      Calls back for each record in turn until a call returns non-zero.  Each record is
      visited once, in the order in which they were set.
    */
    method ForeachVar(cb: string -> int) returns (ret: int, visited: seq<string>)
      requires Valid()
      ensures |visited| <= |recs| && forall i :: 0 <= i < |visited| ==> visited[i] == Text(recs[i])
      ensures forall i :: 0 <= i < |visited| - 1 ==> cb(visited[i]) == 0
      ensures ret == if visited == [] then 0 else cb(visited[|visited| - 1])
      ensures ret == 0 ==> |visited| == |recs|
    {
      hide Ser, Text, ProperRec;
      ret, visited := 0, [];
      SerEnds(recs);
      var ptr := 0;
      while ptr < varsz
        invariant |visited| <= |recs| && ptr == Offset(recs, |visited|)
        invariant forall i :: 0 <= i < |visited| ==> visited[i] == Text(recs[i]) && cb(visited[i]) == 0
        invariant ret == 0
        decreases |recs| - |visited|
      {
        ghost var k := |visited|;
        MoreRecords(recs, k);
        var n := StrLen(ptr, k);
        SerSplit(recs, k);
        var text := varp[ptr..ptr + n];
        visited := visited + [text];
        ret := cb(text);
        if ret != 0 {
          return;
        }
        ptr := ptr + n + 1;
      }
      if |visited| < |recs| {
        SerSplit(recs, |visited|);
      }
    }
  }

  // ----- The store as a map -----

  ghost predicate Distinct(rs: seq<Rec>) {
    forall i, j :: 0 <= i < j < |rs| ==> rs[i].name != rs[j].name
  }

  predicate Names(rs: seq<Rec>, name: string) {
    exists i :: 0 <= i < |rs| && rs[i].name == name
  }

  function ToMap(rs: seq<Rec>): map<string, string> {
    if rs == [] then map[] else ToMap(rs[1..])[rs[0].name := rs[0].value]
  }

  lemma {:induction false} ToMapKeys(rs: seq<Rec>, name: string)
    ensures name in ToMap(rs) <==> Names(rs, name)
  {
    if rs == [] {
    } else {
      ToMapKeys(rs[1..], name);
      assert Names(rs, name) <==> rs[0].name == name || Names(rs[1..], name) by {
        assert rs == [rs[0]] + rs[1..];
      }
    }
  }

  lemma {:induction false} ToMapAppend(rs: seq<Rec>, r: Rec)
    requires !Names(rs, r.name)
    ensures ToMap(rs + [r]) == ToMap(rs)[r.name := r.value]
  {
    if rs == [] {
      assert [r][1..] == [] && rs + [r] == [r];
    } else {
      assert (rs + [r])[1..] == rs[1..] + [r];
      assert rs[0].name != r.name;
      assert forall i :: 0 <= i < |rs| - 1 ==> rs[1..][i] == rs[i + 1];
      ToMapAppend(rs[1..], r);
    }
  }

  lemma {:induction false} GetIsLookup(rs: seq<Rec>, name: string)
    requires Proper(rs) && Distinct(rs) && '=' !in name
    ensures Get(rs, name) == if name in ToMap(rs) then Some(ToMap(rs)[name]) else None
  {
    hide Match;
    if rs == [] {
    } else {
      MatchIsName(rs[0], name);
      GetIsLookup(rs[1..], name);
    }
  }

  // The effect of Unset on the records, one by one.
  lemma UnsetHead(rs: seq<Rec>, name: string)
    requires rs != []
    ensures Unset(rs, name) == if Match(rs[0], name) then rs[1..] else [rs[0]] + Unset(rs[1..], name)
  {
  }

  lemma {:induction false} UnsetIsRemoval(rs: seq<Rec>, name: string)
    requires Proper(rs) && Distinct(rs) && '=' !in name
    ensures Proper(Unset(rs, name)) && Distinct(Unset(rs, name)) && !Names(Unset(rs, name), name)
    ensures forall n :: Names(Unset(rs, name), n) ==> Names(rs, n)
    ensures ToMap(Unset(rs, name)) == ToMap(rs) - {name}
  {
    hide Match, Unset, ProperRec;
    if rs == [] {
      UnsetEmpty(name);
    } else {
      var tail := rs[1..];
      MatchIsName(rs[0], name);
      UnsetHead(rs, name);
      TailNames(rs);
      if rs[0].name == name {
        ToMapKeys(tail, name);
        assert ToMap(tail) == ToMap(rs) - {name};
      } else {
        UnsetIsRemoval(tail, name);
        var left := Unset(tail, name);
        ConsNames(rs[0], left);
        assert ([rs[0]] + left)[1..] == left;
      }
    }
  }

  lemma UnsetEmpty(name: string)
    ensures Unset([], name) == []
  {
  }

  lemma TailNames(rs: seq<Rec>)
    requires rs != [] && Distinct(rs)
    ensures !Names(rs[1..], rs[0].name) && Distinct(rs[1..])
    ensures forall n :: Names(rs, n) <==> n == rs[0].name || Names(rs[1..], n)
  {
    forall n ensures Names(rs, n) <==> n == rs[0].name || Names(rs[1..], n) {
      assert rs == [rs[0]] + rs[1..];
    }
  }

  lemma ConsNames(r: Rec, rs: seq<Rec>)
    requires Distinct(rs) && !Names(rs, r.name)
    ensures Distinct([r] + rs)
    ensures forall n :: Names([r] + rs, n) <==> n == r.name || Names(rs, n)
  {
    var all := [r] + rs;
    assert all[1..] == rs;
    forall n ensures Names(all, n) <==> n == r.name || Names(rs, n) {
      if Names(rs, n) {
        var i :| 0 <= i < |rs| && rs[i].name == n;
        assert all[i + 1].name == n;
      }
      assert all[0].name == r.name;
    }
  }

  lemma SetIsUpdate(rs: seq<Rec>, name: string, value: string)
    requires Proper(rs) && Distinct(rs) && '=' !in name && NUL !in name && NUL !in value
    ensures Proper(Set(rs, name, value, true)) && Distinct(Set(rs, name, value, true))
    ensures ToMap(Set(rs, name, value, true)) == ToMap(rs)[name := value]
  {
    hide Match, Unset, RecOf, ToMap;
    UnsetIsRemoval(rs, name);
    RecOfText(name, value);
    ToMapAppend(Unset(rs, name), Rec(name, value));
    assert (ToMap(rs) - {name})[name := value] == ToMap(rs)[name := value];
  }

  datatype Op = SetOp(name: string, value: string, enough: bool) | UnsetOp(name: string)

  // What the C code takes for granted of its arguments, and names without `=`.
  predicate ProperOp(op: Op) {
    '=' !in op.name && NUL !in op.name && (op.SetOp? ==> NUL !in op.value)
  }

  function Apply(rs: seq<Rec>, ops: seq<Op>): seq<Rec>
    decreases |ops|
  {
    if ops == [] then rs
    else match ops[0]
      case SetOp(name, value, enough) => Apply(Set(rs, name, value, enough), ops[1..])
      case UnsetOp(name) => Apply(Unset(rs, name), ops[1..])
  }

  function ApplyMap(m: map<string, string>, ops: seq<Op>): map<string, string>
    decreases |ops|
  {
    if ops == [] then m
    else match ops[0]
      case SetOp(name, value, enough) => ApplyMap(if enough then m[name := value] else m - {name}, ops[1..])
      case UnsetOp(name) => ApplyMap(m - {name}, ops[1..])
  }

  /**
    Over any sequence of operations the buffer holds distinct names and means what a map
    would.  A set that finds no memory removes the variable.
  */
  lemma {:induction false} StoreIsMap(rs: seq<Rec>, ops: seq<Op>)
    requires Proper(rs) && Distinct(rs)
    requires forall i :: 0 <= i < |ops| ==> ProperOp(ops[i])
    ensures Proper(Apply(rs, ops)) && Distinct(Apply(rs, ops))
    ensures ToMap(Apply(rs, ops)) == ApplyMap(ToMap(rs), ops)
    decreases |ops|
  {
    if ops == [] {
    } else {
      assert ProperOp(ops[0]);
      UnsetIsRemoval(rs, ops[0].name);
      match ops[0]
      case SetOp(name, value, enough) =>
        if enough { SetIsUpdate(rs, name, value); }
        assert Unset(rs, name) + [] == Unset(rs, name);
        StoreIsMap(Set(rs, name, value, enough), ops[1..]);
      case UnsetOp(name) =>
        StoreIsMap(Unset(rs, name), ops[1..]);
    }
  }

  /** A variable reads back as it was set if and only if its name has no `=` in it. */
  lemma SetGet(rs: seq<Rec>, name: string, value: string)
    requires Proper(rs) && Distinct(rs) && Searchable(rs, name) && NUL !in value
    ensures Get(Set(rs, name, value, true), name) == Some(value) <==> '=' !in name
  {
    if '=' !in name {
      SetIsUpdate(rs, name, value);
      GetIsLookup(Set(rs, name, value, true), name);
    } else {
      SetGetWithEquals(rs, name, value);
    }
  }

  // The part of the name after its first `=` comes back in front of the value.
  lemma SetGetWithEquals(rs: seq<Rec>, name: string, value: string)
    requires Proper(rs) && Distinct(rs) && Searchable(rs, name) && NUL !in value && '=' in name
    ensures Get(Set(rs, name, value, true), name) == Some(RecOf(name, value).value)
    ensures |RecOf(name, value).value| > |value|
  {
    var r, left := RecOf(name, value), Unset(rs, name);
    var all := left + [r];
    RecOfText(name, value);
    RecOfLonger(name, value);
    assert Match(r, name) by { assert Text(r)[..|name| + 1] == name + "="; }
    forall i | 0 <= i < |left| ensures !Match(all[i], name) {
      OnlyOneMatch(rs, name, i);
      assert all[i] == left[i];
    }
    assert all[|left|] == r;
    assert IndexOf(all, name) == |left|;
  }

  lemma {:induction false} RecOfLonger(name: string, value: string)
    requires '=' in name
    ensures |RecOf(name, value).value| > |value|
  {
    if name[0] == '=' {
    } else {
      RecOfLonger(name[1..], value);
    }
  }

  // Records that match the same name with `=` in it have the same name themselves.
  lemma OnlyOneMatch(rs: seq<Rec>, name: string, i: nat)
    requires Proper(rs) && Distinct(rs) && '=' in name && i < |Unset(rs, name)|
    ensures !Match(Unset(rs, name)[i], name)
  {
    var k := IndexOf(rs, name);
    if k < |rs| {
      var j := if i < k then i else i + 1;
      assert Unset(rs, name)[i] == rs[j] && j != k;
      if Match(rs[j], name) {
        SameHead(rs[j], rs[k], name);
      }
    }
  }

  lemma SameHead(r: Rec, q: Rec, name: string)
    requires ProperRec(r) && ProperRec(q) && '=' in name && Match(r, name) && Match(q, name)
    ensures r.name == q.name
  {
    var n := FirstEquals(name);
    HeadOf(r, name, n);
    HeadOf(q, name, n);
  }

  lemma FirstEquals(name: string) returns (n: nat)
    requires '=' in name
    ensures n < |name| && name[n] == '=' && '=' !in name[..n]
  {
    n := 0;
    while name[n] != '='
      invariant n < |name| && '=' in name[n..] && '=' !in name[..n]
      decreases |name| - n
    {
      assert name[..n + 1] == name[..n] + [name[n]];
      assert name[n..] == [name[n]] + name[n + 1..];
      n := n + 1;
    }
  }

  lemma HeadOf(r: Rec, name: string, n: nat)
    requires ProperRec(r) && Match(r, name) && n < |name| && name[n] == '=' && '=' !in name[..n]
    ensures r.name == name[..n]
  {
    var t := Text(r);
    assert t[..n] == (name + "=")[..n] == name[..n] && t[n] == (name + "=")[n] == name[n];
    assert t[..|r.name|] == r.name;
    FirstUnique(t, '=', n, |r.name|);
  }

  lemma SerOne(rs: seq<Rec>, r: Rec)
    ensures Ser(rs + [r]) == Ser(rs) + (Text(r) + [NUL])
  {
    SerConcat(rs, [r]);
    assert [r][1..] == [];
    assert Ser([r]) == Text(r) + [NUL] + Ser([]);
  }
}
