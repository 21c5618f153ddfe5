/**
  The alias table: a fixed set of nodes, each on the active list or on the free list.
  While an alias is being expanded its node stays put; a request to delete it is noted
  in the node and honoured when the expansion is over.
*/
module NshAlias {
  import opened NshOption

  datatype Node = Node(name: Option<string>, value: Option<string>, exp: bool, rem: bool)

  const BLANK := Node(None, None, false, false)

  // Nodes are named by their index in the table.
  datatype Table = Table(nodes: seq<Node>, active: seq<nat>, free: seq<nat>)

  // ----- Queues as sequences -----

  ghost predicate NoDup(s: seq<nat>) {
    forall i, j :: 0 <= i < j < |s| ==> s[i] != s[j]
  }

  ghost predicate Within(s: seq<nat>, n: nat) {
    forall i :: 0 <= i < |s| ==> s[i] < n
  }

  lemma WithinMembers(s: seq<nat>, n: nat)
    requires forall a :: a in s ==> a < n
    ensures Within(s, n)
  {
    forall i | 0 <= i < |s| ensures s[i] < n {
      assert s[i] in s;
    }
  }

  // sq_rem
  function Remove(s: seq<nat>, a: nat): seq<nat> {
    if s == [] then [] else if s[0] == a then s[1..] else [s[0]] + Remove(s[1..], a)
  }

  lemma {:induction false} RemoveMembers(s: seq<nat>, a: nat)
    requires NoDup(s)
    ensures NoDup(Remove(s, a))
    ensures forall x :: x in Remove(s, a) <==> x in s && x != a
  {
    if s == [] {
    } else {
      assert s == [s[0]] + s[1..];
      RemoveMembers(s[1..], a);
      if s[0] != a {
        NoDupCons(s[0], Remove(s[1..], a));
      }
    }
  }

  lemma NoDupCons(a: nat, s: seq<nat>)
    requires NoDup(s) && a !in s
    ensures NoDup([a] + s)
  {
  }

  lemma NoDupAppend(s: seq<nat>, a: nat)
    requires NoDup(s) && a !in s
    ensures NoDup(s + [a])
  {
  }

  lemma {:induction false} RemoveLast(s: seq<nat>, a: nat)
    requires a !in s
    ensures Remove(s + [a], a) == s
  {
    if s == [] {
      assert s + [a] == [a];
    } else {
      assert (s + [a])[1..] == s[1..] + [a];
      RemoveLast(s[1..], a);
    }
  }

  // ----- Operations -----

  function Range(n: nat): (s: seq<nat>)
    ensures |s| == n && forall i :: 0 <= i < n ==> s[i] == i
  {
    seq(n, i => i)
  }

  // alias_init: only the first call finds both lists empty.
  function Init(t: Table): Table {
    if t.active != [] || t.free != [] then t else t.(free := Range(|t.nodes|))
  }

  function FindIn(t: Table, s: seq<nat>, name: string): (r: Option<nat>)
    requires Within(s, |t.nodes|)
    ensures r.Some? ==> r.value in s && r.value < |t.nodes| && t.nodes[r.value].name == Some(name)
    ensures r.None? ==> forall a :: a in s ==> t.nodes[a].name != Some(name)
  {
    if s == [] then None
    else if t.nodes[s[0]].name == Some(name) then Some(s[0])
    else FindIn(t, s[1..], name)
  }

  // alias_find
  function Find(t: Table, name: string): Option<nat>
    requires Within(t.active, |t.nodes|)
  {
    FindIn(t, t.active, name)
  }

  // alias_delete
  function Delete(t: Table, a: nat): Table
    requires a < |t.nodes|
  {
    if t.nodes[a].exp then t.(nodes := t.nodes[a := t.nodes[a].(rem := true)])
    else Table(t.nodes[a := BLANK], Remove(t.active, a), [a] + t.free)
  }

  datatype Status = Ok | Invalid | NoMemory

  datatype Saved = Saved(t: Table, status: Status)

  // alias_save; the flags say whether the copies of the strings could be allocated.
  function Save(t: Table, name: string, value: string, nameOk: bool, valueOk: bool): Saved
    requires Within(t.active, |t.nodes|) && Within(t.free, |t.nodes|)
  {
    if name == "" then Saved(t, Invalid)
    else
      var dup := if valueOk then Some(value) else None;
      match Find(t, name)
      case Some(a) =>
        var u := t.(nodes := t.nodes[a := t.nodes[a].(value := dup)]);
        if valueOk then Saved(u, Ok) else Saved(Delete(u, a), NoMemory)
      case None =>
        if t.free == [] then Saved(t, NoMemory)
        else
          var a := t.free[0];
          var u := Table(t.nodes[a := t.nodes[a].(name := if nameOk then Some(name) else None, value := dup)],
                         t.active + [a], t.free[1..]);
          if nameOk && valueOk then Saved(u, Ok) else Saved(Delete(u, a), NoMemory)
  }

  function DeleteAll(t: Table, s: seq<nat>): (u: Table)
    requires Within(s, |t.nodes|)
    ensures |u.nodes| == |t.nodes|
    decreases |s|
  {
    if s == [] then t else DeleteAll(Delete(t, s[0]), s[1..])
  }

  // alias_removeall
  function RemoveAll(t: Table): Table
    requires Within(t.active, |t.nodes|)
  {
    DeleteAll(t, t.active)
  }

  // nsh_aliasfind: an alias that may be expanded.
  function Expandable(t: Table, token: string): (r: Option<nat>)
    requires Within(t.active, |t.nodes|)
    ensures r.Some? ==> r.value < |t.nodes| && r.value in t.active && !t.nodes[r.value].exp
  {
    match Find(t, token)
    case None => None
    case Some(a) => if !t.nodes[a].exp && t.nodes[a].value.Some? then Some(a) else None
  }

  // The node part of nsh_alist_add.
  function Mark(t: Table, a: nat): Table
    requires a < |t.nodes|
  {
    t.(nodes := t.nodes[a := t.nodes[a].(exp := true)])
  }

  // One turn of nsh_alist_free.
  function ReleaseOne(t: Table, a: nat): Table
    requires a < |t.nodes|
  {
    var u := t.(nodes := t.nodes[a := t.nodes[a].(exp := false)]);
    if u.nodes[a].rem then Delete(u, a) else u
  }

  function ReleaseList(t: Table, s: seq<nat>): (u: Table)
    requires Within(s, |t.nodes|)
    ensures |u.nodes| == |t.nodes|
    decreases |s|
  {
    if s == [] then t else ReleaseList(ReleaseOne(t, s[0]), s[1..])
  }

  // ----- Invariant -----

  /**
    The lists partition the table, active names are distinct, free nodes are blank, and
    the nodes under expansion are exactly those on the expansion lists in use, `live`.
  */
  ghost predicate Inv(t: Table, live: seq<nat>) {
    && NoDup(t.active) && NoDup(t.free) && NoDup(live)
    && Within(t.active, |t.nodes|) && Within(t.free, |t.nodes|) && Within(live, |t.nodes|)
    && (forall i :: 0 <= i < |t.nodes| ==> (i in t.active <==> i !in t.free))
    && (forall i :: i in t.active ==> ActiveNode(t.nodes[i]))
    && (forall i, j :: i in t.active && j in t.active && i != j ==> t.nodes[i].name != t.nodes[j].name)
    && (forall i :: i in t.free ==> t.nodes[i] == BLANK)
    && (forall i :: 0 <= i < |t.nodes| ==> (t.nodes[i].exp <==> i in live))
  }

  // Only an alias under expansion can be marked for removal or have lost its value.
  predicate ActiveNode(n: Node) {
    n.name.Some? && (n.rem ==> n.exp) && (n.value.None? ==> n.rem)
  }

  // Changing an active node without touching its name or its expansion flag.
  lemma UpdateKeepsInv(t: Table, a: nat, n: Node, live: seq<nat>)
    requires Inv(t, live) && a in t.active && ActiveNode(n)
    requires n.name == t.nodes[a].name && n.exp == t.nodes[a].exp
    ensures Inv(t.(nodes := t.nodes[a := n]), live)
  {
  }

  // `live` is `before` without `a`.
  ghost predicate Dropped(before: seq<nat>, a: nat, live: seq<nat>) {
    NoDup(live) && forall x :: x in live <==> x in before && x != a
  }

  lemma BlankKeepsInv(t: Table, a: nat, before: seq<nat>, live: seq<nat>)
    requires Inv(t, before) && a in t.active && Dropped(before, a, live)
    ensures Inv(Table(t.nodes[a := BLANK], Remove(t.active, a), [a] + t.free), live)
  {
    RemoveMembers(t.active, a);
    NoDupCons(a, t.free);
    WithinMembers(Remove(t.active, a), |t.nodes|);
    WithinMembers(live, |t.nodes|);
  }

  lemma DeleteKeepsInv(t: Table, a: nat, live: seq<nat>)
    requires Inv(t, live) && a in t.active
    ensures Inv(Delete(t, a), live)
  {
    if t.nodes[a].exp {
      UpdateKeepsInv(t, a, t.nodes[a].(rem := true), live);
    } else {
      BlankKeepsInv(t, a, live, live);
    }
  }

  lemma InitKeepsInv(t: Table)
    requires t.active == [] && t.free == [] && forall i :: 0 <= i < |t.nodes| ==> t.nodes[i] == BLANK
    ensures Inv(Init(t), [])
  {
    var f := Range(|t.nodes|);
    forall i | 0 <= i < |t.nodes| ensures i in f {
      assert f[i] == i;
    }
  }

  // A table in use is not initialised again.
  lemma InitOnce(t: Table, live: seq<nat>)
    requires Inv(t, live)
    ensures Init(t) == t
  {
    assert |t.nodes| > 0 ==> 0 in t.active || 0 in t.free;
  }

  // A new alias that could not be copied leaves the table exactly as it was.
  lemma FailedNewSave(t: Table, name: string, value: string, nameOk: bool, valueOk: bool, live: seq<nat>)
    requires Inv(t, live) && name != "" && Find(t, name).None? && !(nameOk && valueOk)
    ensures Save(t, name, value, nameOk, valueOk) == Saved(t, NoMemory)
  {
    if t.free != [] {
      var a := t.free[0];
      assert a in t.free;
      RemoveLast(t.active, a);
      assert t.nodes[a] == BLANK;
      assert [a] + t.free[1..] == t.free;
    }
  }

  lemma SaveKeepsInv(t: Table, name: string, value: string, nameOk: bool, valueOk: bool, live: seq<nat>)
    requires Inv(t, live)
    ensures Inv(Save(t, name, value, nameOk, valueOk).t, live)
  {
    if name != "" {
      match Find(t, name)
      case Some(a) =>
        SaveExistingKeepsInv(t, a, value, valueOk, live);
      case None =>
        if !(nameOk && valueOk) {
          FailedNewSave(t, name, value, nameOk, valueOk, live);
        } else if t.free != [] {
          NewAliasKeepsInv(t, name, value, live);
        }
    }
  }

  lemma SaveExistingKeepsInv(t: Table, a: nat, value: string, valueOk: bool, live: seq<nat>)
    requires Inv(t, live) && a in t.active
    ensures var u := t.(nodes := t.nodes[a := t.nodes[a].(value := if valueOk then Some(value) else None)]);
            Inv(if valueOk then u else Delete(u, a), live)
  {
    var n := t.nodes[a];
    if valueOk {
      UpdateKeepsInv(t, a, n.(value := Some(value)), live);
    } else if n.exp {
      UpdateKeepsInv(t, a, n.(value := None, rem := true), live);
      assert t.nodes[a := n.(value := None)][a := n.(value := None, rem := true)]
          == t.nodes[a := n.(value := None, rem := true)];
    } else {
      BlankKeepsInv(t, a, live, live);
      assert t.nodes[a := n.(value := None)][a := BLANK] == t.nodes[a := BLANK];
    }
  }

  lemma NewAliasKeepsInv(t: Table, name: string, value: string, live: seq<nat>)
    requires Inv(t, live) && t.free != [] && Find(t, name).None?
    ensures var a := t.free[0];
            Inv(Table(t.nodes[a := t.nodes[a].(name := Some(name), value := Some(value))], t.active + [a],
                t.free[1..]), live)
  {
    var a, rest := t.free[0], t.free[1..];
    assert a in t.free && t.nodes[a] == BLANK;
    assert t.free == [] + [a] + rest && [] + rest == rest;
    DropMiddle([], a, rest);
    NoDupAppend(t.active, a);
    WithinMembers(rest, |t.nodes|);
    UseKeepsInv(t, a, name, value, rest, live);
  }

  // Node `a` moves from the free list to the active list.
  lemma UseKeepsInv(t: Table, a: nat, name: string, value: string, rest: seq<nat>, live: seq<nat>)
    requires Inv(t, live) && a in t.free && a < |t.nodes| && Dropped(t.free, a, rest) && Within(rest, |t.nodes|)
    requires NoDup(t.active + [a]) && forall i :: i in t.active ==> t.nodes[i].name != Some(name)
    ensures Inv(Table(t.nodes[a := t.nodes[a].(name := Some(name), value := Some(value))], t.active + [a], rest), live)
  {
    hide NoDup;
    assert forall x :: x in t.active + [a] <==> x in t.active || x == a;
    WithinMembers(t.active + [a], |t.nodes|);
  }

  lemma MarkKeepsInv(t: Table, a: nat, live: seq<nat>)
    requires Inv(t, live) && a in t.active && !t.nodes[a].exp
    ensures Inv(Mark(t, a), live + [a])
  {
    NoDupAppend(live, a);
  }

  lemma DropMiddle(base: seq<nat>, a: nat, rest: seq<nat>)
    requires NoDup(base + [a] + rest)
    ensures Dropped(base + [a] + rest, a, base + rest)
  {
    var s := base + [a] + rest;
    assert s[|base|] == a;
    assert forall i :: 0 <= i < |base + rest| ==> (base + rest)[i] == s[if i < |base| then i else i + 1];
  }

  // One alias is no longer under expansion.
  lemma ReleaseOneKeepsInv(t: Table, base: seq<nat>, a: nat, rest: seq<nat>)
    requires Inv(t, base + [a] + rest)
    ensures a < |t.nodes| && a in t.active && Inv(ReleaseOne(t, a), base + rest)
  {
    DropMiddle(base, a, rest);
    assert a in base + [a] + rest;
    var n := t.nodes[a];
    if n.rem {
      BlankKeepsInv(t, a, base + [a] + rest, base + rest);
      assert t.nodes[a := n.(exp := false)][a := BLANK] == t.nodes[a := BLANK];
    } else {
      ClearKeepsInv(t, a, base + [a] + rest, base + rest);
    }
  }

  lemma ClearKeepsInv(t: Table, a: nat, before: seq<nat>, live: seq<nat>)
    requires Inv(t, before) && a in t.active && !t.nodes[a].rem && Dropped(before, a, live)
    ensures Inv(t.(nodes := t.nodes[a := t.nodes[a].(exp := false)]), live)
  {
    WithinMembers(live, |t.nodes|);
  }

  // What a release of the list `top` makes of node `a`.
  ghost predicate Released(t: Table, top: seq<nat>, u: Table, a: nat)
    requires a < |t.nodes| && |u.nodes| == |t.nodes|
  {
    if a !in top then u.nodes[a] == t.nodes[a] && (a in u.active <==> a in t.active)
    else if t.nodes[a].rem then a in u.free
    else a in u.active && u.nodes[a] == t.nodes[a].(exp := false)
  }

  /** After a release, what was marked for removal is free and the rest is unmarked. */
  lemma {:induction false} ReleaseKeepsInv(t: Table, base: seq<nat>, top: seq<nat>)
    requires Inv(t, base + top)
    ensures Within(top, |t.nodes|) && Inv(ReleaseList(t, top), base)
    ensures forall a :: 0 <= a < |t.nodes| ==> Released(t, top, ReleaseList(t, top), a)
    decreases |top|, 0
  {
    if top == [] {
      assert base + top == base;
    } else {
      var a, rest := top[0], top[1..];
      assert base + top == base + [a] + rest;
      ReleaseOneKeepsInv(t, base, a, rest);
      ReleaseRest(t, base, a, rest);
      assert top == [a] + rest;
    }
  }

  lemma {:induction false} ReleaseRest(t: Table, base: seq<nat>, a: nat, rest: seq<nat>)
    requires Inv(t, base + [a] + rest) && a < |t.nodes| && a in t.active
    requires Inv(ReleaseOne(t, a), base + rest)
    ensures Within(rest, |t.nodes|)
    ensures var u := ReleaseList(ReleaseOne(t, a), rest);
            Inv(u, base) && forall b :: 0 <= b < |t.nodes| ==> Released(t, [a] + rest, u, b)
    decreases |rest|, 1
  {
    var one := ReleaseOne(t, a);
    DropMiddle(base, a, rest);
    assert a !in rest;
    ReleaseKeepsInv(one, base, rest);
    var u := ReleaseList(one, rest);
    forall b | 0 <= b < |t.nodes| ensures Released(t, [a] + rest, u, b) {
      assert Released(one, rest, u, b);
      ReleaseOneEffect(t, a, b);
    }
  }

  lemma ReleaseOneEffect(t: Table, a: nat, b: nat)
    requires a < |t.nodes| && b < |t.nodes| && NoDup(t.active)
    ensures var u := ReleaseOne(t, a);
            if b != a then (b in u.active <==> b in t.active) && u.nodes[b] == t.nodes[b]
            else if t.nodes[a].rem then a in u.free && a !in u.active
            else u.active == t.active && u.nodes[a] == t.nodes[a].(exp := false)
  {
    RemoveMembers(t.active, a);
  }

  // ----- What the table means -----

  // The value of an alias; an alias under expansion may have lost it.
  function Lookup(t: Table, name: string): Option<Option<string>>
    requires Within(t.active, |t.nodes|)
  {
    match Find(t, name)
    case None => None
    case Some(a) => Some(t.nodes[a].value)
  }

  lemma FindIs(t: Table, name: string, a: nat, live: seq<nat>)
    requires Inv(t, live) && a in t.active && t.nodes[a].name == Some(name)
    ensures Find(t, name) == Some(a)
  {
  }

  lemma FindNone(t: Table, name: string, live: seq<nat>)
    requires Inv(t, live) && forall a :: a in t.active ==> t.nodes[a].name != Some(name)
    ensures Find(t, name) == None
  {
  }

  // Tables that hold the same node under a name give it the same value.
  lemma SameLookup(t: Table, u: Table, name: string, live: seq<nat>)
    requires Inv(t, live) && Inv(u, live) && |t.nodes| == |u.nodes|
    requires forall a :: 0 <= a < |t.nodes| && t.nodes[a].name == Some(name) ==>
               u.nodes[a] == t.nodes[a] && (a in u.active <==> a in t.active)
    requires forall a :: 0 <= a < |t.nodes| && u.nodes[a].name == Some(name) ==>
               u.nodes[a] == t.nodes[a] && (a in u.active <==> a in t.active)
    ensures Lookup(u, name) == Lookup(t, name)
  {
    if Find(t, name).Some? {
      FindIs(u, name, Find(t, name).value, live);
    } else {
      FindNone(u, name, live);
    }
  }

  ghost predicate Has(t: Table, name: string) {
    exists a :: a in t.active && a < |t.nodes| && t.nodes[a].name == Some(name)
  }

  /**
    A save is refused if and only if the name is empty, and succeeds if and only if there is
    memory for the value and the name is known, or there is a free node and memory for the name.
  */
  lemma SaveSucceedsIff(t: Table, name: string, value: string, nameOk: bool, valueOk: bool, live: seq<nat>)
    requires Inv(t, live)
    ensures var status := Save(t, name, value, nameOk, valueOk).status;
            && (status == Invalid <==> name == "")
            && (status == Ok <==> name != "" && valueOk && (Has(t, name) || (nameOk && t.free != [])))
  {
    match Find(t, name)
    case Some(a) => assert a in t.active && t.nodes[a].name == Some(name);
    case None => assert forall a :: a in t.active ==> t.nodes[a].name != Some(name);
  }

  /**
    An alias is found for expansion if and only if it is active, has a value and is not being
    expanded already.
  */
  lemma ExpandableIff(t: Table, token: string, a: nat, live: seq<nat>)
    requires Inv(t, live)
    ensures Expandable(t, token) == Some(a) <==>
              && a in t.active && t.nodes[a].name == Some(token) && t.nodes[a].value.Some?
              && !t.nodes[a].exp && a !in live
  {
    if a in t.active && t.nodes[a].name == Some(token) {
      FindIs(t, token, a, live);
    }
  }

  /** A save that succeeds sets this alias and no other; one that fails changes no other. */
  lemma SaveMeaning(t: Table, name: string, value: string, nameOk: bool, valueOk: bool, other: string, live: seq<nat>)
    requires Inv(t, live) && other != name
    ensures var r := Save(t, name, value, nameOk, valueOk);
            && Inv(r.t, live)
            && (r.status == Ok ==> Lookup(r.t, name) == Some(Some(value)))
            && (r.status == NoMemory ==> Lookup(r.t, name) in {None, Some(None)})
            && Lookup(r.t, other) == Lookup(t, other)
  {
    hide Inv;
    SaveKeepsInv(t, name, value, nameOk, valueOk, live);
    InvWithin(t, live);
    if name != "" {
      match Find(t, name)
      case Some(a) =>
        SaveExistingMeaning(t, name, a, value, valueOk, live);
        SaveExistingOther(t, name, a, value, valueOk, other, live);
      case None =>
        if !(nameOk && valueOk) {
          FailedNewSave(t, name, value, nameOk, valueOk, live);
        } else if t.free != [] {
          NewAliasMeaning(t, name, value, other, live);
        }
    }
  }

  // The alias is on the list and has been deleted while it is expanded.
  predicate Doomed(t: Table, name: string, top: seq<nat>)
    requires Within(t.active, |t.nodes|)
  {
    match Find(t, name)
    case None => false
    case Some(a) => a in top && t.nodes[a].rem
  }

  /**
    An alias that is saved outlives the release of the innermost expansion list, unless it
    is on that list and was marked for removal before: saving does not take the mark back.
  */
  lemma SavedSurvives(t: Table, name: string, value: string, base: seq<nat>, top: seq<nat>)
    requires Inv(t, base + top) && Save(t, name, value, true, true).status == Ok
    ensures var u := Save(t, name, value, true, true).t;
            && Within(top, |u.nodes|) && Inv(ReleaseList(u, top), base)
            && Lookup(ReleaseList(u, top), name) == if Doomed(t, name, top) then None else Some(Some(value))
  {
    hide ReleaseList;
    var u := Save(t, name, value, true, true).t;
    SaveKeepsInv(t, name, value, true, true, base + top);
    ReleaseKeepsInv(u, base, top);
    var a := match Find(t, name) case Some(a) => a case None => t.free[0];
    assert a in u.active && u.nodes[a].name == Some(name) && u.nodes[a].value == Some(value);
    var v := ReleaseList(u, top);
    assert Released(u, top, v, a);
    if a in top && u.nodes[a].rem {
      FreedName(u, v, name, a, base, top);
    } else {
      FindIs(v, name, a, base);
    }
  }

  // The only alias of a name is gone once its node is free.
  lemma FreedName(u: Table, v: Table, name: string, a: nat, base: seq<nat>, top: seq<nat>)
    requires Inv(u, base + top) && Inv(v, base) && |v.nodes| == |u.nodes|
    requires a in u.active && u.nodes[a].name == Some(name) && a in v.free
    requires forall b :: 0 <= b < |u.nodes| ==> Released(u, top, v, b)
    ensures Find(v, name) == None
  {
    forall b | b in v.active ensures v.nodes[b].name != Some(name) {
      assert Released(u, top, v, b);
    }
    FindNone(v, name, base);
  }

  lemma InvWithin(t: Table, live: seq<nat>)
    requires Inv(t, live)
    ensures Within(t.active, |t.nodes|) && Within(t.free, |t.nodes|)
  {
  }

  lemma SaveExistingOther(t: Table, name: string, a: nat, value: string, valueOk: bool, other: string, live: seq<nat>)
    requires Inv(t, live) && a in t.active && t.nodes[a].name == Some(name) && other != name
    ensures var u := t.(nodes := t.nodes[a := t.nodes[a].(value := if valueOk then Some(value) else None)]);
            var v := if valueOk then u else Delete(u, a);
            Inv(v, live) && Lookup(v, other) == Lookup(t, other)
  {
    SaveExistingKeepsInv(t, a, value, valueOk, live);
    var u := t.(nodes := t.nodes[a := t.nodes[a].(value := if valueOk then Some(value) else None)]);
    DeleteEffect(u, a);
    SameLookup(t, if valueOk then u else Delete(u, a), other, live);
  }

  lemma NewAliasMeaning(t: Table, name: string, value: string, other: string, live: seq<nat>)
    requires Inv(t, live) && t.free != [] && Find(t, name).None? && other != name
    ensures var a := t.free[0];
            var u := Table(t.nodes[a := t.nodes[a].(name := Some(name), value := Some(value))], t.active + [a],
                t.free[1..]);
            Inv(u, live) && Lookup(u, name) == Some(Some(value)) && Lookup(u, other) == Lookup(t, other)
  {
    var a := t.free[0];
    var u := Table(t.nodes[a := t.nodes[a].(name := Some(name), value := Some(value))], t.active + [a], t.free[1..]);
    NewAliasKeepsInv(t, name, value, live);
    assert a in t.free && a in u.active && t.nodes[a] == BLANK;
    FindIs(u, name, a, live);
    SameLookup(t, u, other, live);
  }

  lemma SaveExistingMeaning(t: Table, name: string, a: nat, value: string, valueOk: bool, live: seq<nat>)
    requires Inv(t, live) && a in t.active && t.nodes[a].name == Some(name)
    ensures var u := t.(nodes := t.nodes[a := t.nodes[a].(value := if valueOk then Some(value) else None)]);
            && (valueOk ==> Inv(u, live) && Lookup(u, name) == Some(Some(value)))
            && (!valueOk ==> Inv(Delete(u, a), live)
                             && Lookup(Delete(u, a), name) == if t.nodes[a].exp then Some(None) else None)
  {
    SaveExistingKeepsInv(t, a, value, valueOk, live);
    var u := t.(nodes := t.nodes[a := t.nodes[a].(value := if valueOk then Some(value) else None)]);
    if valueOk {
      FindIs(u, name, a, live);
    } else if t.nodes[a].exp {
      FindIs(Delete(u, a), name, a, live);
    } else {
      DeleteEffect(u, a);
      FindNone(Delete(u, a), name, live);
    }
  }

  /** Deletion takes effect at once, or is noted if the alias is under expansion. */
  lemma DeleteMeaning(t: Table, name: string, other: string, live: seq<nat>)
    requires Inv(t, live) && Find(t, name).Some? && other != name
    ensures var a := Find(t, name).value;
            && Inv(Delete(t, a), live)
            && Lookup(Delete(t, a), name) == (if a in live then Lookup(t, name) else None)
            && (a in live ==> Delete(t, a).nodes[a].rem)
            && Lookup(Delete(t, a), other) == Lookup(t, other)
  {
    var a := Find(t, name).value;
    DeleteKeepsInv(t, a, live);
    DeleteEffect(t, a);
    SameLookup(t, Delete(t, a), other, live);
    if a in live {
      FindIs(Delete(t, a), name, a, live);
    } else {
      FindNone(Delete(t, a), name, live);
    }
  }

  // ----- Removing all -----

  lemma {:induction false} DeleteAllKeepsInv(t: Table, s: seq<nat>, live: seq<nat>)
    requires Inv(t, live) && NoDup(s) && forall a :: a in s ==> a in t.active
    ensures Within(s, |t.nodes|) && Inv(DeleteAll(t, s), live)
    ensures forall a :: a in DeleteAll(t, s).active <==> a in t.active && (a !in s || a in live)
    ensures forall a :: 0 <= a < |t.nodes| && a in DeleteAll(t, s).active ==>
              DeleteAll(t, s).nodes[a] == if a in s then t.nodes[a].(rem := true) else t.nodes[a]
    decreases |s|
  {
    WithinMembers(s, |t.nodes|);
    if s == [] {
    } else {
      var a, rest := s[0], s[1..];
      assert s == [a] + rest;
      assert a in s;
      DeleteKeepsInv(t, a, live);
      DeleteEffect(t, a);
      DeleteAllKeepsInv(Delete(t, a), rest, live);
    }
  }

  lemma DeleteEffect(t: Table, a: nat)
    requires a < |t.nodes| && NoDup(t.active)
    ensures forall b :: b in Delete(t, a).active <==> b in t.active && (b != a || t.nodes[a].exp)
    ensures forall b :: 0 <= b < |t.nodes| && b != a ==> Delete(t, a).nodes[b] == t.nodes[b]
    ensures t.nodes[a].exp ==> Delete(t, a).nodes[a] == t.nodes[a].(rem := true)
  {
    RemoveMembers(t.active, a);
  }

  /** `unalias -a` leaves active exactly the aliases under expansion, each marked for removal. */
  lemma RemoveAllLeavesExpanded(t: Table, live: seq<nat>)
    requires Inv(t, live)
    ensures Inv(RemoveAll(t), live)
    ensures forall a :: a in RemoveAll(t).active <==> a in live
    ensures forall a :: 0 <= a < |t.nodes| && a in live ==> RemoveAll(t).nodes[a] == t.nodes[a].(rem := true)
  {
    forall i | 0 <= i < |t.active| ensures t.active[i] in t.active {
    }
    DeleteAllKeepsInv(t, t.active, live);
    LiveIsActive(t, live);
  }

  lemma LiveIsActive(t: Table, live: seq<nat>)
    requires Inv(t, live)
    ensures forall a :: a in live ==> a in t.active && a !in t.free
  {
    forall a | a in live ensures a in t.active && a !in t.free {
      assert a < |t.nodes|;
      assert t.nodes[a].exp;
    }
  }

  // ----- Parses in progress -----

  // The expansion lists in use, the innermost last.
  function Flat(lists: seq<seq<nat>>): seq<nat> {
    if lists == [] then [] else Flat(lists[..|lists| - 1]) + lists[|lists| - 1]
  }

  datatype State = State(t: Table, lists: seq<seq<nat>>)

  datatype Op =
    | SaveOp(name: string, value: string, nameOk: bool, valueOk: bool)
    | DeleteOp(name: string)
    | RemoveAllOp
    | Enter
    | Expand(token: string)
    | Leave

  // nsh_alist_add on the innermost list, with its guard on the capacity.
  function AlistAdd(s: State, a: nat): State
    requires s.lists != [] && a < |s.t.nodes|
  {
    var n := |s.lists| - 1;
    if |s.lists[n]| < |s.t.nodes| then State(Mark(s.t, a), s.lists[n := s.lists[n] + [a]]) else s
  }

  ghost predicate Good(s: State) {
    Inv(s.t, Flat(s.lists))
  }

  // An operation that finds no such alias, or no parse in progress, does nothing.
  function Act(s: State, op: Op): State
    requires Good(s)
  {
    match op
    case SaveOp(name, value, nameOk, valueOk) => s.(t := Save(s.t, name, value, nameOk, valueOk).t)
    case DeleteOp(name) => (match Find(s.t, name) case None => s case Some(a) => s.(t := Delete(s.t, a)))
    case RemoveAllOp => s.(t := RemoveAll(s.t))
    case Enter => s.(lists := s.lists + [[]])
    case Expand(token) =>
      if s.lists == [] then s
      else (match Expandable(s.t, token) case None => s case Some(a) => AlistAdd(s, a))
    case Leave =>
      if s.lists == [] then s
      else
        var n := |s.lists| - 1;
        ReleaseKeepsInv(s.t, Flat(s.lists[..n]), s.lists[n]);
        State(ReleaseList(s.t, s.lists[n]), s.lists[..n])
  }

  /**
    The capacity guard never fails: the nodes on a list are distinct and under
    expansion, and the one to be added is not.
  */
  lemma RoomToExpand(t: Table, live: seq<nat>, base: seq<nat>, top: seq<nat>, a: nat)
    requires Inv(t, live) && live == base + top && a < |t.nodes| && !t.nodes[a].exp
    ensures |top| < |t.nodes|
  {
    assert a !in live;
    assert forall i :: 0 <= i < |top| ==> top[i] == live[|base| + i];
    assert NoDup(top) && a !in top && Within(top, |t.nodes|);
    NoDupAppend(top, a);
    Pigeonhole(top + [a], |t.nodes|);
  }

  lemma {:induction false} Pigeonhole(s: seq<nat>, n: nat)
    requires NoDup(s) && Within(s, n)
    ensures |s| <= n
    decreases n
  {
    if s == [] {
    } else {
      assert s[0] < n;
      if n - 1 in s {
        RemoveMembers(s, n - 1);
        RemoveLength(s, n - 1);
        WithinMembers(Remove(s, n - 1), n - 1);
        Pigeonhole(Remove(s, n - 1), n - 1);
      } else {
        assert forall i :: 0 <= i < |s| ==> s[i] in s;
        Pigeonhole(s, n - 1);
      }
    }
  }

  lemma {:induction false} RemoveLength(s: seq<nat>, a: nat)
    requires a in s
    ensures |Remove(s, a)| == |s| - 1
  {
    if s[0] == a {
    } else {
      RemoveLength(s[1..], a);
    }
  }

  lemma ActKeepsGood(s: State, op: Op)
    requires Good(s)
    ensures Good(Act(s, op))
    ensures |Act(s, op).t.nodes| == |s.t.nodes|
  {
    hide Inv;
    var live := Flat(s.lists);
    InvWithin(s.t, live);
    match op
    case SaveOp(name, value, nameOk, valueOk) =>
      SaveKeepsInv(s.t, name, value, nameOk, valueOk, live);
    case DeleteOp(name) =>
      if Find(s.t, name).Some? { DeleteKeepsInv(s.t, Find(s.t, name).value, live); }
    case RemoveAllOp =>
      RemoveAllLeavesExpanded(s.t, live);
    case Enter =>
      FlatPush(s.lists);
    case Expand(token) =>
      if s.lists != [] && Expandable(s.t, token).Some? { ExpandKeepsGood(s, Expandable(s.t, token).value); }
    case Leave =>
      if s.lists != [] {
        ReleaseKeepsInv(s.t, Flat(s.lists[..|s.lists| - 1]), s.lists[|s.lists| - 1]);
      }
  }

  /**
    An alias that is expanded joins the innermost list, and until that list is released it is
    not found again, so that no alias is expanded in its own expansion; the others are found as
    before.
  */
  lemma ExpandOnce(s: State, token: string, a: nat, other: string)
    requires Good(s) && s.lists != [] && Expandable(s.t, token) == Some(a) && other != token
    ensures var u, n := Act(s, Expand(token)), |s.lists| - 1;
            && u.lists == s.lists[n := s.lists[n] + [a]] && Good(u)
            && Expandable(u.t, token) == None
            && Expandable(u.t, other) == Expandable(s.t, other)
  {
    ActKeepsGood(s, Expand(token));
    var n, live, u := |s.lists| - 1, Flat(s.lists), Act(s, Expand(token));
    RoomToExpand(s.t, live, Flat(s.lists[..n]), s.lists[n], a);
    assert u.t == Mark(s.t, a);
    var f := Expandable(u.t, token);
    if f.Some? {
      ExpandableIff(u.t, token, f.value, Flat(u.lists));
    }
    forall b: nat ensures Expandable(u.t, other) == Some(b) <==> Expandable(s.t, other) == Some(b) {
      ExpandableIff(u.t, other, b, Flat(u.lists));
      ExpandableIff(s.t, other, b, live);
    }
    SameOption(Expandable(u.t, other), Expandable(s.t, other));
  }

  lemma SameOption(x: Option<nat>, y: Option<nat>)
    requires forall b: nat :: x == Some(b) <==> y == Some(b)
    ensures x == y
  {
    if x.Some? {
      assert y == Some(x.value);
    }
    if y.Some? {
      assert x == Some(y.value);
    }
  }

  // The aliases under expansion, on any list.
  ghost predicate Busy(s: State, name: string) {
    exists a :: a in Flat(s.lists) && a < |s.t.nodes| && s.t.nodes[a].name == Some(name)
  }

  /** Saving with memory to spare gives the name its value. */
  lemma SavedBy(s: State, name: string, value: string)
    requires Good(s) && name != "" && s.t.free != []
    ensures var u := Act(s, SaveOp(name, value, true, true)); Good(u) && Lookup(u.t, name) == Some(Some(value))
  {
    var live := Flat(s.lists);
    SaveSucceedsIff(s.t, name, value, true, true, live);
    SaveMeaning(s.t, name, value, true, true, name + "x", live);
  }

  /** Deleting a name leaves none, unless it is under expansion; then it stays for the time being. */
  lemma DeletedBy(s: State, name: string)
    requires Good(s)
    ensures var u := Act(s, DeleteOp(name));
            Good(u) && Lookup(u.t, name) == if Busy(s, name) then Lookup(s.t, name) else None
  {
    var live := Flat(s.lists);
    LiveIsActive(s.t, live);
    match Find(s.t, name)
    case None =>
      assert forall a :: a in s.t.active ==> s.t.nodes[a].name != Some(name);
    case Some(a) =>
      DeleteMeaning(s.t, name, name + "x", live);
      BusyIs(s, name, a);
  }

  lemma BusyIs(s: State, name: string, a: nat)
    requires Good(s) && Find(s.t, name) == Some(a)
    ensures Busy(s, name) <==> a in Flat(s.lists)
  {
    LiveIsActive(s.t, Flat(s.lists));
  }

  /** A parse that expands nothing leaves everything as it was. */
  lemma EnterLeave(s: State)
    requires Good(s)
    ensures Good(Act(s, Enter)) && Act(Act(s, Enter), Leave) == s
  {
    FlatPush(s.lists);
    ActKeepsGood(s, Enter);
    assert (s.lists + [[]])[..|s.lists|] == s.lists;
  }

  /** Removing all leaves those under expansion for the time being, and no other. */
  lemma RemovedAll(s: State, name: string)
    requires Good(s)
    ensures var u := Act(s, RemoveAllOp);
            Good(u) && Lookup(u.t, name) == if Busy(s, name) then Lookup(s.t, name) else None
  {
    var live, u := Flat(s.lists), RemoveAll(s.t);
    RemoveAllLeavesExpanded(s.t, live);
    LiveIsActive(s.t, live);
    if Busy(s, name) {
      var a :| a in live && a < |s.t.nodes| && s.t.nodes[a].name == Some(name);
      FindIs(s.t, name, a, live);
      FindIs(u, name, a, live);
    } else {
      FindNone(u, name, live);
    }
  }

  lemma FlatPush(lists: seq<seq<nat>>)
    ensures Flat(lists + [[]]) == Flat(lists)
  {
    assert (lists + [[]])[..|lists|] == lists;
  }

  lemma ExpandKeepsGood(s: State, a: nat)
    requires Good(s) && s.lists != [] && a in s.t.active && a < |s.t.nodes| && !s.t.nodes[a].exp
    ensures Good(AlistAdd(s, a))
    ensures AlistAdd(s, a).t == Mark(s.t, a)
  {
    var n := |s.lists| - 1;
    var base, top := Flat(s.lists[..n]), s.lists[n];
    RoomToExpand(s.t, Flat(s.lists), base, top, a);
    MarkKeepsInv(s.t, a, Flat(s.lists));
    var lists := s.lists[n := top + [a]];
    assert lists[..n] == s.lists[..n];
    assert Flat(lists) == base + (top + [a]) == Flat(s.lists) + [a];
  }

  ghost function Run(s: State, ops: seq<Op>): (r: State)
    requires Good(s)
    ensures Good(r) && |r.t.nodes| == |s.t.nodes|
    decreases |ops|
  {
    if ops == [] then s else (ActKeepsGood(s, ops[0]); Run(Act(s, ops[0]), ops[1..]))
  }

  /**
    Over every run: the lists partition the table, each node standing once; active names
    are distinct and free nodes are blank; an alias is marked as under expansion exactly if
    it is on one of the expansion lists in use, on which it stands once, and is then
    active; only such an alias is marked for removal; and when no parse is in progress no
    node carries a mark.
  */
  lemma EveryRun(size: nat, ops: seq<Op>)
    ensures var s0 := State(Init(Table(seq(size, _ => BLANK), [], [])), []);
            Good(s0) &&
            var s := Run(s0, ops);
            var live := Flat(s.lists);
            && |s.t.nodes| == size
            && NoDup(s.t.active) && NoDup(s.t.free) && NoDup(live)
            && (forall a, b :: 0 <= a < b < size && a in s.t.active && b in s.t.active ==>
                  s.t.nodes[a].name != s.t.nodes[b].name)
            && (forall a :: 0 <= a < size ==>
                  && (a in s.t.active <==> a !in s.t.free)
                  && (a in s.t.active ==> s.t.nodes[a].name.Some?)
                  && (a in s.t.free ==> s.t.nodes[a] == BLANK)
                  && (s.t.nodes[a].exp <==> a in live)
                  && (a in live ==> a in s.t.active)
                  && (s.t.nodes[a].rem ==> s.t.nodes[a].exp)
                  && (s.lists == [] ==> !s.t.nodes[a].exp && !s.t.nodes[a].rem))
  {
    var t0 := Table(seq(size, _ => BLANK), [], []);
    InitKeepsInv(t0);
    var s0 := State(Init(t0), []);
    var s := Run(s0, ops);
    LiveIsActive(s.t, Flat(s.lists));
    MarksImply(s.t, Flat(s.lists));
    assert forall a :: a in s.t.active ==> ActiveNode(s.t.nodes[a]);
  }

  lemma MarksImply(t: Table, live: seq<nat>)
    requires Inv(t, live)
    ensures forall a :: 0 <= a < |t.nodes| ==> (t.nodes[a].rem ==> t.nodes[a].exp)
  {
    forall a | 0 <= a < |t.nodes| ensures t.nodes[a].rem ==> t.nodes[a].exp {
      if a in t.active {
        assert ActiveNode(t.nodes[a]);
      } else {
        assert t.nodes[a] == BLANK;
      }
    }
  }

  // ----- In place -----

  class Aliases {
    const atab: array<Node>
    var alist: seq<nat>
    var afreelist: seq<nat>
    var lists: seq<seq<nat>>

    function Contents(): Table
      reads this, atab
    {
      Table(atab[..], alist, afreelist)
    }

    function Now(): State
      reads this, atab
    {
      State(Contents(), lists)
    }

    constructor (size: nat)
      ensures Now() == State(Table(seq(size, _ => BLANK), [], []), [])
      ensures fresh(atab)
    {
      atab := new Node[size](_ => BLANK);
      alist, afreelist, lists := [], [], [];
      new;
      assert atab[..] == seq(size, _ => BLANK);
    }

    method AliasInit()
      modifies this`afreelist
      ensures Contents() == Init(old(Contents()))
    {
      if alist != [] || afreelist != [] {
        return;
      }
      var i := 0;
      while i < atab.Length
        invariant i <= atab.Length && afreelist == Range(i)
      {
        afreelist := afreelist + [i];
        i := i + 1;
      }
    }

    method AliasFind(name: string) returns (r: Option<nat>)
      requires Within(alist, atab.Length)
      ensures r == Find(Contents(), name)
    {
      var rest := alist;
      while rest != []
        invariant Within(rest, atab.Length)
        invariant FindIn(Contents(), rest, name) == Find(Contents(), name)
        decreases |rest|
      {
        if atab[rest[0]].name == Some(name) {
          return Some(rest[0]);
        }
        rest := rest[1..];
      }
      return None;
    }

    method AliasDelete(alias: nat)
      requires alias < atab.Length
      modifies this`alist, this`afreelist, atab
      ensures Contents() == Delete(old(Contents()), alias)
    {
      if atab[alias].exp {
        atab[alias] := atab[alias].(rem := true);
        return;
      }
      atab[alias] := Node(None, None, false, false);
      alist := Remove(alist, alias);
      afreelist := [alias] + afreelist;
    }

    method AliasSave(name: string, value: string, nameOk: bool, valueOk: bool) returns (status: Status)
      requires Good(Now())
      modifies this`alist, this`afreelist, atab
      ensures Saved(Contents(), status) == Save(old(Contents()), name, value, nameOk, valueOk)
      ensures Good(Now())
    {
      hide Inv, Remove, NoDup, Flat;
      SaveKeepsInv(Contents(), name, value, nameOk, valueOk, Flat(lists));
      InvWithin(Contents(), Flat(lists));
      if name == "" {
        return Invalid;
      }
      var copy := if valueOk then Some(value) else None;
      var alias := AliasFind(name);
      if alias.Some? {
        atab[alias.value] := atab[alias.value].(value := copy);
      } else if afreelist != [] {
        alias := Some(afreelist[0]);
        afreelist := afreelist[1..];
        atab[alias.value] := atab[alias.value].(name := if nameOk then Some(name) else None, value := copy);
        alist := alist + [alias.value];
      }
      if alias.None? || atab[alias.value].name.None? || atab[alias.value].value.None? {
        if alias.Some? {
          AliasDelete(alias.value);
        }
        return NoMemory;
      }
      return Ok;
    }

    method AliasRemoveAll()
      requires Good(Now())
      modifies this`alist, this`afreelist, atab
      ensures Contents() == RemoveAll(old(Contents()))
      ensures Good(Now())
    {
      RemoveAllLeavesExpanded(Contents(), Flat(lists));
      var rest := alist;
      while rest != []
        invariant Within(rest, atab.Length)
        invariant DeleteAll(Contents(), rest) == RemoveAll(old(Contents()))
        decreases |rest|
      {
        var next := rest[1..];
        AliasDelete(rest[0]);
        rest := next;
      }
    }

    method NshAliasFind(token: string) returns (r: Option<nat>)
      requires Within(alist, atab.Length)
      ensures r == Expandable(Contents(), token)
    {
      var alias := AliasFind(token);
      if alias.Some? && !atab[alias.value].exp && atab[alias.value].value.Some? {
        return alias;
      }
      return None;
    }

    // A parse of a command begins, with an empty expansion list.
    method AlistInit()
      requires Good(Now())
      modifies this`lists
      ensures Now() == Act(old(Now()), Enter) && Good(Now())
    {
      FlatPush(lists);
      lists := lists + [[]];
    }

    /** nsh_aliasexpand, as far as the tables go: the alias found joins the innermost list. */
    method AliasExpand(token: string) returns (r: Option<nat>)
      requires Good(Now()) && lists != []
      modifies this`lists, atab
      ensures Now() == Act(old(Now()), Expand(token)) && Good(Now())
      ensures r == Expandable(old(Contents()), token)
    {
      ActKeepsGood(Now(), Expand(token));
      r := NshAliasFind(token);
      if r.Some? {
        var n := |lists| - 1;
        if |lists[n]| < atab.Length {
          atab[r.value] := atab[r.value].(exp := true);
          lists := lists[n := lists[n] + [r.value]];
        }
      }
    }

    // nsh_alist_free on the innermost list; the parse is over.
    method AlistFree()
      requires Good(Now()) && lists != []
      modifies this, atab
      ensures Now() == Act(old(Now()), Leave) && Good(Now())
    {
      hide Inv, Released, Remove, NoDup;
      ActKeepsGood(Now(), Leave);
      var n := |lists| - 1;
      ReleaseKeepsInv(Contents(), Flat(lists[..n]), lists[n]);
      var index := 0;
      while index < |lists[n]|
        invariant lists == old(lists) && index <= |lists[n]| && Within(lists[n], atab.Length)
        invariant ReleaseList(Contents(), lists[n][index..]) == ReleaseList(old(Contents()), lists[n])
      {
        var alias := lists[n][index];
        ghost var rest := lists[n][index..];
        assert rest[0] == alias && rest[1..] == lists[n][index + 1..];
        atab[alias] := atab[alias].(exp := false);
        if atab[alias].rem {
          AliasDelete(alias);
        }
        index := index + 1;
      }
      lists := lists[..n];
    }
  }
}
