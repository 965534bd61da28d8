/** Open upvalues and to-be-closed variables of a thread. */
module Upvalues {
  datatype UpVal = UpVal(id: nat, level: nat)

  // ----- lists of open upvalues -----

  /** Strictly descending by stack level: one upvalue for each level. */
  ghost predicate Descending(s: seq<UpVal>) {
    forall i, j :: 0 <= i < j < |s| ==> s[i].level > s[j].level
  }

  ghost predicate DistinctIds(s: seq<UpVal>) {
    forall i, j :: 0 <= i < j < |s| ==> s[i].id != s[j].id
  }

  /** The first 'n' upvalues are those at or above 'level'. */
  ghost predicate SplitsAt(s: seq<UpVal>, level: nat, n: nat) {
    && n <= |s|
    && (forall i :: 0 <= i < n ==> s[i].level >= level)
    && (forall i :: n <= i < |s| ==> s[i].level < level)
  }

  /** Levels are in the stack, and ids are those of upvalues that are not closed. */
  ghost predicate OpenOk<V>(s: seq<UpVal>, height: nat, closed: map<nat, V>, nextId: nat) {
    forall i :: 0 <= i < |s| ==> s[i].level < height && s[i].id < nextId && s[i].id !in closed
  }

  ghost function Inserted(s: seq<UpVal>, n: nat, u: UpVal): seq<UpVal>
    requires n <= |s|
  {
    s[..n] + [u] + s[n..]
  }

  lemma InsertKeeps(s: seq<UpVal>, n: nat, u: UpVal)
    requires Descending(s) && DistinctIds(s) && SplitsAt(s, u.level, n)
    requires forall i :: 0 <= i < |s| ==> s[i].level != u.level && s[i].id != u.id
    ensures Descending(Inserted(s, n, u)) && DistinctIds(Inserted(s, n, u)) && u in Inserted(s, n, u)
  {
    var t := Inserted(s, n, u);
    assert t[n] == u;
    assert forall i :: 0 <= i < |t| ==> t[i] == if i < n then s[i] else if i == n then u else s[i - 1];
  }

  lemma InsertOk<V>(s: seq<UpVal>, n: nat, u: UpVal, height: nat, closed: map<nat, V>, nextId: nat)
    requires OpenOk(s, height, closed, nextId) && n <= |s| && u.level < height && u.id == nextId && nextId !in closed
    ensures OpenOk(Inserted(s, n, u), height, closed, nextId + 1)
  {
    var t := Inserted(s, n, u);
    assert forall i :: 0 <= i < |t| ==> t[i] == if i < n then s[i] else if i == n then u else s[i - 1];
  }

  /** Upvalue 'u' stands for value 'v', in its own slot or in the stack. */
  ghost predicate StandsFor<V>(s: seq<UpVal>, stack: seq<V>, closed: map<nat, V>, u: nat, v: V) {
    || (u in closed && closed[u] == v)
    || exists i :: 0 <= i < |s| && s[i].id == u && s[i].level < |stack| && stack[s[i].level] == v
  }

  class Thread<V(!new)> {
    var stack: seq<V>
    var openupval: seq<UpVal>      // the list, from the highest level down
    var closed: map<nat, V>        // closed upvalues own their value
    var nextId: nat

    ghost predicate Valid()
      reads this
    {
      && Descending(openupval) && DistinctIds(openupval) && OpenOk(openupval, |stack|, closed, nextId)
      && forall u :: u in closed ==> u < nextId
    }

    constructor (stack: seq<V>)
      ensures Valid() && this.stack == stack && openupval == []
    {
      this.stack, openupval, closed, nextId := stack, [], map[], 0;
    }

    /** 'luaF_findupval': the upvalue of that level, made if there was none. */
    method FindUpval(level: nat) returns (u: UpVal)
      requires Valid() && level < |stack|
      modifies this`openupval, this`nextId
      ensures Valid() && u.level == level && u in openupval
      ensures (exists i :: 0 <= i < |old(openupval)| && old(openupval)[i].level == level) ==> openupval == old(openupval)
      ensures openupval == old(openupval) ||
        exists n: nat :: SplitsAt(old(openupval), level, n) && openupval == Inserted(old(openupval), n, u)
    {
      hide DistinctIds, OpenOk;
      var pp := 0;
      while pp < |openupval| && openupval[pp].level >= level
        invariant 0 <= pp <= |openupval| && forall i :: 0 <= i < pp ==> openupval[i].level > level
      {
        if openupval[pp].level == level {
          return openupval[pp];
        }
        pp := pp + 1;
      }
      assert forall i :: pp <= i < |openupval| ==> openupval[i].level < level;
      u := NewUpval(level, pp);
    }

    /** 'newupval', linked before position 'pp'. */
    method NewUpval(level: nat, pp: nat) returns (u: UpVal)
      requires Valid() && level < |stack| && SplitsAt(openupval, level, pp)
      requires forall i :: 0 <= i < |openupval| ==> openupval[i].level != level
      modifies this`openupval, this`nextId
      ensures Valid() && u.level == level && u in openupval && openupval == Inserted(old(openupval), pp, u)
    {
      u := UpVal(nextId, level);
      InsertKeeps(openupval, pp, u);
      InsertOk(openupval, pp, u, |stack|, closed, nextId);
      nextId := nextId + 1;
      openupval := openupval[..pp] + [u] + openupval[pp..];
    }

    /** 'luaF_closeupval': exactly the upvalues at or above 'level' are closed, and every
        upvalue keeps its value. */
    method CloseUpval(level: nat) returns (ghost n: nat)
      requires Valid()
      modifies this`openupval, this`closed
      ensures Valid() && SplitsAt(old(openupval), level, n) && openupval == old(openupval)[n..]
      ensures closed.Keys == old(closed).Keys + IdsOf(old(openupval)[..n])
      ensures forall u, v :: StandsFor(old(openupval), stack, old(closed), u, v) ==> StandsFor(openupval, stack, closed, u, v)
    {
      n := 0;
      ghost var was, wasClosed := openupval, closed;
      assert was[..0] == [] && was[0..] == was;
      while openupval != [] && openupval[0].level >= level
        invariant 0 <= n <= |was| && openupval == was[n..] && Valid()
        invariant forall i :: 0 <= i < n ==> was[i].level >= level
        invariant closed.Keys == wasClosed.Keys + IdsOf(was[..n])
        invariant forall u, v :: StandsFor(was, stack, wasClosed, u, v) ==> StandsFor(openupval, stack, closed, u, v)
        decreases |openupval|
      {
        hide StandsFor, Descending, DistinctIds, OpenOk;
        assert was[n] == was[n..][0];
        IdsNext(was, n);
        CloseFirst();
        n := n + 1;
      }
      LowRest(was, n, level);
    }

    /** Unlink the first upvalue and move its value into it. */
    method CloseFirst()
      requires Valid() && openupval != []
      modifies this`openupval, this`closed
      ensures Valid() && openupval == old(openupval)[1..]
      ensures closed.Keys == old(closed).Keys + {old(openupval)[0].id}
      ensures forall u, v :: StandsFor(old(openupval), stack, old(closed), u, v) ==> StandsFor(openupval, stack, closed, u, v)
    {
      var uv := openupval[0];
      forall u, v | StandsFor(openupval, stack, closed, u, v)
        ensures StandsFor(openupval[1..], stack, closed[uv.id := stack[uv.level]], u, v)
      {
        MoveValue(openupval, stack, closed, u, v);
      }
      openupval := openupval[1..];
      closed := closed[uv.id := stack[uv.level]];
    }
  }

  lemma MoveValue<V>(s: seq<UpVal>, stack: seq<V>, closed: map<nat, V>, u: nat, v: V)
    requires s != [] && DistinctIds(s) && s[0].level < |stack| && s[0].id !in closed && StandsFor(s, stack, closed, u, v)
    ensures StandsFor(s[1..], stack, closed[s[0].id := stack[s[0].level]], u, v)
  {
    if !(u in closed && closed[u] == v) {
      var i :| 0 <= i < |s| && s[i].id == u && s[i].level < |stack| && stack[s[i].level] == v;
      if i > 0 {
        assert s[1..][i - 1] == s[i];
      }
    }
  }

  ghost function IdsOf(s: seq<UpVal>): set<nat> {
    set i | 0 <= i < |s| :: s[i].id
  }

  lemma IdsNext(s: seq<UpVal>, n: nat)
    requires n < |s|
    ensures IdsOf(s[..n + 1]) == IdsOf(s[..n]) + {s[n].id}
  {
    var a, b := s[..n], s[..n + 1];
    assert forall i :: 0 <= i < n ==> a[i] == b[i];
    assert b[n] == s[n];
  }

  lemma LowRest(s: seq<UpVal>, n: nat, level: nat)
    requires Descending(s) && n <= |s| && (forall i :: 0 <= i < n ==> s[i].level >= level)
    requires s[n..] == [] || s[n..][0].level < level
    ensures SplitsAt(s, level, n)
  {
    if n < |s| {
      assert s[n..][0] == s[n];
    }
  }

  // ----- to-be-closed variables -----

  const MAXDELTA: nat := 65535    // the largest 'unsigned short'

  /** 'p' is at a whole number of maximal deltas above 'prev'. */
  ghost predicate OnGrid(prev: nat, p: nat) {
    prev <= p && (p - prev) % 65535 == 0
  }

  /** From the variable at 'level', one step back by its delta and then over dummy nodes leads to
      'prev'. */
  ghost predicate StepsBack(delta: seq<nat>, prev: nat, level: nat) {
    && prev < level < |delta| && 0 < delta[level] <= 65535 && level - delta[level] >= prev
    && OnGrid(prev, level - delta[level]) && (prev == 0 || delta[prev] > 0)
    && forall p :: prev < p <= level - delta[level] && OnGrid(prev, p) ==> delta[p] == 0
  }

  ghost function Top(vars: seq<nat>): nat {
    if vars == [] then 0 else vars[|vars| - 1]
  }

  ghost function Below(vars: seq<nat>): seq<nat> {
    if vars == [] then [] else vars[..|vars| - 1]
  }

  /** 'vars' are the to-be-closed variables, from the bottom of the stack up. */
  ghost predicate TbcList(delta: seq<nat>, tbclist: nat, vars: seq<nat>)
    decreases |vars|
  {
    && tbclist == Top(vars)
    && (vars != [] ==> StepsBack(delta, Top(Below(vars)), tbclist) && TbcList(delta, Top(Below(vars)), Below(vars)))
  }

  class TbcStack {
    var delta: seq<nat>     // the field 'tbclist.delta' of each stack slot
    var tbclist: nat
    ghost var vars: seq<nat>

    ghost predicate Valid()
      reads this
    {
      TbcList(delta, tbclist, vars)
    }

    constructor (height: nat)
      ensures Valid() && vars == [] && |delta| == height
    {
      delta, tbclist, vars := seq(height, _ => 0), 0, [];
    }

    /** 'luaF_newtbcupval': dummy nodes bridge distances that do not fit in a delta. */
    method Push(level: nat)
      requires Valid() && tbclist < level < |delta|
      modifies this
      ensures Valid() && vars == old(vars) + [level] && |delta| == old(|delta|)
    {
      hide OnGrid;
      ghost var was, prev := delta, tbclist;
      OnGridSelf(prev);
      while level - tbclist > MAXDELTA
        invariant prev <= tbclist < level && OnGrid(prev, tbclist) && |delta| == |was| && vars == old(vars)
        invariant forall p :: 0 <= p <= prev && p < |was| ==> delta[p] == was[p]
        invariant forall p :: prev < p <= tbclist && OnGrid(prev, p) ==> delta[p] == 0
        decreases level - tbclist
      {
        NextDummy(prev, tbclist);
        tbclist := tbclist + MAXDELTA;
        delta := delta[tbclist := 0];
      }
      delta := delta[level := level - tbclist];
      tbclist := level;
      vars := vars + [level];
      TopPositive(was, prev, old(vars));
      Pushed(was, delta, prev, level, old(vars));
    }

    /** 'poptbclist': the push of the last variable is undone, dummy nodes included. */
    method Pop()
      requires Valid() && vars != []
      modifies this`tbclist, this`vars
      ensures Valid() && vars == Below(old(vars))
    {
      hide OnGrid;
      ghost var level, prev := tbclist, Top(Below(vars));
      assert StepsBack(delta, prev, level);
      var tbc := tbclist - delta[tbclist];
      while tbc > 0 && delta[tbc] == 0
        invariant prev <= tbc <= level - delta[level] && OnGrid(prev, tbc)
        invariant vars == old(vars) && tbclist == level
        decreases tbc
      {
        StillAbove(delta, prev, tbc);
        tbc := tbc - MAXDELTA;
      }
      NoDummyLeft(delta, prev, level, tbc);
      tbclist := tbc;
      vars := vars[..|vars| - 1];
    }

    /** The loop of 'luaF_close': the variables at or above 'level' are closed, last one first. */
    method CloseFrom(level: nat) returns (closed: seq<nat>)
      requires Valid() && level > 0
      modifies this`tbclist, this`vars
      ensures Valid() && tbclist < level && (forall i :: 0 <= i < |closed| ==> closed[i] >= level)
      ensures exists rest: seq<nat> :: old(vars) == vars + rest && closed == Backward(rest)
    {
      closed := [];
      ghost var rest: seq<nat> := [];
      assert vars + rest == old(vars);
      hide TbcList, Below, Top;
      TopIsTbc(delta, tbclist, vars);
      while tbclist >= level
        invariant Valid() && old(vars) == vars + rest && closed == Backward(rest) && (vars == [] ==> tbclist == 0)
        invariant forall i :: 0 <= i < |closed| ==> closed[i] >= level
        decreases |vars|
      {
        BelowShorter(vars);
        BackwardFront(tbclist, rest);
        TopAgain(delta, tbclist, vars, rest);
        rest := [tbclist] + rest;
        closed := closed + [tbclist];
        Pop();
        TopIsTbc(delta, tbclist, vars);
      }
    }
  }

  /** 's' from its last element to its first. */
  ghost function Backward(s: seq<nat>): seq<nat> {
    if s == [] then [] else [s[|s| - 1]] + Backward(s[..|s| - 1])
  }

  lemma {:induction false} BackwardFront(x: nat, s: seq<nat>)
    ensures Backward([x] + s) == Backward(s) + [x]
  {
    if s == [] {
      assert [x] + s == [x];
    } else {
      var t := [x] + s;
      assert t[|t| - 1] == s[|s| - 1] && t[..|t| - 1] == [x] + s[..|s| - 1];
      BackwardFront(x, s[..|s| - 1]);
    }
  }

  lemma TopAgain(delta: seq<nat>, tbclist: nat, vars: seq<nat>, rest: seq<nat>)
    requires TbcList(delta, tbclist, vars) && vars != []
    ensures Below(vars) + ([tbclist] + rest) == vars + rest
  {
    assert vars == Below(vars) + [tbclist];
  }

  lemma TopIsTbc(delta: seq<nat>, tbclist: nat, vars: seq<nat>)
    requires TbcList(delta, tbclist, vars)
    ensures vars == [] ==> tbclist == 0
  {
  }

  lemma BelowShorter(vars: seq<nat>)
    ensures vars != [] ==> |Below(vars)| < |vars|
  {
  }

  lemma OnGridSelf(prev: nat)
    ensures OnGrid(prev, prev)
  {
  }

  lemma NextDummy(prev: nat, tbc: nat)
    requires OnGrid(prev, tbc)
    ensures OnGrid(prev, tbc + MAXDELTA)
    ensures forall p: nat :: tbc < p < tbc + MAXDELTA ==> !OnGrid(prev, p)
  {
  }

  lemma StillAbove(delta: seq<nat>, prev: nat, tbc: nat)
    requires OnGrid(prev, tbc) && 0 < tbc < |delta| && delta[tbc] == 0 && (prev == 0 || (prev < |delta| && delta[prev] > 0))
    ensures tbc - MAXDELTA >= prev && OnGrid(prev, tbc - MAXDELTA)
  {
    assert tbc != prev;
  }

  lemma NoDummyLeft(delta: seq<nat>, prev: nat, level: nat, tbc: nat)
    requires StepsBack(delta, prev, level) && prev <= tbc <= level - delta[level] && OnGrid(prev, tbc)
    requires tbc == 0 || delta[tbc] > 0
    ensures tbc == prev
  {
  }

  lemma TopPositive(delta: seq<nat>, tbclist: nat, vars: seq<nat>)
    requires TbcList(delta, tbclist, vars)
    ensures tbclist == 0 || (tbclist < |delta| && delta[tbclist] > 0)
  {
  }

  lemma Pushed(was: seq<nat>, delta: seq<nat>, prev: nat, level: nat, vars: seq<nat>)
    requires TbcList(was, prev, vars) && |delta| == |was| && (forall p :: 0 <= p <= prev && p < |was| ==> delta[p] == was[p])
    requires prev < level < |delta| && 0 < delta[level] <= MAXDELTA && level - delta[level] >= prev
    requires OnGrid(prev, level - delta[level])
    requires (prev == 0 || delta[prev] > 0) && forall p :: prev < p <= level - delta[level] && OnGrid(prev, p) ==> delta[p] == 0
    ensures TbcList(delta, level, vars + [level])
  {
    assert StepsBack(delta, prev, level);
    SamePrefix(was, delta, prev, vars);
    hide StepsBack;
    OneMore(delta, prev, level, vars);
  }

  lemma OneMore(delta: seq<nat>, prev: nat, level: nat, vars: seq<nat>)
    requires TbcList(delta, prev, vars) && StepsBack(delta, prev, level)
    ensures TbcList(delta, level, vars + [level])
  {
    hide StepsBack;
    var vars2 := vars + [level];
    assert Below(vars2) == vars && Top(vars2) == level && Top(vars) == prev;
  }

  /** A list depends on the slots up to its first node only. */
  lemma {:induction false} SamePrefix(was: seq<nat>, delta: seq<nat>, tbclist: nat, vars: seq<nat>)
    requires TbcList(was, tbclist, vars) && |delta| == |was| && forall p :: 0 <= p <= tbclist && p < |was| ==> delta[p] == was[p]
    ensures TbcList(delta, tbclist, vars)
    decreases |vars|
  {
    if vars != [] {
      SamePrefix(was, delta, Top(Below(vars)), Below(vars));
    }
  }
}
