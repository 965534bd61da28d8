/** Going through code when an expression is true or false: 'luaK_goiftrue', 'luaK_goiffalse'
    and the composition of operands by 'and' and 'or'. */
module CodeBranch {
  import opened Options
  import opened CodeMachine
  import opened CodeLists
  import opened CodeMeaning

  // ----- no jump needed -----

  /** A constant that is never 'cond' needs no jump. */
  ghost predicate NeverIs(k: Kind, cond: bool) {
    match k
    case VNil => cond
    case VFalse => cond
    case VTrue => !cond
    case VK(c) => Truthy(c) && !cond
    case _ => false
  }

  lemma NoTest(e: Ast, code: seq<Instr>, start: nat, d: ExpDesc, tl: seq<nat>, fl: seq<nat>, cond: bool, n: nat)
    requires Shape(code, start, d, tl, fl) && Sound(e, code, start, d.k, tl, fl, n) && NeverIs(d.k, cond)
    ensures BranchShape(code, start, d, tl, fl, NO_JUMP, []) && Branch(e, code, start, tl, fl, [], cond, n)
  {
    assert SetOf([]) == {};
    assert Pend(tl, fl) + SetOf([]) == Pend(tl, fl);
    hide Exec, Same, PendOk, ListsOk;
    var pl: seq<nat> := [];
    forall env: Env, regs: Regs
      ensures Branches(env, e, regs, code, start, tl, fl, pl, cond, n)
    {
      assert Means(env, e, regs, code, start, d.k, tl, fl, n);
    }
  }

  // ----- closing the lists -----

  /** The code once the jumps 'pl' are in the list of 'cond' and the other list comes here. */
  ghost function Closed(code: seq<Instr>, mine: seq<nat>, pc: int, other: seq<nat>): (code3: seq<Instr>)
    ensures |code3| == |code|
  {
    Patched(Linked(code, mine, pc), other, |code|, None, |code|)
  }

  /** Where the closed code differs: on the jumps, and on tests of the other list. */
  lemma ClosedAt(code: seq<Instr>, mine: seq<nat>, pc: int, other: seq<nat>, i: nat)
    requires i < |code|
    ensures var code3 := Closed(code, mine, pc, other);
      && (i in other ==> code3[i] == Jmp(|code| - (i + 1)))
      && (i !in other && i !in mine ==>
            code3[i] == if i + 1 in other && code[i].TestSet? then Test(code[i].b, code[i].k) else code[i])
  {
  }

  lemma PassesClosed(env: Env, e: Ast, regs: Regs, code: seq<Instr>, start: nat, tl: seq<nat>, fl: seq<nat>,
                     pl: seq<nat>, pc: int, cond: bool, n: nat)
    requires PendOk(code, start, |code|, Pend(tl, fl) + SetOf(pl))
    requires Disjoint(tl, fl) && Disjoint(tl, pl) && Disjoint(fl, pl)
    requires Branches(env, e, regs, code, start, tl, fl, pl, cond, n)
    ensures var mine, other := if cond then tl else fl, if cond then fl else tl;
      Passes(env, e, regs, Closed(code, mine, pc, other), start, mine + pl, cond, n)
  {
    var mine, other := if cond then tl else fl, if cond then fl else tl;
    var pend := Pend(tl, fl) + SetOf(pl);
    assert Disjoint(mine, other) || Disjoint(other, mine);
    assert pend == Pend(mine, other) + SetOf(pl) || pend == Pend(other, mine) + SetOf(pl);
    hide Exec, Disjoint, Closed, Pend, PendOk, SetOf, Eval, Same, InLists, Carries, Passes;
    ClosedRuns(env, regs, code, start, mine, pc, other, pl, pend);
    PassesFrom(env, e, regs, code, Closed(code, mine, pc, other), start, tl, fl, pl, cond, n, Exec(env, code, start, regs, pend, |code|));
  }

  /** Leaving by one's own list or the new jump passes; leaving by the other list goes through. */
  lemma PassesFrom(env: Env, e: Ast, regs: Regs, code: seq<Instr>, code3: seq<Instr>, start: nat, tl: seq<nat>, fl: seq<nat>,
                   pl: seq<nat>, cond: bool, n: nat, x: Exit)
    requires |code3| == |code| && !x.Stuck?
    requires x.Fall? ==> x.pc == |code| && Same(regs, x.regs, n) && Truthy(Eval(env, e, regs)) == !cond
    requires x.Taken? ==>
      && Same(regs, x.regs, n) && 0 < x.p < |code|
      && (InLists(code, x.p, x.regs, Eval(env, e, regs), tl, fl) || (x.p in pl && Carries(code[x.p - 1], x.regs, Eval(env, e, regs), cond)))
    requires var mine, other := if cond then tl else fl, if cond then fl else tl;
      && Exec(env, code3, start, regs, SetOf(mine + pl), |code|) == (if x.Taken? && x.p in other then Fall(|code|, x.regs) else x)
      && (x.Taken? && x.p !in other ==> x.p in mine + pl && code3[x.p - 1] == code[x.p - 1])
      && (x.Taken? && x.p in other ==> x.p !in mine && x.p !in pl)
    ensures Passes(env, e, regs, code3, start, (if cond then tl else fl) + pl, cond, n)
  {
    hide Exec, SetOf, Eval, Same;
  }

  /** A run of the closed code: jumps of the other list fall through, the rest stay pending. */
  lemma ClosedRuns(env: Env, regs: Regs, code: seq<Instr>, start: nat, mine: seq<nat>, pc: int, other: seq<nat>, pl: seq<nat>, pend: set<nat>)
    requires PendOk(code, start, |code|, pend) && Disjoint(other, pl) && (Disjoint(mine, other) || Disjoint(other, mine))
    requires pend == Pend(mine, other) + SetOf(pl) || pend == Pend(other, mine) + SetOf(pl)
    requires !Exec(env, code, start, regs, pend, |code|).Stuck?
    ensures var x, code3 := Exec(env, code, start, regs, pend, |code|), Closed(code, mine, pc, other);
      && Exec(env, code3, start, regs, SetOf(mine + pl), |code|) == (if x.Taken? && x.p in other then Fall(|code|, x.regs) else x)
      && (x.Taken? ==> 0 < x.p < |code| && (x.p in other || x.p in mine || x.p in pl))
      && (x.Taken? && x.p !in other ==> x.p in mine + pl && code3[x.p - 1] == code[x.p - 1])
      && (x.Taken? && x.p in other ==> x.p !in mine && x.p !in pl)
  {
    hide Disjoint, Closed;
    var pend2, x := SetOf(mine + pl), Exec(env, code, start, regs, pend, |code|);
    ClosedRelated(code, start, mine, pc, other, pl, pend);
    ExecPatched(env, code, Closed(code, mine, pc, other), start, regs, pend, pend2, |code|);
    TakenIsPending(env, code, start, regs, pend, |code|);
    if x.Taken? {
      assert TestedJump(code, x.p);
      NotPending(code, start, |code|, pend, x.p - 1);
      MemberOf(mine, other, pl, x.p, pend);
      ClosedTaken(env, code, mine, pc, other, x.p, x.regs, pend2);
    }
  }

  /** A jump of the other list falls through; any other one keeps its test. */
  lemma ClosedTaken(env: Env, code: seq<Instr>, mine: seq<nat>, pc: int, other: seq<nat>, p: nat, regs: Regs, pend2: set<nat>)
    requires TestedJump(code, p) && p - 1 !in mine && p - 1 !in other && (p in other ==> p !in pend2)
    ensures var code3 := Closed(code, mine, pc, other);
      if p in other then Exec(env, code3, p, Written(code3[p - 1], regs), pend2, |code|) == Fall(|code|, regs)
      else code3[p - 1] == code[p - 1]
  {
    hide Closed;
    var code3 := Closed(code, mine, pc, other);
    ClosedAt(code, mine, pc, other, p);
    ClosedAt(code, mine, pc, other, p - 1);
    if p in other {
      assert Written(code3[p - 1], regs) == regs;
      assert Exec(env, code3, |code|, regs, pend2, |code|) == Fall(|code|, regs);
    }
  }

  lemma NotPending(code: seq<Instr>, start: nat, end: nat, pend: set<nat>, i: nat)
    requires PendOk(code, start, end, pend) && i < |code| && !code[i].Jmp?
    ensures i !in pend
  {
    assert i in pend ==> TestedJump(code, i);
  }

  lemma MemberOf(mine: seq<nat>, other: seq<nat>, pl: seq<nat>, p: nat, pend: set<nat>)
    requires p in pend && (pend == Pend(mine, other) + SetOf(pl) || pend == Pend(other, mine) + SetOf(pl))
    requires Disjoint(mine, other) || Disjoint(other, mine)
    requires Disjoint(other, pl)
    ensures p in SetOf(mine + pl) <==> p !in other
    ensures p in SetOf(mine + pl) <==> p in mine || p in pl
    ensures p in mine ==> p !in other
    ensures p in pl ==> p !in other
  {
    if p in other {
      var i :| 0 <= i < |other| && other[i] == p;
    }
  }

  lemma ClosedRelated(code: seq<Instr>, start: nat, mine: seq<nat>, pc: int, other: seq<nat>, pl: seq<nat>, pend: set<nat>)
    requires PendOk(code, start, |code|, pend)
    requires pend == Pend(mine, other) + SetOf(pl) || pend == Pend(other, mine) + SetOf(pl)
    ensures Related(code, Closed(code, mine, pc, other), start, |code|, pend, SetOf(mine + pl))
  {
    var code3 := Closed(code, mine, pc, other);
    assert forall p :: p in SetOf(mine + pl) ==> p in pend;
    forall i | start <= i < |code|
      ensures SameAt(code, code3, i, pend, SetOf(mine + pl))
    {
      if i in pend {
        assert TestedJump(code, i);
      } else {
        ClosedAt(code, mine, pc, other, i);
        if i + 1 in pend {
          assert TestedJump(code, i + 1);
        }
      }
    }
  }

  lemma ClosedLists(code: seq<Instr>, start: nat, d: ExpDesc, tl: seq<nat>, fl: seq<nat>, pc: int, pl: seq<nat>, cond: bool)
    requires BranchShape(code, start, d, tl, fl, pc, pl)
    ensures var mine, other := if cond then tl else fl, if cond then fl else tl;
      var code3 := Closed(code, mine, pc, other);
      && IsList(code3, if mine == [] then pc else if cond then d.t else d.f, mine + pl)
      && PendOk(code3, start, |code|, SetOf(mine + pl))
  {
    var mine, other := if cond then tl else fl, if cond then fl else tl;
    var l := if cond then d.t else d.f;
    var pend := Pend(tl, fl) + SetOf(pl);
    assert IsList(code, l, mine) && Disjoint(mine, pl) && Disjoint(other, pl) && (Disjoint(mine, other) || Disjoint(other, mine));
    assert pend == Pend(mine, other) + SetOf(pl) || pend == Pend(other, mine) + SetOf(pl);
    hide IsList, Disjoint, Closed, Pend;
    ClosedPending(code, start, mine, other, pl, pc, pend);
    ClosedJoin(code, start, mine, other, pl, pc, l, pend);
  }

  /** The jumps that stay pending keep their tests. */
  lemma ClosedPending(code: seq<Instr>, start: nat, mine: seq<nat>, other: seq<nat>, pl: seq<nat>, pc: int, pend: set<nat>)
    requires PendOk(code, start, |code|, pend)
    requires pend == Pend(mine, other) + SetOf(pl) || pend == Pend(other, mine) + SetOf(pl)
    requires Disjoint(other, pl) && (Disjoint(mine, other) || Disjoint(other, mine))
    ensures PendOk(Closed(code, mine, pc, other), start, |code|, SetOf(mine + pl))
    ensures forall p :: p in SetOf(mine + pl) ==> p < |code| && Closed(code, mine, pc, other)[p] == Linked(code, mine, pc)[p]
  {
    hide Disjoint, Closed;
    var code3 := Closed(code, mine, pc, other);
    forall p | p in SetOf(mine + pl)
      ensures start < p < |code| && TestedJump(code3, p) && code3[p] == Linked(code, mine, pc)[p]
    {
      assert p in pend && TestedJump(code, p);
      NotPending(code, start, |code|, pend, p - 1);
      MemberOf(mine, other, pl, p, pend);
      ClosedAt(code, mine, pc, other, p - 1);
      ClosedKeeps(code, mine, pc, other, p);
    }
  }

  lemma ClosedJoin(code: seq<Instr>, start: nat, mine: seq<nat>, other: seq<nat>, pl: seq<nat>, pc: int, l: int, pend: set<nat>)
    requires IsList(code, l, mine) && IsList(code, pc, pl) && Disjoint(mine, pl)
    requires forall p :: p in SetOf(mine + pl) ==> p < |code| && Closed(code, mine, pc, other)[p] == Linked(code, mine, pc)[p]
    ensures IsList(Closed(code, mine, pc, other), if mine == [] then pc else l, mine + pl)
  {
    hide IsList, Disjoint, Closed;
    var s := mine + pl;
    var code2, code3 := Linked(code, mine, pc), Closed(code, mine, pc, other);
    ConcatAppends(code, l, mine, pc, pl);
    forall i | 0 <= i < |s|
      ensures s[i] < |code3| && code3[s[i]] == code2[s[i]]
    {
      assert s[i] in SetOf(s);
    }
    ListFrame(code2, code3, if mine == [] then pc else l, s);
  }

  lemma ClosedKeeps(code: seq<Instr>, mine: seq<nat>, pc: int, other: seq<nat>, p: nat)
    requires p < |code| && p !in other && code[p].Jmp?
    ensures Closed(code, mine, pc, other)[p] == Linked(code, mine, pc)[p] && Linked(code, mine, pc)[p].Jmp?
  {
  }

  /** Code that goes through when 'e' is not 'cond', with one list of jumps for when it is. */
  lemma CloseThrough(e: Ast, code: seq<Instr>, start: nat, d: ExpDesc, tl: seq<nat>, fl: seq<nat>,
                     pc: int, pl: seq<nat>, cond: bool, n: nat)
    requires BranchShape(code, start, d, tl, fl, pc, pl) && Branch(e, code, start, tl, fl, pl, cond, n)
    ensures var mine, other := if cond then tl else fl, if cond then fl else tl;
      var code3 := Closed(code, mine, pc, other);
      && Through(e, code3, start, mine + pl, cond, n)
      && IsList(code3, if mine == [] then pc else if cond then d.t else d.f, mine + pl)
      && PendOk(code3, start, |code|, SetOf(mine + pl))
  {
    hide Passes, Branches, Closed;
    ClosedLists(code, start, d, tl, fl, pc, pl, cond);
    var mine, other := if cond then tl else fl, if cond then fl else tl;
    var code3, s := Closed(code, mine, pc, other), mine + pl;
    forall env: Env, regs: Regs
      ensures Passes(env, e, regs, code3, start, s, cond, n)
    {
      assert Branches(env, e, regs, code, start, tl, fl, pl, cond, n);
      PassesClosed(env, e, regs, code, start, tl, fl, pl, pc, cond, n);
    }
  }

  // ----- two operands -----

  /** 'and' leaves early on false, 'or' on true. */
  function Both(cond: bool, e1: Ast, e2: Ast): Ast {
    if cond then EOr(e1, e2) else EAnd(e1, e2)
  }

  ghost predicate SubList(s: seq<nat>, t: seq<nat>) {
    forall p :: p in s ==> p in t
  }

  /** 'code3' starts as 'code', but for its jumps. */
  ghost predicate OnlyJumps(code: seq<Instr>, code3: seq<Instr>) {
    |code| <= |code3| && forall i :: 0 <= i < |code| && !code[i].Jmp? ==> code3[i] == code[i]
  }

  /** Running the code of both operands, once their lists are joined. */
  lemma ComposeMeans(env: Env, e1: Ast, e2: Ast, regs: Regs, code1: seq<Instr>, code2: seq<Instr>, code3: seq<Instr>,
                     start: nat, s1: seq<nat>, k: Kind, tl: seq<nat>, fl: seq<nat>, tl3: seq<nat>, fl3: seq<nat>,
                     cond: bool, n: nat)
    requires start <= |code1| <= EndOf(code2, k) <= |code2| == |code3| && UsesBelow(e2, n)
    requires PendOk(code1, start, |code1|, SetOf(s1)) && PendOk(code2, |code1|, EndOf(code2, k), Pend(tl, fl))
    requires Related(code1, code3, start, |code1|, SetOf(s1), Pend(tl3, fl3))
    requires Related(code2, code3, |code1|, EndOf(code2, k), Pend(tl, fl), Pend(tl3, fl3))
    requires Passes(env, e1, regs, code1, start, s1, cond, n) && KindOk(code2, |code1|, k)
    requires forall r :: Means(env, e2, r, code2, |code1|, k, tl, fl, n)
    requires SubList(tl, tl3) && SubList(fl, fl3) && SubList(s1, if cond then tl3 else fl3)
    requires OnlyJumps(code2, code3) && OnlyJumps(code1, code3)
    ensures Means(env, Both(cond, e1, e2), regs, code3, start, k, tl3, fl3, n)
  {
    var mid, end := |code1|, EndOf(code2, k);
    var pend1, pend3 := SetOf(s1), Pend(tl3, fl3);
    hide Related, Denotes, Exec, KindOk, SetOf, Pend, PendOk, UsesBelow, OnlyJumps, SubList, Same, Carries;
    SubPending(s1, tl3, fl3, cond);
    var x := Exec(env, code1, start, regs, pend1, mid);
    FirstHalf(env, code1, code3, start, regs, pend1, pend3, end);
    BothValue(env, e1, e2, regs, cond);
    if x.Fall? {
      assert Means(env, e2, x.regs, code2, mid, k, tl, fl, n);
      ComposeSecond(env, e2, x.regs, regs, code2, code3, mid, k, tl, fl, tl3, fl3, n);
    } else {
      TestedHere(code1, start, mid, s1, x.p);
      CarriesTruth(code1[x.p - 1], x.regs, Eval(env, e1, regs), cond);
      FirstDenotes(env, x, regs, Eval(env, e1, regs), code1, code3, k, s1, tl3, fl3, cond, n);
    }
  }

  lemma BothValue(env: Env, e1: Ast, e2: Ast, regs: Regs, cond: bool)
    ensures Eval(env, Both(cond, e1, e2), regs) ==
              if Truthy(Eval(env, e1, regs)) == cond then Eval(env, e1, regs) else Eval(env, e2, regs)
  {
  }

  lemma CarriesTruth(i: Instr, regs: Regs, v: Val, b: bool)
    requires Carries(i, regs, v, b)
    ensures Truthy(v) == b
  {
  }

  lemma SubPending(s: seq<nat>, tl: seq<nat>, fl: seq<nat>, cond: bool)
    requires SubList(s, if cond then tl else fl)
    ensures SetOf(s) <= Pend(tl, fl)
  {
  }

  lemma FirstHalf(env: Env, code1: seq<Instr>, code3: seq<Instr>, start: nat, regs: Regs,
                  pend1: set<nat>, pend3: set<nat>, end: nat)
    requires |code1| <= end <= |code3| && Related(code1, code3, start, |code1|, pend1, pend3)
    requires PendOk(code1, start, |code1|, pend1) && pend1 <= pend3
    requires !Exec(env, code1, start, regs, pend1, |code1|).Stuck?
    ensures var x := Exec(env, code1, start, regs, pend1, |code1|);
      Exec(env, code3, start, regs, pend3, end) == if x.Fall? then Exec(env, code3, x.pc, x.regs, pend3, end) else x
  {
    ExecPatched(env, code1, code3, start, regs, pend1, pend3, |code1|);
    TakenIsPending(env, code1, start, regs, pend1, |code1|);
    ExecSplit(env, code3, start, regs, pend3, |code1|, end);
  }

  lemma TestedHere(code: seq<Instr>, start: nat, end: nat, s: seq<nat>, p: nat)
    requires PendOk(code, start, end, SetOf(s)) && p in s
    ensures TestedJump(code, p)
  {
  }

  /** 'luaK_posfix' for 'and' and 'or'. */
  lemma Compose(e1: Ast, e2: Ast, code1: seq<Instr>, code2: seq<Instr>, start: nat, l1: int, s1: seq<nat>,
                d: ExpDesc, tl: seq<nat>, fl: seq<nat>, cond: bool, n: nat)
    requires start <= |code1| <= |code2| && code2[..|code1|] == code1 && UsesBelow(e2, n)
    requires Through(e1, code1, start, s1, cond, n)
    requires IsList(code1, l1, s1) && PendOk(code1, start, |code1|, SetOf(s1))
    requires Shape(code2, |code1|, d, tl, fl) && Sound(e2, code2, |code1|, d.k, tl, fl, n)
    ensures var mine := if cond then tl else fl;
      var code3, l := Linked(code2, mine, l1), if mine == [] then l1 else if cond then d.t else d.f;
      var tl3, fl3 := if cond then tl + s1 else tl, if cond then fl else fl + s1;
      && Shape(code3, start, if cond then d.(t := l) else d.(f := l), tl3, fl3)
      && Sound(Both(cond, e1, e2), code3, start, d.k, tl3, fl3, n)
  {
    hide Passes, Means, KindOk;
    var mid := |code1|;
    var mine := if cond then tl else fl;
    var code3 := Linked(code2, mine, l1);
    var tl3, fl3 := if cond then tl + s1 else tl, if cond then fl else fl + s1;
    assert Pend(tl3, fl3) == Pend(tl, fl) + SetOf(s1);
    LinkedAt(code2, mid, EndOf(code2, d.k), mine, l1, Pend(tl, fl));
    ComposeFirst(code1, code2, code3, start, mid, EndOf(code2, d.k), SetOf(s1), Pend(tl, fl), Pend(tl3, fl3));
    ComposeShape(code1, code2, start, l1, s1, d, tl, fl, cond);
    JumpsOnly(code2, mid, EndOf(code2, d.k), Pend(tl, fl), code3);
    hide Related, Shape, Linked, PendOk;
    var e := Both(cond, e1, e2);
    forall env: Env, regs: Regs
      ensures Means(env, e, regs, code3, start, d.k, tl3, fl3, n)
    {
      assert Passes(env, e1, regs, code1, start, s1, cond, n);
      ComposeMeans(env, e1, e2, regs, code1, code2, code3, start, s1, d.k, tl, fl, tl3, fl3, cond, n);
    }
  }

  lemma JumpsOnly(code: seq<Instr>, start: nat, end: nat, pend: set<nat>, code3: seq<Instr>)
    requires PendOk(code, start, end, pend) && |code3| == |code|
    requires SameBut(code, code3, pend)
    ensures OnlyJumps(code, code3)
  {
    forall i | 0 <= i < |code| && !code[i].Jmp?
      ensures code3[i] == code[i]
    {
      NotPending(code, start, end, pend, i);
    }
  }

  lemma ComposeShape(code1: seq<Instr>, code2: seq<Instr>, start: nat, l1: int, s1: seq<nat>,
                     d: ExpDesc, tl: seq<nat>, fl: seq<nat>, cond: bool)
    requires start <= |code1| <= |code2| && code2[..|code1|] == code1
    requires IsList(code1, l1, s1) && PendOk(code1, start, |code1|, SetOf(s1)) && Shape(code2, |code1|, d, tl, fl)
    ensures var mine := if cond then tl else fl;
      var code3, l := Linked(code2, mine, l1), if mine == [] then l1 else if cond then d.t else d.f;
      var tl3, fl3 := if cond then tl + s1 else tl, if cond then fl else fl + s1;
      Shape(code3, start, if cond then d.(t := l) else d.(f := l), tl3, fl3)
  {
    var mid, end := |code1|, EndOf(code2, d.k);
    var mine, other := if cond then tl else fl, if cond then fl else tl;
    var lm, lo := if cond then d.t else d.f, if cond then d.f else d.t;
    ShapeBounds(code2, mid, d, tl, fl);
    LinkedAt(code2, mid, end, mine, l1, Pend(tl, fl));
    PendingInside(code2, mid, end, Pend(tl, fl));
    ComposeKind(code2, Linked(code2, mine, l1), mid, start, d.k);
    assert Pend(if cond then tl + s1 else tl, if cond then fl else fl + s1) == Pend(tl, fl) + SetOf(s1);
    hide IsList, KindOk, PendOk, Linked, Pend, SetOf;
    ComposeLists(code1, code2, start, l1, s1, lm, mine, lo, other, end, tl, fl);
  }

  lemma PendingInside(code: seq<Instr>, start: nat, end: nat, pend: set<nat>)
    requires PendOk(code, start, end, pend)
    ensures forall i :: end <= i ==> i !in pend
  {
  }

  lemma ComposeLists(code1: seq<Instr>, code2: seq<Instr>, start: nat, l1: int, s1: seq<nat>, lm: int, mine: seq<nat>,
                     lo: int, other: seq<nat>, end: nat, tl: seq<nat>, fl: seq<nat>)
    requires start <= |code1| <= end <= |code2| && code2[..|code1|] == code1
    requires IsList(code1, l1, s1) && PendOk(code1, start, |code1|, SetOf(s1))
    requires IsList(code2, lm, mine) && IsList(code2, lo, other) && Disjoint(tl, fl)
    requires PendOk(code2, |code1|, end, Pend(tl, fl)) && ((mine == tl && other == fl) || (mine == fl && other == tl))
    ensures var code3 := Linked(code2, mine, l1);
      && IsList(code3, if mine == [] then l1 else lm, mine + s1) && IsList(code3, lo, other)
      && Disjoint(mine + s1, other) && Disjoint(other, mine + s1)
      && PendOk(code3, start, end, Pend(tl, fl) + SetOf(s1))
  {
    var mid := |code1|;
    ListInside(code1, start, mid, l1, s1, SetOf(s1));
    ListInside(code2, mid, end, lm, mine, Pend(tl, fl));
    ListInside(code2, mid, end, lo, other, Pend(tl, fl));
    PrefixList(code1, code2, l1, s1);
    ComposePending(code1, code2, start, l1, s1, end, mine, other, Pend(tl, fl));
    hide PendOk, IsList, Linked, Pend, SetOf;
    ConcatAppends(code2, lm, mine, l1, s1);
    OtherList(code2, mine, l1, lo, other);
  }

  lemma ComposeKind(code2: seq<Instr>, code3: seq<Instr>, mid: nat, start: nat, k: Kind)
    requires KindOk(code2, mid, k) && start <= mid
    requires |code3| == |code2| && forall i :: EndOf(code2, k) <= i < |code2| ==> code3[i] == code2[i]
    ensures KindOk(code3, start, k)
  {
  }

  lemma PrefixList(code1: seq<Instr>, code2: seq<Instr>, l: int, s: seq<nat>)
    requires IsList(code1, l, s) && |code1| <= |code2| && code2[..|code1|] == code1
    ensures IsList(code2, l, s)
  {
    ListJumps(code1, l, s);
    forall i | 0 <= i < |s|
      ensures code2[s[i]] == code1[s[i]]
    {
      assert code2[..|code1|][s[i]] == code2[s[i]];
    }
    ListFrame(code1, code2, l, s);
  }

  lemma OtherList(code: seq<Instr>, mine: seq<nat>, l1: int, lo: int, other: seq<nat>)
    requires IsList(code, lo, other) && (Disjoint(mine, other) || Disjoint(other, mine))
    ensures IsList(Linked(code, mine, l1), lo, other)
  {
    ListJumps(code, lo, other);
    ListFrame(code, Linked(code, mine, l1), lo, other);
  }

  lemma ComposePending(code1: seq<Instr>, code2: seq<Instr>, start: nat, l1: int, s1: seq<nat>, end: nat,
                       mine: seq<nat>, other: seq<nat>, pend: set<nat>)
    requires start <= |code1| <= end <= |code2| && code2[..|code1|] == code1
    requires PendOk(code1, start, |code1|, SetOf(s1)) && PendOk(code2, |code1|, end, pend) && SetOf(mine) <= pend
    ensures PendOk(Linked(code2, mine, l1), start, end, pend + SetOf(s1))
  {
    var code3 := Linked(code2, mine, l1);
    LinkedAt(code2, |code1|, end, mine, l1, pend);
    JumpsOnly(code2, |code1|, end, pend, code3);
    forall p | p in pend + SetOf(s1)
      ensures start < p < end && TestedJump(code3, p)
    {
      if p in pend {
        assert TestedJump(code2, p);
      } else {
        assert TestedJump(code1, p);
        assert code2[..|code1|][p] == code2[p] && code2[..|code1|][p - 1] == code2[p - 1];
      }
    }
  }

  lemma FirstDenotes(env: Env, x: Exit, regs: Regs, v: Val, code1: seq<Instr>, code3: seq<Instr>, k: Kind,
                     s1: seq<nat>, tl3: seq<nat>, fl3: seq<nat>, cond: bool, n: nat)
    requires x.Taken? && x.p in s1 && Same(regs, x.regs, n) && 0 < x.p < |code1| <= |code3|
    requires Carries(code1[x.p - 1], x.regs, v, cond) && !code1[x.p - 1].Jmp?
    requires SubList(s1, if cond then tl3 else fl3) && OnlyJumps(code1, code3)
    ensures Denotes(env, x, regs, v, code3, k, tl3, fl3, n)
  {
  }

  /** The codes differ at most on the pending jumps. */
  ghost predicate SameBut(code: seq<Instr>, code2: seq<Instr>, pend: set<nat>) {
    |code2| == |code| && forall i :: 0 <= i < |code| && i !in pend ==> code2[i] == code[i]
  }

  lemma LinkedAt(code: seq<Instr>, start: nat, end: nat, mine: seq<nat>, l: int, pend: set<nat>)
    requires PendOk(code, start, end, pend) && SetOf(mine) <= pend
    ensures SameBut(code, Linked(code, mine, l), pend)
    ensures forall i :: 0 <= i < |code| && i in pend ==> Linked(code, mine, l)[i].Jmp?
  {
    if mine != [] {
      assert mine[|mine| - 1] in SetOf(mine);
    }
    forall i | 0 <= i < |code| && i in pend
      ensures Linked(code, mine, l)[i].Jmp?
    {
      assert TestedJump(code, i);
    }
  }

  lemma ComposeFirst(code1: seq<Instr>, code2: seq<Instr>, code3: seq<Instr>, start: nat, mid: nat, end: nat,
                     pend1: set<nat>, pend2: set<nat>, pend3: set<nat>)
    requires mid == |code1| <= end <= |code2| == |code3| && code2[..mid] == code1 && pend3 == pend2 + pend1
    requires PendOk(code1, start, mid, pend1) && PendOk(code2, mid, end, pend2)
    requires SameBut(code2, code3, pend2)
    ensures Related(code1, code3, start, mid, pend1, pend3) && Related(code2, code3, mid, end, pend2, pend3)
    ensures forall p :: p in pend1 ==> start < p < mid
    ensures forall i :: 0 <= i < mid ==> code3[i] == code1[i]
  {
    forall i | 0 <= i < mid
      ensures code3[i] == code1[i]
    {
      assert code2[..mid][i] == code2[i];
    }
    forall i | start <= i < mid
      ensures SameAt(code1, code3, i, pend1, pend3)
    {
      assert i in pend1 ==> TestedJump(code1, i);
      assert i + 1 in pend1 ==> TestedJump(code1, i + 1);
    }
    forall i | mid <= i < end
      ensures SameAt(code2, code3, i, pend2, pend3)
    {
      assert i in pend2 ==> TestedJump(code2, i);
      assert i + 1 in pend2 ==> TestedJump(code2, i + 1);
    }
  }

  lemma ComposeSecond(env: Env, e2: Ast, r: Regs, regs: Regs, code2: seq<Instr>, code3: seq<Instr>, mid: nat, k: Kind,
                      tl: seq<nat>, fl: seq<nat>, tl3: seq<nat>, fl3: seq<nat>, n: nat)
    requires EndOf(code2, k) <= |code2| == |code3| && UsesBelow(e2, n) && Same(regs, r, n) && KindOk(code2, mid, k)
    requires Means(env, e2, r, code2, mid, k, tl, fl, n) && PendOk(code2, mid, EndOf(code2, k), Pend(tl, fl))
    requires Related(code2, code3, mid, EndOf(code2, k), Pend(tl, fl), Pend(tl3, fl3))
    requires SubList(tl, tl3) && SubList(fl, fl3) && OnlyJumps(code2, code3)
    ensures Denotes(env, Exec(env, code3, mid, r, Pend(tl3, fl3), EndOf(code2, k)), regs, Eval(env, e2, regs),
                    code3, k, tl3, fl3, n)
  {
    var pend2, pend3, end := Pend(tl, fl), Pend(tl3, fl3), EndOf(code2, k);
    var y := Exec(env, code2, mid, r, pend2, end);
    ExecPatched(env, code2, code3, mid, r, pend2, pend3, end);
    TakenIsPending(env, code2, mid, r, pend2, end);
    EvalSame(env, e2, regs, r, n);
    hide Exec;
    SecondDenotes(env, y, r, Eval(env, e2, r), code2, code3, k, tl, fl, tl3, fl3, n, regs);
  }

  lemma SecondDenotes(env: Env, y: Exit, r: Regs, v: Val, code2: seq<Instr>, code3: seq<Instr>, k: Kind,
                      tl: seq<nat>, fl: seq<nat>, tl3: seq<nat>, fl3: seq<nat>, n: nat, regs: Regs)
    requires Denotes(env, y, r, v, code2, k, tl, fl, n) && Same(regs, r, n)
    requires |code3| == |code2| && SubList(tl, tl3) && SubList(fl, fl3) && OnlyJumps(code2, code3)
    requires y.Taken? ==> TestedJump(code2, y.p)
    requires k.VReloc? ==> k.pc < |code2| && !code2[k.pc].Jmp?
    ensures Denotes(env, y, regs, v, code3, k, tl3, fl3, n)
  {
  }
}
