/** What a piece of expression code with pending jumps means, and how the steps of the code
    generator keep that meaning. */
module CodeMeaning {
  import opened CodeMachine
  import opened CodeLists

  // ----- expressions -----

  /** Expressions built from constants, locals, other variables, comparisons, 'and', 'or' and
      'not'.  A comparison may swap its operands: 'a > b' is computed as 'b < a'. */
  datatype Ast =
    | EConst(v: Val)
    | ELocal(r: nat)
    | EVar(id: nat)
    | ECompare(op: nat, l: Ast, r2: Ast, positive: bool, swap: bool)
    | EAnd(l: Ast, r2: Ast)
    | EOr(l: Ast, r2: Ast)
    | ENot(e: Ast)

  ghost function Eval(env: Env, e: Ast, regs: Regs): Val {
    match e
    case EConst(v) => v
    case ELocal(r) => regs(r)
    case EVar(id) => env.vars(id)
    case ECompare(op, l, r, positive, swap) =>
      var v, w := Eval(env, l, regs), Eval(env, r, regs);
      Bool((if swap then env.compare(op, w, v) else env.compare(op, v, w)) == positive)
    case EAnd(l, r) => var v := Eval(env, l, regs); if Truthy(v) then Eval(env, r, regs) else v
    case EOr(l, r) => var v := Eval(env, l, regs); if Truthy(v) then v else Eval(env, r, regs)
    case ENot(e1) => Bool(!Truthy(Eval(env, e1, regs)))
  }

  /** The locals that 'e' uses are below 'n'. */
  predicate UsesBelow(e: Ast, n: nat) {
    match e
    case EConst(_) => true
    case ELocal(r) => r < n
    case EVar(_) => true
    case ECompare(_, l, r, _, _) => UsesBelow(l, n) && UsesBelow(r, n)
    case EAnd(l, r) => UsesBelow(l, n) && UsesBelow(r, n)
    case EOr(l, r) => UsesBelow(l, n) && UsesBelow(r, n)
    case ENot(e1) => UsesBelow(e1, n)
  }

  /** Registers below 'n' are the same. */
  ghost predicate Same(r: Regs, q: Regs, n: nat) {
    forall x: nat :: x < n ==> r(x) == q(x)
  }

  lemma {:induction false} EvalSame(env: Env, e: Ast, r: Regs, q: Regs, n: nat)
    requires UsesBelow(e, n) && Same(r, q, n)
    ensures Eval(env, e, r) == Eval(env, e, q)
  {
    match e {
      case ECompare(_, l, m, _, _) => EvalSame(env, l, r, q, n); EvalSame(env, m, r, q, n);
      case EAnd(l, m) => EvalSame(env, l, r, q, n); EvalSame(env, m, r, q, n);
      case EOr(l, m) => EvalSame(env, l, r, q, n); EvalSame(env, m, r, q, n);
      case ENot(e1) => EvalSame(env, e1, r, q, n);
      case _ =>
    }
  }

  // ----- expression descriptors -----

  datatype Kind =
    | VNil | VTrue | VFalse | VK(c: Val)
    | VLocal(r: nat) | VVar(id: nat)
    | VNonReloc(r: nat) | VReloc(pc: nat) | VJmp(pc: nat)

  /** 'expdesc', with its lists of jumps when true and when false. */
  datatype ExpDesc = ExpDesc(k: Kind, t: int, f: int)

  ghost function SetOf(s: seq<nat>): set<nat> {
    set p | p in s
  }

  ghost function Pend(tl: seq<nat>, fl: seq<nat>): set<nat> {
    SetOf(tl) + SetOf(fl)
  }

  /** Where the code proper of an expression ends.  A relocatable expression still has to set
      the register of its last instruction, and a comparison to use its last test and jump. */
  ghost function EndOf(code: seq<Instr>, k: Kind): nat {
    if k.VReloc? then k.pc else if k.VJmp? && k.pc > 0 then k.pc - 1 else |code|
  }

  /** The pending jumps follow tests that have no destination register yet. */
  ghost predicate PendOk(code: seq<Instr>, start: nat, end: nat, s: set<nat>) {
    end <= |code| && forall p :: p in s ==> start < p < end && TestedJump(code, p)
  }

  ghost predicate TestedJump(code: seq<Instr>, p: nat) {
    && 0 < p < |code| && code[p].Jmp? && TMode(code[p - 1])
    && (code[p - 1].TestSet? ==> code[p - 1].dest.None?)
  }

  ghost predicate KindOk(code: seq<Instr>, start: nat, k: Kind) {
    match k
    case VReloc(pc) => start <= pc == |code| - 1 && (code[pc].Not? || code[pc].GetVar?)
    case VJmp(pc) => start + 1 <= pc == |code| - 1 && code[pc] == Jmp(NO_JUMP) && code[pc - 1].Compare?
    case VK(c) => Truthy(c)
    case _ => true
  }

  ghost predicate ListsOk(code: seq<Instr>, d: ExpDesc, tl: seq<nat>, fl: seq<nat>) {
    IsList(code, d.t, tl) && IsList(code, d.f, fl) && Disjoint(tl, fl)
  }

  ghost predicate Shape(code: seq<Instr>, start: nat, d: ExpDesc, tl: seq<nat>, fl: seq<nat>) {
    && start <= EndOf(code, d.k) <= |code|
    && ListsOk(code, d, tl, fl) && KindOk(code, start, d.k)
    && PendOk(code, start, EndOf(code, d.k), Pend(tl, fl))
  }

  // ----- meaning -----

  /** A jump taken when the value is 'b': its test carries the value, or the value is 'b' itself. */
  ghost predicate Carries(i: Instr, regs: Regs, v: Val, b: bool) {
    Truthy(v) == b && (if i.TestSet? then regs(i.b) == v else v == Bool(b))
  }

  ghost predicate FallValue(env: Env, code: seq<Instr>, k: Kind, regs: Regs, v: Val) {
    match k
    case VNil => v == Nil
    case VTrue => v == Bool(true)
    case VFalse => v == Bool(false)
    case VK(c) => v == c
    case VLocal(r) => regs(r) == v
    case VVar(id) => v == env.vars(id)
    case VNonReloc(r) => regs(r) == v
    case VReloc(pc) => pc < |code| && Produced(env, code[pc], regs) == v
    case VJmp(pc) => 0 < pc < |code| && TMode(code[pc - 1]) && v == Bool(Holds(env, code[pc - 1], regs))
  }

  ghost predicate InLists(code: seq<Instr>, p: nat, regs: Regs, v: Val, tl: seq<nat>, fl: seq<nat>) {
    && 0 < p < |code|
    && ((p in tl && Carries(code[p - 1], regs, v, true)) || (p in fl && Carries(code[p - 1], regs, v, false)))
  }

  /** The run 'x' from registers 'regs' ends as descriptor and lists say for value 'v'. */
  ghost predicate Denotes(env: Env, x: Exit, regs: Regs, v: Val, code: seq<Instr>, k: Kind,
                          tl: seq<nat>, fl: seq<nat>, n: nat) {
    match x
    case Stuck => false
    case Taken(p, r) =>
      Same(regs, r, n) && InLists(code, p, r, v, tl, fl)
    case Fall(pc, r) =>
      pc == EndOf(code, k) && Same(regs, r, n) && FallValue(env, code, k, r, v)
  }

  ghost predicate Means(env: Env, e: Ast, regs: Regs, code: seq<Instr>, start: nat, k: Kind,
                        tl: seq<nat>, fl: seq<nat>, n: nat)
    requires EndOf(code, k) <= |code|
  {
    Denotes(env, Exec(env, code, start, regs, Pend(tl, fl), EndOf(code, k)), regs, Eval(env, e, regs),
            code, k, tl, fl, n)
  }

  /** In every environment, the code from 'start' computes 'e' and keeps the registers below 'n'. */
  ghost predicate Sound(e: Ast, code: seq<Instr>, start: nat, k: Kind, tl: seq<nat>, fl: seq<nat>, n: nat)
    requires EndOf(code, k) <= |code|
  {
    forall env, regs :: Means(env, e, regs, code, start, k, tl, fl, n)
  }

  // ----- after a jump on the value -----

  /** Jumps in 'pl' are taken when the value is 'cond'; otherwise the code goes through. */
  ghost predicate Branches(env: Env, e: Ast, regs: Regs, code: seq<Instr>, start: nat,
                           tl: seq<nat>, fl: seq<nat>, pl: seq<nat>, cond: bool, n: nat)
  {
    var v := Eval(env, e, regs);
    match Exec(env, code, start, regs, Pend(tl, fl) + SetOf(pl), |code|)
    case Stuck => false
    case Taken(p, r) =>
      && Same(regs, r, n) && 0 < p < |code|
      && (InLists(code, p, r, v, tl, fl) || (p in pl && Carries(code[p - 1], r, v, cond)))
    case Fall(pc, r) => pc == |code| && Same(regs, r, n) && Truthy(v) == !cond
  }

  ghost predicate Branch(e: Ast, code: seq<Instr>, start: nat, tl: seq<nat>, fl: seq<nat>, pl: seq<nat>, cond: bool, n: nat) {
    forall env, regs :: Branches(env, e, regs, code, start, tl, fl, pl, cond, n)
  }

  /** The jumps in 's' leave when the value is 'cond', carrying it; otherwise the code goes through. */
  ghost predicate Passes(env: Env, e: Ast, regs: Regs, code: seq<Instr>, start: nat, s: seq<nat>, cond: bool, n: nat) {
    var v := Eval(env, e, regs);
    match Exec(env, code, start, regs, SetOf(s), |code|)
    case Stuck => false
    case Taken(p, r) => p in s && Same(regs, r, n) && 0 < p < |code| && Carries(code[p - 1], r, v, cond)
    case Fall(pc, r) => pc == |code| && Same(regs, r, n) && Truthy(v) == !cond
  }

  ghost predicate Through(e: Ast, code: seq<Instr>, start: nat, s: seq<nat>, cond: bool, n: nat) {
    forall env, regs :: Passes(env, e, regs, code, start, s, cond, n)
  }

  // ----- replacing the end of the code -----

  /** Code that only changes from 'end' on runs alike up to there. */
  lemma ExecPrefix(env: Env, code: seq<Instr>, code2: seq<Instr>, start: nat, regs: Regs,
                   pend: set<nat>, pend2: set<nat>, end: nat)
    requires PendOk(code, start, end, pend) && end <= |code2| && code2[..end] == code[..end]
    requires pend <= pend2 && forall p :: p in pend2 && p !in pend ==> p > end
    requires !Exec(env, code, start, regs, pend, end).Stuck?
    ensures Exec(env, code2, start, regs, pend2, end) == Exec(env, code, start, regs, pend, end)
  {
    forall i | start <= i < end
      ensures SameAt(code, code2, i, pend, pend2)
    {
      assert code[..end][i] == code2[..end][i];
      if i + 1 in pend {
        assert TestedJump(code, i + 1);
      }
    }
    ExecPatched(env, code, code2, start, regs, pend, pend2, end);
    TakenIsPending(env, code, start, regs, pend, end);
  }

  lemma {:induction false} TakenIsPending(env: Env, code: seq<Instr>, pc: nat, regs: Regs, pend: set<nat>, end: nat)
    requires end <= |code|
    ensures var x := Exec(env, code, pc, regs, pend, end); x.Taken? ==> x.p in pend
    decreases end - pc
  {
    if pc < end {
      var i := code[pc];
      if i.Jmp? {
        if pc !in pend && i.sJ >= 0 {
          TakenIsPending(env, code, pc + 1 + i.sJ, regs, pend, end);
        }
      } else if TMode(i) {
        if !Holds(env, i, regs) {
          TakenIsPending(env, code, pc + 2, regs, pend, end);
        } else if pc + 1 !in pend {
          TakenIsPending(env, code, pc + 1, Written(i, regs), pend, end);
        }
      } else {
        TakenIsPending(env, code, if i.LFalseSkip? then pc + 2 else pc + 1, Done(env, i, regs), pend, end);
      }
    }
  }

  /** 'i' only puts into register 'reg' the value that 'k' describes. */
  ghost predicate LoadsValue(code: seq<Instr>, k: Kind, i: Instr, reg: nat) {
    && !i.Jmp? && !TMode(i) && !i.LFalseSkip?
    && forall env, r, v :: FallValue(env, code, k, r, v) ==> LoadsIn(env, i, r, reg, v)
  }

  ghost predicate LoadsIn(env: Env, i: Instr, r: Regs, reg: nat, v: Val)
    requires !i.Jmp? && !TMode(i)
  {
    Done(env, i, r)(reg) == v && forall x: nat :: x != reg ==> Done(env, i, r)(x) == r(x)
  }

  /** Running the last instruction. */
  lemma LastSimple(env: Env, code: seq<Instr>, regs: Regs, pend: set<nat>)
    requires |code| > 0
    requires var i := code[|code| - 1]; !i.Jmp? && !TMode(i) && !i.LFalseSkip?
    ensures Exec(env, code, |code| - 1, regs, pend, |code|) == Fall(|code|, Done(env, code[|code| - 1], regs))
  {
    var r := Done(env, code[|code| - 1], regs);
    assert Exec(env, code, |code|, r, pend, |code|) == Fall(|code|, r);
  }

  /** Running a test and pending jump at the end. */
  lemma LastTest(env: Env, code: seq<Instr>, regs: Regs, pend: set<nat>)
    requires |code| > 1 && TMode(code[|code| - 2]) && |code| - 1 in pend
    ensures Exec(env, code, |code| - 2, regs, pend, |code|) ==
              if Holds(env, code[|code| - 2], regs) then Taken(|code| - 1, regs) else Fall(|code|, regs)
  {
    assert Exec(env, code, |code|, regs, pend, |code|) == Fall(|code|, regs);
  }

  lemma AppendLoadAt(env: Env, e: Ast, regs: Regs, code: seq<Instr>, start: nat, k: Kind, tl: seq<nat>, fl: seq<nat>,
                     i: Instr, reg: nat, n: nat)
    requires start <= EndOf(code, k) <= |code|
    requires PendOk(code, start, EndOf(code, k), Pend(tl, fl)) && Means(env, e, regs, code, start, k, tl, fl, n)
    requires LoadsValue(code, k, i, reg) && reg >= n
    ensures Means(env, e, regs, code[..EndOf(code, k)] + [i], start, VNonReloc(reg), tl, fl, n)
  {
    var end := EndOf(code, k);
    var code2 := code[..end] + [i];
    var pend := Pend(tl, fl);
    assert code2[..end] == code[..end];
    assert code2[end] == i;
    ExecPrefix(env, code, code2, start, regs, pend, pend, end);
    ExecSplit(env, code2, start, regs, pend, end, end + 1);
    var x := Exec(env, code, start, regs, pend, end);
    var v := Eval(env, e, regs);
    if x.Fall? {
      LastSimple(env, code2, x.regs, pend);
      assert LoadsIn(env, i, x.regs, reg, v);
    } else {
      assert InLists(code, x.p, x.regs, v, tl, fl);
      TakenIsPending(env, code, start, regs, pend, end);
      assert x.p < end && code2[x.p - 1] == code[x.p - 1];
    }
  }

  /** Loading the value of an expression into a register. */
  lemma AppendLoad(e: Ast, code: seq<Instr>, start: nat, d: ExpDesc, tl: seq<nat>, fl: seq<nat>, i: Instr, reg: nat, n: nat)
    requires Shape(code, start, d, tl, fl) && Sound(e, code, start, d.k, tl, fl, n)
    requires LoadsValue(code, d.k, i, reg) && reg >= n
    ensures var code2 := code[..EndOf(code, d.k)] + [i];
      var d2 := d.(k := VNonReloc(reg));
      Shape(code2, start, d2, tl, fl) && Sound(e, code2, start, d2.k, tl, fl, n)
  {
    hide Means, LoadsValue;
    forall env, regs
      ensures Means(env, e, regs, code[..EndOf(code, d.k)] + [i], start, VNonReloc(reg), tl, fl, n)
    {
      AppendLoadAt(env, e, regs, code, start, d.k, tl, fl, i, reg, n);
    }
    ReplaceEndLists(code, start, d, tl, fl, [i]);
  }

  /** Lists and pending jumps survive a new end of the code. */
  lemma ReplaceEndLists(code: seq<Instr>, start: nat, d: ExpDesc, tl: seq<nat>, fl: seq<nat>, more: seq<Instr>)
    requires Shape(code, start, d, tl, fl)
    ensures var end := EndOf(code, d.k); var code2 := code[..end] + more;
      && code2[..end] == code[..end] && ListsOk(code2, d, tl, fl)
      && PendOk(code2, start, end, Pend(tl, fl))
      && PendOk(code2, start, |code2|, Pend(tl, fl))
  {
    var end := EndOf(code, d.k);
    var code2 := code[..end] + more;
    assert forall j :: 0 <= j < end ==> code2[j] == code[j];
    forall p | p in Pend(tl, fl)
      ensures start < p < end && TestedJump(code2, p)
    {
      assert start < p < end && TestedJump(code, p);
    }
    ListInside(code, start, end, d.t, tl, Pend(tl, fl));
    ListInside(code, start, end, d.f, fl, Pend(tl, fl));
    ListFrame(code, code2, d.t, tl);
    ListFrame(code, code2, d.f, fl);
  }

  lemma ListInside(code: seq<Instr>, start: nat, end: nat, l: int, s: seq<nat>, pend: set<nat>)
    requires PendOk(code, start, end, pend) && SetOf(s) <= pend
    ensures forall i :: 0 <= i < |s| ==> start < s[i] < end
  {
    forall i | 0 <= i < |s|
      ensures start < s[i] < end
    {
      assert s[i] in SetOf(s);
    }
  }

  // ----- adding a test -----

  /** The test 'i' jumps exactly when the value that 'k' describes is 'cond', and carries it. */
  ghost predicate TestsValue(code: seq<Instr>, k: Kind, i: Instr, cond: bool) {
    && TMode(i) && (i.TestSet? ==> i.dest.None?)
    && forall env, r, v :: FallValue(env, code, k, r, v) ==> TestsIn(env, i, r, v, cond)
  }

  ghost predicate TestsIn(env: Env, i: Instr, r: Regs, v: Val, cond: bool)
    requires TMode(i)
  {
    if Holds(env, i, r) then Carries(i, r, v, cond) else Truthy(v) == !cond
  }

  lemma AppendTestAt(env: Env, e: Ast, regs: Regs, code: seq<Instr>, start: nat, k: Kind, tl: seq<nat>, fl: seq<nat>,
                     i: Instr, cond: bool, n: nat)
    requires start <= EndOf(code, k) <= |code|
    requires PendOk(code, start, EndOf(code, k), Pend(tl, fl)) && Means(env, e, regs, code, start, k, tl, fl, n)
    requires TestsValue(code, k, i, cond)
    ensures Branches(env, e, regs, code[..EndOf(code, k)] + [i, Jmp(NO_JUMP)], start, tl, fl, [EndOf(code, k) + 1], cond, n)
  {
    var end := EndOf(code, k);
    var code2 := code[..end] + [i, Jmp(NO_JUMP)];
    var pend, pl := Pend(tl, fl), [end + 1];
    var pend2 := Pend(tl, fl) + SetOf(pl);
    assert code2[..end] == code[..end];
    assert code2[end] == i && end + 1 in pend2;
    assert pend2 == pend + {end + 1};
    ExecPrefix(env, code, code2, start, regs, pend, pend2, end);
    ExecSplit(env, code2, start, regs, pend2, end, end + 2);
    var x := Exec(env, code, start, regs, pend, end);
    var v := Eval(env, e, regs);
    if x.Fall? {
      LastTest(env, code2, x.regs, pend2);
      assert TestsIn(env, i, x.regs, v, cond);
    } else {
      TakenIsPending(env, code, start, regs, pend, end);
      assert x.p < end && code2[x.p - 1] == code[x.p - 1];
    }
  }

  /** 'jumponcond': a conditional jump on the value of an expression. */
  lemma AppendTest(e: Ast, code: seq<Instr>, start: nat, d: ExpDesc, tl: seq<nat>, fl: seq<nat>, i: Instr, cond: bool, n: nat)
    requires Shape(code, start, d, tl, fl) && Sound(e, code, start, d.k, tl, fl, n)
    requires TestsValue(code, d.k, i, cond)
    ensures var end := EndOf(code, d.k); var code2 := code[..end] + [i, Jmp(NO_JUMP)];
      && BranchShape(code2, start, d, tl, fl, end + 1, [end + 1])
      && Branch(e, code2, start, tl, fl, [end + 1], cond, n)
  {
    hide Means, Branches, Shape, BranchShape, TestsValue;
    var end := EndOf(code, d.k);
    ShapeBounds(code, start, d, tl, fl);
    var code2, pl := code[..end] + [i, Jmp(NO_JUMP)], [end + 1];
    forall env: Env, regs: Regs
      ensures Branches(env, e, regs, code2, start, tl, fl, pl, cond, n)
    {
      AppendTestAt(env, e, regs, code, start, d.k, tl, fl, i, cond, n);
    }
    AppendTestShape(code, start, d, tl, fl, i, cond);
  }

  lemma ShapeBounds(code: seq<Instr>, start: nat, d: ExpDesc, tl: seq<nat>, fl: seq<nat>)
    requires Shape(code, start, d, tl, fl)
    ensures start <= EndOf(code, d.k) <= |code| && PendOk(code, start, EndOf(code, d.k), Pend(tl, fl))
  {
  }

  lemma AppendTestShape(code: seq<Instr>, start: nat, d: ExpDesc, tl: seq<nat>, fl: seq<nat>, i: Instr, cond: bool)
    requires Shape(code, start, d, tl, fl) && TestsValue(code, d.k, i, cond)
    ensures var end := EndOf(code, d.k); var code2 := code[..end] + [i, Jmp(NO_JUMP)];
      BranchShape(code2, start, d, tl, fl, end + 1, [end + 1])
  {
    var end := EndOf(code, d.k);
    var more := [i, Jmp(NO_JUMP)];
    var code2 := code[..end] + more;
    ReplaceEndLists(code, start, d, tl, fl, more);
    ListInside(code2, start, end, d.t, tl, Pend(tl, fl));
    ListInside(code2, start, end, d.f, fl, Pend(tl, fl));
    NewPending(code2, start, end, tl, fl);
  }

  lemma NewPending(code: seq<Instr>, start: nat, end: nat, tl: seq<nat>, fl: seq<nat>)
    requires start <= end == |code| - 2 && PendOk(code, start, end, Pend(tl, fl))
    requires TestedJump(code, end + 1) && code[end + 1] == Jmp(NO_JUMP)
    ensures PendOk(code, start, |code|, Pend(tl, fl) + SetOf([end + 1])) && IsList(code, end + 1, [end + 1])
  {
    assert SetOf([end + 1]) == {end + 1};
    assert LinksTo(code, end + 1, NO_JUMP);
  }

  ghost predicate BranchShape(code: seq<Instr>, start: nat, d: ExpDesc, tl: seq<nat>, fl: seq<nat>, pc: int, pl: seq<nat>) {
    && start <= |code| && ListsOk(code, d, tl, fl) && IsList(code, pc, pl)
    && Disjoint(tl, pl) && Disjoint(fl, pl)
    && PendOk(code, start, |code|, Pend(tl, fl) + SetOf(pl))
  }
}
