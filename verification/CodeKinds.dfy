/** The kinds of expression descriptors: which instruction loads, tests or negates each. */
module CodeKinds {
  import opened Options
  import opened CodeMachine
  import opened CodeLists
  import opened CodeMeaning
  import opened CodeValue

  /** A descriptor after 'luaK_dischargevars'. */
  predicate Discharged(k: Kind) {
    !k.VLocal? && !k.VVar?
  }

  /** The instruction with which 'discharge2reg' gets the value into 'reg'. */
  function LoadInstr(code: seq<Instr>, k: Kind, reg: nat): Instr
    requires Discharged(k) && !k.VJmp?
    requires k.VReloc? ==> k.pc < |code| && (code[k.pc].Not? || code[k.pc].GetVar?)
  {
    match k
    case VNil => LoadNil(reg, 0)
    case VFalse => LoadFalse(reg)
    case VTrue => LoadTrue(reg)
    case VK(c) => LoadK(reg, c)
    case VReloc(pc) => if code[pc].Not? then Not(reg, code[pc].b) else GetVar(reg, code[pc].id)
    case VNonReloc(r) => Move(reg, r)
  }

  lemma LoadsIt(code: seq<Instr>, start: nat, k: Kind, reg: nat)
    requires KindOk(code, start, k) && Discharged(k) && !k.VJmp?
    ensures LoadsValue(code, k, LoadInstr(code, k, reg), reg)
  {
    var i := LoadInstr(code, k, reg);
    forall env: Env, r: Regs, v: Val | FallValue(env, code, k, r, v)
      ensures LoadsIn(env, i, r, reg, v)
    {
    }
  }

  lemma TestsIt(code: seq<Instr>, r0: nat, cond: bool)
    ensures TestsValue(code, VNonReloc(r0), TestSet(None, r0, cond), cond)
  {
    forall env: Env, r: Regs, v: Val | FallValue(env, code, VNonReloc(r0), r, v)
      ensures TestsIn(env, TestSet(None, r0, cond), r, v, cond)
    {
    }
  }

  /** Testing the operand of a 'not' with the condition inverted. */
  lemma TestsNot(code: seq<Instr>, pc: nat, cond: bool)
    requires pc < |code| && code[pc].Not?
    ensures TestsValue(code, VReloc(pc), Test(code[pc].b, !cond), cond)
  {
    forall env: Env, r: Regs, v: Val | FallValue(env, code, VReloc(pc), r, v)
      ensures TestsIn(env, Test(code[pc].b, !cond), r, v, cond)
    {
    }
  }

  /** A comparison, as it is or negated, jumps when the value is true or false. */
  lemma TestsCompare(code: seq<Instr>, pc: nat, cond: bool)
    requires 0 < pc < |code| && code[pc - 1].Compare?
    ensures var i := code[pc - 1];
      TestsValue(code, VJmp(pc), if cond then i else Flip(i), cond)
  {
    var i := code[pc - 1];
    var j := if cond then i else Flip(i);
    forall env: Env, r: Regs, v: Val | FallValue(env, code, VJmp(pc), r, v)
      ensures TestsIn(env, j, r, v, cond)
    {
    }
  }

  // ----- making a variable relocatable -----

  lemma RelocMeans(env: Env, e: Ast, regs: Regs, code: seq<Instr>, start: nat, id: nat, tl: seq<nat>, fl: seq<nat>, n: nat)
    requires start <= |code| && PendOk(code, start, |code|, Pend(tl, fl))
    requires Means(env, e, regs, code, start, VVar(id), tl, fl, n)
    ensures Means(env, e, regs, code + [GetVar(0, id)], start, VReloc(|code|), tl, fl, n)
  {
    var code2, pend := code + [GetVar(0, id)], Pend(tl, fl);
    assert code2[..|code|] == code[..|code|];
    ExecPrefix(env, code, code2, start, regs, pend, pend, |code|);
    TakenIsPending(env, code, start, regs, pend, |code|);
    var x := Exec(env, code, start, regs, pend, |code|);
    if x.Taken? {
      assert code2[x.p - 1] == code[x.p - 1];
    }
  }

  lemma RelocSound(e: Ast, code: seq<Instr>, start: nat, d: ExpDesc, tl: seq<nat>, fl: seq<nat>, n: nat)
    requires Shape(code, start, d, tl, fl) && Sound(e, code, start, d.k, tl, fl, n) && d.k.VVar?
    ensures var code2, d2 := code + [GetVar(0, d.k.id)], d.(k := VReloc(|code|));
      Shape(code2, start, d2, tl, fl) && Sound(e, code2, start, d2.k, tl, fl, n)
  {
    hide Means;
    var code2, k2, id := code + [GetVar(0, d.k.id)], VReloc(|code|), d.k.id;
    assert code[..|code|] == code;
    ReplaceEndLists(code, start, d, tl, fl, [GetVar(0, id)]);
    hide ListsOk, PendOk;
    forall env: Env, regs: Regs
      ensures Means(env, e, regs, code2, start, k2, tl, fl, n)
    {
      assert Means(env, e, regs, code, start, d.k, tl, fl, n);
      RelocMeans(env, e, regs, code, start, id, tl, fl, n);
    }
  }

  lemma LocalSound(e: Ast, code: seq<Instr>, start: nat, d: ExpDesc, tl: seq<nat>, fl: seq<nat>, n: nat)
    requires Shape(code, start, d, tl, fl) && Sound(e, code, start, d.k, tl, fl, n) && d.k.VLocal?
    ensures var d2 := d.(k := VNonReloc(d.k.r));
      Shape(code, start, d2, tl, fl) && Sound(e, code, start, d2.k, tl, fl, n)
  {
    hide Exec, Pend, PendOk, Same;
    var k2 := VNonReloc(d.k.r);
    forall env: Env, regs: Regs
      ensures Means(env, e, regs, code, start, k2, tl, fl, n)
    {
      assert Means(env, e, regs, code, start, d.k, tl, fl, n);
    }
  }

  // ----- leaves -----

  lemma LeafSound(e: Ast, code: seq<Instr>, k: Kind, n: nat)
    requires match e
             case EConst(v) => k == ConstKind(v)
             case ELocal(r) => k == VLocal(r)
             case EVar(id) => k == VVar(id)
             case _ => false
    ensures Shape(code, |code|, ExpDesc(k, NO_JUMP, NO_JUMP), [], []) && Sound(e, code, |code|, k, [], [], n)
  {
    var none: seq<nat> := [];
    assert Pend(none, none) == {};
    forall env: Env, regs: Regs
      ensures Means(env, e, regs, code, |code|, k, none, none, n)
    {
    }
  }

  function ConstKind(v: Val): Kind {
    match v
    case Nil => VNil
    case Bool(b) => if b then VTrue else VFalse
    case Other(_) => VK(v)
  }

  /** The registers of the operands, in the order of the instruction. */
  function CompareInstr(op: nat, rl: nat, rr: nat, positive: bool, swap: bool): Instr {
    if swap then Compare(op, rr, rl, positive) else Compare(op, rl, rr, positive)
  }

  /** Code that leaves a value in a register does so with any code after it. */
  lemma ComputesOn(env: Env, e: Ast, regs: Regs, code: seq<Instr>, code2: seq<Instr>, start: nat, reg: nat, n: nat)
    requires start <= |code| <= |code2| && code2[..|code|] == code && Computes(env, e, regs, code, start, reg, n)
    ensures Exec(env, code2, start, regs, {}, |code|) == Exec(env, code, start, regs, {}, |code|)
  {
    assert code[..|code|] == code;
    ExecPrefix(env, code, code2, start, regs, {}, {}, |code|);
  }

  /** Both operands, one after the other. */
  lemma OperandsRun(env: Env, l: Ast, r: Ast, regs: Regs, code1: seq<Instr>, code2: seq<Instr>, start: nat,
                    rl: nat, rr: nat, n: nat, n2: nat) returns (q: Regs)
    requires start <= |code1| <= |code2| && code2[..|code1|] == code1
    requires AlwaysComputes(l, code1, start, rl, n) && AlwaysComputes(r, code2, |code1|, rr, n2)
    requires UsesBelow(r, n) && n <= n2 && rl < n2
    ensures Exec(env, code2, start, regs, {}, |code2|) == Fall(|code2|, q)
    ensures Same(regs, q, n) && q(rl) == Eval(env, l, regs) && q(rr) == Eval(env, r, regs)
  {
    hide Exec, Eval;
    assert Computes(env, l, regs, code1, start, rl, n);
    ComputesOn(env, l, regs, code1, code2, start, rl, n);
    var mid := Exec(env, code1, start, regs, {}, |code1|).regs;
    assert Computes(env, r, mid, code2, |code1|, rr, n2);
    ExecSplit(env, code2, start, regs, {}, |code1|, |code2|);
    EvalSame(env, r, mid, regs, n);
    q := Exec(env, code2, |code1|, mid, {}, |code2|).regs;
  }

  /** The test of a comparison whose operands are in registers. */
  lemma CompareSound(op: nat, l: Ast, r: Ast, positive: bool, swap: bool, code1: seq<Instr>, code2: seq<Instr>, start: nat,
                     rl: nat, rr: nat, n: nat, n2: nat)
    requires start <= |code1| <= |code2| && code2[..|code1|] == code1
    requires AlwaysComputes(l, code1, start, rl, n) && AlwaysComputes(r, code2, |code1|, rr, n2)
    requires UsesBelow(r, n) && n <= n2 && rl < n2
    ensures var code3, k := code2 + [CompareInstr(op, rl, rr, positive, swap), Jmp(NO_JUMP)], VJmp(|code2| + 1);
      Shape(code3, start, ExpDesc(k, NO_JUMP, NO_JUMP), [], []) && Sound(ECompare(op, l, r, positive, swap), code3, start, k, [], [], n)
  {
    var i := CompareInstr(op, rl, rr, positive, swap);
    var code3, k, e := code2 + [i, Jmp(NO_JUMP)], VJmp(|code2| + 1), ECompare(op, l, r, positive, swap);
    var none: seq<nat> := [];
    assert Pend(none, none) == {};
    assert code3[|code2|] == i && code3[..|code2|] == code2;
    hide AlwaysComputes;
    forall env: Env, regs: Regs
      ensures Means(env, e, regs, code3, start, k, none, none, n)
    {
      CompareMeans(env, op, l, r, positive, swap, regs, code1, code2, start, rl, rr, n, n2);
    }
  }

  lemma CompareMeans(env: Env, op: nat, l: Ast, r: Ast, positive: bool, swap: bool, regs: Regs, code1: seq<Instr>, code2: seq<Instr>,
                     start: nat, rl: nat, rr: nat, n: nat, n2: nat)
    requires start <= |code1| <= |code2| && code2[..|code1|] == code1
    requires AlwaysComputes(l, code1, start, rl, n) && AlwaysComputes(r, code2, |code1|, rr, n2)
    requires UsesBelow(r, n) && n <= n2 && rl < n2
    ensures var code3 := code2 + [CompareInstr(op, rl, rr, positive, swap), Jmp(NO_JUMP)];
      Means(env, ECompare(op, l, r, positive, swap), regs, code3, start, VJmp(|code2| + 1), [], [], n)
  {
    hide AlwaysComputes, Exec;
    var q := OperandsRun(env, l, r, regs, code1, code2, start, rl, rr, n, n2);
    var none: seq<nat> := [];
    var code3 := code2 + [CompareInstr(op, rl, rr, positive, swap), Jmp(NO_JUMP)];
    assert Pend(none, none) == {};
    assert code3[|code2|] == CompareInstr(op, rl, rr, positive, swap) && code3[..|code2|] == code2[..|code2|];
    ExecPrefix(env, code2, code3, start, regs, {}, {}, |code2|);
  }

  /** An expression that is in a register already, without jumps. */
  lemma PlainComputes(e: Ast, code: seq<Instr>, start: nat, d: ExpDesc, tl: seq<nat>, fl: seq<nat>, n: nat)
    requires Shape(code, start, d, tl, fl) && Sound(e, code, start, d.k, tl, fl, n) && d.k.VNonReloc? && d.t == d.f
    ensures AlwaysComputes(e, code, start, d.k.r, n)
  {
    ListJumps(code, d.t, tl);
    ListJumps(code, d.f, fl);
    assert tl == [] && fl == [];
    assert Pend(tl, fl) == {};
    forall env: Env, regs: Regs
      ensures Computes(env, e, regs, code, start, d.k.r, n)
    {
      assert Means(env, e, regs, code, start, d.k, tl, fl, n);
    }
  }

  // ----- negations -----

  predicate IsFalseConst(k: Kind) { k.VNil? || k.VFalse? }
  predicate IsTrueConst(k: Kind) { k.VTrue? || k.VK? }

  lemma NegatesConst(code: seq<Instr>, start: nat, k: Kind, code2: seq<Instr>)
    requires KindOk(code, start, k) && (IsFalseConst(k) || IsTrueConst(k))
    ensures Negates(code, k, code2, if IsFalseConst(k) then VTrue else VFalse)
  {
    var k2 := if IsFalseConst(k) then VTrue else VFalse;
    forall env: Env, r: Regs, v: Val | FallValue(env, code, k, r, v)
      ensures NegatedIn(env, code2, k2, r, v)
    {
    }
  }

  lemma NegatesJump(code: seq<Instr>, pc: nat, code2: seq<Instr>)
    requires 0 < pc < |code| && pc < |code2| && code[pc - 1].Compare?
    requires code2[pc - 1] == Flip(code[pc - 1])
    ensures Negates(code, VJmp(pc), code2, VJmp(pc))
  {
    forall env: Env, r: Regs, v: Val | FallValue(env, code, VJmp(pc), r, v)
      ensures NegatedIn(env, code2, VJmp(pc), r, v)
    {
    }
  }

  lemma NegatesReg(code: seq<Instr>, r0: nat, code2: seq<Instr>, pc: nat)
    requires pc < |code2| && code2[pc] == Not(0, r0)
    ensures Negates(code, VNonReloc(r0), code2, VReloc(pc))
  {
    forall env: Env, r: Regs, v: Val | FallValue(env, code, VNonReloc(r0), r, v)
      ensures NegatedIn(env, code2, VReloc(pc), r, v)
    {
    }
  }
}
