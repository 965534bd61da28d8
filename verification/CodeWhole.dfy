/** From an expression to the finished code of a function that returns it. */
module CodeWhole {
  import opened Options
  import M = CodeMachine
  import opened CodeLists
  import opened CodeMeaning
  import opened CodeValue
  import opened CodeGen
  import opened CodeFinish

  type Code = seq<Instr<M.Instr>>

  /** The instructions of an expression as the final pass sees them. */
  function Lowered(i: M.Instr): Instr<M.Instr> {
    if i.Jmp? then Jump(i.sJ) else Other(i)
  }

  function Lower(code: seq<M.Instr>): (r: Code)
    ensures |r| == |code| && forall i :: 0 <= i < |code| ==> r[i] == Lowered(code[i])
  {
    seq(|code|, i requires 0 <= i < |code| => Lowered(code[i]))
  }

  /** One instruction other than a jump: where the run goes on, and in which state. */
  ghost function After(env: M.Env, op: M.Instr, pc: nat, regs: M.Regs): (nat, M.Regs)
    requires !op.Jmp?
  {
    if M.TMode(op) then
      if M.Holds(env, op, regs) then (pc + 1, M.Written(op, regs)) else (pc + 2, regs)
    else (if op.LFalseSkip? then pc + 2 else pc + 1, M.Done(env, op, regs))
  }

  /** The machine of the expressions; it stops at returns. */
  ghost function Running(env: M.Env): Machine<M.Instr, M.Regs> {
    (i: Instr<M.Instr>, pc: nat, regs: M.Regs) =>
      if i.Other? && !i.op.Jmp? then Some(After(env, i.op, pc, regs)) else None
  }

  /** The code of an expression, followed by code that does not jump. */
  ghost predicate Embedded(code: seq<M.Instr>, full: Code) {
    && |code| < |full| && Targets(full) && !full[|code|].Jump?
    && forall i :: 0 <= i < |code| ==> full[i] == Lowered(code[i])
  }

  /** A run of the expression's code is a run of the function's code up to its end. */
  lemma {:induction false} Follows(env: M.Env, code: seq<M.Instr>, full: Code, run: Machine<M.Instr, M.Regs>, pc: nat, regs: M.Regs)
    returns (n: nat)
    requires Embedded(code, full) && pc <= |code|
    requires forall op: M.Instr, p: nat, r: M.Regs :: !op.Jmp? ==> run(Other(op), p, r) == Some(After(env, op, p, r))
    requires M.Exec(env, code, pc, regs, {}, |code|).Fall? && M.Exec(env, code, pc, regs, {}, |code|).pc == |code|
    ensures ResumesTo(full, run, (pc, regs), n, |code|, M.Exec(env, code, pc, regs, {}, |code|).regs)
    decreases |code| - pc
  {
    var t := M.Exec(env, code, pc, regs, {}, |code|).regs;
    if pc == |code| {
      n := 0;
      StandsAt(full, pc);
      assert Visits(full, run, pc, regs, 0, pc, regs);
    } else if code[pc].Jmp? {
      var next := pc + 1 + code[pc].sJ;
      n := Follows(env, code, full, run, next, regs);
      var p: nat :| Settles(full, next, p) && Visits(full, run, p, regs, n, |code|, t);
      JumpsOn(full, pc, next, p);
    } else {
      var (next, regs2) := After(env, code[pc], pc, regs);
      var m := Follows(env, code, full, run, next, regs2);
      n := m + 1;
      assert full[pc] == Other(code[pc]) && run(full[pc], pc, regs) == Some((next, regs2));
      StandsAt(full, pc);
      assert Visits(full, run, pc, regs, n, |code|, t);
    }
  }

  lemma StandsAt(full: Code, pc: nat)
    requires Targets(full) && pc < |full| && !full[pc].Jump?
    ensures Settles(full, pc, pc)
  {
    assert Chain(full, pc, 0) == pc;
  }

  lemma JumpsOn(full: Code, pc: nat, next: nat, p: nat)
    requires Targets(full) && pc < |full| && full[pc].Jump? && next == pc + 1 + full[pc].sJ && Settles(full, next, p)
    ensures Settles(full, pc, p)
  {
    var k: nat :| Chain(full, next, k) == p;
    assert Chain(full, pc, k + 1) == p;
  }

  /** The finished code gets from point 0 to its last instruction with the value of 'e' in
      register 'reg' and the registers below unchanged. */
  ghost predicate Returns(env: M.Env, e: Ast, regs: M.Regs, code: Code, reg: nat) {
    && Targets(code) && code != []
    && exists n: nat, t: M.Regs :: ReturnsWith(env, e, regs, code, reg, n, t)
  }

  /** After 'n' instructions other than jumps, in state 't'. */
  ghost predicate ReturnsWith(env: M.Env, e: Ast, regs: M.Regs, code: Code, reg: nat, n: nat, t: M.Regs)
    requires Targets(code) && code != []
  {
    && ResumesTo(code, Running(env), (0, regs), n, |code| - 1, t)
    && t(reg) == Eval(env, e, regs) && Same(regs, t, reg)
  }

  lemma FinishedReturns(env: M.Env, e: Ast, regs: M.Regs, code: seq<M.Instr>, full: Code, code2: Code, reg: nat,
                        needclose: bool, vararg: bool, numparams: nat)
    requires AlwaysComputes(e, code, 0, reg, reg) && Embedded(code, full) && |full| == |code| + 1
    requires Shortcut(full, code2) && Targets(code2) && AdjustedTo(full, code2, |full|, needclose, vararg, numparams)
    ensures Returns(env, e, regs, code2, reg)
  {
    hide M.Exec, Eval, Embedded, ResumesTo, Shortcut, AdjustedTo;
    var run := Adjusting(Running(env), needclose, vararg, numparams);
    assert Computes(env, e, regs, code, 0, reg, reg);
    Adjusts(env, needclose, vararg, numparams);
    EmbeddedTargets(code, full);
    var n := Follows(env, code, full, run, 0, regs);
    var t := M.Exec(env, code, 0, regs, {}, |code|).regs;
    ResumesAlike(full, code2, Running(env), needclose, vararg, numparams, (0, regs), n, |code|, t);
    CodeFinish.SameLength(full, code2);
    assert ReturnsWith(env, e, regs, code2, reg, n, t);
  }

  lemma EmbeddedTargets(code: seq<M.Instr>, full: Code)
    requires Embedded(code, full)
    ensures Targets(full)
  {
  }

  /** The final pass does not touch the instructions of expressions. */
  lemma Adjusts(env: M.Env, needclose: bool, vararg: bool, numparams: nat)
    ensures var run := Adjusting(Running(env), needclose, vararg, numparams);
      forall op: M.Instr, p: nat, r: M.Regs :: !op.Jmp? ==> run(Other(op), p, r) == Some(After(env, op, p, r))
  {
    hide After;
    var run := Adjusting(Running(env), needclose, vararg, numparams);
    forall op: M.Instr, p: nat, r: M.Regs | !op.Jmp?
      ensures run(Other(op), p, r) == Some(After(env, op, p, r))
    {
      assert Adjust(Other(op), needclose, vararg, numparams) == Other(op);
      assert run(Other(op), p, r) == Running(env)(Other(op), p, r);
    }
  }

  /** The code of an expression and a return. */
  lemma ReturnEmbeds(code: seq<M.Instr>)
    requires Ranged(code)
    ensures Embedded(code, Lower(code) + [Return1])
  {
  }

  /** Compile 'return e' and finish the code: in every environment, running the finished code
      gets to the return with the value of the expression in the register. */
  method CompileReturn(e: Ast, nvars: nat, needclose: bool, vararg: bool, numparams: nat) returns (code2: Code, reg: nat)
    requires UsesBelow(e, nvars)
    ensures reg == nvars && code2 != [] && code2[|code2| - 1] == Adjust(Return1, needclose, vararg, numparams)
    ensures forall env, regs :: Returns(env, e, regs, code2, reg)
  {
    hide Returns, AlwaysComputes, Embedded, Shortcut;
    var fs := new FuncState(nvars);
    assert Ranged(fs.code);
    reg := fs.CompileToNextReg(e);
    var code := fs.code;
    ReturnEmbeds(code);
    var full := Lower(code) + [Return1];
    EmbeddedTargets(code, full);
    code2 := Finish(full, needclose, vararg, numparams);
    forall env: M.Env, regs: M.Regs
      ensures Returns(env, e, regs, code2, reg)
    {
      FinishedReturns(env, e, regs, code, full, code2, reg, needclose, vararg, numparams);
    }
  }
}
