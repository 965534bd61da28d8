/** Instructions, their meaning, and how a run of the code changes when pending jumps are
    linked, patched or extended. */
module CodeMachine {
  import opened Options

  datatype Val = Nil | Bool(b: bool) | Other(id: nat)

  predicate Truthy(v: Val) {
    !v.Nil? && v != Bool(false)
  }

  /** The opcodes that expressions use; a TESTSET with no register has 'NO_REG'. */
  datatype Instr =
    | Jmp(sJ: int)
    | Test(a: nat, k: bool)
    | TestSet(dest: Option<nat>, b: nat, k: bool)
    | Compare(op: nat, a: nat, b: nat, k: bool)
    | LoadNil(a: nat, n: nat)
    | LoadFalse(a: nat)
    | LFalseSkip(a: nat)
    | LoadTrue(a: nat)
    | LoadK(a: nat, c: Val)
    | Move(a: nat, b: nat)
    | Not(a: nat, b: nat)
    | GetVar(a: nat, id: nat)

  /** 'testTMode': the next instruction must be a jump. */
  predicate TMode(i: Instr) {
    i.Test? || i.TestSet? || i.Compare?
  }

  type Regs = nat -> Val

  /** What the code cannot change: variables that are not locals, and comparisons. */
  datatype Env = Env(vars: nat -> Val, compare: (nat, Val, Val) -> bool)

  function Upd(regs: Regs, a: nat, v: Val): Regs {
    (x: nat) => if x == a then v else regs(x)
  }

  ghost function UpdNil(regs: Regs, a: nat, n: nat): Regs {
    (x: nat) => if a <= x <= a + n then Nil else regs(x)
  }

  /** The jump after a test is taken. */
  ghost predicate Holds(env: Env, i: Instr, regs: Regs)
    requires TMode(i)
  {
    match i
    case Test(a, k) => Truthy(regs(a)) == k
    case TestSet(_, b, k) => Truthy(regs(b)) == k
    case Compare(op, a, b, k) => env.compare(op, regs(a), regs(b)) == k
  }

  /** The registers after a test whose jump is taken. */
  ghost function Written(i: Instr, regs: Regs): Regs {
    if i.TestSet? && i.dest.Some? then Upd(regs, i.dest.value, regs(i.b)) else regs
  }

  /** The value that a simple instruction puts in its register. */
  ghost function Produced(env: Env, i: Instr, regs: Regs): Val {
    match i
    case LoadFalse(_) => Bool(false)
    case LFalseSkip(_) => Bool(false)
    case LoadTrue(_) => Bool(true)
    case LoadK(_, c) => c
    case Move(_, b) => regs(b)
    case Not(_, b) => Bool(!Truthy(regs(b)))
    case GetVar(_, id) => env.vars(id)
    case _ => Nil
  }

  ghost function Done(env: Env, i: Instr, regs: Regs): Regs
    requires !i.Jmp? && !TMode(i)
  {
    if i.LoadNil? then UpdNil(regs, i.a, i.n) else Upd(regs, i.a, Produced(env, i, regs))
  }

  /** How a run of a piece of code ends: it reaches the end, takes a jump whose destination is
      not known yet, or does something that expression code never does. */
  datatype Exit = Fall(pc: nat, regs: Regs) | Taken(p: nat, regs: Regs) | Stuck

  /** Run code[pc..end]; the jumps in 'pend' are pending. */
  ghost function Exec(env: Env, code: seq<Instr>, pc: nat, regs: Regs, pend: set<nat>, end: nat): Exit
    requires end <= |code|
    decreases end - pc
  {
    if pc >= end then Fall(pc, regs)
    else
      var i := code[pc];
      if i.Jmp? then
        if pc in pend || i.sJ < 0 then Stuck else Exec(env, code, pc + 1 + i.sJ, regs, pend, end)
      else if TMode(i) then
        if !Holds(env, i, regs) then Exec(env, code, pc + 2, regs, pend, end)
        else if pc + 1 in pend then Taken(pc + 1, regs)
        else Exec(env, code, pc + 1, Written(i, regs), pend, end)
      else Exec(env, code, if i.LFalseSkip? then pc + 2 else pc + 1, Done(env, i, regs), pend, end)
  }

  /** 'negatecondition' on a comparison. */
  function Flip(i: Instr): Instr
    requires i.Compare?
  {
    Compare(i.op, i.a, i.b, !i.k)
  }

  /** Two tests that decide alike. */
  predicate SameTest(i: Instr, j: Instr) {
    && TMode(i) && TMode(j)
    && (i == j || (!i.Compare? && !j.Compare? && i.k == j.k && Tested(i) == Tested(j)))
  }

  function Tested(i: Instr): nat
    requires i.Test? || i.TestSet?
  {
    if i.Test? then i.a else i.b
  }

  /** 'code2' is 'code' from 'pc' to 'end', but for pending jumps, some of which are not pending
      any more, and their tests. */
  ghost predicate Related(code: seq<Instr>, code2: seq<Instr>, pc: nat, end: nat, pend: set<nat>, pend2: set<nat>) {
    && end <= |code| && end <= |code2| && end !in pend2
    && forall i :: pc <= i < end ==> SameAt(code, code2, i, pend, pend2)
  }

  ghost predicate SameAt(code: seq<Instr>, code2: seq<Instr>, i: nat, pend: set<nat>, pend2: set<nat>)
    requires i < |code| && i < |code2|
  {
    if i in pend then code[i].Jmp?
    else
      && i !in pend2
      && (i + 1 in pend ==> SameTest(code[i], code2[i]))
      && (i + 1 !in pend ==> code2[i] == code[i])
  }

  /** What a run does after a pending jump has been patched. */
  ghost function Onward(env: Env, code2: seq<Instr>, x: Exit, pend2: set<nat>, end: nat): Exit
    requires end <= |code2|
  {
    if x.Taken? && x.p !in pend2 && 0 < x.p <= |code2| then
      Exec(env, code2, x.p, Written(code2[x.p - 1], x.regs), pend2, end)
    else x
  }

  /** Both runs agree up to the patched jumps. */
  lemma {:induction false} ExecPatched(env: Env, code: seq<Instr>, code2: seq<Instr>, pc: nat, regs: Regs,
                                       pend: set<nat>, pend2: set<nat>, end: nat)
    requires Related(code, code2, pc, end, pend, pend2)
    requires !Exec(env, code, pc, regs, pend, end).Stuck?
    requires forall p :: p in pend ==> p < end
    ensures Exec(env, code2, pc, regs, pend2, end) ==
              Onward(env, code2, Exec(env, code, pc, regs, pend, end), pend2, end)
    decreases end - pc
  {
    if pc < end {
      var i := code[pc];
      assert SameAt(code, code2, pc, pend, pend2);
      assert pc + 1 < end ==> SameAt(code, code2, pc + 1, pend, pend2);
      if i.Jmp? {
        ExecPatched(env, code, code2, pc + 1 + i.sJ, regs, pend, pend2, end);
      } else if TMode(i) {
        if !Holds(env, i, regs) {
          ExecPatched(env, code, code2, pc + 2, regs, pend, pend2, end);
        } else if pc + 1 !in pend {
          ExecPatched(env, code, code2, pc + 1, Written(i, regs), pend, pend2, end);
        }
      } else {
        ExecPatched(env, code, code2, if i.LFalseSkip? then pc + 2 else pc + 1, Done(env, i, regs), pend, pend2, end);
      }
    }
  }

  ghost function Continue(env: Env, code: seq<Instr>, x: Exit, pend: set<nat>, end: nat): Exit
    requires end <= |code|
  {
    if x.Fall? then Exec(env, code, x.pc, x.regs, pend, end) else x
  }

  lemma {:induction false} ExecSplit(env: Env, code: seq<Instr>, pc: nat, regs: Regs, pend: set<nat>, mid: nat, end: nat)
    requires mid <= end <= |code|
    ensures Exec(env, code, pc, regs, pend, end) == Continue(env, code, Exec(env, code, pc, regs, pend, mid), pend, end)
    decreases mid - pc
  {
    if pc < mid {
      var i := code[pc];
      if i.Jmp? {
        if pc !in pend && i.sJ >= 0 {
          ExecSplit(env, code, pc + 1 + i.sJ, regs, pend, mid, end);
        }
      } else if TMode(i) {
        if !Holds(env, i, regs) {
          ExecSplit(env, code, pc + 2, regs, pend, mid, end);
        } else if pc + 1 !in pend {
          ExecSplit(env, code, pc + 1, Written(i, regs), pend, mid, end);
        }
      } else {
        ExecSplit(env, code, if i.LFalseSkip? then pc + 2 else pc + 1, Done(env, i, regs), pend, mid, end);
      }
    }
  }
}
