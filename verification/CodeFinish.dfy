/** The final pass over the code of a function: 'finaltarget' and 'luaK_finish'. */
module CodeFinish {
  import opened Options

  /** Jumps, returns and any other operations. */
  datatype Instr<O> =
    | Jump(sJ: int)
    | Return0 | Return1
    | Return(k: bool, c: nat)
    | TailCall(k: bool, c: nat)
    | Other(op: O)

  /** Every jump of the code stays inside it. */
  ghost predicate Targets<O(!new)>(code: seq<Instr<O>>) {
    forall i :: 0 <= i < |code| && code[i].Jump? ==> 0 <= i + 1 + code[i].sJ < |code|
  }

  // ----- chains of jumps -----

  /** The point reached after following at most 'n' jumps from 'pc'. */
  ghost function Chain<O(!new)>(code: seq<Instr<O>>, pc: nat, n: nat): (q: nat)
    requires Targets(code) && pc < |code|
    ensures q < |code|
    decreases n
  {
    if n == 0 || !code[pc].Jump? then pc else Chain(code, pc + 1 + code[pc].sJ, n - 1)
  }

  lemma {:induction false} ChainAdd<O(!new)>(code: seq<Instr<O>>, pc: nat, n: nat, m: nat)
    requires Targets(code) && pc < |code|
    ensures Chain(code, Chain(code, pc, n), m) == Chain(code, pc, n + m)
    decreases n
  {
    if n > 0 && code[pc].Jump? {
      ChainAdd(code, pc + 1 + code[pc].sJ, n - 1, m);
    } else if n > 0 {
      assert Chain(code, pc, m) == pc;
    }
  }

  /** 'q' is where execution stops jumping from 'pc'. */
  ghost predicate Settles<O(!new)>(code: seq<Instr<O>>, pc: nat, q: nat)
    requires Targets(code) && pc < |code|
  {
    q < |code| && !code[q].Jump? && exists n: nat :: Chain(code, pc, n) == q
  }

  /** Both codes have jumps at the same points, and each jump of 'code2' leads to a later point
      of the chain that the jump starts in 'code'. */
  ghost predicate Shortcut<O(!new)>(code: seq<Instr<O>>, code2: seq<Instr<O>>)
    requires Targets(code)
  {
    && |code2| == |code|
    && forall i :: 0 <= i < |code| ==>
         (code[i].Jump? <==> code2[i].Jump?)
         && (code2[i].Jump? ==> OnChain(code, i, i + 1 + code2[i].sJ))
  }

  ghost predicate OnChain<O(!new)>(code: seq<Instr<O>>, pc: nat, q: int)
    requires Targets(code) && pc < |code|
  {
    exists n: nat :: n > 0 && Chain(code, pc, n) == q
  }

  lemma ShortcutTargets<O(!new)>(code: seq<Instr<O>>, code2: seq<Instr<O>>)
    requires Targets(code) && Shortcut(code, code2)
    ensures Targets(code2)
  {
    forall i | 0 <= i < |code2| && code2[i].Jump?
      ensures 0 <= i + 1 + code2[i].sJ < |code2|
    {
      assert OnChain(code, i, i + 1 + code2[i].sJ);
    }
  }

  /** Following jumps of the new code stays on the old chain. */
  lemma {:induction false} ChainInside<O(!new)>(code: seq<Instr<O>>, code2: seq<Instr<O>>, pc: nat, n: nat) returns (m: nat)
    requires Targets(code) && Shortcut(code, code2) && Targets(code2) && pc < |code|
    ensures Chain(code2, pc, n) == Chain(code, pc, m)
    ensures n > 0 && code[pc].Jump? ==> m > 0
    ensures code2[Chain(code2, pc, n)].Jump? ==> m >= n
    decreases n
  {
    if n == 0 || !code2[pc].Jump? {
      m := 0;
    } else {
      var q := pc + 1 + code2[pc].sJ;
      assert OnChain(code, pc, q);
      var k: nat :| k > 0 && Chain(code, pc, k) == q;
      var r := ChainInside(code, code2, q, n - 1);
      ChainAdd(code, pc, k, r);
      m := k + r;
    }
  }

  lemma {:induction false} SettledStays<O(!new)>(code: seq<Instr<O>>, pc: nat, n: nat, m: nat)
    requires Targets(code) && pc < |code| && n <= m && !code[Chain(code, pc, n)].Jump?
    ensures Chain(code, pc, m) == Chain(code, pc, n)
  {
    ChainAdd(code, pc, n, m - n);
  }

  /** A chain that settles in the old code settles at the same point in the new one. */
  lemma {:induction false} SettlesForward<O(!new)>(code: seq<Instr<O>>, code2: seq<Instr<O>>, pc: nat, n: nat)
    requires Targets(code) && Shortcut(code, code2) && Targets(code2) && pc < |code|
    requires !code[Chain(code, pc, n)].Jump?
    ensures Settles(code2, pc, Chain(code, pc, n))
    decreases n
  {
    var q := Chain(code, pc, n);
    if !code2[pc].Jump? {
      assert Chain(code2, pc, 0) == q;
    } else {
      var t := pc + 1 + code2[pc].sJ;
      assert OnChain(code, pc, t);
      var k: nat :| k > 0 && Chain(code, pc, k) == t;
      if k <= n {
        ChainAdd(code, pc, k, n - k);
        SettlesForward(code, code2, t, n - k);
        var m: nat :| Chain(code2, t, m) == q;
        assert Chain(code2, pc, m + 1) == q;
      } else {
        SettledStays(code, pc, n, k);
        assert Chain(code2, t, 0) == q;
        assert Chain(code2, pc, 1) == q;
      }
    }
  }

  /** Shortcuts preserve where every chain of jumps ends, or that it never ends. */
  lemma SettlesAlike<O(!new)>(code: seq<Instr<O>>, code2: seq<Instr<O>>, pc: nat, q: nat)
    requires Targets(code) && Shortcut(code, code2) && Targets(code2) && pc < |code|
    ensures Settles(code, pc, q) <==> Settles(code2, pc, q)
  {
    if Settles(code, pc, q) {
      var n: nat :| Chain(code, pc, n) == q;
      SettlesForward(code, code2, pc, n);
    }
    if Settles(code2, pc, q) {
      var n: nat :| Chain(code2, pc, n) == q;
      var m := ChainInside(code, code2, pc, n);
    }
  }

  // ----- the pass -----

  /** What the pass makes of an instruction that is no jump. */
  function Adjust<O(!new)>(i: Instr<O>, needclose: bool, vararg: bool, numparams: nat): Instr<O> {
    var j := if (i.Return0? || i.Return1?) && (needclose || vararg) then Return(false, 0) else i;
    match j
    case Return(k, c) => Return(needclose || k, if vararg then numparams + 1 else c)
    case TailCall(k, c) => TailCall(needclose || k, if vararg then numparams + 1 else c)
    case _ => j
  }

  /** 'finaltarget': at least one jump is followed, and at most a hundred. */
  method FinalTarget<O(!new)>(code: seq<Instr<O>>, i0: nat) returns (i: nat, ghost n: nat)
    requires Targets(code) && i0 < |code|
    ensures i < |code| && i == Chain(code, i0, n) && n <= 100
    ensures code[i0].Jump? ==> n > 0
    ensures code[i].Jump? ==> n == 100
  {
    i, n := i0, 0;
    var count := 0;
    while count < 100
      invariant 0 <= count <= 100 && n == count && i < |code| && i == Chain(code, i0, n)
    {
      if !code[i].Jump? {
        return;
      }
      ChainAdd(code, i0, n, 1);
      i := i + (code[i].sJ + 1);
      count := count + 1;
      n := n + 1;
    }
  }

  /** Instructions other than jumps are adjusted up to 'n', and kept from there on. */
  ghost predicate AdjustedTo<O(!new)>(code: seq<Instr<O>>, code2: seq<Instr<O>>, n: nat, needclose: bool, vararg: bool, numparams: nat) {
    && |code2| == |code| && n <= |code|
    && (forall i :: 0 <= i < n && !code[i].Jump? ==> code2[i] == Adjust(code[i], needclose, vararg, numparams))
    && (forall i :: n <= i < |code| ==> code2[i] == code[i])
  }

  lemma ShortcutSelf<O(!new)>(code: seq<Instr<O>>)
    requires Targets(code)
    ensures Shortcut(code, code)
  {
    forall i | 0 <= i < |code| && code[i].Jump?
      ensures OnChain(code, i, i + 1 + code[i].sJ)
    {
      assert Chain(code, i + 1 + code[i].sJ, 0) == i + 1 + code[i].sJ;
      assert Chain(code, i, 1) == i + 1 + code[i].sJ;
    }
  }

  /** 'luaK_finish': jumps are retargeted in place along their original chains. */
  method Finish<O(!new)>(code: seq<Instr<O>>, needclose: bool, vararg: bool, numparams: nat) returns (code2: seq<Instr<O>>)
    requires Targets(code)
    ensures Shortcut(code, code2) && Targets(code2)
    ensures AdjustedTo(code, code2, |code|, needclose, vararg, numparams)
    ensures forall i :: 0 <= i < |code| ==> FinishedAt(code[i], code2[i], needclose, vararg, numparams)
    ensures forall i :: 0 <= i < |code| && code[i].Jump? ==> Straight(code, i, i + 1 + code2[i].sJ)
  {
    code2 := code;
    ShortcutSelf(code);
    var i := 0;
    while i < |code|
      invariant 0 <= i <= |code| && Shortcut(code, code2) && AdjustedTo(code, code2, i, needclose, vararg, numparams)
      invariant forall j :: 0 <= j < i && code[j].Jump? ==> Straight(code, j, j + 1 + code2[j].sJ)
    {
      ShortcutTargets(code, code2);
      ghost var was := code2;
      if code2[i].Jump? {
        ghost var n;
        var target;
        target, n := FinalTarget(code2, i);
        ghost var m := ChainInside(code, code2, i, n);
        code2 := code2[i := Jump(target - (i + 1))];
        assert OnChain(code, i, i + 1 + code2[i].sJ);
        assert Straight(code, i, i + 1 + code2[i].sJ);
      } else {
        code2 := code2[i := Adjust(code2[i], needclose, vararg, numparams)];
      }
      KeepsShortcut(code, was, i, code2[i]);
      i := i + 1;
    }
    ShortcutTargets(code, code2);
    forall i | 0 <= i < |code|
      ensures FinishedAt(code[i], code2[i], needclose, vararg, numparams)
    {
      AdjustIsFinished(code[i], needclose, vararg, numparams);
    }
  }

  /** What becomes of an instruction: returns close upvalues and know the parameters of a vararg
      function exactly when they have to; nothing else but jumps changes. */
  ghost predicate FinishedAt<O(!new)>(i: Instr<O>, j: Instr<O>, needclose: bool, vararg: bool, numparams: nat) {
    && (i.Jump? <==> j.Jump?)
    && (i.Return0? || i.Return1? ==>
          if needclose || vararg then j.Return? && (j.k <==> needclose) && j.c == (if vararg then numparams + 1 else 0)
          else (i.Return0? <==> j.Return0?) && (i.Return1? <==> j.Return1?))
    && (i.Return? ==> j.Return? && (j.k <==> needclose || i.k) && j.c == (if vararg then numparams + 1 else i.c))
    && (i.TailCall? ==> j.TailCall? && (j.k <==> needclose || i.k) && j.c == (if vararg then numparams + 1 else i.c))
    && (i.Other? ==> j.Other? && j.op == i.op)
  }

  lemma AdjustIsFinished<O(!new)>(i: Instr<O>, needclose: bool, vararg: bool, numparams: nat)
    ensures !i.Jump? ==> FinishedAt(i, Adjust(i, needclose, vararg, numparams), needclose, vararg, numparams)
  {
  }

  /** A jump to 'q' needs no shortcut any more: no jump is there, or at least a hundred have been
      followed. */
  ghost predicate Straight<O(!new)>(code: seq<Instr<O>>, pc: nat, q: int)
    requires Targets(code) && pc < |code|
  {
    0 <= q < |code| && (!code[q].Jump? || exists n: nat :: n >= 100 && Chain(code, pc, n) == q)
  }

  lemma KeepsShortcut<O(!new)>(code: seq<Instr<O>>, was: seq<Instr<O>>, i: nat, j: Instr<O>)
    requires Targets(code) && Shortcut(code, was) && i < |code|
    requires (j.Jump? <==> was[i].Jump?) && (j.Jump? ==> OnChain(code, i, i + 1 + j.sJ))
    ensures Shortcut(code, was[i := j])
  {
  }

  // ----- whole runs -----

  /** One step of a machine: any meaning of the instructions that are no jumps.  From point
      'pc' and state 's', the machine stops or goes on at another point in another state. */
  type Machine<!O, !S> = (Instr<O>, nat, S) -> Option<(nat, S)>

  /** After 'n' instructions other than jumps, the run that is at 'p' in state 's' is at 'q' in
      state 't'; both points hold no jump. */
  ghost predicate Visits<O(!new), S(!new)>(code: seq<Instr<O>>, run: Machine<O, S>, p: nat, s: S, n: nat, q: nat, t: S)
    requires Targets(code)
    decreases n, 0
  {
    if n == 0 then p == q && s == t
    else p < |code| && run(code[p], p, s).Some? && ResumesTo(code, run, run(code[p], p, s).value, n - 1, q, t)
  }

  /** From a point that may start a chain of jumps. */
  ghost predicate ResumesTo<O(!new), S(!new)>(code: seq<Instr<O>>, run: Machine<O, S>, from: (nat, S), n: nat, q: nat, t: S)
    requires Targets(code)
    decreases n, 1
  {
    from.0 < |code| && exists p: nat :: Settles(code, from.0, p) && Visits(code, run, p, from.1, n, q, t)
  }

  /** The machine that treats returns as the pass makes them. */
  ghost function Adjusting<O(!new), S(!new)>(run: Machine<O, S>, needclose: bool, vararg: bool, numparams: nat): Machine<O, S> {
    (i: Instr<O>, pc: nat, s: S) => run(Adjust(i, needclose, vararg, numparams), pc, s)
  }

  /** The finished code visits the same points in the same states, for any number of steps and
      any meaning of the instructions. */
  lemma {:induction false} VisitsAlike<O(!new), S(!new)>(code: seq<Instr<O>>, code2: seq<Instr<O>>, run: Machine<O, S>, needclose: bool, vararg: bool,
                                      numparams: nat, p: nat, s: S, n: nat, q: nat, t: S)
    requires Targets(code) && Shortcut(code, code2) && Targets(code2) && (p < |code| ==> !code[p].Jump?)
    requires AdjustedTo(code, code2, |code|, needclose, vararg, numparams)
    ensures Visits(code, Adjusting(run, needclose, vararg, numparams), p, s, n, q, t) <==> Visits(code2, run, p, s, n, q, t)
    decreases n, 0
  {
    if n > 0 && p < |code| && run(code2[p], p, s).Some? {
      ResumesAlike(code, code2, run, needclose, vararg, numparams, run(code2[p], p, s).value, n - 1, q, t);
    }
  }

  /** Control flow is preserved from every point. */
  lemma {:induction false} ResumesAlike<O(!new), S(!new)>(code: seq<Instr<O>>, code2: seq<Instr<O>>, run: Machine<O, S>, needclose: bool, vararg: bool,
                                       numparams: nat, from: (nat, S), n: nat, q: nat, t: S)
    requires Targets(code) && Shortcut(code, code2) && Targets(code2)
    requires AdjustedTo(code, code2, |code|, needclose, vararg, numparams)
    ensures ResumesTo(code, Adjusting(run, needclose, vararg, numparams), from, n, q, t) <==> ResumesTo(code2, run, from, n, q, t)
    decreases n, 1
  {
    hide Visits, Settles, Shortcut, AdjustedTo;
    SameLength(code, code2);
    if from.0 < |code| {
      forall p: nat
        ensures Settles(code, from.0, p) <==> Settles(code2, from.0, p)
        ensures Settles(code, from.0, p) ==>
          (Visits(code, Adjusting(run, needclose, vararg, numparams), p, from.1, n, q, t) <==> Visits(code2, run, p, from.1, n, q, t))
      {
        SettlesAlike(code, code2, from.0, p);
        if Settles(code, from.0, p) {
          SettledNoJump(code, from.0, p);
          VisitsAlike(code, code2, run, needclose, vararg, numparams, p, from.1, n, q, t);
        }
      }
    }
  }

  lemma SettledNoJump<O(!new)>(code: seq<Instr<O>>, pc: nat, p: nat)
    requires Targets(code) && pc < |code| && Settles(code, pc, p)
    ensures p < |code| && !code[p].Jump?
  {
  }

  lemma SameLength<O(!new)>(code: seq<Instr<O>>, code2: seq<Instr<O>>)
    requires Targets(code) && Shortcut(code, code2)
    ensures |code2| == |code|
  {
  }
}
