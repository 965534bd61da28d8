/** Negating an expression ('codenot') and putting its final value in a register ('exp2reg'). */
module CodeValue {
  import opened Options
  import opened CodeMachine
  import opened CodeLists
  import opened CodeMeaning
  import opened CodeBranch

  // ----- negation -----

  ghost function BareAt(code: seq<Instr>, i: nat, s: seq<nat>): Instr
    requires i < |code|
  {
    if i + 1 in s && code[i].TestSet? then Test(code[i].b, code[i].k) else code[i]
  }

  /** The code after 'removevalues': no test of the list produces a value. */
  ghost function Bare(code: seq<Instr>, s: seq<nat>): (r: seq<Instr>)
    ensures |r| == |code| && forall i :: 0 <= i < |code| ==> r[i] == BareAt(code, i, s)
  {
    seq(|code|, i requires 0 <= i < |code| => BareAt(code, i, s))
  }

  /** 'k2' in 'code2' is the negation of what 'k' describes in 'code'. */
  ghost predicate Negates(code: seq<Instr>, k: Kind, code2: seq<Instr>, k2: Kind) {
    forall env, r, v :: FallValue(env, code, k, r, v) ==> NegatedIn(env, code2, k2, r, v)
  }

  ghost predicate NegatedIn(env: Env, code2: seq<Instr>, k2: Kind, r: Regs, v: Val) {
    FallValue(env, code2, k2, r, Bool(!Truthy(v)))
  }

  /** Up to 'end', 'code2' is 'code' with no test producing a value. */
  ghost predicate BareTo(code: seq<Instr>, code2: seq<Instr>, end: nat, tl: seq<nat>, fl: seq<nat>) {
    && end <= |code| && end <= |code2|
    && forall i :: 0 <= i < end ==> code2[i] == BareAt(code, i, tl + fl)
  }

  lemma NotMeans(env: Env, e: Ast, regs: Regs, code: seq<Instr>, start: nat, k: Kind, tl: seq<nat>, fl: seq<nat>,
                 code2: seq<Instr>, k2: Kind, n: nat)
    requires EndOf(code, k) == EndOf(code2, k2) <= |code| && BareTo(code, code2, EndOf(code, k), tl, fl)
    requires PendOk(code, start, EndOf(code, k), Pend(tl, fl)) && Negates(code, k, code2, k2)
    requires Means(env, e, regs, code, start, k, tl, fl, n)
    ensures Means(env, ENot(e), regs, code2, start, k2, fl, tl, n)
  {
    hide Exec, Denotes, Negates, BareTo, Related, PendOk, Pend;
    PendSwaps(tl, fl);
    var end, pend, v := EndOf(code, k), Pend(tl, fl), Eval(env, e, regs);
    var x := Exec(env, code, start, regs, pend, end);
    ExitIsPlain(env, x, regs, v, code, k, tl, fl, n);
    BareRuns(env, regs, code, code2, start, end, tl, fl);
    NegatedDenotes(env, x, regs, v, code, k, code2, k2, tl, fl, n);
  }

  lemma PendSwaps(tl: seq<nat>, fl: seq<nat>)
    ensures Pend(fl, tl) == Pend(tl, fl)
  {
  }

  lemma BareRuns(env: Env, regs: Regs, code: seq<Instr>, code2: seq<Instr>, start: nat, end: nat, tl: seq<nat>, fl: seq<nat>)
    requires BareTo(code, code2, end, tl, fl) && PendOk(code, start, end, Pend(tl, fl))
    requires !Exec(env, code, start, regs, Pend(tl, fl), end).Stuck?
    ensures var x := Exec(env, code, start, regs, Pend(tl, fl), end);
      && Exec(env, code2, start, regs, Pend(tl, fl), end) == x
      && (x.Taken? ==> 0 < x.p < end && TestedJump(code, x.p) && x.p in tl + fl)
  {
    hide BareTo;
    BareRelated(code, code2, start, end, tl, fl);
    ExecPatched(env, code, code2, start, regs, Pend(tl, fl), Pend(tl, fl), end);
    TakenIsPending(env, code, start, regs, Pend(tl, fl), end);
  }

  lemma NegatedDenotes(env: Env, x: Exit, regs: Regs, v: Val, code: seq<Instr>, k: Kind, code2: seq<Instr>, k2: Kind,
                       tl: seq<nat>, fl: seq<nat>, n: nat)
    requires Denotes(env, x, regs, v, code, k, tl, fl, n) && Negates(code, k, code2, k2) && EndOf(code, k) == EndOf(code2, k2)
    requires BareTo(code, code2, EndOf(code, k), tl, fl)
    requires x.Taken? ==> 0 < x.p < EndOf(code, k) && TestedJump(code, x.p) && x.p in tl + fl
    ensures Denotes(env, x, regs, Bool(!Truthy(v)), code2, k2, fl, tl, n)
  {
    if x.Fall? {
      assert NegatedIn(env, code2, k2, x.regs, v);
    } else {
      assert code2[x.p - 1] == BareAt(code, x.p - 1, tl + fl);
    }
  }

  lemma BareRelated(code: seq<Instr>, code2: seq<Instr>, start: nat, end: nat, tl: seq<nat>, fl: seq<nat>)
    requires BareTo(code, code2, end, tl, fl) && PendOk(code, start, end, Pend(tl, fl))
    ensures Related(code, code2, start, end, Pend(tl, fl), Pend(tl, fl))
  {
    forall i | start <= i < end
      ensures SameAt(code, code2, i, Pend(tl, fl), Pend(tl, fl))
    {
      assert i in Pend(tl, fl) ==> TestedJump(code, i);
      assert i + 1 in Pend(tl, fl) ==> TestedJump(code, i + 1);
    }
  }

  /** 'codenot', once the descriptor itself is negated. */
  lemma NotSound(e: Ast, code: seq<Instr>, start: nat, d: ExpDesc, tl: seq<nat>, fl: seq<nat>,
                 code2: seq<Instr>, k2: Kind, n: nat)
    requires Shape(code, start, d, tl, fl) && Sound(e, code, start, d.k, tl, fl, n)
    requires EndOf(code, d.k) == EndOf(code2, k2) && BareTo(code, code2, EndOf(code, d.k), tl, fl)
    requires Negates(code, d.k, code2, k2) && KindOk(code2, start, k2)
    ensures Shape(code2, start, ExpDesc(k2, d.f, d.t), fl, tl) && Sound(ENot(e), code2, start, k2, fl, tl, n)
  {
    hide Means, KindOk, Negates;
    var not := ENot(e);
    ShapeBounds(code, start, d, tl, fl);
    BareShape(code, start, d, tl, fl, code2, EndOf(code, d.k));
    hide BareTo, Shape, PendOk;
    forall env: Env, regs: Regs
      ensures Means(env, not, regs, code2, start, k2, fl, tl, n)
    {
      assert Means(env, e, regs, code, start, d.k, tl, fl, n);
      NotMeans(env, e, regs, code, start, d.k, tl, fl, code2, k2, n);
    }
    assert Shape(code2, start, ExpDesc(k2, d.f, d.t), fl, tl) by {
      NotShape(code2, start, ExpDesc(k2, d.f, d.t), fl, tl);
    }
  }

  lemma NotShape(code2: seq<Instr>, start: nat, d: ExpDesc, tl: seq<nat>, fl: seq<nat>)
    requires start <= EndOf(code2, d.k) <= |code2| && KindOk(code2, start, d.k)
    requires ListsOk(code2, d, tl, fl) && PendOk(code2, start, EndOf(code2, d.k), Pend(tl, fl))
    ensures Shape(code2, start, d, tl, fl)
  {
  }

  lemma BareShape(code: seq<Instr>, start: nat, d: ExpDesc, tl: seq<nat>, fl: seq<nat>, code2: seq<Instr>, end: nat)
    requires ListsOk(code, d, tl, fl) && PendOk(code, start, end, Pend(tl, fl)) && BareTo(code, code2, end, tl, fl)
    ensures ListsOk(code2, ExpDesc(d.k, d.f, d.t), fl, tl) && PendOk(code2, start, end, Pend(fl, tl))
  {
    var pend := Pend(tl, fl);
    assert Pend(fl, tl) == pend;
    forall p | p in pend
      ensures start < p < end && TestedJump(code2, p) && code2[p] == code[p]
    {
      assert TestedJump(code, p);
      assert code2[p] == BareAt(code, p, tl + fl) && code2[p - 1] == BareAt(code, p - 1, tl + fl);
    }
    ListInside(code, start, end, d.t, tl, pend);
    ListInside(code, start, end, d.f, fl, pend);
    ListSame(code, code2, d.t, tl, pend);
    ListSame(code, code2, d.f, fl, pend);
  }

  lemma ListSame(code: seq<Instr>, code2: seq<Instr>, l: int, s: seq<nat>, pend: set<nat>)
    requires IsList(code, l, s) && SetOf(s) <= pend
    requires forall p :: p in pend ==> p < |code| && p < |code2| && code2[p] == code[p]
    ensures IsList(code2, l, s)
  {
    forall i | 0 <= i < |s|
      ensures s[i] < |code2| && code2[s[i]] == code[s[i]]
    {
      assert s[i] in SetOf(s);
      ListJumps(code, l, s);
    }
    ListFrame(code, code2, l, s);
  }

  // ----- the final value -----

  /** A run of the whole code either leaves by a list, or falls with the value in 'reg'; when
      the expression is a comparison, it falls when the value is false. */
  ghost predicate Ready(env: Env, e: Ast, regs: Regs, code: seq<Instr>, start: nat, tl: seq<nat>, fl: seq<nat>,
                        reg: nat, jump: bool, n: nat) {
    ReadyExit(Exec(env, code, start, regs, Pend(tl, fl), |code|), regs, Eval(env, e, regs), code, tl, fl, reg, jump, n)
  }

  ghost predicate ReadyExit(y: Exit, regs: Regs, v: Val, code: seq<Instr>, tl: seq<nat>, fl: seq<nat>,
                            reg: nat, jump: bool, n: nat) {
    match y
    case Stuck => false
    case Taken(p, r) => Same(regs, r, n) && InLists(code, p, r, v, tl, fl)
    case Fall(pc, r) => pc == |code| && Same(regs, r, n) && (if jump then v == Bool(false) else r(reg) == v)
  }

  /** A comparison becomes one more jump of the true list. */
  lemma JumpReady(env: Env, e: Ast, regs: Regs, code: seq<Instr>, start: nat, d: ExpDesc, tl: seq<nat>, fl: seq<nat>,
                  reg: nat, n: nat)
    requires Shape(code, start, d, tl, fl) && d.k.VJmp? && Means(env, e, regs, code, start, d.k, tl, fl, n)
    ensures Ready(env, e, regs, Linked(code, tl, d.k.pc), start, tl + [d.k.pc], fl, reg, true, n)
  {
    hide Exec, Linked, Pend, PendOk, Shape, KindOk, Denotes, ReadyExit, OnlyJumps, SameBut, TestedJump;
    JumpFacts(code, start, d, tl, fl);
    var pc := d.k.pc;
    var code2, x, v := Linked(code, tl, pc), Exec(env, code, start, regs, Pend(tl, fl), pc - 1), Eval(env, e, regs);
    ExitIsPlain(env, x, regs, v, code, d.k, tl, fl, n);
    JumpRuns(env, regs, code, code2, start, pc - 1, Pend(tl, fl), Pend(tl + [pc], fl), pc);
    JumpDenotes(env, x, regs, v, code, code2, d.k, tl, fl, reg, n);
  }

  lemma JumpFacts(code: seq<Instr>, start: nat, d: ExpDesc, tl: seq<nat>, fl: seq<nat>)
    requires Shape(code, start, d, tl, fl) && d.k.VJmp?
    ensures var pc, code2, pend := d.k.pc, Linked(code, tl, d.k.pc), Pend(tl, fl);
      && 0 < pc == |code| - 1 && EndOf(code, d.k) == pc - 1 && code[pc - 1].Compare?
      && |code2| == |code| && PendOk(code, start, pc - 1, pend) && SameBut(code, code2, pend) && OnlyJumps(code, code2)
      && Pend(tl + [pc], fl) == pend + {pc} && pc - 1 !in pend
  {
    hide Pend, PendOk, ListsOk, SetOf, Linked, OnlyJumps, SameBut;
    var pc, pend := d.k.pc, Pend(tl, fl);
    PendMore(tl, fl, pc);
    LinkedAt(code, start, pc - 1, tl, pc, pend);
    SameLength(code, Linked(code, tl, pc), pend);
    EndNotPending(code, start, pc - 1, pend);
    JumpsOnly(code, start, pc - 1, pend, Linked(code, tl, pc));
  }

  lemma SameLength(code: seq<Instr>, code2: seq<Instr>, pend: set<nat>)
    requires SameBut(code, code2, pend)
    ensures |code2| == |code|
  {
  }

  lemma EndNotPending(code: seq<Instr>, start: nat, end: nat, pend: set<nat>)
    requires PendOk(code, start, end, pend)
    ensures end !in pend
  {
  }

  lemma PendMore(tl: seq<nat>, fl: seq<nat>, pc: nat)
    ensures Pend(tl + [pc], fl) == Pend(tl, fl) + {pc} && SetOf(tl) <= Pend(tl, fl)
  {
  }

  lemma ExitIsPlain(env: Env, x: Exit, regs: Regs, v: Val, code: seq<Instr>, k: Kind, tl: seq<nat>, fl: seq<nat>, n: nat)
    requires Denotes(env, x, regs, v, code, k, tl, fl, n)
    ensures !x.Stuck? && (x.Fall? ==> x.pc == EndOf(code, k))
  {
  }

  lemma JumpDenotes(env: Env, x: Exit, regs: Regs, v: Val, code: seq<Instr>, code2: seq<Instr>, k: Kind,
                    tl: seq<nat>, fl: seq<nat>, reg: nat, n: nat)
    requires Denotes(env, x, regs, v, code, k, tl, fl, n) && k.VJmp? && 0 < k.pc == |code| - 1
    requires OnlyJumps(code, code2) && |code2| == |code| && code[k.pc - 1].Compare?
    requires x.Taken? ==> TestedJump(code, x.p)
    ensures var y := if x.Taken? then x
                     else if Holds(env, code[k.pc - 1], x.regs) then Taken(k.pc, x.regs) else Fall(|code|, x.regs);
      ReadyExit(y, regs, v, code2, tl + [k.pc], fl, reg, true, n)
  {
  }

  lemma JumpRuns(env: Env, regs: Regs, code: seq<Instr>, code2: seq<Instr>, start: nat, end: nat,
                 pend: set<nat>, pend2: set<nat>, pc: nat)
    requires PendOk(code, start, end, pend) && |code2| == |code| && pc == end + 1 == |code| - 1 && pend2 == pend + {pc}
    requires SameBut(code, code2, pend)
    requires TMode(code[end]) && end !in pend
    requires var x := Exec(env, code, start, regs, pend, end); !x.Stuck? && (x.Fall? ==> x.pc == end)
    ensures var x := Exec(env, code, start, regs, pend, end);
      && Exec(env, code2, start, regs, pend2, |code|) ==
           (if x.Taken? then x else if Holds(env, code[end], x.regs) then Taken(pc, x.regs) else Fall(|code|, x.regs))
      && (x.Taken? ==> x.p in pend && TestedJump(code, x.p))
  {
    LinkedRelated(code, code2, start, end, pend, pend2, pc);
    ExecPatched(env, code, code2, start, regs, pend, pend2, end);
    TakenIsPending(env, code, start, regs, pend, end);
    ExecSplit(env, code2, start, regs, pend2, end, |code|);
    var x := Exec(env, code, start, regs, pend, end);
    if x.Fall? {
      LastTest(env, code2, x.regs, pend2);
    }
  }

  lemma LinkedRelated(code: seq<Instr>, code2: seq<Instr>, start: nat, end: nat, pend: set<nat>, pend2: set<nat>, pc: nat)
    requires PendOk(code, start, end, pend) && |code2| == |code| && pc > end && pend2 == pend + {pc}
    requires SameBut(code, code2, pend)
    ensures Related(code, code2, start, end, pend, pend2)
  {
    forall i | start <= i < end
      ensures SameAt(code, code2, i, pend, pend2)
    {
      assert i in pend ==> TestedJump(code, i);
      assert i + 1 in pend ==> TestedJump(code, i + 1);
    }
  }

  /** The instructions that load booleans for tests that produce none. */
  function Loads(reg: nat, jump: bool): seq<Instr> {
    (if jump then [] else [Jmp(2)]) + [LFalseSkip(reg), LoadTrue(reg)]
  }

  /** The code of 'exp2reg' after both lists are patched. */
  ghost function Finished(code: seq<Instr>, tl: seq<nat>, fl: seq<nat>, reg: nat, need: bool, jump: bool): seq<Instr> {
    var code2 := if need then code + Loads(reg, jump) else code;
    var pf := if need then |code2| - 2 else NO_JUMP;
    var pt := if need then |code2| - 1 else NO_JUMP;
    Patched(Patched(code2, fl, |code2|, Some(reg), pf), tl, |code2|, Some(reg), pt)
  }

  lemma FinishedAt(code: seq<Instr>, tl: seq<nat>, fl: seq<nat>, reg: nat, need: bool, jump: bool, i: nat)
    requires i < |code|
    ensures var code6 := Finished(code, tl, fl, reg, need, jump);
      var m := |code6|;
      && |code| <= m == |code| + (if need then |Loads(reg, jump)| else 0)
      && (i !in tl && i !in fl && i + 1 !in tl && i + 1 !in fl ==> code6[i] == code[i])
      && (i !in tl && i !in fl && (i + 1 in tl || i + 1 in fl) && code[i].TestSet? ==>
            code6[i] == PatchTest(code[i], Some(reg)))
      && (i !in tl && i !in fl && !code[i].TestSet? ==> code6[i] == code[i])
  {
  }

  lemma FinishedJump(code: seq<Instr>, tl: seq<nat>, fl: seq<nat>, reg: nat, need: bool, jump: bool, p: nat)
    requires 0 < p < |code| && (p in tl || p in fl) && p - 1 !in tl && p - 1 !in fl && !(p in tl && p in fl)
    ensures var code6 := Finished(code, tl, fl, reg, need, jump);
      var m := |code6|;
      code6[p] == Jmp((if code[p - 1].TestSet? then m else if !need then NO_JUMP else if p in fl then m - 2 else m - 1) - (p + 1))
  {
  }

  /** From where a patched jump or the expression itself leads, the value gets to 'reg'. */
  lemma TailRuns(env: Env, code6: seq<Instr>, regs: Regs, m: nat, reg: nat, need: bool, jump: bool)
    requires m <= |code6| && code6[m..] == if need then Loads(reg, jump) else []
    ensures Exec(env, code6, |code6|, regs, {}, |code6|) == Fall(|code6|, regs)
    ensures !jump || !need ==> Exec(env, code6, m, regs, {}, |code6|) == Fall(|code6|, regs)
    ensures need ==> Exec(env, code6, |code6| - 2, regs, {}, |code6|) == Fall(|code6|, Upd(regs, reg, Bool(false)))
    ensures need ==> Exec(env, code6, |code6| - 1, regs, {}, |code6|) == Fall(|code6|, Upd(regs, reg, Bool(true)))
  {
    if need {
      assert code6[|code6| - 1] == code6[m..][|Loads(reg, jump)| - 1];
      assert code6[|code6| - 2] == code6[m..][|Loads(reg, jump)| - 2];
      var rf, rt := Upd(regs, reg, Bool(false)), Upd(regs, reg, Bool(true));
      assert Exec(env, code6, |code6|, rf, {}, |code6|) == Fall(|code6|, rf);
      assert Exec(env, code6, |code6|, rt, {}, |code6|) == Fall(|code6|, rt);
      if !jump {
        assert code6[m] == code6[m..][0] == Jmp(2);
      }
    }
  }

  lemma FinishedTail(code: seq<Instr>, tl: seq<nat>, fl: seq<nat>, reg: nat, need: bool, jump: bool)
    requires forall p :: p in tl || p in fl ==> p < |code|
    ensures var code6 := Finished(code, tl, fl, reg, need, jump);
      |code| <= |code6| && code6[|code|..] == if need then Loads(reg, jump) else []
  {
    var code6 := Finished(code, tl, fl, reg, need, jump);
    var tail := if need then Loads(reg, jump) else [];
    assert |code6| == |code| + |tail|;
    forall i | 0 <= i < |tail|
      ensures code6[|code| + i] == tail[i]
    {
      assert |code| + i !in tl && |code| + i !in fl;
    }
  }

  lemma FinishedRelated(code: seq<Instr>, start: nat, tl: seq<nat>, fl: seq<nat>, reg: nat, need: bool, jump: bool)
    requires PendOk(code, start, |code|, Pend(tl, fl))
    ensures Related(code, Finished(code, tl, fl, reg, need, jump), start, |code|, Pend(tl, fl), {})
  {
    var code6, pend := Finished(code, tl, fl, reg, need, jump), Pend(tl, fl);
    forall i | start <= i < |code|
      ensures SameAt(code, code6, i, pend, {})
    {
      FinishedAt(code, tl, fl, reg, need, jump, i);
      assert i in pend ==> TestedJump(code, i);
      assert i + 1 in pend ==> TestedJump(code, i + 1);
    }
  }

  /** Where a pending jump leads once it is patched, and with which registers. */
  lemma FinishedTaken(env: Env, code: seq<Instr>, start: nat, tl: seq<nat>, fl: seq<nat>, reg: nat, need: bool, jump: bool,
                      p: nat, regs: Regs)
    requires PendOk(code, start, |code|, Pend(tl, fl)) && Disjoint(tl, fl) && p in Pend(tl, fl)
    requires need || code[p - 1].TestSet?
    ensures var code6 := Finished(code, tl, fl, reg, need, jump);
      && |code| <= |code6| && 0 < p < |code|
      && Exec(env, code6, p, Written(code6[p - 1], regs), {}, |code|) ==
           (if code[p - 1].TestSet? then Fall(|code6|, Written(PatchTest(code[p - 1], Some(reg)), regs))
            else Fall(if p in fl then |code6| - 2 else |code6| - 1, regs))
  {
    var code6 := Finished(code, tl, fl, reg, need, jump);
    assert TestedJump(code, p);
    NotPending(code, start, |code|, Pend(tl, fl), p - 1);
    assert !(p in tl && p in fl);
    FinishedAt(code, tl, fl, reg, need, jump, p);
    FinishedAt(code, tl, fl, reg, need, jump, p - 1);
    FinishedJump(code, tl, fl, reg, need, jump, p);
    var r := Written(code6[p - 1], regs);
    var t := p + 1 + code6[p].sJ;
    assert t >= |code| && Exec(env, code6, t, r, {}, |code|) == Fall(t, r);
  }

  /** The code leaves the value of the expression in 'reg' and keeps the registers below 'n'. */
  ghost predicate Computes(env: Env, e: Ast, regs: Regs, code: seq<Instr>, start: nat, reg: nat, n: nat) {
    var x := Exec(env, code, start, regs, {}, |code|);
    x.Fall? && x.pc == |code| && Same(regs, x.regs, n) && x.regs(reg) == Eval(env, e, regs)
  }

  lemma FinishedRuns(env: Env, e: Ast, regs: Regs, code: seq<Instr>, start: nat, tl: seq<nat>, fl: seq<nat>,
                     reg: nat, need: bool, jump: bool, n: nat)
    requires PendOk(code, start, |code|, Pend(tl, fl)) && Disjoint(tl, fl) && reg >= n && (jump ==> need)
    requires !need ==> forall p :: p in Pend(tl, fl) && 0 < p <= |code| ==> code[p - 1].TestSet?
    requires Ready(env, e, regs, code, start, tl, fl, reg, jump, n)
    ensures Computes(env, e, regs, Finished(code, tl, fl, reg, need, jump), start, reg, n)
  {
    hide Finished, Exec, PendOk;
    var code6, pend := Finished(code, tl, fl, reg, need, jump), Pend(tl, fl);
    var x := Exec(env, code, start, regs, pend, |code|);
    PendingInside(code, start, |code|, pend);
    FinishedRelated(code, start, tl, fl, reg, need, jump);
    ListsInside(code, start, |code|, tl, fl);
    FinishedTail(code, tl, fl, reg, need, jump);
    ExecPatched(env, code, code6, start, regs, pend, {}, |code|);
    ExecSplit(env, code6, start, regs, {}, |code|, |code6|);
    if x.Fall? {
      TailRuns(env, code6, x.regs, |code|, reg, need, jump);
    } else {
      TakenIsPending(env, code, start, regs, pend, |code|);
      FinishedTaken(env, code, start, tl, fl, reg, need, jump, x.p, x.regs);
      TailRuns(env, code6, x.regs, |code|, reg, need, jump);
      if code[x.p - 1].TestSet? {
        TailRuns(env, code6, Written(PatchTest(code[x.p - 1], Some(reg)), x.regs), |code|, reg, need, jump);
      }
    }
  }

  lemma ListsInside(code: seq<Instr>, start: nat, end: nat, tl: seq<nat>, fl: seq<nat>)
    requires PendOk(code, start, end, Pend(tl, fl))
    ensures forall p :: p in tl || p in fl ==> p < end
  {
    forall p | p in tl || p in fl
      ensures p < end
    {
      assert p in Pend(tl, fl);
    }
  }

  lemma BareNone(code: seq<Instr>)
    ensures Bare(code, []) == code
  {
  }

  /** One test without its value. */
  ghost function BareStep(c: seq<Instr>, p: nat): seq<Instr> {
    if Produces(c, p) then c[p - 1 := Test(c[p - 1].b, c[p - 1].k)] else c
  }

  lemma BareOne(code: seq<Instr>, s: seq<nat>, n: nat)
    requires n < |s| && AllJumps(code, s) && NoRepeat(s)
    ensures var c := Bare(code, s[..n]);
      && |c| == |code| && c[s[n]] == code[s[n]]
      && Bare(code, s[..n + 1]) == BareStep(c, s[n]) && |BareStep(c, s[n])| == |code| && BareStep(c, s[n])[s[n]] == code[s[n]]
  {
    var p := s[n];
    assert forall x: nat :: x in s[..n + 1] <==> x in s[..n] || x == p by {
      assert s[..n + 1] == s[..n] + [p];
    }
    assert p !in s[..n];
    assert code[p].Jmp?;
  }

  // ----- the pieces of the two operations -----

  /** Removing the values of both lists, after the end of the code has changed. */
  lemma BareBoth(base: seq<Instr>, code: seq<Instr>, end: nat, tl: seq<nat>, fl: seq<nat>)
    requires end <= |base| && end <= |code| && code[..end] == base[..end]
    requires forall i :: end <= i < |code| ==> !code[i].TestSet?
    ensures var code2 := Bare(Bare(code, tl), fl);
      && |code2| == |code| && BareTo(base, code2, end, tl, fl)
      && (forall i :: end <= i < |code| ==> code2[i] == code[i])
      && (forall i :: 0 <= i < |code| && !code[i].TestSet? ==> code2[i] == code[i])
  {
    var code2 := Bare(Bare(code, tl), fl);
    forall i | 0 <= i < end
      ensures code2[i] == BareAt(base, i, tl + fl)
    {
      assert code[..end][i] == base[..end][i];
    }
  }

  lemma NegatesTail(base: seq<Instr>, k: Kind, code: seq<Instr>, code2: seq<Instr>, start: nat, k2: Kind)
    requires Negates(base, k, code, k2) && |code2| == |code| && KindOk(code, start, k2)
    requires forall i :: EndOf(code, k2) <= i < |code| ==> code2[i] == code[i]
    ensures Negates(base, k, code2, k2) && KindOk(code2, start, k2)
  {
    forall env: Env, r: Regs, v: Val | FallValue(env, base, k, r, v)
      ensures NegatedIn(env, code2, k2, r, v)
    {
      assert NegatedIn(env, code, k2, r, v);
    }
  }

  lemma ListPrefix(base: seq<Instr>, code: seq<Instr>, start: nat, end: nat, l: int, s: seq<nat>, pend: set<nat>)
    requires IsList(base, l, s) && PendOk(base, start, end, pend) && SetOf(s) <= pend
    requires end <= |code| && code[..end] == base[..end]
    ensures IsList(code, l, s)
  {
    ListInside(base, start, end, l, s, pend);
    forall i | 0 <= i < |s|
      ensures s[i] < |code| && code[s[i]] == base[s[i]]
    {
      assert code[..end][s[i]] == base[..end][s[i]];
    }
    ListFrame(base, code, l, s);
  }

  lemma BareKeepsList(code: seq<Instr>, s: seq<nat>, l: int, t: seq<nat>)
    requires IsList(code, l, t)
    ensures IsList(Bare(code, s), l, t)
  {
    ListJumps(code, l, t);
    ListFrame(code, Bare(code, s), l, t);
  }

  /** Every run is ready for its final patching. */
  ghost predicate AllReady(e: Ast, code: seq<Instr>, start: nat, tl: seq<nat>, fl: seq<nat>, reg: nat, jump: bool, n: nat) {
    forall env, regs :: Ready(env, e, regs, code, start, tl, fl, reg, jump, n)
  }

  ghost predicate AlwaysComputes(e: Ast, code: seq<Instr>, start: nat, reg: nat, n: nat) {
    forall env, regs :: Computes(env, e, regs, code, start, reg, n)
  }

  lemma RegReady(e: Ast, code: seq<Instr>, start: nat, d: ExpDesc, tl: seq<nat>, fl: seq<nat>, reg: nat, n: nat)
    requires Shape(code, start, d, tl, fl) && Sound(e, code, start, d.k, tl, fl, n) && d.k == VNonReloc(reg)
    ensures AllReady(e, code, start, tl, fl, reg, false, n) && PendOk(code, start, |code|, Pend(tl, fl))
  {
    hide Exec, Same, Pend, PendOk, ListsOk, InLists;
    forall env: Env, regs: Regs
      ensures Ready(env, e, regs, code, start, tl, fl, reg, false, n)
    {
      assert Means(env, e, regs, code, start, d.k, tl, fl, n);
    }
  }

  lemma CompareReady(e: Ast, code: seq<Instr>, start: nat, d: ExpDesc, tl: seq<nat>, fl: seq<nat>, reg: nat, n: nat)
    requires Shape(code, start, d, tl, fl) && Sound(e, code, start, d.k, tl, fl, n) && d.k.VJmp?
    ensures var code2, tl2 := Linked(code, tl, d.k.pc), tl + [d.k.pc];
      && AllReady(e, code2, start, tl2, fl, reg, true, n) && PendOk(code2, start, |code2|, Pend(tl2, fl))
      && |code2| == |code| && !Produces(code2, d.k.pc)
      && IsList(code, d.k.pc, [d.k.pc]) && Disjoint(tl, [d.k.pc]) && Disjoint(tl2, fl)
      && IsList(code2, d.f, fl) && code2[..start] == code[..start]
  {
    var code2, tl2 := Linked(code, tl, d.k.pc), tl + [d.k.pc];
    CompareShape(code, start, d, tl, fl);
    hide Means, Ready, Linked, PendOk, ListsOk, KindOk;
    forall env: Env, regs: Regs
      ensures Ready(env, e, regs, code2, start, tl2, fl, reg, true, n)
    {
      assert Means(env, e, regs, code, start, d.k, tl, fl, n);
      JumpReady(env, e, regs, code, start, d, tl, fl, reg, n);
    }
  }

  lemma CompareShape(code: seq<Instr>, start: nat, d: ExpDesc, tl: seq<nat>, fl: seq<nat>)
    requires Shape(code, start, d, tl, fl) && d.k.VJmp?
    ensures var code2, tl2 := Linked(code, tl, d.k.pc), tl + [d.k.pc];
      && PendOk(code2, start, |code2|, Pend(tl2, fl)) && |code2| == |code| && !Produces(code2, d.k.pc)
      && IsList(code, d.k.pc, [d.k.pc]) && Disjoint(tl, [d.k.pc]) && Disjoint(tl2, fl)
      && IsList(code2, d.f, fl) && code2[..start] == code[..start]
  {
    var pc, end, pend := d.k.pc, EndOf(code, d.k), Pend(tl, fl);
    ListInside(code, start, end, d.t, tl, pend);
    ListInside(code, start, end, d.f, fl, pend);
    assert LinksTo(code, pc, NO_JUMP);
    OtherList(code, tl, pc, d.f, fl);
    assert Pend(tl + [pc], fl) == pend + {pc};
    LinkedPrefix(code, start, tl, pc);
    hide Linked, IsList, ListsOk, NoRepeat, PendOk, Pend;
    ComparePending(code, start, pc, tl, pend);
  }

  lemma LinkedPrefix(code: seq<Instr>, start: nat, s: seq<nat>, l: int)
    requires start <= |code| && forall i :: 0 <= i < |s| ==> start < s[i] < |code|
    ensures |Linked(code, s, l)| == |code| && Linked(code, s, l)[..start] == code[..start]
  {
  }

  lemma ComparePending(code: seq<Instr>, start: nat, pc: nat, tl: seq<nat>, pend: set<nat>)
    requires start < pc == |code| - 1 && PendOk(code, start, pc - 1, pend) && SetOf(tl) <= pend
    requires code[pc] == Jmp(NO_JUMP) && code[pc - 1].Compare?
    ensures var code2 := Linked(code, tl, pc);
      |code2| == |code| && PendOk(code2, start, |code2|, pend + {pc}) && !Produces(code2, pc)
  {
    var code2 := Linked(code, tl, pc);
    LinkedAt(code, start, pc - 1, tl, pc, pend);
    PendingInside(code, start, pc - 1, pend);
    hide Linked;
    forall p | p in pend + {pc}
      ensures start < p < |code2| && TestedJump(code2, p)
    {
      if p in pend {
        assert TestedJump(code, p);
        NotPending(code, start, pc - 1, pend, p - 1);
      }
    }
  }

  lemma FinishedComputes(e: Ast, code: seq<Instr>, start: nat, tl: seq<nat>, fl: seq<nat>, reg: nat, need: bool, jump: bool, n: nat)
    requires PendOk(code, start, |code|, Pend(tl, fl)) && Disjoint(tl, fl) && reg >= n && (jump ==> need)
    requires !need ==> forall p :: p in Pend(tl, fl) && 0 < p <= |code| ==> code[p - 1].TestSet?
    requires AllReady(e, code, start, tl, fl, reg, jump, n)
    ensures AlwaysComputes(e, Finished(code, tl, fl, reg, need, jump), start, reg, n)
  {
    hide Ready, Computes, Finished, PendOk, Pend;
    var code6 := Finished(code, tl, fl, reg, need, jump);
    forall env: Env, regs: Regs
      ensures Computes(env, e, regs, code6, start, reg, n)
    {
      assert Ready(env, e, regs, code, start, tl, fl, reg, jump, n);
      FinishedRuns(env, e, regs, code, start, tl, fl, reg, need, jump, n);
    }
  }

  lemma FinishedPrefix(code: seq<Instr>, start: nat, tl: seq<nat>, fl: seq<nat>, reg: nat, need: bool, jump: bool)
    requires start <= |code| && PendOk(code, start, |code|, Pend(tl, fl))
    ensures var code6 := Finished(code, tl, fl, reg, need, jump);
      start <= |code6| && code6[..start] == code[..start]
  {
    var code6 := Finished(code, tl, fl, reg, need, jump);
    ListInside(code, start, |code|, 0, tl, Pend(tl, fl));
    ListInside(code, start, |code|, 0, fl, Pend(tl, fl));
    forall i | 0 <= i < start
      ensures i < |code6| && code6[i] == code[i]
    {
      FinishedAt(code, tl, fl, reg, need, jump, i);
    }
    if start > 0 {
      FinishedAt(code, tl, fl, reg, need, jump, 0);
    }
  }
}
