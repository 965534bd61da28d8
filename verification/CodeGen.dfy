/** The code generator at work: jump lists, tests, negation and final values, in place on the
    code of a function. */
module CodeGen {
  import opened Options
  import opened CodeMachine
  import opened CodeLists
  import opened CodeMeaning
  import opened CodeBranch
  import opened CodeValue
  import opened CodeKinds

  class FuncState {
    var code: seq<Instr>
    var freereg: nat
    const nvars: nat    // 'luaY_nvarstack': registers below it are local variables

    constructor (nvars: nat)
      ensures code == [] && freereg == nvars && this.nvars == nvars
    {
      this.code, this.freereg, this.nvars := [], nvars, nvars;
    }

    // ----- emitting -----

    /** 'luaK_code' */
    method Code(i: Instr) returns (pc: nat)
      modifies this`code
      ensures code == old(code) + [i] && pc == |old(code)|
    {
      pc := |code|;
      code := code + [i];
    }

    /** 'condjump' */
    method CondJump(i: Instr) returns (pc: nat)
      modifies this`code
      ensures Ranged(old(code)) && !i.Jmp? ==> Ranged(code)
      ensures code == old(code) + [i, Jmp(NO_JUMP)] && pc == |old(code)| + 1
    {
      var t := Code(i);
      pc := Code(Jmp(NO_JUMP));
      assert code == old(code) + [i, Jmp(NO_JUMP)];
    }

    // ----- jump lists -----

    /** 'fixjump' */
    method FixJump(pc: nat, dest: int)
      requires pc < |code| && code[pc].Jmp? && dest != NO_JUMP
      modifies this`code
      ensures code == old(code)[pc := Jmp(dest - (pc + 1))]
    {
      code := code[pc := Jmp(dest - (pc + 1))];
    }

    /** 'luaK_concat': the new list is the first one followed by the second. */
    method Concat(l1: int, l2: int, ghost s1: seq<nat>, ghost s2: seq<nat>) returns (l: int)
      requires IsList(code, l1, s1) && IsList(code, l2, s2) && Disjoint(s1, s2)
      modifies this`code
      ensures Ranged(old(code)) ==> Ranged(code)
      ensures code == Linked(old(code), s1, l2) && l == if s1 == [] then l2 else l1
      ensures IsList(code, l, s1 + s2)
    {
      ConcatAppends(code, l1, s1, l2, s2);
      if l2 == NO_JUMP {
        return l1;
      }
      if l1 == NO_JUMP {
        return l2;
      }
      var list := FindLast(l1, s1);
      FixJump(list, l2);
      return l1;
    }

    method FindLast(l: int, ghost s: seq<nat>) returns (list: nat)
      requires IsList(code, l, s) && l != NO_JUMP
      ensures s != [] && list == s[|s| - 1] < |code| && code[list].Jmp?
    {
      list := l;
      ghost var i := 0;
      assert LinksTo(code, s[0], HeadOf(s[1..]));
      var next := GetJump(code, list);
      while next != NO_JUMP
        invariant 0 <= i < |s| && list == s[i] < |code| && code[list].Jmp?
        invariant next == GetJump(code, list) == HeadOf(s[i + 1..])
        decreases |s| - i
      {
        assert LinksTo(code, s[i + 1], HeadOf(s[i + 2..]));
        list := next;
        i := i + 1;
        next := GetJump(code, list);
      }
    }

    /** 'getjumpcontrol' */
    function JumpControl(pc: nat): (c: nat)
      reads this`code
      requires pc < |code|
      ensures c < |code| && (code[pc].Jmp? ==> (code[c].TestSet? <==> Produces(code, pc)))
      ensures Produces(code, pc) ==> c == pc - 1
    {
      if pc >= 1 && TMode(code[pc - 1]) then pc - 1 else pc
    }

    /** 'patchtestreg' */
    method PatchTestReg(node: nat, reg: Option<nat>) returns (patched: bool)
      requires node < |code| && code[node].Jmp?
      modifies this`code
      ensures patched == old(Produces(code, node))
      ensures code == if patched then old(code)[node - 1 := PatchTest(old(code)[node - 1], reg)] else old(code)
    {
      var i := JumpControl(node);
      if !code[i].TestSet? {
        return false;
      }
      if reg.Some? && reg.value != code[i].b {
        code := code[i := code[i].(dest := reg)];
      } else {
        code := code[i := Test(code[i].b, code[i].k)];
      }
      return true;
    }

    method PatchNode(p: nat, vtarget: int, reg: Option<nat>, dtarget: int)
      requires p < |code| && code[p].Jmp? && vtarget != NO_JUMP && (Produces(code, p) || dtarget != NO_JUMP)
      modifies this`code
      ensures code == NodePatched(old(code), p, vtarget, reg, dtarget)
    {
      var patched := PatchTestReg(p, reg);
      if patched {
        FixJump(p, vtarget);
      } else {
        FixJump(p, dtarget);
      }
    }

    /** 'patchlistaux': exactly the jumps of the list are redirected. */
    method PatchListAux(list0: int, vtarget: int, reg: Option<nat>, dtarget: int, ghost s: seq<nat>)
      requires IsList(code, list0, s) && vtarget != NO_JUMP
      requires dtarget != NO_JUMP || forall i :: 0 <= i < |s| ==> Produces(code, s[i])
      modifies this`code
      ensures code == Patched(old(code), s, vtarget, reg, dtarget)
    {
      ListJumps(code, list0, s);
      hide Patched, NodePatched, Produces, IsList, AllJumps, NoRepeat;
      var list := list0;
      ghost var n := 0;
      PatchNone(code, vtarget, reg, dtarget);
      assert s[..0] == [];
      while list != NO_JUMP
        invariant 0 <= n <= |s| && list == HeadOf(s[n..])
        invariant code == Patched(old(code), s[..n], vtarget, reg, dtarget)
        decreases |s| - n
      {
        ghost var was := old(code);
        PatchOne(was, s, n, vtarget, reg, dtarget);
        PatchedLength(was, s[..n], vtarget, reg, dtarget);
        NthLink(was, list0, s, n);
        var next := GetJump(code, list);
        PatchNode(list, vtarget, reg, dtarget);
        list := next;
        n := n + 1;
      }
      assert s[..n] == s;
    }

    /** 'luaK_patchtohere' */
    method PatchToHere(list: int, ghost s: seq<nat>)
      requires IsList(code, list, s)
      modifies this`code
      ensures Ranged(old(code)) ==> Ranged(code)
      ensures code == Patched(old(code), s, |old(code)|, None, |old(code)|)
    {
      PatchedRanged(code, s, |code|, None, |code|);
      PatchListAux(list, |code|, None, |code|, s);
    }

    method RemoveValue(p: nat)
      requires p < |code| && code[p].Jmp?
      modifies this`code
      ensures code == BareStep(old(code), p)
    {
      var patched := PatchTestReg(p, None);
    }

    /** 'removevalues' */
    method RemoveValues(list0: int, ghost s: seq<nat>)
      requires IsList(code, list0, s)
      modifies this`code
      ensures Ranged(old(code)) ==> Ranged(code)
      ensures code == Bare(old(code), s)
    {
      ListJumps(code, list0, s);
      hide Bare, BareStep, IsList, AllJumps, NoRepeat;
      var list := list0;
      ghost var n := 0;
      BareNone(code);
      assert s[..0] == [];
      while list != NO_JUMP
        invariant 0 <= n <= |s| && list == HeadOf(s[n..])
        invariant code == Bare(old(code), s[..n])
        decreases |s| - n
      {
        ghost var was := old(code);
        BareOne(was, s, n);
        NthLink(was, list0, s, n);
        RemoveValue(list);
        list := GetJump(code, list);
        n := n + 1;
      }
      assert s[..n] == s;
    }

    /** 'need_value': some jump of the list does not carry a value. */
    method NeedValue(list0: int, ghost s: seq<nat>) returns (need: bool)
      requires IsList(code, list0, s)
      ensures need <==> exists i :: 0 <= i < |s| && !Produces(code, s[i])
    {
      ListJumps(code, list0, s);
      var list := list0;
      ghost var n := 0;
      while list != NO_JUMP
        invariant 0 <= n <= |s| && list == HeadOf(s[n..])
        invariant forall i :: 0 <= i < n ==> Produces(code, s[i])
        decreases |s| - n
      {
        assert LinksTo(code, s[n], HeadOf(s[n + 1..]));
        assert list == s[n];
        if !code[JumpControl(list)].TestSet? {
          return true;
        }
        list := GetJump(code, list);
        n := n + 1;
      }
      return false;
    }

    // ----- expressions -----

    /** The code from 'start' on is that of expression 'e', described by 'd' and its lists. */
    ghost predicate Coded(e: Ast, start: nat, d: ExpDesc, tl: seq<nat>, fl: seq<nat>, n: nat)
      reads this`code
    {
      Shape(code, start, d, tl, fl) && Sound(e, code, start, d.k, tl, fl, n)
    }

    /** 'luaK_dischargevars' */
    method DischargeVars(d: ExpDesc, ghost e: Ast, ghost start: nat, ghost tl: seq<nat>, ghost fl: seq<nat>, ghost n: nat)
      returns (d2: ExpDesc)
      requires Coded(e, start, d, tl, fl, n)
      modifies this`code
      ensures Ranged(old(code)) ==> Ranged(code)
      ensures Coded(e, start, d2, tl, fl, n) && Discharged(d2.k) && d2.t == d.t && d2.f == d.f
      ensures start <= |old(code)| <= |code| && code[..start] == old(code)[..start]
      ensures d2.k.VNonReloc? ==> d.k == VLocal(d2.k.r) || d.k == d2.k
    {
      ShapeBounds(code, start, d, tl, fl);
      hide Shape, Sound;
      match d.k {
        case VLocal(r) =>
          LocalSound(e, code, start, d, tl, fl, n);
          d2 := d.(k := VNonReloc(r));
        case VVar(id) =>
          RelocSound(e, code, start, d, tl, fl, n);
          var pc := Code(GetVar(0, id));
          d2 := d.(k := VReloc(pc));
        case _ =>
          d2 := d;
      }
    }

    /** 'discharge2reg' */
    method Discharge2Reg(d: ExpDesc, reg: nat, ghost e: Ast, ghost start: nat, ghost tl: seq<nat>, ghost fl: seq<nat>, ghost n: nat)
      returns (d2: ExpDesc)
      requires Coded(e, start, d, tl, fl, n) && Discharged(d.k) && n <= reg
      modifies this`code
      ensures Ranged(old(code)) ==> Ranged(code)
      ensures Coded(e, start, d2, tl, fl, n)
      ensures start <= |old(code)| <= |code| && code[..start] == old(code)[..start]
      ensures d2 == if d.k.VJmp? then d else d.(k := VNonReloc(reg))
      ensures !d.k.VJmp? && d.k != VNonReloc(reg) ==> |code| > start && !TMode(code[|code| - 1])
    {
      ShapeBounds(code, start, d, tl, fl);
      KindIn(code, start, d, tl, fl);
      hide Shape, Sound;
      if d.k.VJmp? {
        return d;
      }
      if d.k == VNonReloc(reg) {
        return d;
      }
      ghost var i := LoadInstr(code, d.k, reg);
      ghost var was, end := code, EndOf(code, d.k);
      LoadsIt(code, start, d.k, reg);
      AppendLoad(e, code, start, d, tl, fl, i, reg, n);
      assert !i.Jmp? && !TMode(i);
      match d.k {
        case VNil => var pc := Code(LoadNil(reg, 0));
        case VFalse => var pc := Code(LoadFalse(reg));
        case VTrue => var pc := Code(LoadTrue(reg));
        case VK(c) => var pc := Code(LoadK(reg, c));
        case VNonReloc(r) => var pc := Code(Move(reg, r));
        case VReloc(pc) =>
          code := code[pc := if code[pc].Not? then Not(reg, code[pc].b) else GetVar(reg, code[pc].id)];
      }
      assert code == was[..end] + [i];
      d2 := d.(k := VNonReloc(reg));
    }

    static lemma KindIn(code: seq<Instr>, start: nat, d: ExpDesc, tl: seq<nat>, fl: seq<nat>)
      requires Shape(code, start, d, tl, fl)
      ensures KindOk(code, start, d.k)
    {
    }

    /** 'discharge2anyreg' followed by 'freeexp': the register of a temporary is free again. */
    method DischargeAndFree(d: ExpDesc, ghost e: Ast, ghost start: nat, ghost tl: seq<nat>, ghost fl: seq<nat>)
      returns (d2: ExpDesc)
      requires Coded(e, start, d, tl, fl, freereg) && Discharged(d.k) && !d.k.VJmp?
      requires d.k.VNonReloc? ==> d.k.r < nvars
      modifies this
      ensures Ranged(old(code)) ==> Ranged(code)
      ensures Coded(e, start, d2, tl, fl, freereg) && d2.k.VNonReloc? && d2.t == d.t && d2.f == d.f
      ensures start <= |old(code)| <= |code| && code[..start] == old(code)[..start]
      ensures freereg == old(freereg)
    {
      ShapeBounds(code, start, d, tl, fl);
      hide Shape, Sound;
      d2 := d;
      if !d.k.VNonReloc? {
        freereg := freereg + 1;
        d2 := Discharge2Reg(d, freereg - 1, e, start, tl, fl, freereg - 1);
        freereg := freereg - 1;
      }
    }

    /** The test that 'jumponcond' emits instead of a 'not', with the condition inverted. */
    method JumpOnNot(d: ExpDesc, cond: bool, ghost e: Ast, ghost start: nat, ghost tl: seq<nat>, ghost fl: seq<nat>)
      returns (pc: nat)
      requires Coded(e, start, d, tl, fl, freereg) && d.k.VReloc? && d.k.pc == |code| - 1 && code[d.k.pc].Not?
      modifies this`code
      ensures Ranged(old(code)) ==> Ranged(code)
      ensures start <= |code| && start <= |old(code)| && code[..start] == old(code)[..start]
      ensures BranchShape(code, start, d, tl, fl, pc, [pc]) && Branch(e, code, start, tl, fl, [pc], cond, freereg)
    {
      hide Shape, Sound, BranchShape, Branch, TestsValue, PendOk;
      ShapeBounds(code, start, d, tl, fl);
      var b := code[d.k.pc].b;
      TestsNot(code, d.k.pc, cond);
      AppendTest(e, code, start, d, tl, fl, Test(b, !cond), cond, freereg);
      ghost var was := code;
      code := code[..|code| - 1];    // 'removelastinstruction'
      pc := CondJump(Test(b, !cond));
      assert code == was[..EndOf(was, d.k)] + [Test(b, !cond), Jmp(NO_JUMP)];
    }

    /** The test that 'jumponcond' emits on a register. */
    method JumpOnReg(d: ExpDesc, cond: bool, ghost e: Ast, ghost start: nat, ghost tl: seq<nat>, ghost fl: seq<nat>)
      returns (pc: nat)
      requires Coded(e, start, d, tl, fl, freereg) && d.k.VNonReloc?
      modifies this`code
      ensures Ranged(old(code)) ==> Ranged(code)
      ensures start <= |code| && start <= |old(code)| && code[..start] == old(code)[..start]
      ensures BranchShape(code, start, d, tl, fl, pc, [pc]) && Branch(e, code, start, tl, fl, [pc], cond, freereg)
    {
      ShapeBounds(code, start, d, tl, fl);
      hide Shape, Sound, BranchShape, Branch, TestsValue;
      TestsIt(code, d.k.r, cond);
      AppendTest(e, code, start, d, tl, fl, TestSet(None, d.k.r, cond), cond, freereg);
      assert code[..|code|] == code;
      pc := CondJump(TestSet(None, d.k.r, cond));
    }

    /** 'jumponcond' */
    method JumpOnCond(d: ExpDesc, cond: bool, ghost e: Ast, ghost start: nat, ghost tl: seq<nat>, ghost fl: seq<nat>)
      returns (pc: nat)
      requires Coded(e, start, d, tl, fl, freereg) && Discharged(d.k) && !d.k.VJmp?
      requires d.k.VNonReloc? ==> d.k.r < nvars
      modifies this
      ensures Ranged(old(code)) ==> Ranged(code)
      ensures freereg == old(freereg)
      ensures start <= |code| && start <= |old(code)| && code[..start] == old(code)[..start]
      ensures BranchShape(code, start, d, tl, fl, pc, [pc]) && Branch(e, code, start, tl, fl, [pc], cond, freereg)
    {
      KindIn(code, start, d, tl, fl);
      hide Coded, BranchShape, Branch;
      if d.k.VReloc? && code[d.k.pc].Not? {
        pc := JumpOnNot(d, cond, e, start, tl, fl);
      } else {
        var d2 := DischargeAndFree(d, e, start, tl, fl);
        pc := JumpOnReg(d2, cond, e, start, tl, fl);
        SameBranchShape(code, start, d2, d, tl, fl, pc);
      }
    }

    static lemma SameBranchShape(code: seq<Instr>, start: nat, d: ExpDesc, d2: ExpDesc, tl: seq<nat>, fl: seq<nat>, pc: nat)
      requires BranchShape(code, start, d, tl, fl, pc, [pc]) && d2.t == d.t && d2.f == d.f
      ensures BranchShape(code, start, d2, tl, fl, pc, [pc])
    {
    }

    /** The jump, if any, taken when the expression is 'cond'. */
    method CondList(d: ExpDesc, cond: bool, ghost e: Ast, ghost start: nat, ghost tl: seq<nat>, ghost fl: seq<nat>)
      returns (pc: int, ghost pl: seq<nat>)
      requires Coded(e, start, d, tl, fl, freereg) && Discharged(d.k)
      requires d.k.VNonReloc? ==> d.k.r < nvars
      modifies this
      ensures Ranged(old(code)) ==> Ranged(code)
      ensures freereg == old(freereg)
      ensures start <= |code| && start <= |old(code)| && code[..start] == old(code)[..start]
      ensures BranchShape(code, start, d, tl, fl, pc, pl) && Branch(e, code, start, tl, fl, pl, cond, freereg)
      ensures (if cond then d.k.VNil? || d.k.VFalse? else d.k.VTrue? || d.k.VK?) ==> code == old(code) && pl == []
    {
      ShapeBounds(code, start, d, tl, fl);
      KindIn(code, start, d, tl, fl);
      if d.k.VJmp? {
        pc := JumpIf(d, cond, e, start, tl, fl);
        pl := [d.k.pc];
      } else if if cond then IsFalseConst(d.k) else IsTrueConst(d.k) {
        NoTest(e, code, start, d, tl, fl, cond, freereg);
        pc, pl := NO_JUMP, [];
      } else {
        hide Coded, BranchShape, Branch;
        var p := JumpOnCond(d, cond, e, start, tl, fl);
        pc, pl := p, [p];
      }
    }

    /** A comparison already jumps when true; to jump when false it is negated. */
    method JumpIf(d: ExpDesc, cond: bool, ghost e: Ast, ghost start: nat, ghost tl: seq<nat>, ghost fl: seq<nat>)
      returns (pc: int)
      requires Coded(e, start, d, tl, fl, freereg) && d.k.VJmp?
      modifies this`code
      ensures Ranged(old(code)) ==> Ranged(code)
      ensures start <= |code| == |old(code)| && code[..start] == old(code)[..start] && pc == d.k.pc
      ensures BranchShape(code, start, d, tl, fl, pc, [d.k.pc]) && Branch(e, code, start, tl, fl, [d.k.pc], cond, freereg)
    {
      KindIn(code, start, d, tl, fl);
      hide Shape, Sound, BranchShape, Branch, TestsValue;
      pc := d.k.pc;
      ghost var i := code[pc - 1];
      TestsCompare(code, pc, cond);
      AppendTest(e, code, start, d, tl, fl, if cond then i else Flip(i), cond, freereg);
      ghost var was := code;
      if !cond {
        code := code[pc - 1 := Flip(code[pc - 1])];
      }
      assert code == was[..pc - 1] + [if cond then i else Flip(i), Jmp(NO_JUMP)];
    }

    /** Put the jumps in the list of 'cond' and bring the other list here. */
    method CloseLists(d: ExpDesc, pc: int, cond: bool, ghost e: Ast, ghost start: nat, ghost tl: seq<nat>, ghost fl: seq<nat>,
                      ghost pl: seq<nat>)
      returns (l: int)
      requires BranchShape(code, start, d, tl, fl, pc, pl) && Branch(e, code, start, tl, fl, pl, cond, freereg)
      modifies this`code
      ensures Ranged(old(code)) ==> Ranged(code)
      ensures |code| == |old(code)| && start <= |code| && code[..start] == old(code)[..start]
      ensures var s := (if cond then tl else fl) + pl;
        && Through(e, code, start, s, cond, freereg)
        && IsList(code, l, s) && PendOk(code, start, |code|, SetOf(s))
    {
      hide IsList, Linked, Patched, BranchShape, Branch, Through, PendOk, SetOf, Disjoint;
      CloseThrough(e, code, start, d, tl, fl, pc, pl, cond, freereg);
      ghost var mine, other := if cond then tl else fl, if cond then fl else tl;
      ghost var was := code;
      ClosedPrefix(code, start, d, tl, fl, pc, pl, mine, other);
      BranchLists(code, start, d, tl, fl, pc, pl);
      OtherList(code, mine, pc, if cond then d.f else d.t, other);
      l := Concat(if cond then d.t else d.f, pc, mine, pl);
      LinkedLength(was, mine, pc);
      PatchToHere(if cond then d.f else d.t, other);
    }

    static lemma BranchLists(code: seq<Instr>, start: nat, d: ExpDesc, tl: seq<nat>, fl: seq<nat>, pc: int, pl: seq<nat>)
      requires BranchShape(code, start, d, tl, fl, pc, pl)
      ensures start <= |code| && IsList(code, d.t, tl) && IsList(code, d.f, fl) && IsList(code, pc, pl)
      ensures Disjoint(tl, fl) && Disjoint(tl, pl) && Disjoint(fl, pl)
    {
    }

    static lemma LinkedLength(code: seq<Instr>, s: seq<nat>, l: int)
      ensures |Linked(code, s, l)| == |code|
    {
    }

    /** Closing lists changes nothing before the expression. */
    static lemma ClosedPrefix(code: seq<Instr>, start: nat, d: ExpDesc, tl: seq<nat>, fl: seq<nat>, pc: int, pl: seq<nat>,
                              mine: seq<nat>, other: seq<nat>)
      requires BranchShape(code, start, d, tl, fl, pc, pl) && ((mine == tl && other == fl) || (mine == fl && other == tl))
      ensures Closed(code, mine, pc, other)[..start] == code[..start]
    {
      forall i | 0 <= i < start
        ensures Closed(code, mine, pc, other)[i] == code[i]
      {
        ListInside(code, start, |code|, d.t, tl, Pend(tl, fl) + SetOf(pl));
        ListInside(code, start, |code|, d.f, fl, Pend(tl, fl) + SetOf(pl));
        ClosedAt(code, mine, pc, other, i);
      }
    }

    /** 'luaK_goiftrue': go through if true; the result is the list of jumps when false. */
    method GoIfTrue(d: ExpDesc, ghost e: Ast, ghost start: nat, ghost tl: seq<nat>, ghost fl: seq<nat>)
      returns (f: int, ghost s: seq<nat>)
      requires Coded(e, start, d, tl, fl, freereg) && Discharged(d.k) && (d.k.VNonReloc? ==> d.k.r < nvars)
      modifies this
      ensures Ranged(old(code)) ==> Ranged(code)
      ensures freereg == old(freereg)
      ensures start <= |code| && start <= |old(code)| && code[..start] == old(code)[..start]
      ensures Through(e, code, start, s, false, freereg) && IsList(code, f, s) && PendOk(code, start, |code|, SetOf(s))
    {
      hide Coded, BranchShape, Branch, IsList, PendOk, Through, SetOf;
      ghost var pl;
      var pc;
      pc, pl := CondList(d, false, e, start, tl, fl);
      f := CloseLists(d, pc, false, e, start, tl, fl, pl);
      s := fl + pl;
    }

    /** 'luaK_goiffalse': go through if false; the result is the list of jumps when true. */
    method GoIfFalse(d: ExpDesc, ghost e: Ast, ghost start: nat, ghost tl: seq<nat>, ghost fl: seq<nat>)
      returns (t: int, ghost s: seq<nat>)
      requires Coded(e, start, d, tl, fl, freereg) && Discharged(d.k) && (d.k.VNonReloc? ==> d.k.r < nvars)
      modifies this
      ensures Ranged(old(code)) ==> Ranged(code)
      ensures freereg == old(freereg)
      ensures start <= |code| && start <= |old(code)| && code[..start] == old(code)[..start]
      ensures Through(e, code, start, s, true, freereg) && IsList(code, t, s) && PendOk(code, start, |code|, SetOf(s))
    {
      hide Coded, BranchShape, Branch, IsList, PendOk, Through, SetOf;
      ghost var pl;
      var pc;
      pc, pl := CondList(d, true, e, start, tl, fl);
      t := CloseLists(d, pc, true, e, start, tl, fl, pl);
      s := tl + pl;
    }

    // ----- negation -----

    /** The end of 'codenot': swap the lists, whose values are useless when negated. */
    method FinishNot(d: ExpDesc, k2: Kind, ghost base: seq<Instr>, ghost e: Ast, ghost start: nat, ghost tl: seq<nat>, ghost fl: seq<nat>, ghost n: nat)
      returns (d2: ExpDesc)
      requires Shape(base, start, d, tl, fl) && Sound(e, base, start, d.k, tl, fl, n)
      requires var end := EndOf(base, d.k);
        && end == EndOf(code, k2) <= |code| && code[..end] == base[..end]
        && (forall i :: end <= i < |code| ==> !code[i].TestSet?)
      requires Negates(base, d.k, code, k2) && KindOk(code, start, k2)
      modifies this`code
      ensures Ranged(old(code)) ==> Ranged(code)
      ensures Coded(ENot(e), start, d2, fl, tl, n) && d2 == ExpDesc(k2, d.f, d.t)
      ensures start <= |old(code)| == |code| && code[..start] == old(code)[..start]
    {
      ghost var end := EndOf(base, d.k);
      ShapeBounds(base, start, d, tl, fl);
      ListPrefix(base, code, start, end, d.t, tl, Pend(tl, fl));
      ListPrefix(base, code, start, end, d.f, fl, Pend(tl, fl));
      BareKeepsList(code, tl, d.f, fl);
      BareBoth(base, code, end, tl, fl);
      ghost var code2 := Bare(Bare(code, tl), fl);
      NegatesTail(base, d.k, code, code2, start, k2);
      NotSound(e, base, start, d, tl, fl, code2, k2, n);
      NotPrefix(base, code, code2, start, end, tl, fl);
      hide IsList, Bare, Shape, Sound, Negates, KindOk, BareTo;
      RemoveValues(d.t, tl);
      RemoveValues(d.f, fl);
      d2 := ExpDesc(k2, d.f, d.t);
    }

    static lemma NotPrefix(base: seq<Instr>, code: seq<Instr>, code2: seq<Instr>, start: nat, end: nat, tl: seq<nat>, fl: seq<nat>)
      requires start <= end && PendOk(base, start, end, Pend(tl, fl)) && BareTo(base, code2, end, tl, fl)
      requires end <= |code| && code[..end] == base[..end]
      ensures code2[..start] == code[..start]
    {
      ListInside(base, start, end, 0, tl, Pend(tl, fl));
      ListInside(base, start, end, 0, fl, Pend(tl, fl));
      forall i | 0 <= i < start
        ensures code2[i] == code[i]
      {
        assert code[..end][i] == base[..end][i];
      }
    }

    /** 'codenot' */
    method CodeNot(d: ExpDesc, ghost e: Ast, ghost start: nat, ghost tl: seq<nat>, ghost fl: seq<nat>)
      returns (d2: ExpDesc)
      requires Coded(e, start, d, tl, fl, freereg) && Discharged(d.k) && (d.k.VNonReloc? ==> d.k.r < nvars)
      modifies this
      ensures Ranged(old(code)) ==> Ranged(code)
      ensures freereg == old(freereg) && Coded(ENot(e), start, d2, fl, tl, freereg) && Discharged(d2.k) && !d2.k.VNonReloc?
      ensures start <= |old(code)| && start <= |code| && code[..start] == old(code)[..start]
      ensures d.k.VNil? || d.k.VFalse? ==> d2.k.VTrue? && |code| == |old(code)|
      ensures d.k.VTrue? || d.k.VK? ==> d2.k.VFalse? && |code| == |old(code)|
    {
      ShapeBounds(code, start, d, tl, fl);
      KindIn(code, start, d, tl, fl);
      hide Shape, Sound, Negates;
      ghost var was := code;
      if IsFalseConst(d.k) || IsTrueConst(d.k) {
        NegatesConst(code, start, d.k, code);
        d2 := FinishNot(d, if IsFalseConst(d.k) then VTrue else VFalse, code, e, start, tl, fl, freereg);
      } else if d.k.VJmp? {
        code := code[d.k.pc - 1 := Flip(code[d.k.pc - 1])];
        NegatesJump(was, d.k.pc, code);
        d2 := FinishNot(d, d.k, was, e, start, tl, fl, freereg);
      } else {
        d2 := NotInReg(d, e, start, tl, fl);
      }
    }

    /** 'codenot' on a value in a register. */
    method NotInReg(d: ExpDesc, ghost e: Ast, ghost start: nat, ghost tl: seq<nat>, ghost fl: seq<nat>)
      returns (d2: ExpDesc)
      requires Coded(e, start, d, tl, fl, freereg) && Discharged(d.k) && !d.k.VJmp? && (d.k.VNonReloc? ==> d.k.r < nvars)
      modifies this
      ensures Ranged(old(code)) ==> Ranged(code)
      ensures freereg == old(freereg) && Coded(ENot(e), start, d2, fl, tl, freereg) && d2.k.VReloc?
      ensures start <= |old(code)| && start <= |code| && code[..start] == old(code)[..start]
    {
      hide Coded, Negates;
      var d1 := DischargeAndFree(d, e, start, tl, fl);
      CodedParts(e, start, d1, tl, fl, freereg);
      hide Shape, Sound;
      ghost var was := code;
      var pc := Code(Not(0, d1.k.r));
      NegatesReg(was, d1.k.r, code, pc);
      d2 := FinishNot(d1, VReloc(pc), was, e, start, tl, fl, freereg);
    }

    lemma CodedParts(e: Ast, start: nat, d: ExpDesc, tl: seq<nat>, fl: seq<nat>, n: nat)
      requires Coded(e, start, d, tl, fl, n)
      ensures Shape(code, start, d, tl, fl) && Sound(e, code, start, d.k, tl, fl, n)
      ensures start <= EndOf(code, d.k) <= |code|
    {
    }

    // ----- final values -----

    /** Emit the loads of false and true, and jump around them if the expression is no test. */
    method LoadBools(reg: nat, jump: bool) returns (pf: nat, pt: nat)
      requires !jump ==> |code| == 0 || !TMode(code[|code| - 1])
      modifies this`code
      ensures Ranged(old(code)) ==> Ranged(code)
      ensures code == old(code) + Loads(reg, jump) && pf == |code| - 2 && pt == |code| - 1
    {
      ghost var was := code;
      var fj := |code|;
      if !jump {
        fj := Code(Jmp(NO_JUMP));
      }
      pf := Code(LFalseSkip(reg));
      pt := Code(LoadTrue(reg));
      if !jump {
        assert code == was + [Jmp(NO_JUMP), LFalseSkip(reg), LoadTrue(reg)];
        assert LinksTo(code, fj, NO_JUMP);
        assert IsList(code, fj, [fj]);
        PatchToHere(fj, [fj]);
      }
      assert code == was + Loads(reg, jump);
    }

    /** Put the value in 'reg' or, for a comparison, its jump in the true list. */
    method MakeReady(d: ExpDesc, reg: nat, ghost e: Ast, ghost start: nat, ghost tl: seq<nat>, ghost fl: seq<nat>, ghost n: nat)
      returns (t: int, jump: bool, ghost tl2: seq<nat>)
      requires Coded(e, start, d, tl, fl, n) && Discharged(d.k) && n <= reg && d.k != VNonReloc(reg)
      modifies this`code
      ensures Ranged(old(code)) ==> Ranged(code)
      ensures start <= |old(code)| && start <= |code| && code[..start] == old(code)[..start]
      ensures AllReady(e, code, start, tl2, fl, reg, jump, n) && PendOk(code, start, |code|, Pend(tl2, fl))
      ensures IsList(code, t, tl2) && IsList(code, d.f, fl) && Disjoint(tl2, fl)
      ensures jump ==> exists i :: 0 <= i < |tl2| && !Produces(code, tl2[i])
      ensures !jump ==> |code| > 0 && !TMode(code[|code| - 1])
    {
      hide Coded, AllReady, PendOk, IsList, Pend;
      var d1 := Discharge2Reg(d, reg, e, start, tl, fl, n);
      CodedParts(e, start, d1, tl, fl, n);
      ShapeLists(code, start, d1, tl, fl);
      hide Shape, Sound, Linked;
      t, jump, tl2 := d1.t, d1.k.VJmp?, tl;
      if jump {
        CompareReady(e, code, start, d1, tl, fl, reg, n);
        t := Concat(d1.t, d1.k.pc, tl, [d1.k.pc]);
        tl2 := tl + [d1.k.pc];
        assert tl2[|tl|] == d1.k.pc;
      } else {
        RegReady(e, code, start, d1, tl, fl, reg, n);
      }
    }

    static lemma ShapeLists(code: seq<Instr>, start: nat, d: ExpDesc, tl: seq<nat>, fl: seq<nat>)
      requires Shape(code, start, d, tl, fl)
      ensures IsList(code, d.t, tl) && IsList(code, d.f, fl) && Disjoint(tl, fl)
    {
    }

    /** 'exp2reg': the final result of the expression, jumps included, is in 'reg'. */
    method Exp2Reg(d: ExpDesc, reg: nat, ghost e: Ast, ghost start: nat, ghost tl: seq<nat>, ghost fl: seq<nat>, ghost n: nat)
      requires Coded(e, start, d, tl, fl, n) && Discharged(d.k) && n <= reg && d.k != VNonReloc(reg)
      modifies this`code
      ensures Ranged(old(code)) ==> Ranged(code)
      ensures start <= |old(code)| && start <= |code| && code[..start] == old(code)[..start]
      ensures AlwaysComputes(e, code, start, reg, n)
    {
      hide Coded, AllReady, AlwaysComputes, PendOk, IsList, Pend, Disjoint;
      ghost var tl2;
      var t, jump;
      t, jump, tl2 := MakeReady(d, reg, e, start, tl, fl, n);
      ghost var was := code;
      var need := FinishLists(t, d.f, reg, jump, start, tl2, fl);
      FinishedPrefix(was, start, tl2, fl, reg, need, jump);
      FinishedComputes(e, was, start, tl2, fl, reg, need, jump, n);
    }

    /** Patch both lists to the final position, or to the loads of booleans. */
    method FinishLists(t: int, f: int, reg: nat, jump: bool, ghost start: nat, ghost tl: seq<nat>, ghost fl: seq<nat>)
      returns (need: bool)
      requires IsList(code, t, tl) && IsList(code, f, fl) && Disjoint(tl, fl)
      requires PendOk(code, start, |code|, Pend(tl, fl))
      requires jump ==> exists i :: 0 <= i < |tl| && !Produces(code, tl[i])
      requires !jump ==> |code| == 0 || !TMode(code[|code| - 1])
      modifies this`code
      ensures Ranged(old(code)) ==> Ranged(code)
      ensures code == Finished(old(code), tl, fl, reg, need, jump) && (jump ==> need)
      ensures !need ==> forall p :: p in Pend(tl, fl) && 0 < p <= |old(code)| ==> old(code)[p - 1].TestSet?
    {
      hide PendOk, Patched, IsList, Produces, Loads;
      ListJumps(code, t, tl);
      ListJumps(code, f, fl);
      need := NeedBoth(t, f, tl, fl);
      AllCarry(code, tl, fl);
      if t != f {
        var pf, pt := NO_JUMP, NO_JUMP;
        ghost var was := code;
        if need {
          pf, pt := LoadBools(reg, jump);
        }
        assert code[..|was|] == was;
        PatchBoth(t, f, reg, pf, pt, was, tl, fl);
      } else {
        assert tl == [] && fl == [];
        PatchNone(code, |code|, Some(reg), NO_JUMP);
      }
    }

    /** Some jump of either list produces no value. */
    method NeedBoth(t: int, f: int, ghost tl: seq<nat>, ghost fl: seq<nat>) returns (need: bool)
      requires IsList(code, t, tl) && IsList(code, f, fl)
      ensures !need ==> (forall i :: 0 <= i < |tl| ==> Produces(code, tl[i])) && (forall i :: 0 <= i < |fl| ==> Produces(code, fl[i]))
      ensures tl == [] && fl == [] ==> !need
      ensures (exists i :: 0 <= i < |tl| && !Produces(code, tl[i])) ==> need
    {
      need := NeedValue(t, tl);
      if !need {
        need := NeedValue(f, fl);
      }
    }

    static lemma AllCarry(code: seq<Instr>, tl: seq<nat>, fl: seq<nat>)
      ensures (forall i :: 0 <= i < |tl| ==> Produces(code, tl[i])) && (forall i :: 0 <= i < |fl| ==> Produces(code, fl[i])) ==>
        forall p :: p in Pend(tl, fl) && 0 < p <= |code| ==> code[p - 1].TestSet?
    {
    }

    method PatchBoth(t: int, f: int, reg: nat, pf: int, pt: int, ghost was: seq<Instr>, ghost tl: seq<nat>, ghost fl: seq<nat>)
      requires IsList(was, t, tl) && IsList(was, f, fl) && Disjoint(tl, fl) && |was| <= |code| && code[..|was|] == was
      requires pf == NO_JUMP ==> forall i :: 0 <= i < |fl| ==> Produces(was, fl[i])
      requires pt == NO_JUMP ==> forall i :: 0 <= i < |tl| ==> Produces(was, tl[i])
      modifies this`code
      ensures code == Patched(Patched(old(code), fl, |old(code)|, Some(reg), pf), tl, |old(code)|, Some(reg), pt)
      ensures Ranged(old(code)) && -1 <= pf <= |old(code)| && -1 <= pt <= |old(code)| ==> Ranged(code)
    {
      ProducesOn(was, code, t, tl);
      ProducesOn(was, code, f, fl);
      ListJumps(code, f, fl);
      PatchedKeeps(code, fl, |code|, Some(reg), pf, t, tl);
      hide Patched, IsList;
      var final := |code|;
      ghost var whole := code;
      PatchListAux(f, final, Some(reg), pf, fl);
      ghost var half := code;
      PatchListAux(t, final, Some(reg), pt, tl);
      if -1 <= pf <= final && -1 <= pt <= final {
        PatchedRanged(whole, fl, final, Some(reg), pf);
        PatchedRanged(half, tl, final, Some(reg), pt);
      }
    }

    /** The lists of the code are lists of a longer code. */
    static lemma ProducesOn(was: seq<Instr>, code: seq<Instr>, l: int, s: seq<nat>)
      requires IsList(was, l, s) && |was| <= |code| && code[..|was|] == was
      ensures IsList(code, l, s)
      ensures forall i :: 0 <= i < |s| ==> (Produces(code, s[i]) <==> Produces(was, s[i]))
    {
      PrefixList(was, code, l, s);
      ListJumps(was, l, s);
      forall i | 0 <= i < |s|
        ensures Produces(code, s[i]) <==> Produces(was, s[i])
      {
        assert s[i] > 0 ==> code[..|was|][s[i] - 1] == code[s[i] - 1];
      }
    }

    /** Patching one list leaves the other one as it was. */
    static lemma PatchedKeeps(code: seq<Instr>, s: seq<nat>, vtarget: int, reg: Option<nat>, dtarget: int, l: int, t: seq<nat>)
      requires IsList(code, l, t) && (Disjoint(s, t) || Disjoint(t, s)) && AllJumps(code, s)
      ensures var code2 := Patched(code, s, vtarget, reg, dtarget);
        && IsList(code2, l, t)
        && forall i :: 0 <= i < |t| && Produces(code, t[i]) ==> Produces(code2, t[i])
    {
      ListJumps(code, l, t);
      var code2 := Patched(code, s, vtarget, reg, dtarget);
      forall i | 0 <= i < |t|
        ensures code2[t[i]] == code[t[i]]
      {
        assert t[i] !in s;
        assert !code[t[i]].TestSet?;
      }
      ListFrame(code, code2, l, t);
      forall i | 0 <= i < |t| && Produces(code, t[i])
        ensures Produces(code2, t[i])
      {
        assert t[i] !in s;
        assert t[i] - 1 !in s;
      }
    }

    // ----- whole expressions -----

    /** The value of a descriptor is a constant, a local, or still to be placed. */
    predicate Homely(k: Kind) {
      (k.VLocal? ==> k.r < nvars) && (k.VNonReloc? ==> k.r < nvars)
    }

    /** The calls the parser makes for an expression, in its order. */
    method Expr(e: Ast) returns (d: ExpDesc, ghost tl: seq<nat>, ghost fl: seq<nat>)
      requires UsesBelow(e, nvars) && nvars <= freereg
      modifies this
      ensures Ranged(old(code)) ==> Ranged(code)
      ensures freereg == old(freereg) && Homely(d.k)
      ensures |old(code)| <= |code| && code[..|old(code)|] == old(code)
      ensures Coded(e, |old(code)|, d, tl, fl, freereg)
      decreases e, 1
    {
      ghost var start := |code|;
      tl, fl := [], [];
      match e {
        case EConst(v) =>
          d := ExpDesc(ConstKind(v), NO_JUMP, NO_JUMP);
          LeafSound(e, code, d.k, freereg);
        case ELocal(r) =>
          d := ExpDesc(VLocal(r), NO_JUMP, NO_JUMP);
          LeafSound(e, code, d.k, freereg);
        case EVar(id) =>
          d := ExpDesc(VVar(id), NO_JUMP, NO_JUMP);
          LeafSound(e, code, d.k, freereg);
        case ECompare(op, l, r, positive, swap) =>
          d := CompareExpr(op, l, r, positive, swap);
        case EAnd(l, r) =>
          d, tl, fl := AndExpr(l, r);
        case EOr(l, r) =>
          d, tl, fl := OrExpr(l, r);
        case ENot(e1) =>
          d, tl, fl := NotExpr(e1);
      }
    }

    /** 'luaK_exp2anyreg' on a compiled expression: a local stays where it is. */
    method ToAnyReg(e: Ast) returns (reg: nat)
      requires UsesBelow(e, nvars) && nvars <= freereg
      modifies this
      ensures Ranged(old(code)) ==> Ranged(code)
      ensures |old(code)| <= |code| && code[..|old(code)|] == old(code)
      ensures AlwaysComputes(e, code, |old(code)|, reg, old(freereg))
      ensures if reg < nvars then freereg == old(freereg) else reg == old(freereg) && freereg == reg + 1
      decreases e, 3
    {
      hide AlwaysComputes;
      ghost var start, tl, fl := |code|, [], [];
      var d;
      d, tl, fl := Operand(e);
      if d.k.VNonReloc? && d.t == d.f {
        PlainComputes(e, code, start, d, tl, fl, freereg);
        return d.k.r;
      }
      hide Coded;
      reg := freereg;
      freereg := freereg + 1;
      Exp2Reg(d, reg, e, start, tl, fl, reg);
    }

    /** 'luaK_infix' and 'luaK_posfix' for a comparison: both operands in registers, which are
        free again once the test is emitted. */
    method CompareExpr(op: nat, l: Ast, r: Ast, positive: bool, swap: bool) returns (d: ExpDesc)
      requires UsesBelow(l, nvars) && UsesBelow(r, nvars) && nvars <= freereg
      modifies this
      ensures Ranged(old(code)) ==> Ranged(code)
      ensures freereg == old(freereg) && Homely(d.k)
      ensures |old(code)| <= |code| && code[..|old(code)|] == old(code)
      ensures Coded(ECompare(op, l, r, positive, swap), |old(code)|, d, [], [], freereg)
      decreases ECompare(op, l, r, positive, swap), 0
    {
      hide AlwaysComputes, Shape, Sound;
      var saved := freereg;
      var rl := ToAnyReg(l);
      ghost var code1, n2 := code, freereg;
      var rr := ToAnyReg(r);
      freereg := saved;    // 'freeexps'
      ghost var code2 := code;
      UsesMore(r, nvars, saved);
      CompareSound(op, l, r, positive, swap, code1, code2, |old(code)|, rl, rr, saved, n2);
      var pc := CondJump(if swap then Compare(op, rr, rl, positive) else Compare(op, rl, rr, positive));
      d := ExpDesc(VJmp(pc), NO_JUMP, NO_JUMP);
      assert code[..|old(code)|] == old(code);
    }

    /** 'luaK_prefix' for 'not' */
    method NotExpr(e1: Ast) returns (d: ExpDesc, ghost tl: seq<nat>, ghost fl: seq<nat>)
      requires UsesBelow(e1, nvars) && nvars <= freereg
      modifies this
      ensures Ranged(old(code)) ==> Ranged(code)
      ensures freereg == old(freereg) && Homely(d.k)
      ensures |old(code)| <= |code| && code[..|old(code)|] == old(code)
      ensures Coded(ENot(e1), |old(code)|, d, tl, fl, freereg)
      decreases e1, 2
    {
      hide Coded;
      ghost var start := |code|;
      d, tl, fl := Expr(e1);
      d := DischargeVars(d, e1, start, tl, fl, freereg);
      d := CodeNot(d, e1, start, tl, fl);
      tl, fl := fl, tl;
    }

    /** The second operand of 'and' or 'or', discharged by 'luaK_posfix'. */
    method Operand(e: Ast) returns (d: ExpDesc, ghost tl: seq<nat>, ghost fl: seq<nat>)
      requires UsesBelow(e, nvars) && nvars <= freereg
      modifies this
      ensures Ranged(old(code)) ==> Ranged(code)
      ensures freereg == old(freereg) && Homely(d.k) && Discharged(d.k)
      ensures |old(code)| <= |code| && code[..|old(code)|] == old(code)
      ensures Coded(e, |old(code)|, d, tl, fl, freereg)
      decreases e, 2
    {
      hide Coded;
      ghost var start := |code|;
      d, tl, fl := Expr(e);
      d := DischargeVars(d, e, start, tl, fl, freereg);
    }

    /** 'luaK_infix' and 'luaK_posfix' for 'and' */
    method AndExpr(l: Ast, r: Ast) returns (d: ExpDesc, ghost tl: seq<nat>, ghost fl: seq<nat>)
      requires UsesBelow(l, nvars) && UsesBelow(r, nvars) && nvars <= freereg
      modifies this
      ensures Ranged(old(code)) ==> Ranged(code)
      ensures freereg == old(freereg) && Homely(d.k)
      ensures |old(code)| <= |code| && code[..|old(code)|] == old(code)
      ensures Coded(EAnd(l, r), |old(code)|, d, tl, fl, freereg)
      decreases EAnd(l, r), 0
    {
      hide Coded, Through, IsList, PendOk, SetOf;
      ghost var start := |code|;
      d, tl, fl := Operand(l);
      ghost var s;
      var f;
      f, s := GoIfTrue(d, l, start, tl, fl);
      ghost var code1 := code;
      d, tl, fl := Operand(r);
      Joinable(code1, start, f, s, |code1|, d, tl, fl, r);
      UsesMore(r, nvars, freereg);
      CodedParts(r, |code1|, d, tl, fl, freereg);
      hide Shape, Sound;
      Compose(l, r, code1, code, start, f, s, d, tl, fl, false, freereg);
      var nf := Concat(d.f, f, fl, s);
      d := d.(f := nf);
      fl := fl + s;
      CodedFrom(EAnd(l, r), start, d, tl, fl, freereg);
    }

    /** 'luaK_infix' and 'luaK_posfix' for 'or' */
    method OrExpr(l: Ast, r: Ast) returns (d: ExpDesc, ghost tl: seq<nat>, ghost fl: seq<nat>)
      requires UsesBelow(l, nvars) && UsesBelow(r, nvars) && nvars <= freereg
      modifies this
      ensures Ranged(old(code)) ==> Ranged(code)
      ensures freereg == old(freereg) && Homely(d.k)
      ensures |old(code)| <= |code| && code[..|old(code)|] == old(code)
      ensures Coded(EOr(l, r), |old(code)|, d, tl, fl, freereg)
      decreases EOr(l, r), 0
    {
      hide Coded, Through, IsList, PendOk, SetOf;
      ghost var start := |code|;
      d, tl, fl := Operand(l);
      ghost var s;
      var t;
      t, s := GoIfFalse(d, l, start, tl, fl);
      ghost var code1 := code;
      d, tl, fl := Operand(r);
      Joinable(code1, start, t, s, |code1|, d, tl, fl, r);
      UsesMore(r, nvars, freereg);
      CodedParts(r, |code1|, d, tl, fl, freereg);
      hide Shape, Sound;
      Compose(l, r, code1, code, start, t, s, d, tl, fl, true, freereg);
      var nt := Concat(d.t, t, tl, s);
      d := d.(t := nt);
      tl := tl + s;
      CodedFrom(EOr(l, r), start, d, tl, fl, freereg);
    }

    static lemma UsesMore(e: Ast, n: nat, m: nat)
      requires UsesBelow(e, n) && n <= m
      ensures UsesBelow(e, m)
    {
    }

    lemma CodedFrom(e: Ast, start: nat, d: ExpDesc, tl: seq<nat>, fl: seq<nat>, n: nat)
      requires Shape(code, start, d, tl, fl) && Sound(e, code, start, d.k, tl, fl, n)
      ensures Coded(e, start, d, tl, fl, n)
    {
    }

    /** The lists of two consecutive operands can be joined without touching earlier code. */
    lemma Joinable(code1: seq<Instr>, start: nat, l1: int, s: seq<nat>, mid: nat, d: ExpDesc, tl: seq<nat>, fl: seq<nat>, e: Ast)
      requires start <= mid == |code1| <= |code| && code[..mid] == code1 && IsList(code1, l1, s)
      requires PendOk(code1, start, mid, SetOf(s)) && Coded(e, mid, d, tl, fl, freereg)
      ensures IsList(code, l1, s) && IsList(code, d.t, tl) && IsList(code, d.f, fl)
      ensures Disjoint(tl, s) && Disjoint(fl, s)
      ensures forall l :: |Linked(code, tl, l)| == |code| && Linked(code, tl, l)[..start] == code1[..start]
      ensures forall l :: |Linked(code, fl, l)| == |code| && Linked(code, fl, l)[..start] == code1[..start]
    {
      var end := EndOf(code, d.k);
      PrefixList(code1, code, l1, s);
      ListInside(code1, start, mid, l1, s, SetOf(s));
      ListInside(code, mid, end, d.t, tl, Pend(tl, fl));
      ListInside(code, mid, end, d.f, fl, Pend(tl, fl));
      assert code[..start] == code1[..start] by {
        assert forall i :: 0 <= i < mid ==> code[..mid][i] == code[i];
      }
      forall l
        ensures |Linked(code, tl, l)| == |code| && Linked(code, tl, l)[..start] == code1[..start]
        ensures |Linked(code, fl, l)| == |code| && Linked(code, fl, l)[..start] == code1[..start]
      {
        LinkedPrefix(code, start, tl, l);
        LinkedPrefix(code, start, fl, l);
      }
    }

    /** 'luaK_exp2nextreg' on a compiled expression: in every environment, running the emitted
        code leaves in the target register the value the expression denotes, and changes no
        register below it. */
    method CompileToNextReg(e: Ast) returns (reg: nat)
      requires UsesBelow(e, nvars) && nvars <= freereg
      modifies this
      ensures Ranged(old(code)) ==> Ranged(code)
      ensures reg == old(freereg) && freereg == reg + 1
      ensures |old(code)| <= |code| && code[..|old(code)|] == old(code)
      ensures AlwaysComputes(e, code, |old(code)|, reg, reg)
    {
      hide Coded, AlwaysComputes;
      ghost var start, tl, fl := |code|, [], [];
      var d;
      d, tl, fl := Operand(e);
      reg := freereg;
      freereg := freereg + 1;
      Exp2Reg(d, reg, e, start, tl, fl, reg);
    }
  }
}
