/** Lists of pending jumps, threaded through the offsets of the jump instructions. */
module CodeLists {
  import opened Options
  import opened CodeMachine

  const NO_JUMP: int := -1

  /** 'getjump': a jump to itself ends a list. */
  function GetJump(code: seq<Instr>, pc: nat): int
    requires pc < |code| && code[pc].Jmp?
  {
    if code[pc].sJ == NO_JUMP then NO_JUMP else pc + 1 + code[pc].sJ
  }

  /** The list that starts at 'l' holds the jumps 's', in order and without repetition. */
  ghost predicate IsList(code: seq<Instr>, l: int, s: seq<nat>) {
    && l == HeadOf(s)
    && NoRepeat(s)
    && forall i :: 0 <= i < |s| ==> LinksTo(code, s[i], HeadOf(s[i + 1..]))
  }

  ghost function HeadOf(s: seq<nat>): int {
    if s == [] then NO_JUMP else s[0]
  }

  ghost predicate NoRepeat(s: seq<nat>) {
    forall i, j :: 0 <= i < j < |s| ==> s[i] != s[j]
  }

  ghost predicate LinksTo(code: seq<Instr>, p: nat, next: int) {
    p < |code| && code[p].Jmp? && GetJump(code, p) == next
  }

  ghost predicate Disjoint(s: seq<nat>, t: seq<nat>) {
    forall i, j :: 0 <= i < |s| && 0 <= j < |t| ==> s[i] != t[j]
  }

  /** A list depends on its own jumps only. */
  lemma ListFrame(code: seq<Instr>, code2: seq<Instr>, l: int, s: seq<nat>)
    requires IsList(code, l, s)
    requires forall i :: 0 <= i < |s| ==> s[i] < |code2| && code2[s[i]] == code[s[i]]
    ensures IsList(code2, l, s)
  {
  }

  /** The code after 'fixjump' links the end of the list 's' to 'l2'. */
  ghost function Linked(code: seq<Instr>, s: seq<nat>, l2: int): seq<Instr> {
    if s == [] || l2 == NO_JUMP || s[|s| - 1] >= |code| then code
    else var last := s[|s| - 1]; code[last := Jmp(l2 - (last + 1))]
  }

  /** Concatenating jump lists is appending them. */
  lemma ConcatAppends(code: seq<Instr>, l1: int, s1: seq<nat>, l2: int, s2: seq<nat>)
    requires IsList(code, l1, s1) && IsList(code, l2, s2) && Disjoint(s1, s2)
    ensures IsList(Linked(code, s1, l2), if s1 == [] then l2 else l1, s1 + s2)
  {
    var code2 := Linked(code, s1, l2);
    var s := s1 + s2;
    assert forall i :: 0 <= i < |s2| ==> s[|s1| + i] == s2[i];
    forall i | 0 <= i < |s|
      ensures LinksTo(code2, s[i], HeadOf(s[i + 1..]))
    {
      if i < |s1| {
        assert LinksTo(code, s1[i], HeadOf(s1[i + 1..]));
        if i + 1 < |s1| {
          assert s1[i] != s1[|s1| - 1];
          assert s[i + 1] == s1[i + 1];
        } else if s2 != [] {
          assert s[i + 1] == s2[0];
        }
      } else {
        var j := i - |s1|;
        assert LinksTo(code, s2[j], HeadOf(s2[j + 1..]));
        assert s[i + 1..] == s2[j + 1..];
        assert s1 != [] ==> s1[|s1| - 1] != s2[j];
      }
    }
  }

  // ----- patching -----

  /** The controlling instruction of jump 'p' is a TESTSET. */
  predicate Produces(code: seq<Instr>, p: nat) {
    0 < p <= |code| && code[p - 1].TestSet?
  }

  /** 'patchtestreg' on a TESTSET. */
  function PatchTest(i: Instr, reg: Option<nat>): Instr
    requires i.TestSet?
  {
    if reg.Some? && reg.value != i.b then i.(dest := reg) else Test(i.b, i.k)
  }

  ghost function PatchedAt(code: seq<Instr>, i: nat, s: seq<nat>, vtarget: int, reg: Option<nat>, dtarget: int): Instr
    requires i < |code|
  {
    if i in s then Jmp((if Produces(code, i) then vtarget else dtarget) - (i + 1))
    else if i + 1 in s && code[i].TestSet? then PatchTest(code[i], reg)
    else code[i]
  }

  /** The code after 'patchlistaux': exactly the jumps of 's' and their tests are changed. */
  ghost function Patched(code: seq<Instr>, s: seq<nat>, vtarget: int, reg: Option<nat>, dtarget: int): (r: seq<Instr>)
    ensures |r| == |code| && forall i :: 0 <= i < |code| ==> r[i] == PatchedAt(code, i, s, vtarget, reg, dtarget)
  {
    seq(|code|, i requires 0 <= i < |code| => PatchedAt(code, i, s, vtarget, reg, dtarget))
  }

  /** One jump and its test patched. */
  ghost function NodePatched(c: seq<Instr>, p: nat, vtarget: int, reg: Option<nat>, dtarget: int): seq<Instr>
    requires p < |c|
  {
    if Produces(c, p) then c[p - 1 := PatchTest(c[p - 1], reg)][p := Jmp(vtarget - (p + 1))]
    else c[p := Jmp(dtarget - (p + 1))]
  }

  ghost predicate AllJumps(code: seq<Instr>, s: seq<nat>) {
    forall i :: 0 <= i < |s| ==> s[i] < |code| && code[s[i]].Jmp?
  }

  lemma ListJumps(code: seq<Instr>, l: int, s: seq<nat>)
    requires IsList(code, l, s)
    ensures AllJumps(code, s) && NoRepeat(s) && l == HeadOf(s)
  {
    forall i | 0 <= i < |s|
      ensures s[i] < |code| && code[s[i]].Jmp?
    {
      assert LinksTo(code, s[i], HeadOf(s[i + 1..]));
    }
  }

  /** One more element of the list. */
  lemma PatchOne(code: seq<Instr>, s: seq<nat>, n: nat, vtarget: int, reg: Option<nat>, dtarget: int)
    requires n < |s| && AllJumps(code, s) && NoRepeat(s)
    ensures var c := Patched(code, s[..n], vtarget, reg, dtarget);
      && c[s[n]] == code[s[n]] && Produces(c, s[n]) == Produces(code, s[n])
      && Patched(code, s[..n + 1], vtarget, reg, dtarget) == NodePatched(c, s[n], vtarget, reg, dtarget)
  {
    var p, c := s[n], Patched(code, s[..n], vtarget, reg, dtarget);
    assert forall x: nat :: x in s[..n + 1] <==> x in s[..n] || x == p by {
      assert s[..n + 1] == s[..n] + [p];
    }
    assert p !in s[..n] && code[p].Jmp?;
    if 0 < p && !code[p - 1].Jmp? {
      NotMember(code, s, n, p - 1);
    }
    assert c[p] == PatchedAt(code, p, s[..n], vtarget, reg, dtarget);
    assert p > 0 ==> c[p - 1] == PatchedAt(code, p - 1, s[..n], vtarget, reg, dtarget);
    var d, e := Patched(code, s[..n + 1], vtarget, reg, dtarget), NodePatched(c, p, vtarget, reg, dtarget);
    forall i | 0 <= i < |code|
      ensures d[i] == e[i]
    {
      assert d[i] == PatchedAt(code, i, s[..n + 1], vtarget, reg, dtarget) && c[i] == PatchedAt(code, i, s[..n], vtarget, reg, dtarget);
    }
  }

  lemma NotMember(code: seq<Instr>, s: seq<nat>, n: nat, x: nat)
    requires n <= |s| && AllJumps(code, s) && x < |code| && !code[x].Jmp?
    ensures x !in s[..n]
  {
  }

  lemma PatchNone(code: seq<Instr>, vtarget: int, reg: Option<nat>, dtarget: int)
    ensures Patched(code, [], vtarget, reg, dtarget) == code
  {
  }

  lemma PatchedLength(code: seq<Instr>, s: seq<nat>, vtarget: int, reg: Option<nat>, dtarget: int)
    ensures |Patched(code, s, vtarget, reg, dtarget)| == |code|
  {
  }

  lemma NthLink(code: seq<Instr>, l: int, s: seq<nat>, n: nat)
    requires IsList(code, l, s) && n < |s|
    ensures LinksTo(code, s[n], HeadOf(s[n + 1..])) && HeadOf(s[n..]) == s[n]
  {
  }

  // ----- jumps stay in the code -----

  /** Every jump leads into the code or to its end; an open list ends in a jump to itself. */
  ghost predicate Ranged(code: seq<Instr>) {
    forall i :: 0 <= i < |code| && code[i].Jmp? ==> 0 <= i + 1 + code[i].sJ <= |code|
  }

  lemma PatchedRanged(code: seq<Instr>, s: seq<nat>, vtarget: int, reg: Option<nat>, dtarget: int)
    requires 0 <= vtarget <= |code|
    requires 0 <= dtarget <= |code| || forall i :: 0 <= i < |s| ==> Produces(code, s[i])
    ensures Ranged(code) ==> Ranged(Patched(code, s, vtarget, reg, dtarget))
  {
    var code2 := Patched(code, s, vtarget, reg, dtarget);
    if Ranged(code) {
      forall i | 0 <= i < |code2| && code2[i].Jmp?
        ensures 0 <= i + 1 + code2[i].sJ <= |code2|
      {
        assert code2[i] == PatchedAt(code, i, s, vtarget, reg, dtarget);
      }
    }
  }
}
