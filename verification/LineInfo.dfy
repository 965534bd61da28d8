/** Line information: the compressed table the compiler writes and the lookups that read it. */
module LineInfo {
  import opened Options

  const ABSLINEINFO: int := -0x80
  const LIMLINEDIFF: int := 0x80
  const MAXIWTHABS: int := 128

  datatype AbsLine = AbsLine(pc: int, line: int)

  /** The debug part of a function prototype; 'lineinfo' is None when it was stripped. */
  datatype Proto = Proto(linedefined: int, lineinfo: Option<seq<int>>, abslineinfo: seq<AbsLine>)

  // ----- what a table means -----

  ghost function LineBefore(linedefined: int, lines: seq<int>, pc: nat): int
    requires pc <= |lines|
  {
    if pc == 0 then linedefined else lines[pc - 1]
  }

  /** Relative entries hold the difference from the instruction before. */
  ghost predicate RelativeOk(linedefined: int, info: seq<int>, lines: seq<int>) {
    && |info| == |lines|
    && forall pc :: 0 <= pc < |info| ==>
         -LIMLINEDIFF <= info[pc] < LIMLINEDIFF
         && (info[pc] != ABSLINEINFO ==> lines[pc] == LineBefore(linedefined, lines, pc) + info[pc])
  }

  /** Absolute entries are the marked instructions, in order. */
  ghost predicate AbsoluteOk(info: seq<int>, abs: seq<AbsLine>, lines: seq<int>) {
    && |info| == |lines|
    && (forall i :: 0 <= i < |abs| ==>
          0 <= abs[i].pc < |info| && info[abs[i].pc] == ABSLINEINFO && abs[i].line == lines[abs[i].pc])
    && (forall i, j :: 0 <= i < j < |abs| ==> abs[i].pc < abs[j].pc)
    && (forall pc :: 0 <= pc < |info| && info[pc] == ABSLINEINFO ==> Marked(abs, pc))
  }

  ghost predicate Marked(abs: seq<AbsLine>, pc: int) {
    exists i :: 0 <= i < |abs| && abs[i].pc == pc
  }

  /** There is an absolute entry in every run of 128 instructions. */
  ghost predicate Dense(abs: seq<AbsLine>, n: nat) {
    && (forall i :: 0 <= i < |abs| ==> abs[i].pc <= (i + 1) * 128)
    && n <= (|abs| + 1) * 128
  }

  ghost predicate Encodes(linedefined: int, info: seq<int>, abs: seq<AbsLine>, lines: seq<int>) {
    RelativeOk(linedefined, info, lines) && AbsoluteOk(info, abs, lines) && Dense(abs, |lines|)
  }

  ghost function SinceAbs(abs: seq<AbsLine>, n: nat): int {
    n - (if abs == [] then 0 else abs[|abs| - 1].pc)
  }

  // ----- writing -----

  class FuncState {
    const linedefined: int
    var lineinfo: seq<int>
    var abslineinfo: seq<AbsLine>
    var iwthabs: nat
    var previousline: int
    ghost var lines: seq<int>   // the line saved for each instruction

    /** 'iwthabs' counts the instructions from the last absolute entry on. */
    ghost predicate CounterOk()
      reads this
    {
      iwthabs == SinceAbs(abslineinfo, |lines|) <= MAXIWTHABS
    }

    ghost predicate Valid()
      reads this
    {
      && Encodes(linedefined, lineinfo, abslineinfo, lines)
      && previousline == LineBefore(linedefined, lines, |lines|) && CounterOk()
    }

    /** The information of the last instruction is gone and a new one is due. */
    ghost predicate Pending()
      reads this
    {
      && Encodes(linedefined, lineinfo, abslineinfo, lines)
      && (iwthabs == MAXIWTHABS + 1
          || (previousline == LineBefore(linedefined, lines, |lines|) && CounterOk()))
    }

    constructor (linedefined: int)
      ensures Valid() && lines == [] && this.linedefined == linedefined
    {
      this.linedefined := linedefined;
      lineinfo, abslineinfo, iwthabs, previousline, lines := [], [], 0, linedefined, [];
    }

    /** 'savelineinfo' for the instruction after the last one with information. */
    method SaveLineInfo(line: int)
      requires Pending()
      modifies this
      ensures Valid() && lines == old(lines) + [line]
    {
      hide AbsoluteOk, RelativeOk, Dense, SinceAbs;
      InfoLength(linedefined, lineinfo, lines);
      var linedif := line - previousline;
      var pc := |lineinfo|;
      var absolute := linedif >= LIMLINEDIFF || -linedif >= LIMLINEDIFF;
      if !absolute {
        absolute := iwthabs >= MAXIWTHABS;
        iwthabs := iwthabs + 1;
      }
      if absolute {
        abslineinfo := abslineinfo + [AbsLine(pc, line)];
        linedif := ABSLINEINFO;
        iwthabs := 1;
      }
      lineinfo := lineinfo + [linedif];
      previousline := line;
      lines := lines + [line];
      SavedDense(old(abslineinfo), abslineinfo, old(|lines|), line);
      SavedRelative(linedefined, old(lineinfo), old(lines), linedif, line);
      SavedAbsolute(old(lineinfo), old(abslineinfo), old(lines), linedif, line);
    }

    /** 'removelastlineinfo' */
    method RemoveLastLineInfo()
      requires Valid() && |lines| > 0
      modifies this
      ensures Pending() && lines == old(lines[..|lines| - 1])
    {
      hide AbsoluteOk, RelativeOk, Dense, SinceAbs;
      InfoLength(linedefined, lineinfo, lines);
      LastMarked(lineinfo, abslineinfo, lines);
      RemovedDense(abslineinfo, |lines|);
      var pc := |lineinfo| - 1;
      RemovedRelative(linedefined, lineinfo, lines);
      RemovedAbsolute(lineinfo, abslineinfo, lines);
      if lineinfo[pc] != ABSLINEINFO {
        previousline := previousline - lineinfo[pc];
        iwthabs := iwthabs - 1;
      } else {
        abslineinfo := abslineinfo[..|abslineinfo| - 1];
        iwthabs := MAXIWTHABS + 1;
      }
      lineinfo := lineinfo[..pc];
      lines := lines[..pc];
    }

    /** 'luaK_fixline' */
    method FixLine(line: int)
      requires Valid() && |lines| > 0
      modifies this
      ensures Valid() && lines == old(lines)[|old(lines)| - 1 := line]
    {
      RemoveLastLineInfo();
      SaveLineInfo(line);
    }
  }

  lemma InfoLength(linedefined: int, info: seq<int>, lines: seq<int>)
    requires RelativeOk(linedefined, info, lines)
    ensures |info| == |lines|
  {
  }

  lemma SavedDense(abs: seq<AbsLine>, abs2: seq<AbsLine>, n: nat, line: int)
    requires Dense(abs, n)
    ensures abs2 == abs && SinceAbs(abs, n) < MAXIWTHABS ==>
      Dense(abs2, n + 1) && SinceAbs(abs2, n + 1) == SinceAbs(abs, n) + 1
    ensures abs2 == abs + [AbsLine(n, line)] ==> Dense(abs2, n + 1) && SinceAbs(abs2, n + 1) == 1
  {
  }

  lemma RemovedDense(abs: seq<AbsLine>, n: nat)
    requires Dense(abs, n) && n > 0
    ensures Dense(abs, n - 1) && SinceAbs(abs, n - 1) == SinceAbs(abs, n) - 1
    ensures abs != [] && abs[|abs| - 1].pc == n - 1 ==> Dense(abs[..|abs| - 1], n - 1)
  {
  }

  lemma SavedRelative(linedefined: int, info: seq<int>, lines: seq<int>, dif: int, line: int)
    requires RelativeOk(linedefined, info, lines) && -LIMLINEDIFF <= dif < LIMLINEDIFF
    requires dif != ABSLINEINFO ==> line == LineBefore(linedefined, lines, |lines|) + dif
    ensures RelativeOk(linedefined, info + [dif], lines + [line])
  {
  }

  lemma SavedAbsolute(info: seq<int>, abs: seq<AbsLine>, lines: seq<int>, dif: int, line: int)
    requires AbsoluteOk(info, abs, lines)
    ensures AbsoluteOk(info + [dif], if dif == ABSLINEINFO then abs + [AbsLine(|info|, line)] else abs, lines + [line])
  {
    var abs2 := if dif == ABSLINEINFO then abs + [AbsLine(|info|, line)] else abs;
    forall pc | 0 <= pc < |info| + 1 && (info + [dif])[pc] == ABSLINEINFO
      ensures Marked(abs2, pc)
    {
      if pc < |info| {
        var i :| 0 <= i < |abs| && abs[i].pc == pc;
        assert abs2[i].pc == pc;
      } else {
        assert abs2[|abs|].pc == pc;
      }
    }
  }

  lemma RemovedRelative(linedefined: int, info: seq<int>, lines: seq<int>)
    requires RelativeOk(linedefined, info, lines) && |lines| > 0
    ensures |info| == |lines| && RelativeOk(linedefined, info[..|info| - 1], lines[..|lines| - 1])
    ensures info[|info| - 1] != ABSLINEINFO ==>
      lines[|lines| - 1] - info[|info| - 1] == LineBefore(linedefined, lines[..|lines| - 1], |lines| - 1)
  {
  }

  lemma AtMostLast(abs: seq<AbsLine>, i: nat)
    requires i < |abs| && forall i, j :: 0 <= i < j < |abs| ==> abs[i].pc < abs[j].pc
    ensures abs[i].pc <= abs[|abs| - 1].pc
  {
  }

  /** The last absolute entry belongs to the last marked instruction. */
  lemma LastMarked(info: seq<int>, abs: seq<AbsLine>, lines: seq<int>)
    requires AbsoluteOk(info, abs, lines) && |lines| > 0
    ensures info[|info| - 1] == ABSLINEINFO ==> |abs| > 0 && abs[|abs| - 1].pc == |info| - 1
    ensures info[|info| - 1] != ABSLINEINFO ==> SinceAbs(abs, |info|) > 0
    ensures forall i :: 0 <= i < |abs| && (info[|info| - 1] != ABSLINEINFO || i < |abs| - 1) ==> abs[i].pc < |info| - 1
  {
    if info[|info| - 1] == ABSLINEINFO {
      assert Marked(abs, |info| - 1);
      var i :| 0 <= i < |abs| && abs[i].pc == |info| - 1;
      AtMostLast(abs, i);
    }
  }

  lemma RemovedAbsolute(info: seq<int>, abs: seq<AbsLine>, lines: seq<int>)
    requires AbsoluteOk(info, abs, lines) && |lines| > 0
    ensures |info| == |lines| && (info[|info| - 1] == ABSLINEINFO ==> |abs| > 0)
    ensures AbsoluteOk(info[..|info| - 1], if info[|info| - 1] == ABSLINEINFO then abs[..|abs| - 1] else abs,
                       lines[..|lines| - 1])
  {
    LastMarked(info, abs, lines);
    var info2 := info[..|info| - 1];
    var abs2 := if info[|info| - 1] == ABSLINEINFO then abs[..|abs| - 1] else abs;
    StillMarked(info, abs, lines, abs2);
    RestOk(info, abs, lines, abs2);
    hide Marked;
  }

  lemma RestOk(info: seq<int>, abs: seq<AbsLine>, lines: seq<int>, abs2: seq<AbsLine>)
    requires AbsoluteOk(info, abs, lines) && |lines| > 0 && |abs2| <= |abs| && abs2 == abs[..|abs2|]
    requires forall i :: 0 <= i < |abs2| ==> abs2[i].pc < |info| - 1
    ensures forall i :: 0 <= i < |abs2| ==>
      && 0 <= abs2[i].pc < |info| - 1 && info[..|info| - 1][abs2[i].pc] == ABSLINEINFO
      && abs2[i].line == lines[..|lines| - 1][abs2[i].pc]
    ensures forall i, j :: 0 <= i < j < |abs2| ==> abs2[i].pc < abs2[j].pc
  {
    assert forall i :: 0 <= i < |abs2| ==> abs2[i] == abs[i];
  }

  lemma StillMarked(info: seq<int>, abs: seq<AbsLine>, lines: seq<int>, abs2: seq<AbsLine>)
    requires AbsoluteOk(info, abs, lines) && |lines| > 0
    requires abs2 == if info[|info| - 1] == ABSLINEINFO && |abs| > 0 then abs[..|abs| - 1] else abs
    requires info[|info| - 1] == ABSLINEINFO ==> |abs| > 0 && abs[|abs| - 1].pc == |info| - 1
    ensures forall pc :: 0 <= pc < |info| - 1 && info[..|info| - 1][pc] == ABSLINEINFO ==> Marked(abs2, pc)
  {
    var info2 := info[..|info| - 1];
    forall pc | 0 <= pc < |info2| && info2[pc] == ABSLINEINFO
      ensures Marked(abs2, pc)
    {
      assert info[pc] == ABSLINEINFO;
      var i :| 0 <= i < |abs| && abs[i].pc == pc;
      assert abs2[i].pc == pc;
    }
  }

  // ----- reading -----

  ghost predicate Describes(f: Proto, lines: seq<int>) {
    f.lineinfo.Some? && Encodes(f.linedefined, f.lineinfo.value, f.abslineinfo, lines)
  }

  /** The estimate of 'getbaseline' is a lower bound of the correct base. */
  lemma EstimateIsLow(f: Proto, lines: seq<int>, pc: nat)
    requires Describes(f, lines) && pc < |lines|
    ensures var i := pc / MAXIWTHABS - 1;
      i < 0 || (i < |f.abslineinfo| && f.abslineinfo[i].pc <= pc)
  {
  }

  /** No absolute information in (from, to]. */
  ghost predicate NoneBetween(info: seq<int>, from: int, to: int) {
    -1 <= from && to < |info| && forall pc :: from < pc <= to ==> info[pc] != ABSLINEINFO
  }

  lemma BaseFound(info: seq<int>, abs: seq<AbsLine>, lines: seq<int>, i: int, pc: nat)
    requires AbsoluteOk(info, abs, lines) && pc < |info| && -1 <= i < |abs|
    requires i >= 0 ==> abs[i].pc <= pc
    requires i + 1 < |abs| ==> pc < abs[i + 1].pc
    ensures NoneBetween(info, if i < 0 then -1 else abs[i].pc, pc)
  {
    var from := if i < 0 then -1 else abs[i].pc;
    forall q | from < q <= pc
      ensures info[q] != ABSLINEINFO
    {
      if info[q] == ABSLINEINFO {
        assert Marked(abs, q);
        var j :| 0 <= j < |abs| && abs[j].pc == q;
      }
    }
  }

  /** 'getbaseline' */
  method GetBaseLine(f: Proto, pc: nat, ghost lines: seq<int>) returns (line: int, basepc: int)
    requires Describes(f, lines) && pc < |lines|
    ensures -1 <= basepc <= pc && NoneBetween(f.lineinfo.value, basepc, pc)
    ensures line == LineBefore(f.linedefined, lines, basepc + 1)
  {
    ghost var info := f.lineinfo.value;
    if |f.abslineinfo| == 0 || pc < f.abslineinfo[0].pc {
      BaseFound(info, f.abslineinfo, lines, -1, pc);
      return f.linedefined, -1;
    }
    EstimateIsLow(f, lines, pc);
    var i := pc / MAXIWTHABS - 1;
    while i + 1 < |f.abslineinfo| && pc >= f.abslineinfo[i + 1].pc
      invariant -1 <= i < |f.abslineinfo| && (i >= 0 ==> f.abslineinfo[i].pc <= pc)
    {
      i := i + 1;
    }
    BaseFound(info, f.abslineinfo, lines, i, pc);
    return f.abslineinfo[i].line, f.abslineinfo[i].pc;
  }

  /** 'luaG_getfuncline': exactly the line saved for the instruction. */
  method GetFuncLine(f: Proto, pc: nat, ghost lines: seq<int>) returns (line: int)
    requires f.lineinfo.Some? ==> Describes(f, lines) && pc < |lines|
    ensures line == if f.lineinfo.None? then -1 else lines[pc]
  {
    if f.lineinfo.None? {
      return -1;
    }
    hide AbsoluteOk, Dense;
    var basepc;
    line, basepc := GetBaseLine(f, pc, lines);
    while basepc < pc
      invariant -1 <= basepc <= pc && NoneBetween(f.lineinfo.value, basepc, pc)
      invariant line == LineBefore(f.linedefined, lines, basepc + 1)
    {
      basepc := basepc + 1;
      line := line + f.lineinfo.value[basepc];
    }
  }

  /** 'changedline' agrees with comparing the two lines. */
  method ChangedLine(p: Proto, oldpc: nat, newpc: nat, ghost lines: seq<int>) returns (changed: bool)
    requires p.lineinfo.Some? ==> Describes(p, lines) && oldpc < newpc < |lines|
    ensures changed == (p.lineinfo.Some? && lines[oldpc] != lines[newpc])
  {
    if p.lineinfo.None? {
      return false;
    }
    hide AbsoluteOk, Dense;
    if newpc - oldpc < MAXIWTHABS / 2 {
      var delta := 0;
      var pc := oldpc;
      while true
        invariant oldpc <= pc < newpc && delta == lines[pc] - lines[oldpc]
        decreases newpc - pc
      {
        pc := pc + 1;
        var lineinfo := p.lineinfo.value[pc];
        if lineinfo == ABSLINEINFO {
          break;
        }
        delta := delta + lineinfo;
        if pc == newpc {
          return delta != 0;
        }
      }
    }
    var l1 := GetFuncLine(p, oldpc, lines);
    var l2 := GetFuncLine(p, newpc, lines);
    return l1 != l2;
  }

  // ----- whole compilations -----

  /** What the compiler does to line information: emit an instruction, change the line of the
      last one, or remove the last one and at once emit another. */
  datatype Event = Emit(line: int) | Fix(line: int) | Replace(line: int)

  ghost predicate Possible(events: seq<Event>, n: nat)
    decreases |events|
  {
    events == [] || if events[0].Emit? then Possible(events[1..], n + 1) else n > 0 && Possible(events[1..], n)
  }

  /** The line of each instruction after 'events', with no encoding. */
  ghost function Lines(events: seq<Event>, lines: seq<int>): seq<int>
    requires Possible(events, |lines|)
    decreases |events|
  {
    if events == [] then lines
    else match events[0]
      case Emit(line) => Lines(events[1..], lines + [line])
      case _ => Lines(events[1..], lines[|lines| - 1 := events[0].line])
  }

  /** Every line of every instruction of a compiled function is found again. */
  method Compile(linedefined: int, events: seq<Event>) returns (f: Proto)
    requires Possible(events, 0)
    ensures f.linedefined == linedefined && Describes(f, Lines(events, []))
  {
    hide Encodes;
    var fs := new FuncState(linedefined);
    var i := 0;
    assert events[0..] == events;
    while i < |events|
      invariant 0 <= i <= |events| && fs.Valid() && fs.linedefined == linedefined && fresh(fs)
      invariant Possible(events[i..], |fs.lines|) && Lines(events[i..], fs.lines) == Lines(events, [])
    {
      assert events[i..][1..] == events[i + 1..];
      assert events[i..][0] == events[i];
      match events[i] {
        case Emit(line) => fs.SaveLineInfo(line);
        case Fix(line) => fs.FixLine(line);
        case Replace(line) =>
          ghost var was := fs.lines;
          fs.RemoveLastLineInfo();
          fs.SaveLineInfo(line);
          assert fs.lines == was[|was| - 1 := line];
      }
      i := i + 1;
    }
    f := Proto(linedefined, Some(fs.lineinfo), fs.abslineinfo);
  }
}
