/** INI files as text: the reader, the generator and their round trip. */
module IniFile {
  import opened Options
  import opened IniText
  import opened Ini

  type Pairs = Entries<string>
  type Structure = Entries<Pairs>

  // ----- reading -----

  datatype Reader = Reader(data: Structure, section: string, inSection: bool)

  /** One line of 'operator>>'. */
  function Absorb(r: Reader, line: string): Reader {
    match ParseLine(line)
    case Section(name) => Reader(Touch(r.data, Norm(name), []), name, true)
    case KeyValue(key, value) =>
      if !r.inSection then r
      else
        var data := Touch(r.data, Norm(r.section), []);
        var pairs := Find(data, Norm(r.section), []);
        r.(data := SetEntry(data, Norm(r.section), SetEntry(pairs, Norm(key), value)))
    case _ => r
  }

  function AbsorbAll(r: Reader, lines: seq<string>): Reader
    decreases |lines|
  {
    if lines == [] then r else AbsorbAll(Absorb(r, lines[0]), lines[1..])
  }

  lemma {:induction false} AbsorbTwo(r: Reader, a: seq<string>, b: seq<string>)
    ensures AbsorbAll(r, a + b) == AbsorbAll(AbsorbAll(r, a), b)
    decreases |a|
  {
    if a == [] {
      assert a + b == b;
    } else {
      AbsorbTwo(Absorb(r, a[0]), a[1..], b);
      assert (a + b)[1..] == a[1..] + b;
    }
  }

  // ----- writing -----

  function KeyLines(pairs: Pairs, pretty: bool): (r: seq<string>)
    ensures |r| == |pairs|
  {
    if pairs == [] then [] else [KeyLine(pairs[0].0, pairs[0].1, pretty)] + KeyLines(pairs[1..], pretty)
  }

  function SectionLines(name: string, pairs: Pairs, pretty: bool): seq<string> {
    [SectionLine(name)] + KeyLines(pairs, pretty)
  }

  /** The lines of a file; pretty printing puts an empty one between sections. */
  function LinesOf(es: Structure, pretty: bool): seq<string> {
    if es == [] then []
    else if |es| == 1 then SectionLines(es[0].0, es[0].1, pretty)
    else SectionLines(es[0].0, es[0].1, pretty) + (if pretty then [""] else []) + LinesOf(es[1..], pretty)
  }

  // ----- well-formed structures -----

  predicate Normal(key: string) {
    Norm(key) == key
  }

  predicate GoodPair(key: string, value: string, pretty: bool) {
    GoodKey(key) && Normal(key) && Clean(value) && KeyOk(key, value, pretty)
  }

  ghost predicate GoodPairs(pairs: Pairs, pretty: bool) {
    DistinctKeys(pairs) && forall i :: 0 <= i < |pairs| ==> GoodPair(pairs[i].0, pairs[i].1, pretty)
  }

  ghost predicate WellFormed(es: Structure, pretty: bool) {
    && DistinctKeys(es)
    && forall i :: 0 <= i < |es| ==> GoodSection(es[i].0) && Normal(es[i].0) && GoodPairs(es[i].1, pretty)
  }

  // ----- reading back what was written -----

  lemma {:induction false} TouchNew<T>(es: Entries<T>, key: string, empty: T)
    requires !HasKey(es, key)
    ensures Touch(es, key, empty) == es + [(key, empty)]
  {
    if es != [] {
      assert es[0].0 != key;
      assert forall i :: 0 <= i < |es| - 1 ==> es[1..][i] == es[i + 1];
      TouchNew(es[1..], key, empty);
    }
  }

  lemma TailNoKey<T>(es: Entries<T>, key: string)
    requires es != [] && !HasKey(es, key)
    ensures es[0].0 != key && !HasKey(es[1..], key)
  {
    assert forall i :: 0 <= i < |es| - 1 ==> es[1..][i] == es[i + 1];
  }

  lemma {:induction false} LastFound<T>(es: Entries<T>, key: string, v: T, empty: T)
    requires !HasKey(es, key)
    ensures Touch(es + [(key, v)], key, empty) == es + [(key, v)] && Find(es + [(key, v)], key, empty) == v
  {
    var all := es + [(key, v)];
    if es != [] {
      TailNoKey(es, key);
      LastFound(es[1..], key, v, empty);
      assert all[0] == es[0] && all[1..] == es[1..] + [(key, v)];
    }
  }

  lemma {:induction false} LastSet<T>(es: Entries<T>, key: string, v: T, w: T)
    requires !HasKey(es, key)
    ensures SetEntry(es + [(key, v)], key, w) == es + [(key, w)]
  {
    hide HasKey;
    var all := es + [(key, v)];
    if es == [] {
      assert all == [(key, v)] && all[1..] == [];
    } else {
      TailNoKey(es, key);
      LastSet(es[1..], key, v, w);
      assert all[0] == es[0] && all[1..] == es[1..] + [(key, v)];
      assert [es[0]] + (es[1..] + [(key, w)]) == es + [(key, w)];
    }
  }

  /** The last entry is found, and changed, by its key. */
  lemma LastEntry<T>(es: Entries<T>, key: string, v: T, w: T, empty: T)
    requires !HasKey(es, key)
    ensures Touch(es + [(key, v)], key, empty) == es + [(key, v)]
    ensures Find(es + [(key, v)], key, empty) == v
    ensures SetEntry(es + [(key, v)], key, w) == es + [(key, w)]
  {
    LastFound(es, key, v, empty);
    LastSet(es, key, v, w);
  }

  lemma AbsorbPair(acc: Structure, name: string, before: Pairs, key: string, value: string, pretty: bool)
    requires !HasKey(acc, name) && Normal(name) && GoodPair(key, value, pretty) && !HasKey(before, key)
    ensures Absorb(Reader(acc + [(name, before)], name, true), KeyLine(key, value, pretty)) ==
              Reader(acc + [(name, before + [(key, value)])], name, true)
  {
    KeyLineBack(key, value, pretty);
    LastEntry(acc, name, before, before + [(key, value)], []);
  }

  lemma {:induction false} PairsBack(acc: Structure, name: string, before: Pairs, pairs: Pairs, pretty: bool)
    requires !HasKey(acc, name) && Normal(name) && GoodPairs(before + pairs, pretty)
    ensures AbsorbAll(Reader(acc + [(name, before)], name, true), KeyLines(pairs, pretty)) ==
              Reader(acc + [(name, before + pairs)], name, true)
    decreases |pairs|
  {
    if pairs == [] {
      assert before + pairs == before;
    } else {
      var (key, value) := pairs[0];
      var all := before + pairs;
      assert all[|before|] == pairs[0];
      assert forall i :: 0 <= i < |before| ==> before[i] == all[i];
      assert !HasKey(before, key);
      AbsorbPair(acc, name, before, key, value, pretty);
      assert before + [pairs[0]] + pairs[1..] == all;
      PairsBack(acc, name, before + [pairs[0]], pairs[1..], pretty);
      var lines := KeyLines(pairs, pretty);
      assert lines[0] == KeyLine(key, value, pretty) && lines[1..] == KeyLines(pairs[1..], pretty);
    }
  }

  lemma SectionLinesBack(acc: Structure, s: string, b: bool, name: string, pairs: Pairs, pretty: bool)
    requires !HasKey(acc, name) && GoodSection(name) && Normal(name) && GoodPairs(pairs, pretty)
    ensures AbsorbAll(Reader(acc, s, b), SectionLines(name, pairs, pretty)) == Reader(acc + [(name, pairs)], name, true)
  {
    hide ParseLine, SectionLine, Norm, GoodPairs;
    SectionBack(name);
    TouchNew(acc, name, []);
    var lines := SectionLines(name, pairs, pretty);
    assert lines[0] == SectionLine(name) && lines[1..] == KeyLines(pairs, pretty);
    assert [] + pairs == pairs;
    PairsBack(acc, name, [], pairs, pretty);
  }

  lemma {:induction false} LinesBack(acc: Structure, s: string, b: bool, es: Structure, pretty: bool)
    requires WellFormed(es, pretty) && DistinctKeys(acc + es)
    ensures AbsorbAll(Reader(acc, s, b), LinesOf(es, pretty)).data == acc + es
    decreases |es|
  {
    hide AbsorbAll, WellFormed;
    if es == [] {
      assert acc + es == acc;
      NothingAbsorbed(Reader(acc, s, b));
    } else {
      FirstIsGood(acc, es, pretty);
      SectionLinesBack(acc, s, b, es[0].0, es[0].1, pretty);
      assert es[0] == (es[0].0, es[0].1);
      if |es| > 1 {
        LaterSections(acc, es, SectionLines(es[0].0, es[0].1, pretty), s, b, pretty);
      } else {
        assert acc + es == acc + [es[0]];
      }
    }
  }

  lemma NothingAbsorbed(r: Reader)
    ensures AbsorbAll(r, []) == r
  {
  }

  lemma FirstIsGood(acc: Structure, es: Structure, pretty: bool)
    requires es != [] && WellFormed(es, pretty) && DistinctKeys(acc + es)
    ensures !HasKey(acc, es[0].0) && GoodSection(es[0].0) && Normal(es[0].0) && GoodPairs(es[0].1, pretty)
  {
    var all := acc + es;
    assert all[|acc|] == es[0];
    assert forall i :: 0 <= i < |acc| ==> acc[i] == all[i];
  }

  lemma RestIsGood(es: Structure, pretty: bool)
    requires es != [] && WellFormed(es, pretty)
    ensures WellFormed(es[1..], pretty)
  {
    assert forall i :: 0 <= i < |es| - 1 ==> es[1..][i] == es[i + 1];
  }

  lemma {:induction false} LaterSections(acc: Structure, es: Structure, first: seq<string>, s: string, b: bool, pretty: bool)
    requires |es| > 1 && WellFormed(es, pretty) && DistinctKeys(acc + es) && first == SectionLines(es[0].0, es[0].1, pretty)
    requires AbsorbAll(Reader(acc, s, b), first) == Reader(acc + [es[0]], es[0].0, true)
    ensures AbsorbAll(Reader(acc, s, b), LinesOf(es, pretty)).data == acc + es
    decreases |es|, 0
  {
    hide WellFormed, AbsorbAll, DistinctKeys;
    var rest := es[1..];
    assert acc + [es[0]] + rest == acc + es;
    RestIsGood(es, pretty);
    var after := Reader(acc + [es[0]], es[0].0, true);
    var gap := if pretty then [""] else [];
    LinesBack(acc + [es[0]], es[0].0, true, rest, pretty);
    AbsorbTwo(Reader(acc, s, b), first + gap, LinesOf(rest, pretty));
    AbsorbTwo(Reader(acc, s, b), first, gap);
    GapIgnored(after, gap);
  }

  lemma GapIgnored(r: Reader, gap: seq<string>)
    requires gap == [] || gap == [""]
    ensures AbsorbAll(r, gap) == r
  {
    assert Trim("") == "";
    if gap != [] {
      assert gap[1..] == [];
      assert Absorb(r, "") == r;
    }
  }

  // ----- lines and text -----

  function Join(lines: seq<string>, endl: string): string {
    if lines == [] then "" else if |lines| == 1 then lines[0] else lines[0] + endl + Join(lines[1..], endl)
  }

  /** Characters of the reader's buffer and the lines that follow. */
  function SplitFrom(buffer: string, text: string): seq<string>
    decreases |text|
  {
    if text == "" then [buffer]
    else if text[0] == '\n' then [buffer] + SplitFrom("", text[1..])
    else if text[0] == '\0' || text[0] == '\r' then SplitFrom(buffer, text[1..])
    else SplitFrom(buffer + [text[0]], text[1..])
  }

  predicate OneLine(s: string) {
    '\n' !in s && '\r' !in s && '\0' !in s
  }

  predicate IsEndl(endl: string) {
    endl == "\n" || endl == "\r\n"
  }

  lemma {:induction false} SplitLine(buffer: string, line: string, rest: string)
    requires OneLine(line)
    ensures SplitFrom(buffer, line + rest) == SplitFrom(buffer + line, rest)
    decreases |line|
  {
    if line == "" {
      assert line + rest == rest && buffer + line == buffer;
    } else {
      SplitLine(buffer + [line[0]], line[1..], rest);
      assert (line + rest)[1..] == line[1..] + rest;
      assert buffer + [line[0]] + line[1..] == buffer + line;
    }
  }

  lemma SplitEndl(buffer: string, endl: string, rest: string)
    requires IsEndl(endl)
    ensures SplitFrom(buffer, endl + rest) == [buffer] + SplitFrom("", rest)
  {
    assert ("\n" + rest)[1..] == rest;
    if endl == "\r\n" {
      assert (endl + rest)[1..] == "\n" + rest;
    }
  }

  /** Splitting undoes joining. */
  lemma {:induction false} SplitJoin(lines: seq<string>, endl: string)
    requires lines != [] && IsEndl(endl) && forall i :: 0 <= i < |lines| ==> OneLine(lines[i])
    ensures SplitFrom("", Join(lines, endl)) == lines
  {
    if |lines| == 1 {
      SplitLine("", lines[0], "");
      assert lines[0] + "" == lines[0] && "" + lines[0] == lines[0];
    } else {
      var rest := Join(lines[1..], endl);
      SplitJoin(lines[1..], endl);
      SplitLine("", lines[0], endl + rest);
      assert lines[0] + endl + rest == lines[0] + (endl + rest) && "" + lines[0] == lines[0];
      SplitEndl(lines[0], endl, rest);
    }
  }

  predicate HasBOM(file: string) {
    |file| >= 3 && file[0] == '\U{0000EF}' && file[1] == '\U{0000BB}' && file[2] == '\U{0000BF}'
  }

  /** The lines of a file; after a byte order mark the buffer is padded with zeros. */
  function FileLines(file: string): seq<string> {
    if file == "" then [] else SplitFrom("", if HasBOM(file) then file[3..] + "\0\0\0" else file)
  }

  /** 'readFile' */
  method ReadFile(file: string) returns (lines: seq<string>)
    ensures lines == FileLines(file)
  {
    if |file| == 0 {
      return [];
    }
    var text := if HasBOM(file) then file[3..] + "\0\0\0" else file;
    lines := [];
    var buffer, i := "", 0;
    assert text[0..] == text;
    while i < |text|
      invariant 0 <= i <= |text| && lines + SplitFrom(buffer, text[i..]) == SplitFrom("", text)
    {
      var c := text[i];
      assert text[i..][0] == c && text[i..][1..] == text[i + 1..];
      if c == '\n' {
        assert lines + ([buffer] + SplitFrom("", text[i + 1..])) == lines + [buffer] + SplitFrom("", text[i + 1..]);
        lines := lines + [buffer];
        buffer := "";
      } else if c != '\0' && c != '\r' {
        buffer := buffer + [c];
      }
      i := i + 1;
    }
    lines := lines + [buffer];
  }

  /** 'operator>>' */
  method Read(file: string) returns (data: Structure)
    ensures data == AbsorbAll(Reader([], "", false), FileLines(file)).data
  {
    var lines := ReadFile(file);
    var r := Reader([], "", false);
    var i := 0;
    assert lines[0..] == lines;
    while i < |lines|
      invariant 0 <= i <= |lines| && AbsorbAll(r, lines[i..]) == AbsorbAll(Reader([], "", false), lines)
    {
      assert lines[i..][0] == lines[i] && lines[i..][1..] == lines[i + 1..];
      r := Absorb(r, lines[i]);
      i := i + 1;
    }
    data := r.data;
  }

  // ----- the generator -----

  lemma {:induction false} JoinTwo(a: seq<string>, b: seq<string>, endl: string)
    requires a != [] && b != []
    ensures Join(a + b, endl) == Join(a, endl) + endl + Join(b, endl)
    decreases |a|
  {
    if |a| == 1 {
      assert (a + b)[1..] == b;
    } else {
      JoinTwo(a[1..], b, endl);
      assert (a + b)[1..] == a[1..] + b;
      assert (a + b)[0] == a[0];
      assert a[0] + endl + (Join(a[1..], endl) + endl + Join(b, endl)) == a[0] + endl + Join(a[1..], endl) + endl + Join(b, endl);
    }
  }

  lemma {:induction false} KeyLinesAt(pairs: Pairs, pretty: bool, n: nat)
    requires n < |pairs|
    ensures KeyLines(pairs[..n + 1], pretty) == KeyLines(pairs[..n], pretty) + [KeyLine(pairs[n].0, pairs[n].1, pretty)]
  {
    if n == 0 {
      assert pairs[..1] == [pairs[0]] && pairs[..0] == [];
      assert [pairs[0]][1..] == [];
    } else {
      KeyLinesAt(pairs[1..], pretty, n - 1);
      assert pairs[1..][..n] == pairs[..n + 1][1..] && pairs[1..][..n - 1] == pairs[..n][1..];
    }
  }

  lemma OneMoreLine(head: seq<string>, pairs: Pairs, pretty: bool, i: nat, endl: string)
    requires i < |pairs| && head != []
    ensures Join(head + KeyLines(pairs[..i + 1], pretty), endl) ==
              Join(head + KeyLines(pairs[..i], pretty), endl) + endl + KeyLine(pairs[i].0, pairs[i].1, pretty)
  {
    hide KeyLine;
    var line := KeyLine(pairs[i].0, pairs[i].1, pretty);
    KeyLinesAt(pairs, pretty, i);
    JoinTwo(head + KeyLines(pairs[..i], pretty), [line], endl);
    assert head + KeyLines(pairs[..i], pretty) + [line] == head + KeyLines(pairs[..i + 1], pretty);
  }

  /** One section of the generator's output. */
  method WriteSection(name: string, pairs: Pairs, pretty: bool, endl: string) returns (out: string)
    ensures out == Join(SectionLines(name, pairs, pretty), endl)
  {
    out := "[" + name + "]";
    ghost var head := [SectionLine(name)];
    var i := 0;
    assert KeyLines(pairs[..0], pretty) == [];
    assert head + [] == head;
    while i < |pairs|
      invariant 0 <= i <= |pairs| && out == Join(head + KeyLines(pairs[..i], pretty), endl)
    {
      var (key, value) := pairs[i];
      OneMoreLine(head, pairs, pretty, i, endl);
      out := out + endl;
      out := out + (Escape(key) + (if pretty then " = " else "=") + Trim(value));
      i := i + 1;
    }
    assert pairs[..i] == pairs;
  }

  /** 'operator<<' */
  method Generate(es: Structure, pretty: bool, endl: string) returns (out: string)
    ensures out == Join(LinesOf(es, pretty), endl)
    decreases |es|
  {
    if |es| == 0 {
      return "";
    }
    out := WriteSection(es[0].0, es[0].1, pretty, endl);
    if |es| > 1 {
      ghost var first, rest := SectionLines(es[0].0, es[0].1, pretty), LinesOf(es[1..], pretty);
      out := out + endl;
      if pretty {
        JoinTwo(first, [""], endl);
        JoinTwo(first + [""], rest, endl);
        out := out + "" + endl;
      } else {
        JoinTwo(first, rest, endl);
        assert first + [] + rest == first + rest;
      }
      var more := Generate(es[1..], pretty, endl);
      out := out + more;
    }
  }

  // ----- the round trip -----

  lemma {:induction false} KeyLinesClean(pairs: Pairs, pretty: bool)
    requires forall i :: 0 <= i < |pairs| ==> Legible(pairs[i].0, pairs[i].1)
    ensures forall i :: 0 <= i < |pairs| ==> OneLine(KeyLines(pairs, pretty)[i])
  {
    if pairs != [] {
      KeyLinesClean(pairs[1..], pretty);
      KeyLineClean(pairs[0].0, pairs[0].1, pretty);
    }
  }

  lemma KeyLineClean(key: string, value: string, pretty: bool)
    requires OneLine(key) && Clean(value)
    ensures OneLine(KeyLine(key, value, pretty))
  {
    TrimTrimmed(value);
    EscapeClean(key);
  }

  lemma {:induction false} EscapeClean(key: string)
    requires OneLine(key)
    ensures OneLine(Escape(key))
  {
    if key != "" {
      EscapeClean(key[1..]);
    }
  }

  ghost predicate AllOneLine(lines: seq<string>) {
    forall i :: 0 <= i < |lines| ==> OneLine(lines[i])
  }

  lemma {:induction false} LinesClean(es: Structure, pretty: bool)
    requires Image(es)
    ensures AllOneLine(LinesOf(es, pretty))
    decreases |es|
  {
    if es != [] {
      var (name, pairs) := es[0];
      KeyLinesClean(pairs, pretty);
      assert AllOneLine(SectionLines(name, pairs, pretty));
      if |es| > 1 {
        assert forall i :: 0 <= i < |es| - 1 ==> es[1..][i] == es[i + 1];
        LinesClean(es[1..], pretty);
      }
    }
  }

  /** A generated file starts with a bracket, so it has no byte order mark. */
  lemma StartsWithBracket(es: Structure, pretty: bool, endl: string)
    requires es != []
    ensures LinesOf(es, pretty) != [] && Join(LinesOf(es, pretty), endl) != "" && Join(LinesOf(es, pretty), endl)[0] == '['
  {
    var lines := LinesOf(es, pretty);
    assert lines != [] && lines[0] == SectionLine(es[0].0);
  }

  /** The lines of a generated file are read as they were written. */
  lemma LinesAgain(es: Structure, pretty: bool, endl: string)
    requires Image(es) && IsEndl(endl)
    ensures FileLines(Join(LinesOf(es, pretty), endl)) == LinesOf(es, pretty)
  {
    if es != [] {
      StartsWithBracket(es, pretty, endl);
      LinesClean(es, pretty);
      SplitJoin(LinesOf(es, pretty), endl);
    }
  }

  lemma WellFormedIsImage(es: Structure, pretty: bool)
    requires WellFormed(es, pretty)
    ensures Image(es)
  {
    forall i | 0 <= i < |es|
      ensures OneLine(es[i].0) && ';' !in es[i].0
      ensures forall j :: 0 <= j < |es[i].1| ==> Legible(es[i].1[j].0, es[i].1[j].1)
    {
    }
  }

  /** Reading what the generator wrote gives the same ordered structure back. */
  lemma FileBack(es: Structure, pretty: bool, endl: string)
    requires WellFormed(es, pretty) && IsEndl(endl)
    ensures AbsorbAll(Reader([], "", false), FileLines(Join(LinesOf(es, pretty), endl))).data == es
  {
    assert [] + es == es;
    LinesBack([], "", false, es, pretty);
    WellFormedIsImage(es, pretty);
    LinesAgain(es, pretty, endl);
  }

  // ----- what any reading yields -----

  /** A key and a value as they come from a line. */
  predicate Legible(key: string, value: string) {
    OneLine(key) && (key != "" ==> key[0] != ';') && Clean(value)
  }

  /** A structure as the reader yields it. */
  ghost predicate Image(es: Structure) {
    forall i :: 0 <= i < |es| ==> OneLine(es[i].0) && ';' !in es[i].0 && LegiblePairs(es[i].1)
  }

  ghost predicate LegiblePairs(pairs: Pairs) {
    forall j :: 0 <= j < |pairs| ==> Legible(pairs[j].0, pairs[j].1)
  }

  lemma {:induction false} SplitOneLine(buffer: string, text: string)
    requires OneLine(buffer)
    ensures AllOneLine(SplitFrom(buffer, text))
    decreases |text|
  {
    if text != "" {
      if text[0] == '\n' {
        SplitOneLine("", text[1..]);
      } else if text[0] == '\0' || text[0] == '\r' {
        SplitOneLine(buffer, text[1..]);
      } else {
        SplitOneLine(buffer + [text[0]], text[1..]);
      }
    }
  }

  lemma NormOneLine(s: string)
    requires OneLine(s)
    ensures OneLine(Norm(s)) && (';' !in s ==> ';' !in Norm(s))
  {
    if '\n' in Norm(s) { NormChars(s, '\n'); }
    if '\r' in Norm(s) { NormChars(s, '\r'); }
    if '\0' in Norm(s) { NormChars(s, '\0'); }
    if ';' in Norm(s) { NormChars(s, ';'); }
  }

  lemma TrimOneLine(s: string)
    requires OneLine(s)
    ensures OneLine(Trim(s)) && (';' !in s ==> ';' !in Trim(s))
  {
    if '\n' in Trim(s) { TrimChars(s, '\n'); }
    if '\r' in Trim(s) { TrimChars(s, '\r'); }
    if '\0' in Trim(s) { TrimChars(s, '\0'); }
    if ';' in Trim(s) { TrimChars(s, ';'); }
  }

  lemma {:induction false} LeadClean(s: string)
    ensures DropLead(s) != "" ==> !IsSpace(DropLead(s)[0]) && DropLead(s)[|DropLead(s)| - 1] == s[|s| - 1]
  {
    if s != "" && IsSpace(s[0]) {
      LeadClean(s[1..]);
    }
  }

  lemma {:induction false} TrailClean(s: string)
    ensures DropTrail(s) != "" ==> !IsSpace(DropTrail(s)[|DropTrail(s)| - 1])
  {
    if s != "" && IsSpace(s[|s| - 1]) {
      TrailClean(s[..|s| - 1]);
    }
  }

  lemma TrimIsTrimmed(s: string)
    ensures Trimmed(Trim(s))
  {
    TrailClean(s);
    LeadClean(DropTrail(s));
  }

  /** The first character of a key is that of its line, or an equals sign. */
  lemma KeyFirst(line: string, key: string, value: string)
    requires ParsePair(line) == KeyValue(key, value) && line != "" && !IsSpace(line[0]) && line[0] != ';'
    ensures Norm(key) != "" ==> Norm(key)[0] != ';'
  {
    BlankedLength(line);
    var eq := FirstOf(Blanked(line), '=');
    if eq > 0 {
      var part := line[..eq];
      assert part == "" + [line[0]] + part[1..];
      TrimMid("", line[0], part[1..]);
      var s := Trim(part);
      assert s == [line[0]] + DropTrail(part[1..]);
      assert key == Unescape(s);
      UnescapeFirst(s);
      assert key == "" + [key[0]] + key[1..];
      NormAt("", key[0], key[1..]);
    } else {
      assert line[..0] == "";
      assert Trim("") == "" && Unescape("") == "";
    }
  }

  lemma UnescapeFirst(s: string)
    requires s != "" && !IsSpace(s[0])
    ensures Unescape(s) != "" && (Unescape(s)[0] == s[0] || Unescape(s)[0] == '=')
  {
  }

  lemma PairLegible(line: string, key: string, value: string)
    requires ParsePair(line) == KeyValue(key, value) && OneLine(line) && line != "" && !IsSpace(line[0]) && line[0] != ';'
    ensures Legible(Norm(key), value)
  {
    hide ParsePair, Norm, Trim;
    PairChars(line, key, value, '\n');
    PairChars(line, key, value, '\r');
    PairChars(line, key, value, '\0');
    NormOneLine(key);
    KeyFirst(line, key, value);
    ValueTrimmed(line, key, value);
  }

  lemma ValueTrimmed(line: string, key: string, value: string)
    requires ParsePair(line) == KeyValue(key, value)
    ensures Trimmed(value)
  {
    BlankedLength(line);
    TrimIsTrimmed(line[FirstOf(Blanked(line), '=') + 1..]);
  }

  /** What a line without line breaks gives. */
  lemma LineLegible(raw: string)
    requires OneLine(raw)
    ensures match ParseLine(raw)
      case Section(name) => OneLine(Norm(name)) && ';' !in Norm(name)
      case KeyValue(key, value) => Legible(Norm(key), value)
      case _ => true
  {
    hide ParsePair, Norm, Legible, FirstOf, LastOf;
    var line := Trim(raw);
    TrimOneLine(raw);
    TrimIsTrimmed(raw);
    if line != "" && line[0] != ';' {
      if line[0] == '[' {
        var comment := FirstOf(line, ';');
        var cut := if comment >= 0 then line[..comment] else line;
        var close := LastOf(cut, ']');
        assert OneLine(cut) && ';' !in cut;
        if close >= 1 {
          TrimOneLine(cut[1..close]);
          NormOneLine(Trim(cut[1..close]));
        } else if ParsePair(cut).KeyValue? {
          assert cut != "" && cut[0] == '[';
          PairLegible(cut, ParsePair(cut).key, ParsePair(cut).value);
        } else {
          PairOrNot(cut);
        }
      } else if ParsePair(line).KeyValue? {
        PairLegible(line, ParsePair(line).key, ParsePair(line).value);
      } else {
        PairOrNot(line);
      }
    }
  }

  lemma PairOrNot(line: string)
    ensures ParsePair(line).KeyValue? || ParsePair(line).Unrecognized?
  {
  }

  lemma {:induction false} TouchImage(es: Structure, name: string)
    requires Image(es) && OneLine(name) && ';' !in name
    ensures Image(Touch(es, name, []))
  {
    if es != [] {
      assert forall i :: 0 <= i < |es| - 1 ==> es[1..][i] == es[i + 1];
      TouchImage(es[1..], name);
    }
  }

  lemma {:induction false} SetImage(es: Structure, name: string, pairs: Pairs)
    requires Image(es) && LegiblePairs(pairs) && (HasKey(es, name) || (OneLine(name) && ';' !in name))
    ensures Image(SetEntry(es, name, pairs))
  {
    if es != [] {
      assert forall i :: 0 <= i < |es| - 1 ==> es[1..][i] == es[i + 1];
      if es[0].0 != name {
        HasTail(es, name);
        SetImage(es[1..], name, pairs);
      }
    }
  }

  lemma HasTail<T>(es: Entries<T>, key: string)
    requires es != [] && es[0].0 != key
    ensures HasKey(es, key) <==> HasKey(es[1..], key)
  {
    assert forall i :: 0 <= i < |es| - 1 ==> es[1..][i] == es[i + 1];
    if HasKey(es, key) {
      var i :| 0 <= i < |es| && es[i].0 == key;
      assert es[1..][i - 1].0 == key;
    }
  }

  lemma {:induction false} SetPairsImage(pairs: Pairs, key: string, value: string)
    requires LegiblePairs(pairs) && Legible(key, value)
    ensures LegiblePairs(SetEntry(pairs, key, value))
  {
    if pairs != [] {
      assert forall i :: 0 <= i < |pairs| - 1 ==> pairs[1..][i] == pairs[i + 1];
      if pairs[0].0 != key {
        SetPairsImage(pairs[1..], key, value);
      }
    }
  }

  lemma {:induction false} FindImage(es: Structure, name: string)
    requires Image(es)
    ensures LegiblePairs(Find(es, name, []))
  {
    if es != [] && es[0].0 != name {
      assert forall i :: 0 <= i < |es| - 1 ==> es[1..][i] == es[i + 1];
      FindImage(es[1..], name);
    }
  }

  /** The reader's current section is there. */
  ghost predicate Placed(r: Reader) {
    r.inSection ==> HasKey(r.data, Norm(r.section))
  }

  lemma {:induction false} TouchHas<T>(es: Entries<T>, key: string, empty: T)
    ensures HasKey(Touch(es, key, empty), key)
    ensures HasKey(es, key) ==> Touch(es, key, empty) == es
  {
    if es == [] {
      assert Touch(es, key, empty)[0].0 == key;
    } else if es[0].0 != key {
      TouchHas(es[1..], key, empty);
      HasTail(es, key);
      var t := Touch(es, key, empty);
      assert t[1..] == Touch(es[1..], key, empty);
      HasTail(t, key);
    }
  }

  lemma {:induction false} SetHas<T>(es: Entries<T>, key: string, v: T)
    ensures HasKey(SetEntry(es, key, v), key)
  {
    var t := SetEntry(es, key, v);
    if es == [] || es[0].0 == key {
      assert t[0].0 == key;
    } else {
      SetHas(es[1..], key, v);
      assert t[1..] == SetEntry(es[1..], key, v);
      HasTail(t, key);
    }
  }

  lemma AbsorbImage(r: Reader, line: string)
    requires Image(r.data) && Placed(r) && OneLine(line)
    ensures Image(Absorb(r, line).data) && Placed(Absorb(r, line))
  {
    hide ParseLine, Norm, Touch, SetEntry, Find;
    LineLegible(line);
    match ParseLine(line)
    case Section(name) =>
      TouchImage(r.data, Norm(name));
      TouchHas(r.data, Norm(name), []);
    case KeyValue(key, value) =>
      if r.inSection {
        var name := Norm(r.section);
        TouchHas(r.data, name, []);
        FindImage(r.data, name);
        var pairs := SetEntry(Find(r.data, name, []), Norm(key), value);
        SetPairsImage(Find(r.data, name, []), Norm(key), value);
        SetImage(r.data, name, pairs);
        SetHas(r.data, name, pairs);
      }
    case _ =>
  }

  lemma {:induction false} AllImage(r: Reader, lines: seq<string>)
    requires Image(r.data) && Placed(r) && AllOneLine(lines)
    ensures Image(AbsorbAll(r, lines).data)
    decreases |lines|
  {
    if lines != [] {
      AbsorbImage(r, lines[0]);
      AllImage(Absorb(r, lines[0]), lines[1..]);
    }
  }

  // ----- every line has to add its item -----

  datatype Item = Sec(name: string) | Pair(key: string, value: string)

  function PairItems(pairs: Pairs): (r: seq<Item>)
    ensures |r| == |pairs|
  {
    if pairs == [] then [] else [Pair(pairs[0].0, pairs[0].1)] + PairItems(pairs[1..])
  }

  /** Sections and pairs in the order of the file. */
  function Flat(es: Structure): seq<Item> {
    if es == [] then [] else [Sec(es[0].0)] + PairItems(es[0].1) + Flat(es[1..])
  }

  function ItemOf(line: string): Option<Item> {
    match ParseLine(line)
    case Section(name) => Some(Sec(Norm(name)))
    case KeyValue(key, value) => Some(Pair(Norm(key), value))
    case _ => None
  }

  function ItemsOf(lines: seq<string>): seq<Option<Item>> {
    if lines == [] then []
    else (if lines[0] == "" then [] else [ItemOf(lines[0])]) + ItemsOf(lines[1..])
  }

  function Somes(items: seq<Item>): (r: seq<Option<Item>>)
    ensures |r| == |items| && forall i :: 0 <= i < |items| ==> r[i] == Some(items[i])
  {
    if items == [] then [] else [Some(items[0])] + Somes(items[1..])
  }

  lemma {:induction false} TouchSize(es: Structure, name: string)
    ensures |Flat(Touch(es, name, []))| <= |Flat(es)| + 1
  {
    if es != [] && es[0].0 != name {
      TouchSize(es[1..], name);
      assert Touch(es, name, [])[1..] == Touch(es[1..], name, []);
    } else if es == [] {
      var t: Structure := Touch(es, name, []);
      assert t == [(name, [])] && t[1..] == [];
    }
  }

  lemma {:induction false} SetSize(es: Structure, name: string, pairs: Pairs)
    requires HasKey(es, name)
    ensures |Flat(SetEntry(es, name, pairs))| == |Flat(es)| - |Find(es, name, [])| + |pairs|
  {
    var t := SetEntry(es, name, pairs);
    if es[0].0 == name {
      assert t[1..] == es[1..];
    } else {
      HasTail(es, name);
      SetSize(es[1..], name, pairs);
      assert t[1..] == SetEntry(es[1..], name, pairs);
    }
  }

  lemma {:induction false} SetLength<T>(es: Entries<T>, key: string, v: T)
    ensures |SetEntry(es, key, v)| == |es| + if HasKey(es, key) then 0 else 1
  {
    if es != [] {
      if es[0].0 != key {
        HasTail(es, key);
        SetLength(es[1..], key, v);
      }
    }
  }

  /** A line adds at most one item. */
  lemma AbsorbSize(r: Reader, line: string)
    requires Placed(r)
    ensures Placed(Absorb(r, line)) && |Flat(Absorb(r, line).data)| <= |Flat(r.data)| + 1
    ensures line == "" ==> Absorb(r, line) == r
  {
    hide Norm, Touch, SetEntry, Find, Flat, ParsePair;
    match ParseLine(line)
    case Section(name) =>
      TouchSize(r.data, Norm(name));
      TouchHas(r.data, Norm(name), []);
    case KeyValue(key, value) =>
      if r.inSection {
        var name := Norm(r.section);
        var was := Find(r.data, name, []);
        TouchHas(r.data, name, []);
        SetLength(was, Norm(key), value);
        SetSize(r.data, name, SetEntry(was, Norm(key), value));
        SetHas(r.data, name, SetEntry(was, Norm(key), value));
      }
    case _ =>
  }

  /** The reader's current section is the last one. */
  ghost predicate AtEnd(r: Reader) {
    r.inSection ==>
      && r.data != [] && r.data[|r.data| - 1].0 == Norm(r.section)
      && !HasKey(r.data[..|r.data| - 1], Norm(r.section))
  }

  lemma {:induction false} FlatSnoc(es: Structure, name: string, pairs: Pairs)
    ensures Flat(es + [(name, pairs)]) == Flat(es) + ([Sec(name)] + PairItems(pairs))
  {
    var all := es + [(name, pairs)];
    if es == [] {
      assert all == [(name, pairs)] && all[1..] == [];
    } else {
      FlatSnoc(es[1..], name, pairs);
      assert all[0] == es[0] && all[1..] == es[1..] + [(name, pairs)];
    }
  }

  lemma {:induction false} PairItemsSnoc(pairs: Pairs, key: string, value: string)
    ensures PairItems(pairs + [(key, value)]) == PairItems(pairs) + [Pair(key, value)]
  {
    var all := pairs + [(key, value)];
    if pairs == [] {
      assert all == [(key, value)] && all[1..] == [];
    } else {
      PairItemsSnoc(pairs[1..], key, value);
      assert all[0] == pairs[0] && all[1..] == pairs[1..] + [(key, value)];
    }
  }

  lemma SectionGrows(data: Structure, name: string)
    requires |Flat(Touch(data, name, []))| == |Flat(data)| + 1
    ensures Touch(data, name, []) == data + [(name, [])] && !HasKey(data, name)
    ensures Flat(data + [(name, [])]) == Flat(data) + [Sec(name)]
  {
    TouchHas(data, name, []);
    if !HasKey(data, name) {
      TouchNew(data, name, []);
      FlatSnoc(data, name, []);
    }
  }

  lemma PairGrows(init: Structure, name: string, pairs: Pairs, key: string, value: string)
    requires !HasKey(init, name)
    ensures var data := init + [(name, pairs)]; var pairs2 := SetEntry(pairs, key, value);
      && Touch(data, name, []) == data && Find(data, name, []) == pairs
      && SetEntry(data, name, pairs2) == init + [(name, pairs2)]
      && (|Flat(init + [(name, pairs2)])| == |Flat(data)| + 1 ==> Flat(init + [(name, pairs2)]) == Flat(data) + [Pair(key, value)])
  {
    var pairs2 := SetEntry(pairs, key, value);
    LastEntry(init, name, pairs, pairs2, []);
    FlatSnoc(init, name, pairs);
    FlatSnoc(init, name, pairs2);
    SetLength(pairs, key, value);
    if !HasKey(pairs, key) {
      assert pairs2 == pairs + [(key, value)];
      PairItemsSnoc(pairs, key, value);
      Regrouped(Flat(init), [Sec(name)], PairItems(pairs), [Pair(key, value)]);
    }
  }

  lemma Regrouped(a: seq<Item>, b: seq<Item>, c: seq<Item>, d: seq<Item>)
    ensures a + (b + (c + d)) == a + (b + c) + d
  {
  }

  /** A line that adds an item adds it at the end. */
  lemma AbsorbGrows(r: Reader, line: string)
    requires Placed(r) && AtEnd(r) && |Flat(Absorb(r, line).data)| == |Flat(r.data)| + 1
    ensures ItemOf(line).Some? && Flat(Absorb(r, line).data) == Flat(r.data) + [ItemOf(line).value]
    ensures AtEnd(Absorb(r, line))
  {
    hide Norm, Touch, SetEntry, Find, Flat, ParseLine;
    match ParseLine(line)
    case Section(name) =>
      SectionGrows(r.data, Norm(name));
      var d := r.data + [(Norm(name), [])];
      assert d[..|d| - 1] == r.data;
    case KeyValue(key, value) =>
      if r.inSection {
        var name, n := Norm(r.section), |r.data| - 1;
        var init, pairs := r.data[..n], r.data[n].1;
        assert r.data == init + [(name, pairs)];
        PairGrows(init, name, pairs, Norm(key), value);
        var d := init + [(name, SetEntry(pairs, Norm(key), value))];
        assert d[..|d| - 1] == init;
      }
    case _ =>
  }

  lemma {:induction false} AllSize(r: Reader, lines: seq<string>)
    requires Placed(r)
    ensures |Flat(AbsorbAll(r, lines).data)| <= |Flat(r.data)| + |ItemsOf(lines)|
    decreases |lines|
  {
    hide Flat, Absorb;
    if lines != [] {
      AbsorbSize(r, lines[0]);
      AllSize(Absorb(r, lines[0]), lines[1..]);
    }
  }

  /** If every line has added its item, the items of the result are those of the lines. */
  lemma {:induction false} AllGrow(r: Reader, lines: seq<string>)
    requires Placed(r) && AtEnd(r) && |Flat(AbsorbAll(r, lines).data)| == |Flat(r.data)| + |ItemsOf(lines)|
    ensures Somes(Flat(AbsorbAll(r, lines).data)) == Somes(Flat(r.data)) + ItemsOf(lines)
    decreases |lines|
  {
    hide Flat, Absorb, AtEnd, Placed, ItemOf;
    if lines == [] {
      assert Somes(Flat(r.data)) + [] == Somes(Flat(r.data));
    } else {
      var r2 := Absorb(r, lines[0]);
      AbsorbSize(r, lines[0]);
      AllSize(r2, lines[1..]);
      if lines[0] != "" {
        AbsorbGrows(r, lines[0]);
        assert Somes(Flat(r2.data)) == Somes(Flat(r.data)) + [ItemOf(lines[0])];
      }
      AllGrow(r2, lines[1..]);
      if lines[0] != "" {
        assert Somes(Flat(r.data)) + ([ItemOf(lines[0])] + ItemsOf(lines[1..])) == Somes(Flat(r.data)) + [ItemOf(lines[0])] + ItemsOf(lines[1..]);
      } else {
        assert [] + ItemsOf(lines[1..]) == ItemsOf(lines[1..]);
      }
    }
  }

  lemma ItemsCons(line: string, rest: seq<string>)
    ensures ItemsOf([line] + rest) == (if line == "" then [] else [ItemOf(line)]) + ItemsOf(rest)
  {
    hide ItemOf;
    assert ([line] + rest)[1..] == rest;
  }

  lemma ConcatThree<T>(x: seq<T>, y: seq<T>, z: seq<T>)
    ensures x + y + z == x + (y + z)
  {
  }

  lemma {:induction false} ItemsTwo(a: seq<string>, b: seq<string>)
    ensures ItemsOf(a + b) == ItemsOf(a) + ItemsOf(b)
  {
    if a == [] {
      assert a + b == b;
      assert ItemsOf(a) + ItemsOf(b) == ItemsOf(b);
    } else {
      ItemsTwo(a[1..], b);
      hide ItemOf, ItemsOf;
      assert a == [a[0]] + a[1..];
      ConcatThree([a[0]], a[1..], b);
      ItemsCons(a[0], a[1..]);
      ItemsCons(a[0], a[1..] + b);
      ConcatThree(if a[0] == "" then [] else [ItemOf(a[0])], ItemsOf(a[1..]), ItemsOf(b));
    }
  }

  lemma {:induction false} KeyItems(pairs: Pairs, pretty: bool)
    ensures |ItemsOf(KeyLines(pairs, pretty))| == |pairs|
    ensures forall j :: 0 <= j < |pairs| ==> ItemsOf(KeyLines(pairs, pretty))[j] == ItemOf(KeyLine(pairs[j].0, pairs[j].1, pretty))
  {
    hide ItemOf;
    if pairs != [] {
      KeyItems(pairs[1..], pretty);
      var lines := KeyLines(pairs, pretty);
      assert lines[0] == KeyLine(pairs[0].0, pairs[0].1, pretty) && lines[1..] == KeyLines(pairs[1..], pretty);
      assert lines[0] != "";
    }
  }

  /** The items of one section and of the rest. */
  lemma LinesItems(es: Structure, pretty: bool)
    requires es != []
    ensures ItemsOf(LinesOf(es, pretty)) ==
      [ItemOf(SectionLine(es[0].0))] + ItemsOf(KeyLines(es[0].1, pretty)) + ItemsOf(LinesOf(es[1..], pretty))
  {
    hide ItemOf, KeyLines;
    var first := SectionLines(es[0].0, es[0].1, pretty);
    assert first[0] == SectionLine(es[0].0) && first[1..] == KeyLines(es[0].1, pretty);
    if |es| > 1 {
      var gap := if pretty then [""] else [];
      ItemsTwo(first + gap, LinesOf(es[1..], pretty));
      ItemsTwo(first, gap);
      NoGapItems(gap);
      assert ItemsOf(first) + [] == ItemsOf(first);
    } else {
      assert es[1..] == [];
      assert ItemsOf(first) + [] == ItemsOf(first);
    }
  }

  lemma NoGapItems(gap: seq<string>)
    requires gap == [] || gap == [""]
    ensures ItemsOf(gap) == []
  {
    if gap != [] {
      assert gap[1..] == [];
    }
  }

  lemma {:induction false} ItemCount(es: Structure, pretty: bool)
    ensures |ItemsOf(LinesOf(es, pretty))| == |Flat(es)|
    decreases |es|
  {
    if es != [] {
      LinesItems(es, pretty);
      KeyItems(es[0].1, pretty);
      ItemCount(es[1..], pretty);
    }
  }

  /** If the items of the lines are those of the structure, each line gives its pair back. */
  lemma {:induction false} EachBack(es: Structure, pretty: bool)
    requires Somes(Flat(es)) == ItemsOf(LinesOf(es, pretty))
    ensures forall i, j :: 0 <= i < |es| && 0 <= j < |es[i].1| ==>
      ItemOf(KeyLine(es[i].1[j].0, es[i].1[j].1, pretty)) == Some(Pair(es[i].1[j].0, es[i].1[j].1))
    decreases |es|
  {
    hide ItemOf, KeyLine, LinesOf, KeyLines;
    if es != [] {
      var pairs, rest := es[0].1, es[1..];
      LinesItems(es, pretty);
      KeyItems(pairs, pretty);
      var head := [Sec(es[0].0)] + PairItems(pairs);
      SomesTwo(head, Flat(rest));
      var a, b := [ItemOf(SectionLine(es[0].0))] + ItemsOf(KeyLines(pairs, pretty)), ItemsOf(LinesOf(rest, pretty));
      SplitEqual(Somes(head), Somes(Flat(rest)), a, b);
      EachBack(rest, pretty);
      forall j | 0 <= j < |pairs|
        ensures ItemOf(KeyLine(pairs[j].0, pairs[j].1, pretty)) == Some(Pair(pairs[j].0, pairs[j].1))
      {
        PairItemsAt(pairs, j);
        assert Somes(head)[j + 1] == Some(head[j + 1]);
        assert a[j + 1] == ItemsOf(KeyLines(pairs, pretty))[j];
      }
      assert forall i :: 0 < i < |es| ==> es[i] == rest[i - 1];
    }
  }

  lemma {:induction false} PairItemsAt(pairs: Pairs, j: nat)
    requires j < |pairs|
    ensures PairItems(pairs)[j] == Pair(pairs[j].0, pairs[j].1)
  {
    if j > 0 {
      PairItemsAt(pairs[1..], j - 1);
    }
  }

  lemma SomesTwo(a: seq<Item>, b: seq<Item>)
    ensures Somes(a + b) == Somes(a) + Somes(b)
  {
    hide Somes;
    var l, r := Somes(a + b), Somes(a) + Somes(b);
    assert |l| == |r|;
    forall i | 0 <= i < |l|
      ensures l[i] == r[i]
    {
      assert l[i] == Some((a + b)[i]);
    }
  }

  lemma SplitEqual<T>(a: seq<T>, b: seq<T>, c: seq<T>, d: seq<T>)
    requires a + b == c + d && |a| == |c|
    ensures a == c && b == d
  {
    assert a == (a + b)[..|a|] && c == (c + d)[..|c|];
    assert b == (a + b)[|a|..] && d == (c + d)[|c|..];
  }

  // ----- exactly the well-formed structures are read back -----

  /** What the maps of the library guarantee: normalized, distinct keys. */
  ghost predicate Normalized(es: Structure) {
    && DistinctKeys(es)
    && forall i :: 0 <= i < |es| ==> Normal(es[i].0) && DistinctKeys(es[i].1) && NormalKeys(es[i].1)
  }

  ghost predicate NormalKeys(pairs: Pairs) {
    forall j :: 0 <= j < |pairs| ==> Normal(pairs[j].0)
  }

  lemma {:induction false} DropLengths(s: string)
    ensures |DropLead(s)| <= |s| && (|DropLead(s)| == |s| ==> DropLead(s) == s)
    ensures |DropTrail(s)| <= |s| && (|DropTrail(s)| == |s| ==> DropTrail(s) == s)
  {
    if s != "" {
      if IsSpace(s[0]) { DropLengths(s[1..]); }
      if IsSpace(s[|s| - 1]) { DropLengths(s[..|s| - 1]); }
    }
  }

  lemma NormalTrimmed(s: string)
    requires Normal(s)
    ensures Trimmed(s)
  {
    DropLengths(s);
    DropLengths(DropTrail(s));
    assert |Trim(s)| == |s|;
    TrimIsTrimmed(s);
  }

  lemma PairExact(key: string, value: string, pretty: bool)
    requires Normal(key) && Legible(key, value)
    ensures ItemOf(KeyLine(key, value, pretty)) == Some(Pair(key, value)) ==> GoodPair(key, value, pretty)
  {
    hide ParseLine, KeyLine, Norm, KeyOk;
    NormalTrimmed(key);
    KeyLineExact(key, value, pretty);
    var p := ParseLine(KeyLine(key, value, pretty));
    if ItemOf(KeyLine(key, value, pretty)) == Some(Pair(key, value)) {
      assert p.KeyValue? && p == KeyValue(p.key, value) && Norm(p.key) == key;
    }
  }

  lemma ReadBackIsGood(es: Structure, pretty: bool, endl: string)
    requires Normalized(es) && IsEndl(endl)
    requires AbsorbAll(Reader([], "", false), FileLines(Join(LinesOf(es, pretty), endl))).data == es
    ensures WellFormed(es, pretty)
  {
    hide Norm, ParseLine, KeyLine, LinesOf, AbsorbAll, Flat, GoodPair, Legible, Normal;
    var text := Join(LinesOf(es, pretty), endl);
    var start := Reader([], "", false);
    if text != "" {
      SplitOneLine("", if HasBOM(text) then text[3..] + "\0\0\0" else text);
    }
    AllImage(start, FileLines(text));
    LinesAgain(es, pretty, endl);
    ItemCount(es, pretty);
    EmptyFlat();
    AllGrow(start, LinesOf(es, pretty));
    assert Somes(Flat([])) + ItemsOf(LinesOf(es, pretty)) == ItemsOf(LinesOf(es, pretty));
    EachBack(es, pretty);
    forall i | 0 <= i < |es|
      ensures GoodSection(es[i].0) && GoodPairs(es[i].1, pretty)
    {
      NormalTrimmed(es[i].0);
      forall j | 0 <= j < |es[i].1|
        ensures GoodPair(es[i].1[j].0, es[i].1[j].1, pretty)
      {
        PairExact(es[i].1[j].0, es[i].1[j].1, pretty);
      }
    }
  }

  lemma EmptyFlat()
    ensures Flat([]) == []
  {
  }

  /** A normalized structure survives writing and reading if and only if it is well formed. */
  lemma FileExact(es: Structure, pretty: bool, endl: string)
    requires Normalized(es) && IsEndl(endl)
    ensures AbsorbAll(Reader([], "", false), FileLines(Join(LinesOf(es, pretty), endl))).data == es <==> WellFormed(es, pretty)
  {
    hide AbsorbAll, FileLines, LinesOf, WellFormed, Normalized, Join;
    if WellFormed(es, pretty) {
      FileBack(es, pretty, endl);
    }
    if AbsorbAll(Reader([], "", false), FileLines(Join(LinesOf(es, pretty), endl))).data == es {
      ReadBackIsGood(es, pretty, endl);
    }
  }

  method RoundTrip(es: Structure, pretty: bool, endl: string) returns (data: Structure)
    requires Normalized(es) && IsEndl(endl)
    ensures data == es <==> WellFormed(es, pretty)
  {
    var file := Generate(es, pretty, endl);
    FileExact(es, pretty, endl);
    data := Read(file);
  }
}
