/** INI files: the line parser, the reader and the generator, which undo each other. */
module Ini {
  import opened IniText

  datatype Line = NoData | Comment | Section(name: string) | KeyValue(key: string, value: string) | Unrecognized

  // ----- parsing a line -----

  /** 'parseLine' */
  function ParseLine(raw: string): Line {
    var line := Trim(raw);
    if line == "" then NoData
    else if line[0] == ';' then Comment
    else if line[0] == '[' then
      var comment := FirstOf(line, ';');
      var cut := if comment >= 0 then line[..comment] else line;
      var close := LastOf(cut, ']');
      if close >= 1 then Section(Trim(cut[1..close])) else ParsePair(cut)
    else ParsePair(line)
  }

  function ParsePair(line: string): Line {
    BlankedLength(line);
    var eq := FirstOf(Blanked(line), '=');
    if eq < 0 then Unrecognized
    else KeyValue(Unescape(Trim(line[..eq])), Trim(line[eq + 1..]))
  }

  lemma {:induction false} BlankedLength(line: string)
    ensures |Blanked(line)| == |line|
    decreases |line|
  {
    if |line| >= 2 {
      if line[0] == '\\' && line[1] == '=' {
        BlankedLength(line[2..]);
      } else {
        BlankedLength(line[1..]);
      }
    }
  }

  // ----- writing lines -----

  function SectionLine(name: string): string {
    "[" + name + "]"
  }

  function KeyLine(key: string, value: string, pretty: bool): string {
    Escape(key) + (if pretty then " = " else "=") + Trim(value)
  }

  // ----- what can be written -----

  predicate Clean(s: string) {
    Trimmed(s) && '\n' !in s && '\r' !in s && '\0' !in s
  }

  predicate GoodSection(s: string) {
    Clean(s) && ';' !in s
  }

  predicate GoodKey(key: string) {
    Clean(key) && (key != "" ==> key[0] != ';')
  }

  /** A line that starts with a bracket is cut at a semicolon, and is a section if it has a
      closing bracket. */
  predicate NoMarks(s: string) {
    ';' !in s && ']' !in s
  }

  predicate Bracketed(key: string) {
    key != "" && key[0] == '['
  }

  /** Exactly the pairs that are read back from their line. */
  predicate KeyOk(key: string, value: string, pretty: bool) {
    && (Bracketed(key) ==> NoMarks(key) && NoMarks(value))
    && (pretty || !EndsInBackslash(key))
  }

  predicate EndsInBackslash(key: string) {
    key != "" && key[|key| - 1] == '\\'
  }

  lemma SectionBack(name: string)
    requires GoodSection(name)
    ensures ParseLine(SectionLine(name)) == Section(name)
  {
    var line := SectionLine(name);
    TrimTrimmed(line);
    assert FirstOf(line, ';') < 0;
    assert line[1..|line| - 1] == name;
    TrimTrimmed(name);
  }

  /** A key line is its key, a separator, and its value, however it is spaced. */
  lemma KeyLineParts(key: string, value: string, pretty: bool)
    requires Clean(key) && Trimmed(value)
    ensures var k := if pretty then Escape(key) + " " else Escape(key);
      var v := if pretty then " " + value else value;
      && KeyLine(key, value, pretty) == k + "=" + v
      && Trim(KeyLine(key, value, pretty)) == DropLead(k) + "=" + DropTrail(v)
      && Trim(k) == Escape(key) && Trim(v) == value
  {
    var k := if pretty then Escape(key) + " " else Escape(key);
    var v := if pretty then " " + value else value;
    TrimTrimmed(value);
    assert KeyLine(key, value, pretty) == k + "=" + v;
    TrimMid(k, '=', v);
    EscapeTrimmed(key);
    TrimTrimmed(Escape(key));
    TrimBlank(Escape(key));
    TrimBlank(value);
  }

  /** The start of a trimmed key line. */
  lemma KeyStart(key: string, pretty: bool)
    requires Clean(key)
    ensures var k := if pretty then Escape(key) + " " else Escape(key);
      && DropLead(k) == (if key == "" then "" else k)
      && (key != "" ==> DropLead(k)[0] == (if key[0] == '=' then '\\' else key[0]))
  {
    EscapeStart(key);
    EscapeTrimmed(key);
  }

  /** In a line that starts like a key and has a separator, the separator is found. */
  lemma PairFound(key: string, pretty: bool, rest: string)
    requires Clean(key) && (pretty || !EndsInBackslash(key))
    ensures var k := DropLead(if pretty then Escape(key) + " " else Escape(key));
      FirstOf(Blanked(k + "=" + rest), '=') == |k|
  {
    KeyStart(key, pretty);
    var k := DropLead(if pretty then Escape(key) + " " else Escape(key));
    var q := if pretty && key != "" then key + " " else key;
    EscapeBlank(key);
    assert Escape(q) == k;
    BlankedKey(q, rest);
    FirstAfter(BlankOf(q), Blanked(rest));
  }

  lemma {:induction false} EscapeBlank(key: string)
    ensures Escape(key + " ") == Escape(key) + " "
  {
    if key == "" {
      assert key + " " == " ";
      assert Escape(" ") == " " + Escape("");
    } else {
      EscapeBlank(key[1..]);
      assert (key + " ")[1..] == key[1..] + " ";
    }
  }

  lemma FirstAfter(b: string, rest: string)
    requires '=' !in b
    ensures FirstOf(b + "=" + rest, '=') == |b|
  {
    var s := b + "=" + rest;
    assert s[|b|] == '=';
  }

  /** The trimmed line of a pair: where it starts, and its characters. */
  lemma LineStart(key: string, value: string, pretty: bool)
    requires Clean(key) && Trimmed(value)
    ensures var line := Trim(KeyLine(key, value, pretty));
      line != "" && line[0] == if key == "" then '=' else if key[0] == '=' then '\\' else key[0]
  {
    EscapeStart(key);
    KeyLineParts(key, value, pretty);
    KeyStart(key, pretty);
    var k, v := if pretty then Escape(key) + " " else Escape(key), if pretty then " " + value else value;
    assert Trim(KeyLine(key, value, pretty)) == DropLead(k) + "=" + DropTrail(v);
  }

  lemma LineChars(key: string, value: string, pretty: bool, c: char)
    requires Clean(key) && Trimmed(value) && c != '=' && c != '\\' && c != ' '
    ensures c in Trim(KeyLine(key, value, pretty)) <==> c in key || c in value
  {
    KeyLineParts(key, value, pretty);
    KeyStart(key, pretty);
    var k, v := if pretty then Escape(key) + " " else Escape(key), if pretty then " " + value else value;
    ValueChars(v, value, c);
    KeyChars(key, pretty, c);
    InThree(DropLead(k), DropTrail(v), c);
  }

  lemma ValueChars(v: string, value: string, c: char)
    requires (v == value || v == " " + value) && Trim(v) == value && c != ' '
    ensures c in DropTrail(v) <==> c in value
  {
    hide DropLead, DropTrail, Trim;
    assert c in v <==> c in value;
    if c in DropTrail(v) {
      DropTrailChars(v, c);
    }
    if c in value {
      TrimOfParts(v);
      TrimChars(DropTrail(v), c);
    }
  }

  lemma KeyChars(key: string, pretty: bool, c: char)
    requires Clean(key) && c != '=' && c != '\\' && c != ' '
    ensures c in DropLead(if pretty then Escape(key) + " " else Escape(key)) <==> c in key
  {
    EscapeChars(key, c);
    KeyStart(key, pretty);
  }

  lemma InThree(a: string, b: string, c: char)
    requires c != '='
    ensures c in a + "=" + b <==> c in a || c in b
  {
  }

  /** A line that starts with no bracket, or has no marks, is a pair. */
  lemma ParsedAsPair(raw: string)
    requires var line := Trim(raw); line != "" && line[0] != ';' && (line[0] == '[' ==> NoMarks(line))
    ensures ParseLine(raw) == ParsePair(Trim(raw))
  {
  }

  lemma LineIsPair(key: string, value: string, pretty: bool)
    requires GoodKey(key) && Trimmed(value) && (Bracketed(key) ==> NoMarks(key) && NoMarks(value))
    ensures ParseLine(KeyLine(key, value, pretty)) == ParsePair(Trim(KeyLine(key, value, pretty)))
  {
    hide ParseLine, Trim, KeyLine;
    LineStart(key, value, pretty);
    LineChars(key, value, pretty, ';');
    LineChars(key, value, pretty, ']');
    ParsedAsPair(KeyLine(key, value, pretty));
  }

  lemma PairBack(key: string, value: string, pretty: bool)
    requires Clean(key) && Trimmed(value) && (pretty || !EndsInBackslash(key))
    ensures ParsePair(Trim(KeyLine(key, value, pretty))) == KeyValue(key, value)
  {
    hide DropLead, DropTrail, Escape, Unescape, Blanked;
    KeyLineParts(key, value, pretty);
    var k, v := if pretty then Escape(key) + " " else Escape(key), if pretty then " " + value else value;
    var line := DropLead(k) + "=" + DropTrail(v);
    PairFound(key, pretty, DropTrail(v));
    TrimOfParts(k);
    TrimOfParts(v);
    EscapeBack(key);
    assert line[..|DropLead(k)|] == DropLead(k) && line[|DropLead(k)| + 1..] == DropTrail(v);
  }

  /** Reading a key line gives key and value back. */
  lemma KeyLineBack(key: string, value: string, pretty: bool)
    requires GoodKey(key) && Trimmed(value) && KeyOk(key, value, pretty)
    ensures ParseLine(KeyLine(key, value, pretty)) == KeyValue(key, value)
  {
    LineIsPair(key, value, pretty);
    PairBack(key, value, pretty);
  }

  // ----- the key that ends in a backslash -----

  lemma {:induction false} UnescapeAfter(q: string, z: string)
    requires !EndsInBackslash(q)
    ensures Unescape(Escape(q) + z) == q + Unescape(z)
    decreases |q|
  {
    if q == "" {
      assert Escape(q) + z == z;
    } else {
      UnescapeAfter(q[1..], z);
      var e := Escape(q[1..]);
      EscapeStart(q[1..]);
      var first := if q[0] == '=' then "\\=" else [q[0]];
      assert Escape(q) + z == first + (e + z);
      assert q + Unescape(z) == [q[0]] + (q[1..] + Unescape(z));
      UnescapeStep(q[0], e + z);
    }
  }

  lemma UnescapeStep(c: char, w: string)
    requires !(c == '\\' && w != "" && w[0] == '=')
    ensures Unescape((if c == '=' then "\\=" else [c]) + w) == [c] + Unescape(w)
  {
    if c == '=' {
      assert ("\\=" + w)[2..] == w;
    } else {
      assert ([c] + w)[1..] == w;
    }
  }

  /** In plain mode a key that ends in a backslash is never read back: its separator looks
      escaped. */
  lemma BackslashLost(key: string, value: string, other: string)
    requires Clean(key) && Trimmed(value) && EndsInBackslash(key)
    requires ParsePair(Trim(KeyLine(key, value, false))) == KeyValue(other, value)
    ensures Norm(other) != key
  {
    hide DropLead, DropTrail, Blanked, Escape, Unescape, FirstOf, Norm;
    KeyLineParts(key, value, false);
    KeyStart(key, false);
    var k0, v := key[..|key| - 1], DropTrail(value);
    var q, line := k0 + "=", Escape(key) + "=" + v;
    EscapeSnoc(k0, '\\');
    EscapeSnoc(k0, '=');
    assert key == k0 + "\\";
    assert line == Escape(q) + v;
    EscapeTrimmed(key);
    EscapeStart(k0 + "=");
    BlankedPast(q, v);
    var eq := FirstOf(Blanked(line), '=');
    if eq >= 0 {
      WrongKey(k0, v, eq);
    }
  }

  lemma NotBefore(b: string, n: nat, i: nat)
    requires n <= |b| && i < |b| && b[i] == '=' && '=' !in b[..n]
    ensures n <= i
  {
  }

  /** A separator found later gives another key. */
  lemma WrongKey(k0: string, v: string, eq: nat)
    requires var q := k0 + "=";
      && |Blanked(Escape(q) + v)| == |Escape(q) + v| && '=' !in Blanked(Escape(q) + v)[..|Escape(q)|]
      && eq == FirstOf(Blanked(Escape(q) + v), '=') && (k0 != "" ==> !IsSpace(k0[0]))
    ensures eq <= |Escape(k0 + "=") + v| && Norm(Unescape(Trim((Escape(k0 + "=") + v)[..eq]))) != k0 + "\\"
  {
    hide Blanked, Escape, Unescape, Trim;
    var q := k0 + "=";
    var line, b := Escape(q) + v, Blanked(Escape(q) + v);
    NotBefore(b, |Escape(q)|, eq);
    var tail := v[..eq - |Escape(q)|];
    assert line[..eq] == Escape(q) + tail;
    EscapeStart(q);
    EscapeEnd(q);
    TrimStarts(Escape(q), tail);
    var more := Trim(line[..eq])[|Escape(q)|..];
    assert Trim(line[..eq]) == Escape(q) + more;
    UnescapeAfter(q, more);
    NormAt(k0, '=', Unescape(more));
    assert k0 + ['='] + Unescape(more) == q + Unescape(more);
  }

  lemma {:induction false} EscapeSnoc(k: string, c: char)
    ensures Escape(k + [c]) == Escape(k) + (if c == '=' then "\\=" else [c])
  {
    if k == "" {
      assert k + [c] == [c];
      assert [c][1..] == "";
    } else {
      EscapeSnoc(k[1..], c);
      assert (k + [c])[1..] == k[1..] + [c];
    }
  }

  /** No separator is found inside an escaped key. */
  lemma {:induction false} BlankedPast(q: string, v: string)
    requires !EndsInBackslash(q)
    ensures |Blanked(Escape(q) + v)| == |Escape(q) + v|
    ensures '=' !in Blanked(Escape(q) + v)[..|Escape(q)|]
    decreases |q|
  {
    BlankedLength(Escape(q) + v);
    if q != "" {
      BlankedPast(q[1..], v);
      var e := Escape(q[1..]);
      EscapeStart(q[1..]);
      var w := Escape(q) + v;
      if q[0] == '=' {
        assert w[2..] == e + v;
        assert Blanked(w)[..|Escape(q)|] == "  " + Blanked(e + v)[..|e|];
      } else if |w| >= 2 {
        assert w[1..] == e + v;
        if q[0] == '\\' {
          assert w[1] == e[0];
        }
        assert Blanked(w)[..|Escape(q)|] == [q[0]] + Blanked(e + v)[..|e|];
      } else {
        assert w == [q[0]];
      }
    }
  }

  /** Trimming keeps a start that neither begins nor ends with a blank. */
  lemma TrimStarts(a: string, tail: string)
    requires a != "" && !IsSpace(a[0]) && !IsSpace(a[|a| - 1])
    ensures a <= Trim(a + tail)
  {
    var k, c := a[..|a| - 1], a[|a| - 1];
    assert a + tail == k + [c] + tail;
    TrimMid(k, c, tail);
    assert DropLead(k) == k;
  }

  /** A line with a bracket in front that has a semicolon or a closing bracket does not give its
      key and value back. */
  lemma MarksLost(key: string, value: string, pretty: bool, other: string)
    requires GoodKey(key) && Trimmed(value) && Bracketed(key) && !(NoMarks(key) && NoMarks(value))
    requires ParseLine(KeyLine(key, value, pretty)) == KeyValue(other, value)
    ensures Norm(other) != key
  {
    hide KeyLine, Trim, FirstOf, LastOf, Norm;
    var line := Trim(KeyLine(key, value, pretty));
    LineStart(key, value, pretty);
    LineChars(key, value, pretty, ';');
    LineChars(key, value, pretty, ']');
    var comment := FirstOf(line, ';');
    if comment >= 0 {
      var cut := line[..comment];
      assert ';' !in cut;
      PairChars(cut, other, value, ';');
      if ';' in key && Norm(other) == key {
        NormChars(other, ';');
      }
    }
  }

  /** Key and value of a pair consist of characters of its line. */
  lemma PairChars(line: string, key: string, value: string, c: char)
    requires ParsePair(line) == KeyValue(key, value) && c !in line
    ensures c !in key && c !in value
  {
    hide Unescape, Trim, FirstOf;
    BlankedLength(line);
    var eq := FirstOf(Blanked(line), '=');
    if c in key {
      UnescapeChars(Trim(line[..eq]), c);
      TrimChars(line[..eq], c);
    }
    if c in value {
      TrimChars(line[eq + 1..], c);
    }
  }

  /** A key line is read back, up to normalization, if and only if its pair is as it should be. */
  lemma KeyLineExact(key: string, value: string, pretty: bool)
    requires GoodKey(key) && Trimmed(value) && Norm(key) == key
    ensures (exists other :: Norm(other) == key && ParseLine(KeyLine(key, value, pretty)) == KeyValue(other, value)) <==>
            KeyOk(key, value, pretty)
  {
    hide Norm, ParseLine, ParsePair, KeyLine;
    if KeyOk(key, value, pretty) {
      KeyLineBack(key, value, pretty);
    } else {
      forall other | ParseLine(KeyLine(key, value, pretty)) == KeyValue(other, value)
        ensures Norm(other) != key
      {
        if Bracketed(key) && !(NoMarks(key) && NoMarks(value)) {
          MarksLost(key, value, pretty, other);
        } else {
          LineIsPair(key, value, pretty);
          BackslashLost(key, value, other);
        }
      }
    }
  }

  // ----- ordered maps -----

  type Entries<T> = seq<(string, T)>

  ghost predicate DistinctKeys<T>(es: Entries<T>) {
    forall i, j :: 0 <= i < j < |es| ==> es[i].0 != es[j].0
  }

  ghost predicate HasKey<T>(es: Entries<T>, key: string) {
    exists i :: 0 <= i < |es| && es[i].0 == key
  }

  /** The entries after 'set': in place, or at the end. */
  function SetEntry<T>(es: Entries<T>, key: string, v: T): (r: Entries<T>)
    ensures !HasKey(es, key) ==> r == es + [(key, v)]
    ensures |r| >= 1 && forall i :: 0 <= i < |es| && es[i].0 == key && DistinctKeys(es) ==> r == es[i := (key, v)]
  {
    if es == [] then [(key, v)]
    else if es[0].0 == key then [(key, v)] + es[1..]
    else
      var r := SetEntry(es[1..], key, v);
      assert forall i :: 0 <= i < |es| - 1 ==> es[1..][i] == es[i + 1];
      [es[0]] + r
  }

  /** 'operator[]' on a missing key adds an empty value. */
  function Touch<T>(es: Entries<T>, key: string, empty: T): Entries<T> {
    if es == [] then [(key, empty)]
    else if es[0].0 == key then es
    else [es[0]] + Touch(es[1..], key, empty)
  }

  function Find<T>(es: Entries<T>, key: string, empty: T): T {
    if es == [] then empty else if es[0].0 == key then es[0].1 else Find(es[1..], key, empty)
  }
}
