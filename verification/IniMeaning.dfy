/** What INI text means, character by character: blanks, case, escapes, the kinds of lines, and
    the last assignment to a key, which wins. */
module IniMeaning {
  import opened IniText
  import opened Ini
  import opened IniFile

  // ----- blanks and case -----

  /** Spaces, tabs, line breaks, form feeds and vertical tabs only. */
  ghost predicate Blanks(s: string) {
    forall i :: 0 <= i < |s| ==>
      s[i] as int == 32 || s[i] as int == 9 || s[i] as int == 10 || s[i] as int == 13 || s[i] as int == 12 || s[i] as int == 11
  }

  /** Text between blanks. */
  ghost predicate Core(s: string) {
    s != "" ==> !Blanks(s[..1]) && !Blanks(s[|s| - 1..])
  }

  lemma CoreTrimmed(s: string)
    ensures Core(s) <==> Trimmed(s)
  {
    if s != "" {
      assert s[..1][0] == s[0] && s[|s| - 1..][0] == s[|s| - 1];
    }
  }

  lemma {:induction false} LeadBlanks(a: string, s: string)
    requires Blanks(a) && (s != "" ==> !IsSpace(s[0]))
    ensures DropLead(a + s) == s
  {
    if a == "" {
      assert a + s == s;
    } else {
      LeadBlanks(a[1..], s);
      assert (a + s)[1..] == a[1..] + s;
    }
  }

  lemma {:induction false} TrailBlanks(s: string, b: string)
    requires Blanks(b) && (s != "" ==> !IsSpace(s[|s| - 1]))
    ensures DropTrail(s + b) == s
  {
    if b == "" {
      assert s + b == s;
    } else {
      TrailBlanks(s, b[..|b| - 1]);
      assert (s + b)[..|s + b| - 1] == s + b[..|b| - 1];
    }
  }

  /** Trimming takes exactly the blanks around a text. */
  lemma TrimExact(a: string, s: string, b: string)
    requires Blanks(a) && Blanks(b) && Core(s)
    ensures Trim(a + s + b) == s
  {
    CoreTrimmed(s);
    if s == "" {
      assert a + s + b == a + b;
      AllBlank(a + b);
    } else {
      assert a + s + b == (a + s) + b;
      TrailBlanks(a + s, b);
      LeadBlanks(a, s);
    }
  }

  lemma AllBlank(s: string)
    requires Blanks(s)
    ensures Trim(s) == ""
  {
    TrailBlanks("", s);
    assert "" + s == s;
  }

  lemma {:induction false} LeadRest(s: string) returns (a: string)
    ensures Blanks(a) && s == a + DropLead(s)
  {
    a := "";
    if s != "" && IsSpace(s[0]) {
      a := LeadRest(s[1..]);
      a := [s[0]] + a;
      assert s == [s[0]] + s[1..];
    }
  }

  lemma {:induction false} TrailRest(s: string) returns (b: string)
    ensures Blanks(b) && s == DropTrail(s) + b
  {
    b := "";
    if s != "" && IsSpace(s[|s| - 1]) {
      b := TrailRest(s[..|s| - 1]);
      b := b + [s[|s| - 1]];
      assert s == s[..|s| - 1] + [s[|s| - 1]];
    }
  }

  /** Every text is blanks, a core and blanks. */
  lemma Around(s: string) returns (a: string, b: string)
    ensures Blanks(a) && Blanks(b) && Core(Trim(s)) && s == a + Trim(s) + b
  {
    b := TrailRest(s);
    a := LeadRest(DropTrail(s));
    TrimIsTrimmed(s);
    CoreTrimmed(Trim(s));
  }

  /** The same character, or the same ASCII letter in the other case. */
  ghost predicate Alike(x: char, y: char) {
    || x == y
    || (65 <= x as int <= 90 && y as int == x as int + 32)
    || (65 <= y as int <= 90 && x as int == y as int + 32)
  }

  /** Text 's' with blanks around it. */
  ghost predicate Spaced(k: string, s: string) {
    Core(s) && exists a, b :: Blanks(a) && Blanks(b) && k == a + s + b
  }

  lemma TrimSpaced(k: string, s: string)
    ensures Spaced(k, s) <==> Trim(k) == s
  {
    if Spaced(k, s) {
      var a, b :| Blanks(a) && Blanks(b) && k == a + s + b;
      TrimExact(a, s, b);
    }
    var a, b := Around(k);
  }

  /** Keys that differ only by blanks around them and by the case of ASCII letters. */
  ghost predicate SameKey(k: string, l: string) {
    exists s, t :: Spaced(k, s) && Spaced(l, t) && AllAlike(s, t)
  }

  ghost predicate AllAlike(s: string, t: string) {
    |s| == |t| && forall i :: 0 <= i < |s| ==> Alike(s[i], t[i])
  }

  lemma LowerAlike(x: char, y: char)
    ensures Lower(x) == Lower(y) <==> Alike(x, y)
  {
    var lx, ly := Lower(x) as int, Lower(y) as int;
    assert Lower(x) == Lower(y) <==> lx == ly;
  }

  lemma AllLower(s: string, t: string)
    ensures LowerAll(s) == LowerAll(t) <==> AllAlike(s, t)
  {
    hide Lower, Alike;
    if AllAlike(s, t) {
      forall i | 0 <= i < |s|
        ensures LowerAll(s)[i] == LowerAll(t)[i]
      {
        LowerAlike(s[i], t[i]);
      }
    }
    if LowerAll(s) == LowerAll(t) {
      forall i | 0 <= i < |s|
        ensures Alike(s[i], t[i])
      {
        assert LowerAll(s)[i] == LowerAll(t)[i];
        LowerAlike(s[i], t[i]);
      }
    }
  }

  /** Maps take keys for the same exactly if they differ only by blanks around them and by case. */
  lemma NormSame(k: string, l: string)
    ensures Norm(k) == Norm(l) <==> SameKey(k, l)
  {
    hide Trim, Spaced, LowerAll, AllAlike;
    AllLower(Trim(k), Trim(l));
    TrimSpaced(k, Trim(k));
    TrimSpaced(l, Trim(l));
    if SameKey(k, l) {
      var s, t :| Spaced(k, s) && Spaced(l, t) && AllAlike(s, t);
      TrimSpaced(k, s);
      TrimSpaced(l, t);
    }
  }

  /** A key as it is stored: no blanks around it and no upper-case ASCII letters in it. */
  ghost predicate Stored(k: string) {
    Core(k) && forall i :: 0 <= i < |k| ==> !(65 <= k[i] as int <= 90)
  }

  lemma NormStored(key: string)
    ensures Stored(Norm(key)) && SameKey(Norm(key), key)
  {
    hide Trim, SameKey, Blanks;
    var t := Trim(key);
    TrimIsTrimmed(key);
    assert |Norm(key)| == |t| && forall i :: 0 <= i < |t| ==> Norm(key)[i] == Lower(t[i]);
    CoreTrimmed(Norm(key));
    StoredSame(Norm(key), key);
  }

  /** A stored key is the same as another key exactly if that is how it is stored. */
  lemma StoredSame(n: string, key: string)
    requires Stored(n)
    ensures SameKey(n, key) <==> Norm(key) == n
  {
    hide SameKey, Blanks;
    StoredNormal(n);
    NormSame(n, key);
  }

  lemma StoredNormal(n: string)
    requires Stored(n)
    ensures Norm(n) == n
  {
    hide Lower, Trimmed, Blanks, Core;
    CoreTrimmed(n);
    TrimTrimmed(n);
    forall i | 0 <= i < |n|
      ensures LowerAll(n)[i] == n[i]
    {
      LowerSame(n[i]);
    }
  }

  lemma LowerSame(c: char)
    requires !(65 <= c as int <= 90)
    ensures Lower(c) == c
  {
  }

  // ----- escapes -----

  /** No equals sign of 's' is escaped. */
  ghost predicate NoEscapes(s: string) {
    forall i :: 0 < i < |s| ==> !(s[i - 1] == '\\' && s[i] == '=')
  }

  /** Every equals sign of 's' is escaped. */
  ghost predicate AllEscaped(s: string) {
    forall i :: 0 <= i < |s| && s[i] == '=' ==> i > 0 && s[i - 1] == '\\'
  }

  /** Escaping puts a backslash in front of each equals sign. */
  lemma {:induction false} EscapeMeans(a: string, b: string)
    requires '=' !in a
    ensures Escape(a) == a && Escape(a + "=" + b) == a + "\\=" + Escape(b)
  {
    if a == "" {
      assert ("=" + b)[1..] == b;
      assert a + "=" + b == "=" + b;
    } else {
      EscapeMeans(a[1..], b);
      assert (a + "=" + b)[1..] == a[1..] + "=" + b;
      assert a == [a[0]] + a[1..];
      assert [a[0]] + (a[1..] + "\\=" + Escape(b)) == a + "\\=" + Escape(b);
    }
  }

  /** Unescaping takes the backslash away in front of each equals sign. */
  lemma {:induction false} UnescapeMeans(a: string, b: string)
    requires NoEscapes(a)
    ensures Unescape(a) == a && Unescape(a + "\\=" + b) == a + "=" + Unescape(b)
  {
    if a == "" {
      assert a + "\\=" + b == "\\=" + b;
      assert ("\\=" + b)[2..] == b;
    } else {
      var t := a[1..];
      assert forall i :: 0 < i < |t| ==> t[i - 1] == a[i] && t[i] == a[i + 1];
      UnescapeMeans(t, b);
      var s := a + "\\=" + b;
      assert s[1..] == t + "\\=" + b;
      assert a == [a[0]] + t;
      assert s[0] == a[0] && (s[1] == '=' ==> |a| > 1 && a[1] == '=');
      assert |a| > 1 ==> !(a[0] == '\\' && a[1] == '=');
      assert [a[0]] + (t + "=" + Unescape(b)) == a + "=" + Unescape(b);
    }
  }

  /** The first equals sign that is not escaped separates key and value. */
  lemma {:induction false} SeparatorMeans(s: string)
    ensures |Blanked(s)| == |s|
    ensures forall i :: 0 <= i < |s| ==> (Blanked(s)[i] == '=' <==> s[i] == '=' && (i == 0 || s[i - 1] != '\\'))
    decreases |s|
  {
    BlankedLength(s);
    if |s| >= 2 {
      if s[0] == '\\' && s[1] == '=' {
        var t := s[2..];
        SeparatorMeans(t);
        assert Blanked(s) == "  " + Blanked(t);
        forall i | 0 <= i < |s|
          ensures Blanked(s)[i] == '=' <==> s[i] == '=' && (i == 0 || s[i - 1] != '\\')
        {
          if i > 1 {
            assert Blanked(s)[i] == Blanked(t)[i - 2] && s[i] == t[i - 2];
            assert i > 2 ==> s[i - 1] == t[i - 3];
          }
        }
      } else {
        var t := s[1..];
        SeparatorMeans(t);
        assert Blanked(s) == [s[0]] + Blanked(t);
        forall i | 0 <= i < |s|
          ensures Blanked(s)[i] == '=' <==> s[i] == '=' && (i == 0 || s[i - 1] != '\\')
        {
          if i > 0 {
            assert Blanked(s)[i] == Blanked(t)[i - 1] && s[i] == t[i - 1];
            assert i > 1 ==> s[i - 1] == t[i - 2];
          }
        }
      }
    }
  }

  // ----- the kinds of lines -----

  /** Lines of blanks hold nothing, and lines that start with a semicolon are comments. */
  lemma EmptyLine(raw: string, rest: string)
    ensures Spaced(raw, "") ==> ParseLine(raw) == NoData
    ensures Spaced(raw, ";" + rest) ==> ParseLine(raw) == Comment
  {
    hide Spaced;
    TrimSpaced(raw, "");
    TrimSpaced(raw, ";" + rest);
    assert (";" + rest)[0] == ';';
  }

  /** A section has its name in brackets; the last bracket before a semicolon counts. */
  lemma SectionLineMeans(raw: string, name: string, more: string, comment: string, n: string)
    requires Spaced(raw, "[" + name + "]" + more + comment) && Spaced(name, n)
    requires ';' !in name && ']' !in more && ';' !in more && (comment != "" ==> comment[0] == ';')
    ensures ParseLine(raw) == Section(n)
  {
    hide Spaced, Trim;
    var line := "[" + name + "]" + more + comment;
    TrimSpaced(raw, line);
    TrimSpaced(name, n);
    var cut := "[" + name + "]" + more;
    assert line == cut + comment && line[0] == '[';
    CutAt(cut, comment);
    LastAt("[" + name, more);
    assert "[" + name + "]" + more == cut;
    assert LastOf(cut, ']') == |name| + 1;
    assert cut[1..|name| + 1] == name;
    var at := FirstOf(line, ';');
    assert (if at >= 0 then line[..at] else line) == cut;
    assert line[0] != ';';
  }

  lemma CutAt(cut: string, comment: string)
    requires ';' !in cut && (comment != "" ==> comment[0] == ';')
    ensures FirstOf(cut + comment, ';') == if comment == "" then -1 else |cut|
  {
    if comment != "" {
      FirstIs(cut + comment, ';', |cut|);
    } else {
      assert cut + comment == cut;
    }
  }

  lemma {:induction false} FirstIs(s: string, c: char, n: nat)
    requires n < |s| && s[n] == c && forall k :: 0 <= k < n ==> s[k] != c
    ensures FirstOf(s, c) == n
  {
    if n > 0 {
      FirstIs(s[1..], c, n - 1);
    }
  }

  lemma {:induction false} LastAt(a: string, more: string)
    requires ']' !in more
    ensures LastOf(a + "]" + more, ']') == |a|
    decreases |more|
  {
    var s := a + "]" + more;
    if more != "" {
      assert s[..|s| - 1] == a + "]" + more[..|more| - 1];
      assert s[|s| - 1] == more[|more| - 1];
      LastAt(a, more[..|more| - 1]);
    }
  }

  /** A line that is neither comment nor section: one with a bracket in front has no closing
      bracket before a semicolon, and is cut there. */
  ghost predicate Plain(line: string, comment: string) {
    && line != "" && line[0] != ';' && (comment != "" ==> comment[0] == ';' && line[0] == '[')
    && (line[0] == '[' ==> ';' !in line && ']' !in line)
  }

  lemma PlainPair(raw: string, line: string, comment: string)
    requires Spaced(raw, line + comment) && Plain(line, comment)
    ensures ParseLine(raw) == ParsePair(line)
  {
    hide Spaced, Trim, ParsePair;
    TrimSpaced(raw, line + comment);
    if line[0] == '[' {
      CutAt(line, comment);
      assert (line + comment)[..|line|] == line && (line + comment)[0] == '[';
      assert comment == "" ==> line + comment == line;
    } else {
      assert line + comment == line;
    }
  }

  /** Any other line is a key and a value, parted by the first equals sign that is not escaped. */
  lemma PairLineMeans(raw: string, comment: string, key: string, value: string, k: string, v: string)
    requires Spaced(raw, key + "=" + value + comment) && Spaced(key, k) && Spaced(value, v)
    requires AllEscaped(key) && !EndsInBackslash(key) && Plain(key + "=" + value, comment)
    ensures ParseLine(raw) == KeyValue(Unescape(k), v)
  {
    hide Spaced, Unescape, Trim, ParseLine, Plain;
    var line := key + "=" + value;
    PlainPair(raw, line, comment);
    TrimSpaced(key, k);
    TrimSpaced(value, v);
    SeparatorMeans(line);
    assert line[|key|] == '=' && (key != "" ==> line[|key| - 1] == key[|key| - 1]);
    forall i | 0 <= i < |key|
      ensures Blanked(line)[i] != '='
    {
      assert line[i] == key[i] && (i > 0 ==> line[i - 1] == key[i - 1]);
    }
    FirstIs(Blanked(line), '=', |key|);
    assert line[..|key|] == key && line[|key| + 1..] == value;
  }

  /** A line without a separator is ignored. */
  lemma NoPairMeans(raw: string, line: string, comment: string)
    requires Spaced(raw, line + comment) && Plain(line, comment) && AllEscaped(line)
    ensures ParseLine(raw) == Unrecognized
  {
    hide Spaced, Plain, ParseLine;
    PlainPair(raw, line, comment);
    SeparatorMeans(line);
    forall i | 0 <= i < |line|
      ensures Blanked(line)[i] != '='
    {
      assert line[i] == '=' ==> line[i - 1] == '\\';
    }
  }

  // ----- what a file means -----

  /** Line i stands in section 's'. */
  ghost predicate InSection(lines: seq<string>, i: nat, s: string) {
    exists j: nat :: j < i <= |lines| && ParseLine(lines[j]).Section? && Norm(ParseLine(lines[j]).name) == s
      && forall k :: j < k < i ==> !ParseLine(lines[k]).Section?
  }

  /** Line i gives key 'k' of section 's' the value 'v'. */
  ghost predicate Assigns(lines: seq<string>, i: nat, s: string, k: string, v: string) {
    && i < |lines| && InSection(lines, i, s)
    && ParseLine(lines[i]).KeyValue? && Norm(ParseLine(lines[i]).key) == k && ParseLine(lines[i]).value == v
  }

  /** The last line that gives the key a value gives it 'v'. */
  ghost predicate LastAssigns(lines: seq<string>, s: string, k: string, v: string) {
    exists i: nat :: Assigns(lines, i, s, k, v) && forall j: nat, w :: i < j < |lines| ==> !Assigns(lines, j, s, k, w)
  }

  /** The value of key 'k' in section 's'. */
  ghost predicate Bound(data: Structure, s: string, k: string, v: string) {
    exists pairs :: At(data, s, pairs) && At(pairs, k, v)
  }

  ghost predicate At<T>(es: Entries<T>, key: string, v: T) {
    exists i :: 0 <= i < |es| && es[i] == (key, v)
  }

  lemma SetAt<T>(es: Entries<T>, key: string, v: T)
    requires DistinctKeys(es)
    ensures DistinctKeys(SetEntry(es, key, v))
    ensures forall k, w :: At(SetEntry(es, key, v), k, w) <==> if k == key then w == v else At(es, k, w)
  {
    var r := SetEntry(es, key, v);
    if HasKey(es, key) {
      var n :| 0 <= n < |es| && es[n].0 == key;
      assert r == es[n := (key, v)];
      forall k, w
        ensures At(r, k, w) <==> if k == key then w == v else At(es, k, w)
      {
        assert r[n] == (key, v);
        if At(es, k, w) && k != key {
          var i :| 0 <= i < |es| && es[i] == (k, w);
          assert r[i] == (k, w);
        }
      }
    } else {
      forall k, w
        ensures At(r, k, w) <==> if k == key then w == v else At(es, k, w)
      {
        assert r[|es|] == (key, v);
        if At(es, k, w) && k != key {
          var i :| 0 <= i < |es| && es[i] == (k, w);
          assert r[i] == (k, w);
        }
        if At(r, k, w) {
          var i :| 0 <= i < |r| && r[i] == (k, w);
          assert i < |es| ==> es[i] == (k, w);
        }
      }
    }
  }

  lemma TouchAt<T>(es: Entries<T>, key: string, empty: T)
    requires DistinctKeys(es)
    ensures DistinctKeys(Touch(es, key, empty)) && HasKey(Touch(es, key, empty), key)
    ensures forall k, w :: At(Touch(es, key, empty), k, w) <==> At(es, k, w) || (k == key && w == empty && !HasKey(es, key))
  {
    TouchHas(es, key, empty);
    if !HasKey(es, key) {
      TouchNew(es, key, empty);
      var r := es + [(key, empty)];
      forall k, w
        ensures At(r, k, w) <==> At(es, k, w) || (k == key && w == empty)
      {
        assert r[|es|] == (key, empty);
        if At(es, k, w) {
          var i :| 0 <= i < |es| && es[i] == (k, w);
          assert r[i] == (k, w);
        }
        if At(r, k, w) {
          var i :| 0 <= i < |r| && r[i] == (k, w);
          assert i < |es| ==> es[i] == (k, w);
        }
      }
    }
  }

  lemma {:induction false} FindsAt<T>(es: Entries<T>, key: string, empty: T)
    requires DistinctKeys(es)
    ensures if HasKey(es, key) then At(es, key, Find(es, key, empty)) else Find(es, key, empty) == empty
  {
    if es != [] {
      assert forall i :: 0 <= i < |es| - 1 ==> es[1..][i] == es[i + 1];
      if es[0].0 == key {
        assert es[0] == (key, Find(es, key, empty));
      } else {
        HasTail(es, key);
        FindsAt(es[1..], key, empty);
        if HasKey(es, key) {
          var i :| 0 <= i < |es[1..]| && es[1..][i] == (key, Find(es, key, empty));
          assert es[i + 1] == (key, Find(es, key, empty));
        }
      }
    }
  }

  ghost predicate DistinctAll(data: Structure) {
    DistinctKeys(data) && forall i :: 0 <= i < |data| ==> DistinctKeys(data[i].1)
  }

  /** What setting one value does to the bindings. */
  lemma SetBinds(data: Structure, s: string, k: string, v: string)
    requires DistinctAll(data) && HasKey(data, s)
    ensures var data2 := SetEntry(data, s, SetEntry(Find(data, s, []), k, v));
      && DistinctAll(data2) && (forall x :: HasKey(data2, x) <==> HasKey(data, x))
      && forall s2, k2, v2 :: Bound(data2, s2, k2, v2) <==> if (s2, k2) == (s, k) then v2 == v else Bound(data, s2, k2, v2)
  {
    var pairs := Find(data, s, []);
    var pairs2 := SetEntry(pairs, k, v);
    var data2 := SetEntry(data, s, pairs2);
    FindsAt(data, s, []);
    SetAt(pairs, k, v);
    SetAt(data, s, pairs2);
    HasIsAt(data);
    HasIsAt(data2);
    forall i | 0 <= i < |data2|
      ensures DistinctKeys(data2[i].1)
    {
      assert At(data2, data2[i].0, data2[i].1);
    }
    OnlyAt(data);
    hide DistinctKeys, HasKey, SetEntry, Find;
    forall s2, k2, v2
      ensures Bound(data2, s2, k2, v2) <==> if (s2, k2) == (s, k) then v2 == v else Bound(data, s2, k2, v2)
    {
      if s2 == s {
        assert At(data2, s, pairs2);
        assert Bound(data2, s, k2, v2) <==> At(pairs2, k2, v2);
        assert Bound(data, s, k2, v2) <==> At(pairs, k2, v2);
      } else {
        assert forall x :: At(data2, s2, x) <==> At(data, s2, x);
      }
    }
  }

  lemma HasIsAt<T>(es: Entries<T>)
    ensures forall k :: HasKey(es, k) <==> exists v :: At(es, k, v)
  {
    forall k
      ensures HasKey(es, k) <==> exists v :: At(es, k, v)
    {
      if HasKey(es, k) {
        var i :| 0 <= i < |es| && es[i].0 == k;
        assert es[i] == (k, es[i].1);
        assert At(es, k, es[i].1);
      }
    }
  }

  lemma OnlyAt<T>(es: Entries<T>)
    requires DistinctKeys(es)
    ensures forall k, v, w :: At(es, k, v) && At(es, k, w) ==> v == w
  {
    forall k, v, w | At(es, k, v) && At(es, k, w)
      ensures v == w
    {
      var i :| 0 <= i < |es| && es[i] == (k, v);
      var j :| 0 <= j < |es| && es[j] == (k, w);
      OneKey(es, i, j);
    }
  }

  lemma OneKey<T>(es: Entries<T>, i: nat, j: nat)
    requires DistinctKeys(es) && i < |es| && j < |es| && es[i].0 == es[j].0
    ensures i == j
  {
  }

  /** A new section binds nothing. */
  lemma TouchBinds(data: Structure, s: string)
    requires DistinctAll(data)
    ensures var data2 := Touch(data, s, []);
      && DistinctAll(data2) && (forall x :: HasKey(data2, x) <==> HasKey(data, x) || x == s)
      && forall s2, k2, v2 :: Bound(data2, s2, k2, v2) <==> Bound(data, s2, k2, v2)
  {
    var data2 := Touch(data, s, []);
    TouchAt(data, s, []);
    HasIsAt(data);
    HasIsAt(data2);
    forall i | 0 <= i < |data2|
      ensures DistinctKeys(data2[i].1)
    {
      assert At(data2, data2[i].0, data2[i].1);
    }
    hide DistinctKeys, HasKey, Touch;
    forall s2, k2, v2
      ensures Bound(data2, s2, k2, v2) <==> Bound(data, s2, k2, v2)
    {
      if Bound(data2, s2, k2, v2) {
        var pairs :| At(data2, s2, pairs) && At(pairs, k2, v2);
        assert pairs != [];
        assert At(data, s2, pairs);
      }
      if Bound(data, s2, k2, v2) {
        var pairs :| At(data, s2, pairs) && At(pairs, k2, v2);
        assert At(data2, s2, pairs);
      }
    }
  }

  ghost predicate SectionIn(lines: seq<string>, s: string) {
    exists j :: 0 <= j < |lines| && ParseLine(lines[j]).Section? && Norm(ParseLine(lines[j]).name) == s
  }

  /** The structure holds the sections of the lines, and for each key its last value. */
  ghost predicate Means(lines: seq<string>, data: Structure) {
    && DistinctAll(data)
    && (forall s :: HasKey(data, s) <==> SectionIn(lines, s))
    && (forall s, k, v :: Bound(data, s, k, v) <==> LastAssigns(lines, s, k, v))
  }

  /** The section that the reader is in. */
  ghost predicate Stands(lines: seq<string>, r: Reader) {
    && (r.inSection ==> HasKey(r.data, Norm(r.section)))
    && forall s :: InSection(lines, |lines|, s) <==> r.inSection && s == Norm(r.section)
  }

  lemma SectionSnoc(lines: seq<string>, line: string, i: nat, s: string)
    requires i <= |lines|
    ensures InSection(lines + [line], i, s) <==> InSection(lines, i, s)
  {
    hide ParseLine, Norm;
    var all := lines + [line];
    assert forall j :: 0 <= j < |lines| ==> all[j] == lines[j];
    if InSection(lines, i, s) {
      var j: nat :| j < i <= |lines| && ParseLine(lines[j]).Section? && Norm(ParseLine(lines[j]).name) == s
        && forall k :: j < k < i ==> !ParseLine(lines[k]).Section?;
      assert ParseLine(all[j]).Section? && forall k :: j < k < i ==> !ParseLine(all[k]).Section?;
    }
  }

  lemma SectionAfter(lines: seq<string>, line: string, s: string)
    ensures InSection(lines + [line], |lines| + 1, s) <==>
      if ParseLine(line).Section? then s == Norm(ParseLine(line).name) else InSection(lines, |lines|, s)
  {
    hide ParseLine, Norm;
    var all, n := lines + [line], |lines|;
    assert all[n] == line && forall j :: 0 <= j < n ==> all[j] == lines[j];
    if ParseLine(line).Section? {
      assert s == Norm(ParseLine(line).name) ==> InSection(all, n + 1, s);
    } else {
      if InSection(lines, n, s) {
        var j: nat :| j < n && ParseLine(lines[j]).Section? && Norm(ParseLine(lines[j]).name) == s
          && forall k :: j < k < n ==> !ParseLine(lines[k]).Section?;
        assert ParseLine(all[j]).Section? && forall k :: j < k < n + 1 ==> !ParseLine(all[k]).Section?;
      }
      if InSection(all, n + 1, s) {
        var j: nat :| j < n + 1 && ParseLine(all[j]).Section? && Norm(ParseLine(all[j]).name) == s
          && forall k :: j < k < n + 1 ==> !ParseLine(all[k]).Section?;
        assert ParseLine(lines[j]).Section? && forall k :: j < k < n ==> !ParseLine(all[k]).Section?;
      }
    }
  }

  /** 'line' gives key 'k' of section 's' a value. */
  ghost predicate Gives(lines: seq<string>, line: string, s: string, k: string) {
    InSection(lines, |lines|, s) && ParseLine(line).KeyValue? && Norm(ParseLine(line).key) == k
  }

  lemma AssignsSnoc(lines: seq<string>, line: string, i: nat, s: string, k: string, w: string)
    ensures Assigns(lines + [line], i, s, k, w) <==>
      if i == |lines| then Gives(lines, line, s, k) && w == ParseLine(line).value else Assigns(lines, i, s, k, w)
  {
    hide ParseLine, Norm, InSection;
    if i <= |lines| {
      SectionSnoc(lines, line, i, s);
      assert (lines + [line])[i] == if i < |lines| then lines[i] else line;
    }
  }

  lemma AssignsAfter(lines: seq<string>, line: string, s: string, k: string, v: string)
    ensures LastAssigns(lines + [line], s, k, v) <==>
      if Gives(lines, line, s, k) then v == ParseLine(line).value else LastAssigns(lines, s, k, v)
  {
    var all, n := lines + [line], |lines|;
    hide Assigns, InSection, ParseLine, Norm;
    forall i: nat, w
      ensures Assigns(all, i, s, k, w) <==> if i == n then Gives(lines, line, s, k) && w == ParseLine(line).value else Assigns(lines, i, s, k, w)
      ensures Assigns(all, i, s, k, w) ==> i <= n
      ensures Assigns(lines, i, s, k, w) ==> i < n
    {
      AssignsSnoc(lines, line, i, s, k, w);
      AssignsBound(lines, i, s, k, w);
    }
    if LastAssigns(lines, s, k, v) && !Gives(lines, line, s, k) {
      var i: nat :| Assigns(lines, i, s, k, v) && forall j: nat, w :: i < j < |lines| ==> !Assigns(lines, j, s, k, w);
      assert Assigns(all, i, s, k, v);
    }
    if LastAssigns(all, s, k, v) {
      var i: nat :| Assigns(all, i, s, k, v) && forall j: nat, w :: i < j < |all| ==> !Assigns(all, j, s, k, w);
      if Gives(lines, line, s, k) {
        assert Assigns(all, n, s, k, ParseLine(line).value);
      } else {
        assert Assigns(lines, i, s, k, v);
      }
    }
    if Gives(lines, line, s, k) && v == ParseLine(line).value {
      assert Assigns(all, n, s, k, v);
    }
  }

  lemma AssignsBound(lines: seq<string>, i: nat, s: string, k: string, v: string)
    ensures Assigns(lines, i, s, k, v) ==> i < |lines|
  {
  }

  lemma AbsorbMeans(lines: seq<string>, line: string, r: Reader)
    requires Means(lines, r.data) && Stands(lines, r)
    ensures Means(lines + [line], Absorb(r, line).data)
  {
    var all, r2 := lines + [line], Absorb(r, line);
    forall s
      ensures SectionIn(all, s) <==> SectionIn(lines, s) || (ParseLine(line).Section? && Norm(ParseLine(line).name) == s)
    {
      SectionsAfter(lines, line, s);
    }
    forall s, k, v
      ensures LastAssigns(all, s, k, v) <==> if Gives(lines, line, s, k) then v == ParseLine(line).value else LastAssigns(lines, s, k, v)
    {
      AssignsAfter(lines, line, s, k, v);
    }
    hide ParseLine, Norm, LastAssigns, SectionIn, InSection, HasKey, DistinctAll, Bound;
    match ParseLine(line)
    case Section(name) => TouchBinds(r.data, Norm(name));
    case KeyValue(key, value) =>
      if r.inSection {
        TouchBinds(r.data, Norm(r.section));
        SetBinds(Touch(r.data, Norm(r.section), []), Norm(r.section), Norm(key), value);
      }
    case _ =>
  }

  lemma AbsorbStands(lines: seq<string>, line: string, r: Reader)
    requires DistinctAll(r.data) && Stands(lines, r)
    ensures Stands(lines + [line], Absorb(r, line))
  {
    var all, r2 := lines + [line], Absorb(r, line);
    forall s
      ensures InSection(all, |all|, s) <==> r2.inSection && s == Norm(r2.section)
    {
      SectionAfter(lines, line, s);
    }
    hide ParseLine, Norm, InSection, HasKey, DistinctAll, Bound;
    match ParseLine(line)
    case Section(name) => TouchBinds(r.data, Norm(name));
    case KeyValue(key, value) =>
      if r.inSection {
        TouchBinds(r.data, Norm(r.section));
        SetBinds(Touch(r.data, Norm(r.section), []), Norm(r.section), Norm(key), value);
      }
    case _ =>
  }

  lemma SectionsAfter(lines: seq<string>, line: string, s: string)
    ensures SectionIn(lines + [line], s) <==> SectionIn(lines, s) || (ParseLine(line).Section? && Norm(ParseLine(line).name) == s)
  {
    hide ParseLine, Norm;
    var all := lines + [line];
    assert all[|lines|] == line && forall j :: 0 <= j < |lines| ==> all[j] == lines[j];
  }

  /** What is read from a file: its sections, and for each key of a section the last value that a
      line of that section gives it. */
  lemma {:induction false} FileMeans(lines: seq<string>)
    ensures Means(lines, AbsorbAll(Reader([], "", false), lines).data)
    ensures Stands(lines, AbsorbAll(Reader([], "", false), lines))
  {
    var start := Reader([], "", false);
    if lines != [] {
      var n := |lines| - 1;
      FileMeans(lines[..n]);
      AbsorbTwo(start, lines[..n], [lines[n]]);
      assert lines == lines[..n] + [lines[n]];
      var r := AbsorbAll(start, lines[..n]);
      assert AbsorbAll(r, [lines[n]]) == Absorb(r, lines[n]);
      AbsorbMeans(lines[..n], lines[n], r);
      AbsorbStands(lines[..n], lines[n], r);
    }
  }

  // ----- lines of a file -----

  /** Text without carriage returns and zeros. */
  ghost function Kept(text: string): string {
    if text == "" then "" else (if text[0] as int == 13 || text[0] as int == 0 then "" else [text[0]]) + Kept(text[1..])
  }

  lemma {:induction false} SplitMeans(buffer: string, text: string)
    ensures SplitFrom(buffer, text) != [] && Join(SplitFrom(buffer, text), "\n") == buffer + Kept(text)
    decreases |text|
  {
    if text == "" {
      assert buffer + "" == buffer;
    } else if text[0] == '\n' {
      SplitMeans("", text[1..]);
      JoinTwo([buffer], SplitFrom("", text[1..]), "\n");
      assert buffer + "\n" + ("" + Kept(text[1..])) == buffer + ("\n" + Kept(text[1..]));
    } else if text[0] == '\0' || text[0] == '\r' {
      SplitMeans(buffer, text[1..]);
      assert Kept(text) == Kept(text[1..]);
    } else {
      SplitMeans(buffer + [text[0]], text[1..]);
      assert buffer + [text[0]] + Kept(text[1..]) == buffer + ([text[0]] + Kept(text[1..]));
    }
  }

  lemma {:induction false} KeptZeros(text: string)
    ensures Kept(text + "\0\0\0") == Kept(text)
  {
    if text == "" {
      var z := "\0\0\0";
      assert text + z == z && z[1..] == "\0\0" && z[1..][1..] == "\0" && z[1..][1..][1..] == "";
    } else {
      KeptZeros(text[1..]);
      assert (text + "\0\0\0")[1..] == text[1..] + "\0\0\0";
    }
  }

  /** The lines of a file: its text without a byte order mark, carriage returns and zeros, cut at
      every line feed. */
  lemma FileLinesMean(file: string)
    ensures FileLines(file) == [] <==> file == ""
    ensures AllOneLine(FileLines(file))
    ensures var marked := |file| >= 3 && file[0] as int == 0xEF && file[1] as int == 0xBB && file[2] as int == 0xBF;
      file != "" ==> Join(FileLines(file), "\n") == Kept(if marked then file[3..] else file)
  {
    if file != "" {
      var text := if HasBOM(file) then file[3..] + "\0\0\0" else file;
      SplitMeans("", text);
      SplitOneLine("", text);
      assert "" + Kept(text) == Kept(text);
      KeptZeros(if HasBOM(file) then file[3..] else "");
    }
  }

  // ----- the generated text -----

  /** The text of a structure. */
  ghost function Text(es: Structure, pretty: bool, endl: string): string {
    Join(LinesOf(es, pretty), endl)
  }

  /** Each section is its name in brackets and its pairs, each on a line of its own, its value
      without the blanks around it. */
  lemma SectionText(name: string, pairs: Pairs, key: string, value: string, v: string, pretty: bool, endl: string)
    requires '=' !in key && Spaced(value, v)
    ensures Text([], pretty, endl) == "" && Text([(name, [])], pretty, endl) == "[" + name + "]"
    ensures Text([(name, pairs + [(key, value)])], pretty, endl) ==
              Text([(name, pairs)], pretty, endl) + endl + (key + (if pretty then " = " else "=") + v)
  {
    hide Spaced;
    TrimSpaced(value, v);
    var all := pairs + [(key, value)];
    EscapeMeans(key, "");
    assert all[..|pairs| + 1] == all && all[..|pairs|] == pairs;
    OneMoreLine([SectionLine(name)], all, pretty, |pairs|, endl);
  }

  /** Sections follow each other, in pretty mode with an empty line between them. */
  lemma {:induction false} SectionsText(es: Structure, more: Structure, pretty: bool, endl: string)
    requires es != [] && more != []
    ensures Text(es + more, pretty, endl) == Text(es, pretty, endl) + endl + (if pretty then endl else "") + Text(more, pretty, endl)
    decreases |es|
  {
    hide KeyLines, SectionLine, SectionLines, Join, LinesOf;
    LinesStart(es, pretty);
    LinesStart(es + more, pretty);
    var first, gap := SectionLines(es[0].0, es[0].1, pretty), if pretty then [""] else [];
    var rest := if |es| == 1 then more else es[1..] + more;
    assert (es + more)[0] == es[0] && (es + more)[1..] == rest && first + [] == first;
    assert first + (gap + LinesOf(rest, pretty)) == first + gap + LinesOf(rest, pretty);
    assert first + (gap + LinesOf(es[1..], pretty)) == first + gap + LinesOf(es[1..], pretty);
    assert first != [] by { FirstLine(es[0].0, es[0].1, pretty); }
    LinesExist(rest, pretty);
    Gapped(first, gap, LinesOf(rest, pretty), endl);
    if |es| > 1 {
      SectionsText(es[1..], more, pretty, endl);
      LinesExist(es[1..], pretty);
      Gapped(first, gap, LinesOf(es[1..], pretty), endl);
      Regrouped(Join(first, endl) + endl + (if pretty then endl else ""), Text(es[1..], pretty, endl), endl,
                if pretty then endl else "", Text(more, pretty, endl));
    }
  }

  lemma Regrouped(a: string, b: string, c: string, d: string, e: string)
    ensures a + (b + c + d + e) == a + b + c + d + e
  {
  }

  lemma LinesStart(es: Structure, pretty: bool)
    requires es != []
    ensures LinesOf(es, pretty) ==
      SectionLines(es[0].0, es[0].1, pretty) + if |es| == 1 then [] else (if pretty then [""] else []) + LinesOf(es[1..], pretty)
  {
    hide SectionLines;
    LinesStep(es, pretty);
    Appended(SectionLines(es[0].0, es[0].1, pretty), if pretty then [""] else [], LinesOf(es[1..], pretty));
  }

  lemma Appended<T>(a: seq<T>, b: seq<T>, c: seq<T>)
    ensures a + (b + c) == a + b + c && a + [] == a
  {
  }

  lemma LinesStep(es: Structure, pretty: bool)
    requires es != []
    ensures LinesOf(es, pretty) ==
      if |es| == 1 then SectionLines(es[0].0, es[0].1, pretty)
      else SectionLines(es[0].0, es[0].1, pretty) + (if pretty then [""] else []) + LinesOf(es[1..], pretty)
  {
  }

  lemma FirstLine(name: string, pairs: Pairs, pretty: bool)
    ensures SectionLines(name, pairs, pretty) != []
  {
  }

  lemma LinesExist(es: Structure, pretty: bool)
    requires es != []
    ensures LinesOf(es, pretty) != []
  {
  }

  lemma Gapped(a: seq<string>, gap: seq<string>, b: seq<string>, endl: string)
    requires a != [] && b != [] && (gap == [] || gap == [""])
    ensures Join(a + gap + b, endl) == Join(a, endl) + endl + (if gap == [] then "" else endl) + Join(b, endl)
  {
    JoinTwo(a + gap, b, endl);
    if gap == [""] {
      JoinTwo(a, gap, endl);
    } else {
      assert a + gap == a;
    }
  }
}
