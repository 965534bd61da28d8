/** Text operations of the INI reader and writer: trimming, replacing, splitting into lines. */
module IniText {
  predicate IsSpace(c: char) {
    c == ' ' || c == '\t' || c == '\n' || c == '\r' || c == '\U{00000C}' || c == '\U{00000B}'
  }

  // ----- trim -----

  function DropLead(s: string): string {
    if s != "" && IsSpace(s[0]) then DropLead(s[1..]) else s
  }

  function DropTrail(s: string): string {
    if s != "" && IsSpace(s[|s| - 1]) then DropTrail(s[..|s| - 1]) else s
  }

  /** 'trim': trailing blanks first, then leading ones. */
  function Trim(s: string): string {
    DropLead(DropTrail(s))
  }

  predicate Trimmed(s: string) {
    s == "" || (!IsSpace(s[0]) && !IsSpace(s[|s| - 1]))
  }

  lemma TrimTrimmed(s: string)
    requires Trimmed(s)
    ensures Trim(s) == s
  {
  }

  lemma {:induction false} DropLeadMid(k: string, c: char, v: string)
    requires !IsSpace(c)
    ensures DropLead(k + [c] + v) == DropLead(k) + [c] + v
  {
    if k != "" && IsSpace(k[0]) {
      DropLeadMid(k[1..], c, v);
      assert (k + [c] + v)[1..] == k[1..] + [c] + v;
    } else if k == "" {
      assert k + [c] + v == [c] + v;
    }
  }

  lemma {:induction false} DropTrailMid(k: string, c: char, v: string)
    requires !IsSpace(c)
    ensures DropTrail(k + [c] + v) == k + [c] + DropTrail(v)
  {
    var s := k + [c] + v;
    if v != "" && IsSpace(v[|v| - 1]) {
      DropTrailMid(k, c, v[..|v| - 1]);
      assert s[..|s| - 1] == k + [c] + v[..|v| - 1];
    } else if v == "" {
      assert s == k + [c];
    }
  }

  /** A line is trimmed on both sides of any character that is no blank. */
  lemma TrimMid(k: string, c: char, v: string)
    requires !IsSpace(c)
    ensures Trim(k + [c] + v) == DropLead(k) + [c] + DropTrail(v)
  {
    DropTrailMid(k, c, v);
    DropLeadMid(k, c, DropTrail(v));
  }

  lemma {:induction false} TrailOfLead(s: string)
    ensures DropTrail(DropLead(s)) == DropLead(DropTrail(s))
  {
    if s != "" && IsSpace(s[0]) {
      TrailOfLead(s[1..]);
      LeadStep(s);
    } else if s != "" {
      assert s == "" + [s[0]] + s[1..];
      DropTrailMid("", s[0], s[1..]);
    }
  }

  lemma {:induction false} LeadStep(s: string)
    requires s != "" && IsSpace(s[0])
    ensures DropLead(DropTrail(s)) == DropLead(DropTrail(s[1..]))
    decreases |s|
  {
    if IsSpace(s[|s| - 1]) {
      if |s| > 1 {
        LeadStep(s[..|s| - 1]);
        assert s[..|s| - 1][1..] == s[1..][..|s| - 2];
      }
    }
  }

  lemma {:induction false} LeadTwice(s: string)
    ensures DropLead(DropLead(s)) == DropLead(s)
  {
    if s != "" && IsSpace(s[0]) {
      LeadTwice(s[1..]);
    }
  }

  lemma {:induction false} TrailTwice(s: string)
    ensures DropTrail(DropTrail(s)) == DropTrail(s)
  {
    if s != "" && IsSpace(s[|s| - 1]) {
      TrailTwice(s[..|s| - 1]);
    }
  }

  lemma TrimOfParts(s: string)
    ensures Trim(DropLead(s)) == Trim(s) && Trim(DropTrail(s)) == Trim(s)
  {
    TrailOfLead(s);
    LeadTwice(DropTrail(s));
    TrailTwice(s);
  }

  lemma TrimBlank(s: string)
    requires Trimmed(s)
    ensures Trim(s + " ") == s && Trim(" " + s) == s
  {
    assert (s + " ")[..|s|] == s;
    TrimTrimmed(s);
    TrailOfLead(" " + s);
    assert (" " + s)[1..] == s;
    TrailOfLead(s);
  }

  // ----- replace -----

  /** 'replace' of a pair of characters, from the left and without overlap. */
  function ReplacePair(s: string, a: char, b: char, put: string): string {
    if |s| < 2 then s
    else if s[0] == a && s[1] == b then put + ReplacePair(s[2..], a, b, put)
    else [s[0]] + ReplacePair(s[1..], a, b, put)
  }

  /** 'replace' of one character. */
  function ReplaceChar(s: string, a: char, put: string): string {
    if s == "" then "" else (if s[0] == a then put else [s[0]]) + ReplaceChar(s[1..], a, put)
  }

  function Escape(key: string): string {
    ReplaceChar(key, '=', "\\=")
  }

  function Unescape(key: string): string {
    ReplacePair(key, '\\', '=', "=")
  }

  /** Escaped equals signs blanked out, to look for the first one that is not. */
  function Blanked(line: string): string {
    ReplacePair(line, '\\', '=', "  ")
  }

  /** Escaping is undone for every key. */
  lemma {:induction false} EscapeBack(key: string)
    ensures Unescape(Escape(key)) == key
  {
    if key != "" {
      EscapeBack(key[1..]);
      var e := Escape(key[1..]);
      if key[0] == '=' {
        assert Escape(key) == "\\=" + e;
        assert Escape(key)[2..] == e;
      } else {
        assert Escape(key) == [key[0]] + e;
        assert Escape(key)[1..] == e;
        EscapeStart(key[1..]);
        if e == "" {
          assert key[1..] == "";
        }
      }
    }
  }

  /** An escaped key never starts with an equals sign. */
  lemma EscapeStart(key: string)
    ensures (Escape(key) == "" <==> key == "") && (key != "" ==> Escape(key)[0] != '=')
    ensures key != "" ==> Escape(key)[0] == if key[0] == '=' then '\\' else key[0]
  {
  }

  lemma {:induction false} EscapeEnd(key: string)
    requires key != ""
    ensures Escape(key) != "" && Escape(key)[|Escape(key)| - 1] == key[|key| - 1]
  {
    var e := Escape(key[1..]);
    assert Escape(key) == (if key[0] == '=' then "\\=" else [key[0]]) + e;
    if |key| > 1 {
      EscapeEnd(key[1..]);
    } else {
      assert e == "";
    }
  }

  lemma EscapeTrimmed(key: string)
    requires Trimmed(key)
    ensures Trimmed(Escape(key))
  {
    EscapeStart(key);
    if key != "" {
      EscapeEnd(key);
    }
  }

  /** An escaped key with its equals signs blanked out. */
  function BlankOf(key: string): (b: string)
    ensures '=' !in b && |b| == |Escape(key)|
  {
    if key == "" then "" else (if key[0] == '=' then "  " else [key[0]]) + BlankOf(key[1..])
  }

  /** Every equals sign of an escaped key is blanked out, and one that follows it is not,
      unless the key ends in a backslash. */
  lemma {:induction false} BlankedKey(key: string, rest: string)
    requires key != "" ==> key[|key| - 1] != '\\'
    ensures Blanked(Escape(key) + "=" + rest) == BlankOf(key) + "=" + Blanked(rest)
    decreases |key|
  {
    if key == "" {
      assert Escape(key) + "=" + rest == "=" + rest;
      BlankedEquals(rest);
      assert BlankOf(key) + "=" + Blanked(rest) == "=" + Blanked(rest);
    } else {
      BlankedKey(key[1..], rest);
      EscapeStart(key[1..]);
      var first, blank := if key[0] == '=' then "\\=" else [key[0]], if key[0] == '=' then "  " else [key[0]];
      var e, b := Escape(key[1..]), BlankOf(key[1..]);
      assert Escape(key) == first + e && BlankOf(key) == blank + b;
      hide Blanked, Escape, BlankOf;
      BlankedStep(key, e + "=" + rest);
      Regroup(first, e, rest);
      Regroup(blank, b, Blanked(rest));
    }
  }

  lemma Regroup(a: string, b: string, c: string)
    ensures a + b + "=" + c == a + (b + "=" + c)
  {
  }

  lemma BlankedStep(key: string, tail: string)
    requires key != "" && tail != "" && !(key[0] == '\\' && tail[0] == '=')
    ensures Blanked((if key[0] == '=' then "\\=" else [key[0]]) + tail) == (if key[0] == '=' then "  " else [key[0]]) + Blanked(tail)
  {
    if key[0] == '=' {
      assert ("\\=" + tail)[2..] == tail;
    } else {
      assert ([key[0]] + tail)[1..] == tail;
    }
  }

  lemma BlankedEquals(rest: string)
    ensures Blanked("=" + rest) == "=" + Blanked(rest)
  {
    assert ("=" + rest)[1..] == rest;
  }

  /** 'find_first_of' */
  function FirstOf(s: string, c: char): (i: int)
    ensures -1 <= i < |s| && (i >= 0 ==> s[i] == c && c !in s[..i]) && (i < 0 ==> c !in s)
  {
    if s == "" then -1
    else if s[0] == c then 0
    else
      var i := FirstOf(s[1..], c);
      assert i >= 0 ==> s[..i + 1] == [s[0]] + s[1..][..i];
      if i < 0 then -1 else i + 1
  }

  /** 'find_last_of' */
  function LastOf(s: string, c: char): (i: int)
    ensures -1 <= i < |s| && (i >= 0 ==> s[i] == c) && (i < 0 ==> c !in s)
    ensures s != "" && s[|s| - 1] == c ==> i == |s| - 1
  {
    if s == "" then -1 else if s[|s| - 1] == c then |s| - 1 else LastOf(s[..|s| - 1], c)
  }

  // ----- keys -----

  /** 'tolower' on ASCII. */
  function Lower(c: char): char {
    if 'A' <= c <= 'Z' then ((c as int) + 32) as char else c
  }

  function LowerAll(s: string): (r: string)
    ensures |r| == |s| && forall i :: 0 <= i < |s| ==> r[i] == Lower(s[i])
  {
    if s == "" then "" else [Lower(s[0])] + LowerAll(s[1..])
  }

  /** What every access to a map does to its key. */
  function Norm(key: string): string {
    LowerAll(Trim(key))
  }

  /** A character that is no blank keeps its place when what comes before starts with no blank. */
  lemma NormAt(a: string, c: char, z: string)
    requires !IsSpace(c) && (a != "" ==> !IsSpace(a[0]))
    ensures |a| < |Norm(a + [c] + z)| && Norm(a + [c] + z)[|a|] == Lower(c)
  {
    TrimMid(a, c, z);
    assert DropLead(a) == a;
    assert (a + [c] + DropTrail(z))[|a|] == c;
  }

  // ----- characters -----

  lemma {:induction false} DropLeadChars(s: string, c: char)
    requires c in DropLead(s)
    ensures c in s
  {
    if s != "" && IsSpace(s[0]) {
      DropLeadChars(s[1..], c);
    }
  }

  lemma {:induction false} DropTrailChars(s: string, c: char)
    requires c in DropTrail(s)
    ensures c in s
  {
    if s != "" && IsSpace(s[|s| - 1]) {
      DropTrailChars(s[..|s| - 1], c);
    }
  }

  lemma TrimChars(s: string, c: char)
    requires c in Trim(s)
    ensures c in s
  {
    DropLeadChars(DropTrail(s), c);
    DropTrailChars(s, c);
  }

  lemma {:induction false} UnescapeChars(s: string, c: char)
    requires c in Unescape(s)
    ensures c in s
    decreases |s|
  {
    if |s| >= 2 {
      if s[0] == '\\' && s[1] == '=' {
        assert c == '=' || c in Unescape(s[2..]);
        if c in Unescape(s[2..]) {
          UnescapeChars(s[2..], c);
        }
      } else {
        assert c == s[0] || c in Unescape(s[1..]);
        if c in Unescape(s[1..]) {
          UnescapeChars(s[1..], c);
        }
      }
    }
  }

  lemma NormChars(s: string, c: char)
    requires c in Norm(s) && !('a' <= c <= 'z')
    ensures c in s
  {
    var t := Trim(s);
    var i :| 0 <= i < |t| && LowerAll(t)[i] == c;
    assert t[i] == c;
    TrimChars(s, c);
  }

  lemma {:induction false} EscapeChars(key: string, c: char)
    ensures c in Escape(key) ==> c in key || c == '\\' || c == '='
    ensures c in key ==> c in Escape(key)
  {
    if key != "" {
      EscapeChars(key[1..], c);
      var first := if key[0] == '=' then "\\=" else [key[0]];
      assert Escape(key) == first + Escape(key[1..]);
      assert key == [key[0]] + key[1..];
    }
  }
}
