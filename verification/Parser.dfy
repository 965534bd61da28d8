/** The expression parser: precedence climbing over a table of left and right priorities.

    An atom token stands for a whole simple expression that does not start with a parenthesis,
    with its suffixes.  What may follow a parenthesized expression as a suffix (a call, an index)
    is recognized and reported, but not read. */
module Parser {
  import opened Options

  /** A string or table constructor can also be the argument of a call. */
  datatype AtomId = Plain(n: nat) | Argument(n: nat)

  datatype Token =
    | Atom(id: AtomId) | LParen | RParen | TkNot | Minus | Tilde | Hash
    | SuffixToken(k: nat)    // '.', '[' or ':'
    | Plus | Star | Percent | Caret | Slash | TkIDiv | Amp | Bar | TkShl | TkShr | TkConcat
    | TkNe | TkEq | Less | TkLe | Greater | TkGe | TkAnd | TkOr | OtherToken(k: nat)

  datatype UnOpr = OprMinus | OprBNot | OprNot | OprLen

  datatype BinOpr =
    | OprAdd | OprSub | OprMul | OprMod | OprPow | OprDiv | OprIDiv | OprBAnd | OprBOr | OprBXor
    | OprShl | OprShr | OprConcat | OprEq | OprLt | OprLe | OprNe | OprGt | OprGe | OprAnd | OprOr

  datatype Expr = Simple(id: AtomId) | Unary(u: UnOpr, e: Expr) | Binary(op: BinOpr, l: Expr, r: Expr)

  /** Expressions as written, with their parentheses. */
  datatype Written =
    | WAtom(id: AtomId)
    | WParen(w: Written)
    | WUn(u: UnOpr, w: Written)
    | WBin(op: BinOpr, l: Written, r: Written)

  // ----- operators -----

  /** 'getunopr' */
  function GetUnOpr(t: Token): (r: Option<UnOpr>)
    ensures forall u :: r == Some(u) <==> t == UnToken(u)
  {
    match t
    case TkNot => Some(OprNot)
    case Minus => Some(OprMinus)
    case Tilde => Some(OprBNot)
    case Hash => Some(OprLen)
    case _ => None
  }

  /** 'getbinopr' */
  function GetBinOpr(t: Token): (r: Option<BinOpr>)
    ensures forall op :: r == Some(op) <==> t == BinToken(op)
  {
    match t
    case Plus => Some(OprAdd)
    case Minus => Some(OprSub)
    case Star => Some(OprMul)
    case Percent => Some(OprMod)
    case Caret => Some(OprPow)
    case Slash => Some(OprDiv)
    case TkIDiv => Some(OprIDiv)
    case Amp => Some(OprBAnd)
    case Bar => Some(OprBOr)
    case Tilde => Some(OprBXor)
    case TkShl => Some(OprShl)
    case TkShr => Some(OprShr)
    case TkConcat => Some(OprConcat)
    case TkNe => Some(OprNe)
    case TkEq => Some(OprEq)
    case Less => Some(OprLt)
    case TkLe => Some(OprLe)
    case Greater => Some(OprGt)
    case TkGe => Some(OprGe)
    case TkAnd => Some(OprAnd)
    case TkOr => Some(OprOr)
    case _ => None
  }

  function UnToken(u: UnOpr): Token {
    match u
    case OprMinus => Minus
    case OprBNot => Tilde
    case OprNot => TkNot
    case OprLen => Hash
  }

  function BinToken(op: BinOpr): Token {
    match op
    case OprAdd => Plus
    case OprSub => Minus
    case OprMul => Star
    case OprMod => Percent
    case OprPow => Caret
    case OprDiv => Slash
    case OprIDiv => TkIDiv
    case OprBAnd => Amp
    case OprBOr => Bar
    case OprBXor => Tilde
    case OprShl => TkShl
    case OprShr => TkShr
    case OprConcat => TkConcat
    case OprEq => TkEq
    case OprLt => Less
    case OprLe => TkLe
    case OprNe => TkNe
    case OprGt => Greater
    case OprGe => TkGe
    case OprAnd => TkAnd
    case OprOr => TkOr
  }

  /** The table 'priority'. */
  function Left(op: BinOpr): nat {
    match op
    case OprAdd => 10 case OprSub => 10
    case OprMul => 11 case OprMod => 11
    case OprPow => 14
    case OprDiv => 11 case OprIDiv => 11
    case OprBAnd => 6 case OprBOr => 4 case OprBXor => 5
    case OprShl => 7 case OprShr => 7
    case OprConcat => 9
    case OprEq => 3 case OprLt => 3 case OprLe => 3
    case OprNe => 3 case OprGt => 3 case OprGe => 3
    case OprAnd => 2 case OprOr => 1
  }

  function Right(op: BinOpr): nat {
    match op
    case OprPow => 13
    case OprConcat => 8
    case _ => Left(op)
  }

  const UNARY_PRIORITY: nat := 12
  const LUAI_MAXCCALLS: nat := 200

  // ----- what is written -----

  function Flat(w: Written): seq<Token> {
    match w
    case WAtom(id) => [Atom(id)]
    case WParen(v) => [LParen] + Flat(v) + [RParen]
    case WUn(u, v) => [UnToken(u)] + Flat(v)
    case WBin(op, l, r) => Flat(l) + [BinToken(op)] + Flat(r)
  }

  /** The expression, without its parentheses. */
  function Strip(w: Written): Expr {
    match w
    case WAtom(id) => Simple(id)
    case WParen(v) => Strip(v)
    case WUn(u, v) => Unary(u, Strip(v))
    case WBin(op, l, r) => Binary(op, Strip(l), Strip(r))
  }

  /** No operand at the right edge of 'w' takes a following operator of left priority 'n'. */
  ghost predicate Stops(w: Written, n: nat) {
    match w
    case WAtom(_) => true
    case WParen(_) => true
    case WUn(_, v) => n <= UNARY_PRIORITY && Stops(v, n)
    case WBin(op, _, r) => n <= Right(op) && Stops(r, n)
  }

  /** 'w' is grouped as the priorities say, in a context that ends at priority 'limit'. */
  ghost predicate Grouped(w: Written, limit: nat) {
    match w
    case WAtom(_) => true
    case WParen(v) => Grouped(v, 0)
    case WUn(_, v) => Grouped(v, UNARY_PRIORITY)
    case WBin(op, l, r) => Left(op) > limit && Grouped(l, limit) && Stops(l, Left(op)) && Grouped(r, Right(op))
  }

  /** The text of 'w' ends with a closing parenthesis. */
  predicate EndsParen(w: Written) {
    match w
    case WAtom(_) => false
    case WParen(_) => true
    case WUn(_, v) => EndsParen(v)
    case WBin(_, _, r) => EndsParen(r)
  }

  /** Nested calls of 'subexpr'. */
  function Depth(w: Written): nat {
    match w
    case WAtom(_) => 1
    case WParen(v) => 1 + Depth(v)
    case WUn(_, v) => 1 + Depth(v)
    case WBin(_, l, r) => if Depth(l) < 1 + Depth(r) then 1 + Depth(r) else Depth(l)
  }

  // ----- the parser as a function -----

  /** 'Suffixed': a suffix follows a parenthesized expression; 'suffixedexp' would read on. */
  datatype Result = Parsed(w: Written, rest: seq<Token>) | SyntaxError | StackOverflow | Suffixed

  /** The next token opens a suffix ('suffixedexp'). */
  predicate Opens(toks: seq<Token>) {
    toks != [] && (toks[0].LParen? || toks[0].SuffixToken? || (toks[0].Atom? && toks[0].id.Argument?))
  }

  /** Left priority of the operator that comes next, 0 if there is none. */
  function NextLeft(toks: seq<Token>): nat {
    if toks != [] && GetBinOpr(toks[0]).Some? then Left(GetBinOpr(toks[0]).value) else 0
  }

  /** 'subexpr', with room for 'room' nested calls. */
  function Sub(toks: seq<Token>, limit: nat, room: nat): (r: Result)
    ensures r.Parsed? ==> |r.rest| < |toks|
    decreases |toks|, 1
  {
    if room == 0 then StackOverflow
    else
      var h := Head(toks, room - 1);
      if h.Parsed? then Rest(h.w, h.rest, limit, room - 1) else h
  }

  function Head(toks: seq<Token>, room: nat): (r: Result)
    ensures r.Parsed? ==> |r.rest| < |toks|
    decreases |toks|, 0
  {
    if toks == [] then SyntaxError
    else if GetUnOpr(toks[0]).Some? then
      var r := Sub(toks[1..], UNARY_PRIORITY, room);
      if r.Parsed? then Parsed(WUn(GetUnOpr(toks[0]).value, r.w), r.rest) else r
    else match toks[0]
      case Atom(id) => Parsed(WAtom(id), toks[1..])
      case LParen =>
        var r := Sub(toks[1..], 0, room);
        if !r.Parsed? then r
        else if r.rest == [] || r.rest[0] != RParen then SyntaxError
        else if Opens(r.rest[1..]) then Suffixed
        else Parsed(WParen(r.w), r.rest[1..])
      case _ => SyntaxError
  }

  function Rest(w: Written, toks: seq<Token>, limit: nat, room: nat): (r: Result)
    ensures r.Parsed? ==> |r.rest| <= |toks|
    decreases |toks|, 0
  {
    if NextLeft(toks) > limit then
      var op := GetBinOpr(toks[0]).value;
      var r := Sub(toks[1..], Right(op), room);
      if r.Parsed? then Rest(WBin(op, w, r.w), r.rest, limit, room) else r
    else Parsed(w, toks)
  }

  /** The expression ends in a parenthesis and a suffix follows. */
  predicate Clash(w: Written, rest: seq<Token>) {
    EndsParen(w) && Opens(rest)
  }

  /** What reading 'w' comes to before the loop over operators goes on. */
  function Read(w: Written, limit: nat, room: nat, rest: seq<Token>): Result {
    if Depth(w) > room then StackOverflow
    else if Clash(w, rest) then Suffixed
    else Rest(w, rest, limit, if room > 0 then room - 1 else 0)
  }

  // ----- the parser reads exactly the grouped expressions -----

  /** What is parsed is what was written, grouped by the priorities. */
  lemma {:induction false} SubSound(toks: seq<Token>, limit: nat, room: nat)
    requires Sub(toks, limit, room).Parsed?
    ensures var r := Sub(toks, limit, room);
      && toks == Flat(r.w) + r.rest && Grouped(r.w, limit)
      && Stops(r.w, NextLeft(r.rest)) && NextLeft(r.rest) <= limit
      && Depth(r.w) <= room && !Clash(r.w, r.rest)
    decreases |toks|, 1
  {
    HeadSound(toks, room - 1);
    var h := Head(toks, room - 1);
    RestSound(h.w, h.rest, limit, room - 1);
    var r := Sub(toks, limit, room);
    assert Flat(h.w) + h.rest == Flat(r.w) + r.rest;
  }

  ghost predicate IsHead(w: Written) {
    !w.WBin?
  }

  lemma {:induction false} HeadSound(toks: seq<Token>, room: nat)
    requires Head(toks, room).Parsed?
    ensures var r := Head(toks, room);
      && toks == Flat(r.w) + r.rest && IsHead(r.w) && (forall limit :: Grouped(r.w, limit))
      && Stops(r.w, NextLeft(r.rest)) && Depth(r.w) <= room + 1 && !Clash(r.w, r.rest)
    decreases |toks|, 0
  {
    hide Sub, Flat, Grouped, Stops, Depth, NextLeft, Clash, UnToken;
    var r := Head(toks, room);
    if GetUnOpr(toks[0]).Some? {
      SubSound(toks[1..], UNARY_PRIORITY, room);
      PrefixSound(toks, GetUnOpr(toks[0]).value, Sub(toks[1..], UNARY_PRIORITY, room), room);
    } else if toks[0] == LParen {
      SubSound(toks[1..], 0, room);
      ParenSound(toks, Sub(toks[1..], 0, room), room);
    } else {
      AtomSound(toks, r.w.id, room);
    }
  }

  lemma AtomSound(toks: seq<Token>, id: AtomId, room: nat)
    requires toks != [] && toks[0] == Atom(id)
    ensures var w, rest := WAtom(id), toks[1..];
      && toks == Flat(w) + rest && IsHead(w) && (forall limit :: Grouped(w, limit))
      && Stops(w, NextLeft(rest)) && Depth(w) <= room + 1 && !Clash(w, rest)
  {
  }

  /** A prefix operator and its operand. */
  lemma PrefixSound(toks: seq<Token>, u: UnOpr, r: Result, room: nat)
    requires toks != [] && toks[0] == UnToken(u) && r.Parsed? && toks[1..] == Flat(r.w) + r.rest
    requires Grouped(r.w, UNARY_PRIORITY) && Stops(r.w, NextLeft(r.rest)) && NextLeft(r.rest) <= UNARY_PRIORITY
    requires Depth(r.w) <= room && !Clash(r.w, r.rest)
    ensures var w := WUn(u, r.w);
      && toks == Flat(w) + r.rest && IsHead(w) && (forall limit :: Grouped(w, limit))
      && Stops(w, NextLeft(r.rest)) && Depth(w) <= room + 1 && !Clash(w, r.rest)
  {
    hide UnToken, NextLeft, Opens;
    assert toks == [toks[0]] + toks[1..];
  }

  /** A parenthesized expression. */
  lemma ParenSound(toks: seq<Token>, r: Result, room: nat)
    requires toks != [] && toks[0] == LParen && r.Parsed? && toks[1..] == Flat(r.w) + r.rest
    requires Grouped(r.w, 0) && Depth(r.w) <= room && r.rest != [] && r.rest[0] == RParen && !Opens(r.rest[1..])
    ensures var w, rest := WParen(r.w), r.rest[1..];
      && toks == Flat(w) + rest && IsHead(w) && (forall limit :: Grouped(w, limit))
      && Stops(w, NextLeft(rest)) && Depth(w) <= room + 1 && !Clash(w, rest)
  {
    hide NextLeft, Opens;
    var f, rest := Flat(r.w), r.rest[1..];
    assert r.rest == [RParen] + rest;
    assert toks == [LParen] + (f + ([RParen] + rest));
    assert Flat(WParen(r.w)) == [LParen] + f + [RParen];
  }

  lemma Appended(w: Written, op: BinOpr, v: Written, toks: seq<Token>, rest: seq<Token>)
    requires toks != [] && toks[0] == BinToken(op) && toks[1..] == Flat(v) + rest
    ensures Flat(w) + toks == Flat(WBin(op, w, v)) + rest
  {
    assert toks == [BinToken(op)] + (Flat(v) + rest);
  }

  lemma {:induction false} RestSound(w: Written, toks: seq<Token>, limit: nat, room: nat)
    requires Rest(w, toks, limit, room).Parsed?
    requires Grouped(w, limit) && Stops(w, NextLeft(toks)) && Depth(w) <= room + 1 && !Clash(w, toks)
    ensures var r := Rest(w, toks, limit, room);
      && Flat(w) + toks == Flat(r.w) + r.rest && Grouped(r.w, limit)
      && Stops(r.w, NextLeft(r.rest)) && NextLeft(r.rest) <= limit
      && Depth(r.w) <= room + 1 && !Clash(r.w, r.rest)
    decreases |toks|, 0
  {
    hide Sub, BinToken, Left, Right, Flat;
    if NextLeft(toks) > limit {
      var op := GetBinOpr(toks[0]).value;
      var r := Sub(toks[1..], Right(op), room);
      SubSound(toks[1..], Right(op), room);
      RestSound(WBin(op, w, r.w), r.rest, limit, room);
      Appended(w, op, r.w, toks, r.rest);
    }
  }

  /** The first token of an expression is no binary operator of the loop. */
  lemma FlatCons(op: BinOpr, r: Written, rest: seq<Token>)
    ensures var toks := [BinToken(op)] + Flat(r) + rest;
      NextLeft(toks) == Left(op) && GetBinOpr(toks[0]) == Some(op) && toks[1..] == Flat(r) + rest && !Opens(toks)
  {
    var toks := [BinToken(op)] + Flat(r) + rest;
    assert toks[0] == BinToken(op);
    assert toks[1..] == Flat(r) + rest;
  }

  lemma StopsAtEnd(w: Written)
    ensures Stops(w, 0)
  {
  }

  lemma ReadParen(v: Written, room: nat, rest: seq<Token>)
    requires Sub(Flat(v) + ([RParen] + rest), 0, room) == Read(v, 0, room, [RParen] + rest)
    ensures Head(Flat(WParen(v)) + rest, room) ==
      if Depth(v) > room then StackOverflow else if Opens(rest) then Suffixed else Parsed(WParen(v), rest)
  {
    DepthPositive(v);
    ParenNext(rest);
    var after := [RParen] + rest;
    assert after[0] == RParen && after[1..] == rest;
    var toks := Flat(WParen(v)) + rest;
    assert toks[0] == LParen && toks[1..] == Flat(v) + after;
    hide Sub, Flat, Depth;
    assert Rest(v, after, 0, if room > 0 then room - 1 else 0) == Parsed(v, after);
  }

  lemma DepthPositive(w: Written)
    ensures Depth(w) > 0
  {
  }

  lemma ReadUnary(u: UnOpr, v: Written, room: nat, rest: seq<Token>)
    requires NextLeft(rest) <= UNARY_PRIORITY
    requires Sub(Flat(v) + rest, UNARY_PRIORITY, room) == Read(v, UNARY_PRIORITY, room, rest)
    ensures Head(Flat(WUn(u, v)) + rest, room) ==
      if Depth(v) > room then StackOverflow else if Clash(v, rest) then Suffixed else Parsed(WUn(u, v), rest)
  {
    var toks := Flat(WUn(u, v)) + rest;
    assert toks[0] == UnToken(u) && toks[1..] == Flat(v) + rest;
    DepthPositive(v);
  }

  /** Reading an expression grouped by the priorities gets to the loop with that expression,
      or nests too deep, exactly as its depth says. */
  lemma {:induction false} SubReads(w: Written, limit: nat, room: nat, rest: seq<Token>)
    requires Grouped(w, limit) && Stops(w, NextLeft(rest))
    ensures Sub(Flat(w) + rest, limit, room) == Read(w, limit, room, rest)
    decreases w
  {
    hide Left, Right, Rest, Head, GetBinOpr, GetUnOpr, BinToken, UnToken;
    DepthPositive(w);
    match w {
      case WAtom(id) => ReadAtom(id, limit, room, rest);
      case WParen(v) =>
        StopsAtEnd(v);
        if room > 0 {
          ParenNext(rest);
          SubReads(v, 0, room - 1, [RParen] + rest);
          ReadParen(v, room - 1, rest);
        }
      case WUn(u, v) =>
        if room > 0 {
          SubReads(v, UNARY_PRIORITY, room - 1, rest);
          ReadUnary(u, v, room - 1, rest);
        }
      case WBin(op, l, r) =>
        var after := [BinToken(op)] + Flat(r) + rest;
        assert Flat(w) + rest == Flat(l) + after;
        FlatCons(op, r, rest);
        SubReads(l, limit, room, after);
        if Depth(l) <= room {
          DepthPositive(l);
          SubReads(r, Right(op), room - 1, rest);
          ReadOperator(op, l, r, limit, room - 1, rest);
        }
    }
  }

  lemma ReadAtom(id: AtomId, limit: nat, room: nat, rest: seq<Token>)
    ensures Sub(Flat(WAtom(id)) + rest, limit, room) == Read(WAtom(id), limit, room, rest)
  {
    var toks := Flat(WAtom(id)) + rest;
    assert toks[0] == Atom(id) && toks[1..] == rest;
  }

  lemma ParenNext(rest: seq<Token>)
    ensures NextLeft([RParen] + rest) == 0 && !Opens([RParen] + rest)
  {
  }

  lemma ReadOperator(op: BinOpr, l: Written, r: Written, limit: nat, room: nat, rest: seq<Token>)
    requires Left(op) > limit && NextLeft(rest) <= Right(op)
    requires Sub(Flat(r) + rest, Right(op), room) == Read(r, Right(op), room, rest)
    ensures Rest(l, [BinToken(op)] + Flat(r) + rest, limit, room) ==
              if Depth(r) > room then StackOverflow else if Clash(r, rest) then Suffixed else Rest(WBin(op, l, r), rest, limit, room)
  {
    hide Left, Right;
    FlatCons(op, r, rest);
    DepthPositive(r);
  }

  /** The parser is complete for grouped expressions, up to the limit on nesting. */
  lemma SubComplete(w: Written, limit: nat, room: nat, rest: seq<Token>)
    requires Grouped(w, limit) && Stops(w, NextLeft(rest)) && NextLeft(rest) <= limit
    ensures Sub(Flat(w) + rest, limit, room) ==
      if Depth(w) > room then StackOverflow else if Clash(w, rest) then Suffixed else Parsed(w, rest)
  {
    DepthPositive(w);
    SubReads(w, limit, room, rest);
  }

  /** The priorities leave no ambiguity: a token sequence groups in one way only. */
  lemma Unambiguous(v: Written, w: Written)
    requires Grouped(v, 0) && Grouped(w, 0) && Flat(v) == Flat(w)
    ensures v == w
  {
    hide Sub, Flat, Grouped, Stops, Depth;
    StopsAtEnd(v);
    StopsAtEnd(w);
    assert NextLeft([]) == 0;
    SubComplete(v, 0, Depth(v) + Depth(w), []);
    SubComplete(w, 0, Depth(v) + Depth(w), []);
  }

  // ----- the precedence of the manual -----

  /** Section 3.4.8 of the Lua 5.4 Reference Manual, from lower to higher; prefix operators are
      at level 11. */
  function ManualLevel(op: BinOpr): nat {
    match op
    case OprOr => 1
    case OprAnd => 2
    case OprLt => 3 case OprGt => 3 case OprLe => 3 case OprGe => 3 case OprNe => 3 case OprEq => 3
    case OprBOr => 4
    case OprBXor => 5
    case OprBAnd => 6
    case OprShl => 7 case OprShr => 7
    case OprConcat => 8
    case OprAdd => 9 case OprSub => 9
    case OprMul => 10 case OprDiv => 10 case OprIDiv => 10 case OprMod => 10
    case OprPow => 12
  }

  /** Concatenation and exponentiation are right associative, all others left associative. */
  predicate RightAssociative(op: BinOpr) {
    op.OprConcat? || op.OprPow?
  }

  /** 'a op1 b op2 c' groups to the right exactly when the manual says so. */
  lemma Precedence(op1: BinOpr, op2: BinOpr, a: AtomId, b: AtomId, c: AtomId, room: nat)
    requires room >= 3
    ensures var toks := [Atom(a), BinToken(op1), Atom(b), BinToken(op2), Atom(c)];
      var right := ManualLevel(op2) > ManualLevel(op1) || (ManualLevel(op2) == ManualLevel(op1) && RightAssociative(op2));
      Sub(toks, 0, room) == Parsed(if right then WBin(op1, WAtom(a), WBin(op2, WAtom(b), WAtom(c)))
                                   else WBin(op2, WBin(op1, WAtom(a), WAtom(b)), WAtom(c)), [])
  {
    var toks := [Atom(a), BinToken(op1), Atom(b), BinToken(op2), Atom(c)];
    LevelsAgree(op1, op2);
    var w := if Left(op2) > Right(op1) then WBin(op1, WAtom(a), WBin(op2, WAtom(b), WAtom(c)))
             else WBin(op2, WBin(op1, WAtom(a), WAtom(b)), WAtom(c));
    hide Left, Right, BinToken;
    FlatThree(op1, op2, a, b, c);
    StopsAtEnd(w);
    assert Depth(WBin(op1, WAtom(a), WAtom(b))) == 2 && Depth(WBin(op2, WAtom(b), WAtom(c))) == 2;
    assert Depth(w) <= room;
    assert Flat(w) + [] == toks;
    SubComplete(w, 0, room, []);
  }

  lemma LevelsAgree(op1: BinOpr, op2: BinOpr)
    ensures Left(op2) > Right(op1) <==>
      ManualLevel(op2) > ManualLevel(op1) || (ManualLevel(op2) == ManualLevel(op1) && RightAssociative(op2))
    ensures Left(op1) > 0 && Left(op2) > 0
  {
  }

  lemma FlatThree(op1: BinOpr, op2: BinOpr, a: AtomId, b: AtomId, c: AtomId)
    ensures var toks := [Atom(a), BinToken(op1), Atom(b), BinToken(op2), Atom(c)];
      && Flat(WBin(op1, WAtom(a), WBin(op2, WAtom(b), WAtom(c)))) == toks
      && Flat(WBin(op2, WBin(op1, WAtom(a), WAtom(b)), WAtom(c))) == toks
  {
    var ab, bc := WBin(op1, WAtom(a), WAtom(b)), WBin(op2, WAtom(b), WAtom(c));
    assert Flat(ab) == [Atom(a), BinToken(op1), Atom(b)] && Flat(bc) == [Atom(b), BinToken(op2), Atom(c)];
  }

  /** A prefix operator binds tighter than any binary operator but exponentiation. */
  lemma PrefixPrecedence(u: UnOpr, op: BinOpr, a: AtomId, b: AtomId, room: nat)
    requires room >= 3
    ensures Sub([UnToken(u), Atom(a), BinToken(op), Atom(b)], 0, room) ==
              Parsed(if op.OprPow? then WUn(u, WBin(op, WAtom(a), WAtom(b))) else WBin(op, WUn(u, WAtom(a)), WAtom(b)), [])
  {
    var w := if op.OprPow? then WUn(u, WBin(op, WAtom(a), WAtom(b))) else WBin(op, WUn(u, WAtom(a)), WAtom(b));
    var ab := WBin(op, WAtom(a), WAtom(b));
    assert Flat(ab) == [Atom(a), BinToken(op), Atom(b)] && Flat(WUn(u, WAtom(a))) == [UnToken(u), Atom(a)];
    assert Flat(w) == [UnToken(u), Atom(a), BinToken(op), Atom(b)];
    StopsAtEnd(w);
    assert Depth(ab) == 2 && Depth(WUn(u, WAtom(a))) == 2;
    assert Depth(w) <= room;
    assert Flat(w) + [] == Flat(w);
    SubComplete(w, 0, room, []);
  }

  // ----- tokens as they are written -----

  ghost predicate Reads(toks: seq<Token>, w: Written, room: nat) {
    Sub(toks, 0, room) == Parsed(w, [])
  }

  /** Every operator token between two operands, spelled out, is read as its operator. */
  lemma OperatorTokens(x: Token, y: Token, room: nat)
    requires x.Atom? && y.Atom? && room >= 2
    ensures Reads([x, Plus, y], WBin(OprAdd, WAtom(x.id), WAtom(y.id)), room)
    ensures Reads([x, Minus, y], WBin(OprSub, WAtom(x.id), WAtom(y.id)), room)
    ensures Reads([x, Star, y], WBin(OprMul, WAtom(x.id), WAtom(y.id)), room)
    ensures Reads([x, Percent, y], WBin(OprMod, WAtom(x.id), WAtom(y.id)), room)
    ensures Reads([x, Caret, y], WBin(OprPow, WAtom(x.id), WAtom(y.id)), room)
    ensures Reads([x, Slash, y], WBin(OprDiv, WAtom(x.id), WAtom(y.id)), room)
    ensures Reads([x, TkIDiv, y], WBin(OprIDiv, WAtom(x.id), WAtom(y.id)), room)
    ensures Reads([x, Amp, y], WBin(OprBAnd, WAtom(x.id), WAtom(y.id)), room)
    ensures Reads([x, Bar, y], WBin(OprBOr, WAtom(x.id), WAtom(y.id)), room)
    ensures Reads([x, Tilde, y], WBin(OprBXor, WAtom(x.id), WAtom(y.id)), room)
    ensures Reads([x, TkShl, y], WBin(OprShl, WAtom(x.id), WAtom(y.id)), room)
    ensures Reads([x, TkShr, y], WBin(OprShr, WAtom(x.id), WAtom(y.id)), room)
    ensures Reads([x, TkConcat, y], WBin(OprConcat, WAtom(x.id), WAtom(y.id)), room)
    ensures Reads([x, TkNe, y], WBin(OprNe, WAtom(x.id), WAtom(y.id)), room)
    ensures Reads([x, TkEq, y], WBin(OprEq, WAtom(x.id), WAtom(y.id)), room)
    ensures Reads([x, Less, y], WBin(OprLt, WAtom(x.id), WAtom(y.id)), room)
    ensures Reads([x, TkLe, y], WBin(OprLe, WAtom(x.id), WAtom(y.id)), room)
    ensures Reads([x, Greater, y], WBin(OprGt, WAtom(x.id), WAtom(y.id)), room)
    ensures Reads([x, TkGe, y], WBin(OprGe, WAtom(x.id), WAtom(y.id)), room)
    ensures Reads([x, TkAnd, y], WBin(OprAnd, WAtom(x.id), WAtom(y.id)), room)
    ensures Reads([x, TkOr, y], WBin(OprOr, WAtom(x.id), WAtom(y.id)), room)
  {
    forall op: BinOpr
      ensures Reads([x, BinToken(op), y], WBin(op, WAtom(x.id), WAtom(y.id)), room)
    {
      OneOperator(x, op, y, room);
    }
    hide Reads;
    assert forall op: BinOpr :: Reads([x, BinToken(op), y], WBin(op, WAtom(x.id), WAtom(y.id)), room);
    SpelledOut(x, y, room);
  }

  lemma OneOperator(x: Token, op: BinOpr, y: Token, room: nat)
    requires x.Atom? && y.Atom? && room >= 2
    ensures Reads([x, BinToken(op), y], WBin(op, WAtom(x.id), WAtom(y.id)), room)
  {
    var w := WBin(op, WAtom(x.id), WAtom(y.id));
    assert Flat(w) + [] == [x, BinToken(op), y];
    StopsAtEnd(w);
    assert Left(op) > 0;
    SubComplete(w, 0, room, []);
  }

  lemma SpelledOut(x: Token, y: Token, room: nat)
    requires x.Atom? && y.Atom?
    requires forall op: BinOpr :: Reads([x, BinToken(op), y], WBin(op, WAtom(x.id), WAtom(y.id)), room)
    ensures Reads([x, Plus, y], WBin(OprAdd, WAtom(x.id), WAtom(y.id)), room)
    ensures Reads([x, Minus, y], WBin(OprSub, WAtom(x.id), WAtom(y.id)), room)
    ensures Reads([x, Star, y], WBin(OprMul, WAtom(x.id), WAtom(y.id)), room)
    ensures Reads([x, Percent, y], WBin(OprMod, WAtom(x.id), WAtom(y.id)), room)
    ensures Reads([x, Caret, y], WBin(OprPow, WAtom(x.id), WAtom(y.id)), room)
    ensures Reads([x, Slash, y], WBin(OprDiv, WAtom(x.id), WAtom(y.id)), room)
    ensures Reads([x, TkIDiv, y], WBin(OprIDiv, WAtom(x.id), WAtom(y.id)), room)
    ensures Reads([x, Amp, y], WBin(OprBAnd, WAtom(x.id), WAtom(y.id)), room)
    ensures Reads([x, Bar, y], WBin(OprBOr, WAtom(x.id), WAtom(y.id)), room)
    ensures Reads([x, Tilde, y], WBin(OprBXor, WAtom(x.id), WAtom(y.id)), room)
    ensures Reads([x, TkShl, y], WBin(OprShl, WAtom(x.id), WAtom(y.id)), room)
    ensures Reads([x, TkShr, y], WBin(OprShr, WAtom(x.id), WAtom(y.id)), room)
    ensures Reads([x, TkConcat, y], WBin(OprConcat, WAtom(x.id), WAtom(y.id)), room)
    ensures Reads([x, TkNe, y], WBin(OprNe, WAtom(x.id), WAtom(y.id)), room)
    ensures Reads([x, TkEq, y], WBin(OprEq, WAtom(x.id), WAtom(y.id)), room)
    ensures Reads([x, Less, y], WBin(OprLt, WAtom(x.id), WAtom(y.id)), room)
    ensures Reads([x, TkLe, y], WBin(OprLe, WAtom(x.id), WAtom(y.id)), room)
    ensures Reads([x, Greater, y], WBin(OprGt, WAtom(x.id), WAtom(y.id)), room)
    ensures Reads([x, TkGe, y], WBin(OprGe, WAtom(x.id), WAtom(y.id)), room)
    ensures Reads([x, TkAnd, y], WBin(OprAnd, WAtom(x.id), WAtom(y.id)), room)
    ensures Reads([x, TkOr, y], WBin(OprOr, WAtom(x.id), WAtom(y.id)), room)
  {
    hide Reads;
  }

  /** Every prefix token before an operand is read as its operator. */
  lemma PrefixTokens(x: Token, room: nat)
    requires x.Atom? && room >= 2
    ensures Reads([TkNot, x], WUn(OprNot, WAtom(x.id)), room)
    ensures Reads([Minus, x], WUn(OprMinus, WAtom(x.id)), room)
    ensures Reads([Tilde, x], WUn(OprBNot, WAtom(x.id)), room)
    ensures Reads([Hash, x], WUn(OprLen, WAtom(x.id)), room)
  {
    hide Reads;
    OnePrefix(OprNot, x, room);
    OnePrefix(OprMinus, x, room);
    OnePrefix(OprBNot, x, room);
    OnePrefix(OprLen, x, room);
  }

  lemma OnePrefix(u: UnOpr, x: Token, room: nat)
    requires x.Atom? && room >= 2
    ensures Reads([UnToken(u), x], WUn(u, WAtom(x.id)), room)
  {
    var w := WUn(u, WAtom(x.id));
    assert Flat(w) + [] == [UnToken(u), x];
    StopsAtEnd(w);
    SubComplete(w, 0, room, []);
  }

  predicate IsOperator(t: Token) {
    TokenLevel(t) > 0
  }

  /** Section 3.4.8 of the Lua 5.4 Reference Manual by tokens; 0 if the token is no operator. */
  function TokenLevel(t: Token): nat {
    match t
    case Plus => 9
    case Minus => 9
    case Star => 10
    case Percent => 10
    case Caret => 12
    case Slash => 10
    case TkIDiv => 10
    case Amp => 6
    case Bar => 4
    case Tilde => 5
    case TkShl => 7
    case TkShr => 7
    case TkConcat => 8
    case TkNe => 3
    case TkEq => 3
    case Less => 3
    case TkLe => 3
    case Greater => 3
    case TkGe => 3
    case TkAnd => 2
    case TkOr => 1
    case _ => 0
  }

  /** Two operator tokens in a row group as the manual orders them; exponentiation and
      concatenation are right associative. */
  lemma PrecedenceOfTokens(x: Token, t1: Token, y: Token, t2: Token, z: Token, room: nat)
    requires x.Atom? && y.Atom? && z.Atom? && IsOperator(t1) && IsOperator(t2) && room >= 3
    ensures var r := Sub([x, t1, y, t2, z], 0, room);
      var o1, o2 := Sub([x, t1, y], 0, room), Sub([y, t2, z], 0, room);
      && r.Parsed? && o1.Parsed? && o2.Parsed? && o1.w.WBin? && o2.w.WBin?
      && r == (if TokenLevel(t2) > TokenLevel(t1) || (TokenLevel(t2) == TokenLevel(t1) && (t2 == Caret || t2 == TkConcat))
               then Parsed(WBin(o1.w.op, WAtom(x.id), o2.w), [])
               else Parsed(WBin(o2.w.op, o1.w, WAtom(z.id)), []))
  {
    OperatorOf(t1);
    OperatorOf(t2);
    var op1, op2 := GetBinOpr(t1).value, GetBinOpr(t2).value;
    OneOperator(x, op1, y, room);
    OneOperator(y, op2, z, room);
    Precedence(op1, op2, x.id, y.id, z.id, room);
    hide Sub, BinToken;
  }

  /** A prefix token binds tighter than every operator token but '^'. */
  lemma PrefixOfTokens(p: Token, x: Token, t: Token, y: Token, room: nat)
    requires (p == TkNot || p == Minus || p == Tilde || p == Hash) && x.Atom? && y.Atom? && IsOperator(t) && room >= 3
    ensures var r, o1, o2 := Sub([p, x, t, y], 0, room), Sub([p, x], 0, room), Sub([x, t, y], 0, room);
      && o1.Parsed? && o2.Parsed? && o1.w.WUn? && o2.w.WBin?
      && r == Parsed(if t == Caret then WUn(o1.w.u, o2.w) else WBin(o2.w.op, o1.w, WAtom(y.id)), [])
  {
    OperatorOf(t);
    var op, u := GetBinOpr(t).value, GetUnOpr(p).value;
    OneOperator(x, op, y, room);
    PrefixTokens(x, room);
    PrefixPrecedence(u, op, x.id, y.id, room);
    hide Sub, BinToken;
  }

  lemma OperatorOf(t: Token)
    requires IsOperator(t)
    ensures GetBinOpr(t).Some? && BinToken(GetBinOpr(t).value) == t
    ensures var op := GetBinOpr(t).value; ManualLevel(op) == TokenLevel(t) && (RightAssociative(op) <==> t == Caret || t == TkConcat)
  {
  }

  // ----- printing -----

  predicate LeftNeeds(op: BinOpr, l: Expr) {
    match l
    case Simple(_) => false
    case Unary(_, _) => UNARY_PRIORITY < Left(op)
    case Binary(o, _, _) => Right(o) < Left(op)
  }

  predicate RightNeeds(limit: nat, r: Expr) {
    r.Binary? && Left(r.op) <= limit
  }

  function Wrap(needed: bool, w: Written): Written {
    if needed then WParen(w) else w
  }

  /** An expression with the parentheses that the priority table requires. */
  function Minimal(e: Expr): Written {
    match e
    case Simple(id) => WAtom(id)
    case Unary(u, e1) => WUn(u, Wrap(RightNeeds(UNARY_PRIORITY, e1), Minimal(e1)))
    case Binary(op, l, r) =>
      WBin(op, Wrap(LeftNeeds(op, l), Minimal(l)), Wrap(RightNeeds(Right(op), r), Minimal(r)))
  }

  function Print(e: Expr): seq<Token> {
    Flat(Minimal(e))
  }

  lemma MinimalStrip(e: Expr)
    ensures Strip(Minimal(e)) == e
  {
  }

  /** The right edge of a printed operand stops before an operator that did not need
      parentheses around the operand. */
  lemma {:induction false} MinimalStops(op: BinOpr, e: Expr)
    requires !LeftNeeds(op, e)
    ensures Stops(Minimal(e), Left(op))
  {
    match e {
      case Simple(_) =>
      case Unary(u, e1) =>
        if !RightNeeds(UNARY_PRIORITY, e1) {
          MinimalStops(op, e1);
        }
      case Binary(o, l, r) =>
        if !RightNeeds(Right(o), r) {
          MinimalStops(op, r);
        }
    }
  }

  lemma {:induction false} MinimalGrouped(e: Expr, limit: nat)
    requires !RightNeeds(limit, e)
    ensures Grouped(Minimal(e), limit)
  {
    match e {
      case Simple(_) =>
      case Unary(u, e1) =>
        MinimalGrouped(e1, if RightNeeds(UNARY_PRIORITY, e1) then 0 else UNARY_PRIORITY);
      case Binary(op, l, r) =>
        MinimalGrouped(l, if LeftNeeds(op, l) then 0 else limit);
        MinimalGrouped(r, if RightNeeds(Right(op), r) then 0 else Right(op));
        if !LeftNeeds(op, l) {
          MinimalStops(op, l);
        }
    }
  }

  /** Printing and parsing give the expression back; this fails only for nesting deeper than
      'room', or when the printing ends in a parenthesis and what follows opens a suffix. */
  lemma RoundTrip(e: Expr, room: nat, rest: seq<Token>)
    requires NextLeft(rest) == 0
    ensures var r := Sub(Print(e) + rest, 0, room);
      && (r.Parsed? <==> Depth(Minimal(e)) <= room && !Clash(Minimal(e), rest))
      && (r.Parsed? ==> Strip(r.w) == e && r.rest == rest)
      && (r == StackOverflow <==> Depth(Minimal(e)) > room)
      && (r == Suffixed <==> Depth(Minimal(e)) <= room && Clash(Minimal(e), rest))
  {
    MinimalStrip(e);
    MinimalGrouped(e, 0);
    StopsAtEnd(Minimal(e));
    SubComplete(Minimal(e), 0, room, rest);
  }

  /** No text grouped as the same expression has fewer tokens or nests less. */
  lemma {:induction false} MinimalIsLeast(w: Written, limit: nat)
    requires Grouped(w, limit)
    ensures |Print(Strip(w))| <= |Flat(w)| && Depth(Minimal(Strip(w))) <= Depth(w)
    decreases w, 0
  {
    match w {
      case WAtom(_) =>
      case WParen(v) => MinimalIsLeast(v, 0);
      case WUn(u, v) => OperandIsLeast(v, UNARY_PRIORITY);
      case WBin(op, l, r) =>
        OperandIsLeast(r, Right(op));
        LeftIsLeast(op, l, limit);
    }
  }

  lemma {:induction false} OperandIsLeast(v: Written, limit: nat)
    requires Grouped(v, limit)
    ensures var m := Wrap(RightNeeds(limit, Strip(v)), Minimal(Strip(v)));
      |Flat(m)| <= |Flat(v)| && Depth(m) <= Depth(v)
    decreases v, 1
  {
    if v.WParen? {
      MinimalIsLeast(v.w, 0);
    } else {
      MinimalIsLeast(v, limit);
    }
  }

  lemma {:induction false} LeftIsLeast(op: BinOpr, l: Written, limit: nat)
    requires Grouped(l, limit) && Stops(l, Left(op))
    ensures var m := Wrap(LeftNeeds(op, Strip(l)), Minimal(Strip(l)));
      |Flat(m)| <= |Flat(l)| && Depth(m) <= Depth(l)
    decreases l, 1
  {
    if l.WParen? {
      MinimalIsLeast(l.w, 0);
    } else {
      MinimalIsLeast(l, limit);
    }
  }

  /** Any text that parses is at least as long as the printing of what it parses to, and the
      printing parses in the same room. */
  lemma PrintIsShortest(toks: seq<Token>, room: nat)
    requires Sub(toks, 0, room).Parsed?
    ensures var r := Sub(toks, 0, room);
      && |Print(Strip(r.w))| <= |toks| - |r.rest|
      && Sub(Print(Strip(r.w)), 0, room).Parsed?
  {
    SubSound(toks, 0, room);
    var r := Sub(toks, 0, room);
    MinimalIsLeast(r.w, 0);
    RoundTrip(Strip(r.w), room, []);
    assert Print(Strip(r.w)) + [] == Print(Strip(r.w));
  }

  // ----- the parser as it runs -----

  datatype Reply = Value(e: Expr) | BadSyntax | CStackOverflow | HasSuffix

  function NextOp(toks: seq<Token>): Option<BinOpr> {
    if toks == [] then None else GetBinOpr(toks[0])
  }

  class LexState {
    const toks: seq<Token>
    var pos: nat      // the current token; past the end it is the end of the stream
    var level: nat    // 'nCcalls'

    ghost predicate Valid()
      reads this
    {
      pos <= |toks| && level < LUAI_MAXCCALLS
    }

    ghost function Room(): nat
      reads this
      requires Valid()
    {
      LUAI_MAXCCALLS - 1 - level
    }

    constructor (toks: seq<Token>, level: nat)
      requires level < LUAI_MAXCCALLS
      ensures Valid() && this.toks == toks && pos == 0 && this.level == level
    {
      this.toks, this.pos, this.level := toks, 0, level;
    }

    /** The state and the reply are those of result 's' of the parser as a function. */
    ghost predicate Replies(s: Result, e: Reply)
      reads this
    {
      match s
      case Parsed(w, rest) => e == Value(Strip(w)) && pos <= |toks| && toks[pos..] == rest
      case SyntaxError => e == BadSyntax
      case StackOverflow => e == CStackOverflow
      case Suffixed => e == HasSuffix
    }

    /** 'subexpr' */
    method SubExpr(limit: nat) returns (e: Reply, op: Option<BinOpr>)
      requires Valid()
      modifies this
      ensures Replies(old(Sub(toks[pos..], limit, Room())), e)
      ensures e.Value? ==> level == old(level) && op == NextOp(toks[pos..])
      decreases |toks| - pos, 1
    {
      hide Head, Rest;
      level := level + 1;
      if level >= LUAI_MAXCCALLS {
        return CStackOverflow, None;
      }
      ghost var start, room := toks[pos..], Room();
      e := HeadExpr();
      if !e.Value? {
        return e, None;
      }
      ghost var h := Head(start, room);
      e, op := Operators(e.e, limit, h.w);
      if e.Value? {
        level := level - 1;
      }
    }

    /** The prefix operator or the simple expression that starts a 'subexpr'. */
    method HeadExpr() returns (e: Reply)
      requires Valid()
      modifies this
      ensures Replies(old(Head(toks[pos..], Room())), e)
      ensures e.Value? ==> level == old(level) && pos > old(pos)
      decreases |toks| - pos, 0
    {
      hide Sub;
      ghost var start, room := toks[pos..], Room();
      if pos == |toks| {
        return BadSyntax;
      }
      var t := toks[pos];
      assert start[0] == t && start[1..] == toks[pos + 1..];
      if GetUnOpr(t).Some? {
        pos := pos + 1;
        var op;
        e, op := SubExpr(UNARY_PRIORITY);
        if e.Value? {
          ProgressAfter(start[1..], UNARY_PRIORITY, room);
          e := Value(Unary(GetUnOpr(t).value, e.e));
        }
        return;
      }
      match t {
        case Atom(id) =>
          pos := pos + 1;
          e := Value(Simple(id));
        case LParen =>
          pos := pos + 1;
          var op;
          e, op := SubExpr(0);
          if e.Value? {
            ProgressAfter(start[1..], 0, room);
            if pos < |toks| && toks[pos] == RParen {
              assert toks[pos..][0] == RParen && toks[pos..][1..] == toks[pos + 1..];
              pos := pos + 1;
              if Opens(toks[pos..]) {
                e := HasSuffix;
              }
            } else {
              e := BadSyntax;
            }
          }
        case _ =>
          e := BadSyntax;
      }
    }

    static lemma ProgressAfter(start: seq<Token>, limit: nat, room: nat)
      ensures var r := Sub(start, limit, room); r.Parsed? ==> |r.rest| < |start|
    {
    }

    /** The loop of 'subexpr' over operators with priorities higher than 'limit'. */
    method Operators(e0: Expr, limit: nat, ghost w0: Written) returns (e: Reply, op: Option<BinOpr>)
      requires Valid() && Strip(w0) == e0
      modifies this
      ensures Replies(old(Rest(w0, toks[pos..], limit, Room())), e)
      ensures e.Value? ==> level == old(level) && op == NextOp(toks[pos..])
      decreases |toks| - pos, 0
    {
      hide Sub, Left, Right, GetBinOpr;
      var v := e0;
      ghost var w, room := w0, Room();
      ghost var whole := Rest(w0, toks[pos..], limit, room);
      op := if pos < |toks| then GetBinOpr(toks[pos]) else None;
      while op.Some? && Left(op.value) > limit
        invariant old(pos) <= pos && Valid() && level == old(level) && Strip(w) == v
        invariant op == NextOp(toks[pos..]) && Rest(w, toks[pos..], limit, room) == whole
        decreases |toks| - pos
      {
        ghost var start := toks[pos..];
        assert start[1..] == toks[pos + 1..];
        pos := pos + 1;
        var nextop;
        e, nextop := SubExpr(Right(op.value));
        if !e.Value? {
          return e, None;
        }
        ProgressAfter(start[1..], Right(op.value), room);
        ghost var r := Sub(start[1..], Right(op.value), room);
        w := WBin(op.value, w, r.w);
        v := Binary(op.value, v, e.e);
        op := nextop;
      }
      e := Value(v);
    }
  }

  lemma {:induction false} LastToken(w: Written)
    ensures Flat(w) != [] && (EndsParen(w) <==> Flat(w)[|Flat(w)| - 1] == RParen)
  {
    match w
    case WUn(_, v) => LastToken(v);
    case WBin(_, _, r) => LastToken(r);
    case _ =>
  }

  /** A field, an index, a method or an argument follows: '.', '[', ':', '(', a string or a table. */
  ghost predicate SuffixFollows(rest: seq<Token>) {
    rest != [] &&
    match rest[0]
    case SuffixToken(_) => true
    case LParen => true
    case Atom(Argument(_)) => true
    case _ => false
  }

  /** 'expr' reads back what the printer wrote, unless it nests too deep. */
  method ParsePrinted(x: Expr, rest: seq<Token>, level: nat) returns (e: Reply)
    requires NextLeft(rest) == 0 && level < LUAI_MAXCCALLS
    ensures Print(x) != []
    ensures e == if level + Depth(Minimal(x)) >= 200 then CStackOverflow
                 else if Print(x)[|Print(x)| - 1] == RParen && SuffixFollows(rest) then HasSuffix else Value(x)
  {
    LastToken(Minimal(x));
    hide Sub, Depth, Minimal, EndsParen;
    var ls := new LexState(Print(x) + rest, level);
    assert ls.toks[0..] == Print(x) + rest;
    RoundTrip(x, ls.Room(), rest);
    var op;
    e, op := ls.SubExpr(0);
  }

  /** 'x t y' parsed: the tree for each operator token. */
  method ParseOperator(x: Token, t: Token, y: Token, level: nat) returns (e: Reply)
    requires x.Atom? && y.Atom? && IsOperator(t) && level + 2 < LUAI_MAXCCALLS
    ensures t == Plus ==> e == Value(Binary(OprAdd, Simple(x.id), Simple(y.id)))
    ensures t == Minus ==> e == Value(Binary(OprSub, Simple(x.id), Simple(y.id)))
    ensures t == Star ==> e == Value(Binary(OprMul, Simple(x.id), Simple(y.id)))
    ensures t == Percent ==> e == Value(Binary(OprMod, Simple(x.id), Simple(y.id)))
    ensures t == Caret ==> e == Value(Binary(OprPow, Simple(x.id), Simple(y.id)))
    ensures t == Slash ==> e == Value(Binary(OprDiv, Simple(x.id), Simple(y.id)))
    ensures t == TkIDiv ==> e == Value(Binary(OprIDiv, Simple(x.id), Simple(y.id)))
    ensures t == Amp ==> e == Value(Binary(OprBAnd, Simple(x.id), Simple(y.id)))
    ensures t == Bar ==> e == Value(Binary(OprBOr, Simple(x.id), Simple(y.id)))
    ensures t == Tilde ==> e == Value(Binary(OprBXor, Simple(x.id), Simple(y.id)))
    ensures t == TkShl ==> e == Value(Binary(OprShl, Simple(x.id), Simple(y.id)))
    ensures t == TkShr ==> e == Value(Binary(OprShr, Simple(x.id), Simple(y.id)))
    ensures t == TkConcat ==> e == Value(Binary(OprConcat, Simple(x.id), Simple(y.id)))
    ensures t == TkNe ==> e == Value(Binary(OprNe, Simple(x.id), Simple(y.id)))
    ensures t == TkEq ==> e == Value(Binary(OprEq, Simple(x.id), Simple(y.id)))
    ensures t == Less ==> e == Value(Binary(OprLt, Simple(x.id), Simple(y.id)))
    ensures t == TkLe ==> e == Value(Binary(OprLe, Simple(x.id), Simple(y.id)))
    ensures t == Greater ==> e == Value(Binary(OprGt, Simple(x.id), Simple(y.id)))
    ensures t == TkGe ==> e == Value(Binary(OprGe, Simple(x.id), Simple(y.id)))
    ensures t == TkAnd ==> e == Value(Binary(OprAnd, Simple(x.id), Simple(y.id)))
    ensures t == TkOr ==> e == Value(Binary(OprOr, Simple(x.id), Simple(y.id)))
  {
    OperatorOf(t);
    ghost var op1 := GetBinOpr(t).value;
    var ls := new LexState([x, t, y], level);
    OneOperator(x, op1, y, ls.Room());
    assert ls.toks[0..] == [x, t, y] == [x, BinToken(op1), y];
    ghost var w := WBin(op1, WAtom(x.id), WAtom(y.id));
    assert Sub(ls.toks[ls.pos..], 0, ls.Room()) == Parsed(w, []);
    assert Strip(w) == Binary(op1, Simple(x.id), Simple(y.id));
    hide Sub;
    var op;
    e, op := ls.SubExpr(0);
    assert e == Value(Binary(op1, Simple(x.id), Simple(y.id)));
  }

  /** 't x' parsed: the tree for each prefix token. */
  method ParsePrefix(t: Token, x: Token, level: nat) returns (e: Reply)
    requires x.Atom? && (t == TkNot || t == Minus || t == Tilde || t == Hash) && level + 2 < LUAI_MAXCCALLS
    ensures t == TkNot ==> e == Value(Unary(OprNot, Simple(x.id)))
    ensures t == Minus ==> e == Value(Unary(OprMinus, Simple(x.id)))
    ensures t == Tilde ==> e == Value(Unary(OprBNot, Simple(x.id)))
    ensures t == Hash ==> e == Value(Unary(OprLen, Simple(x.id)))
  {
    ghost var u := GetUnOpr(t).value;
    var ls := new LexState([t, x], level);
    OnePrefix(u, x, ls.Room());
    assert ls.toks[0..] == [t, x] == [UnToken(u), x];
    ghost var w := WUn(u, WAtom(x.id));
    assert Sub(ls.toks[ls.pos..], 0, ls.Room()) == Parsed(w, []);
    assert Strip(w) == Unary(u, Simple(x.id));
    hide Sub;
    var op;
    e, op := ls.SubExpr(0);
    assert e == Value(Unary(u, Simple(x.id)));
  }
}
