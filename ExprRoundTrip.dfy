/** Reading back printed expressions: the text of every expression the grammar can produce
    parses to that expression, whatever follows it, as long as the following text cannot
    continue the expression. */
module ExprRoundTrip {
  import opened Wrappers
  import opened Text
  import opened Decimal
  import opened Ast
  import opened Parser
  import opened Printer

  // ------------------------------------------------------------ scanning

  lemma JustPrefix(k: string, s: string)
    ensures Just(k, k + s) == Some(s)
  {
    assert (k + s)[..|k|] == k;
    assert (k + s)[|k|..] == s;
  }

  /** A word is not the start of `w + rest` when it is not the start of `w`, `w` is an identifier
      and `rest` cannot continue it. */
  lemma WordNotPrefix(word: string, w: string, rest: string)
    requires forall i :: 0 <= i < |word| ==> IsIdentChar(word[i])
    requires !(word <= w) && TokenBoundary(rest)
    ensures !(word <= w + rest)
  {
    if |word| > |w| && |rest| > 0 {
      assert (w + rest)[|w|] == rest[0];
    }
  }

  lemma ConsSplit<T>(s: seq<T>)
    requires |s| > 0
    ensures [s[0]] + s[1..] == s
  {
  }

  lemma SkipWsSolid(t: string)
    requires |t| > 0 && !IsWhitespace(t[0])
    ensures SkipWs(t) == t
  {
    SkipWsNoWhitespace(t);
  }

  /** `ident` reads a whole identifier and the whitespace after it. */
  lemma IdentText(name: string, rest: string)
    requires IsIdentWord(name) && TokenBoundary(rest)
    ensures IdentRule(name + rest) == Some((name, SkipWs(rest)))
  {
    var t := name + rest;
    assert t[0] == name[0];
    SkipWsSolid(t);
    var n := |name| - 1;
    forall i | 0 <= i < n ensures IsIdentChar(t[1..][i]) {
      assert t[1..][i] == name[i + 1];
    }
    if n < |t[1..]| { assert t[1..][n] == rest[0]; }
    CountWhileUnique(IsIdentChar, t[1..], n);
    assert t[..|name|] == name;
    assert t[|name|..] == rest;
  }

  // ------------------------------------------------------------ literals and chains

  /** `text::int(10)` reads the decimal text of a number up to the first non-digit. */
  lemma IntTokenReads(n: nat, rest: string)
    requires TokenBoundary(rest)
    ensures IntToken(Render(n) + rest) == Some((Render(n), rest))
  {
    var digits := Render(n);
    var t := digits + rest;
    assert t[0] == digits[0];
    if n == 0 {
      assert digits == "0";
      JustPrefix("0", rest);
    } else {
      var m := |digits| - 1;
      forall i | 0 <= i < m ensures IsDigit(t[1..][i]) {
        assert t[1..][i] == digits[i + 1];
      }
      if m < |t[1..]| { assert t[1..][m] == rest[0]; }
      CountWhileUnique(IsDigit, t[1..], m);
      assert t[..|digits|] == digits;
      assert t[|digits|..] == rest;
    }
  }

  /** The quoted-string rule reads everything up to the closing quote. */
  lemma StringTokenReads(s: string, rest: string)
    requires QuoteFree(s)
    ensures StringToken("\"" + s + "\"" + rest) == Some((s, rest))
  {
    var t1 := s + "\"" + rest;
    assert "\"" + s + "\"" + rest == "\"" + t1;
    JustPrefix("\"", t1);
    if |s| < |t1| { assert t1[|s|] == '"'; }
    forall i | 0 <= i < |s| ensures NotQuote(t1[i]) {
      assert t1[i] == s[i];
    }
    CountWhileUnique(NotQuote, t1, |s|);
    assert t1[|s|..] == "\"" + rest;
    JustPrefix("\"", rest);
    assert t1[..|s|] == s;
  }

  /** `literal` reads the text of an unsigned, boolean or quote-free string literal. */
  lemma LiteralReads(l: Literal, rest: string)
    requires l.UInt? || l.Bool? || (l.String? && QuoteFree(l.s))
    requires TokenBoundary(rest)
    ensures LiteralRule(LiteralText(l) + rest) == Some((l, SkipWs(rest)))
  {
    var t := LiteralText(l) + rest;
    assert t[0] == LiteralText(l)[0];
    SkipWsSolid(t);
    match l
    case UInt(n) =>
      var digits := Render(n as int);
      IntTokenReads(n as int, rest);
      assert !("-" <= digits);
      ParseU64Render(n);
      assert IntLiteral(digits) == l;
    case Bool(b) =>
      assert IntToken(t) == None;
      if b {
        JustPrefix("true", rest);
      } else {
        JustPrefix("false", rest);
        assert !("true" <= t);
      }
    case String(s) =>
      assert IntToken(t) == None;
      assert !("true" <= t) && !("false" <= t);
      StringTokenReads(s, rest);
  }

  /** `atom` reads an identifier or a literal of a chain's base. */
  lemma AtomReads(a: Expr, rest: string)
    requires (a.Ident? || a.Literal?) && IsChain(a) && TokenBoundary(rest)
    ensures AtomRule(ExprText(a) + rest) == Some((a, SkipWs(rest)))
  {
    match a
    case Literal(l) =>
      LiteralReads(l, rest);
    case Ident(x) =>
      var t := x + rest;
      assert t[0] == x[0];
      SkipWsSolid(t);
      WordNotPrefix("true", x, rest);
      WordNotPrefix("false", x, rest);
      assert LiteralRule(t) == None;
      IdentText(x, rest);
  }

  /** `just(".").ignore_then(ident).repeated()` reads back printed suffixes. */
  lemma {:induction false} DotsReads(fields: seq<string>, rest: string)
    requires forall i :: 0 <= i < |fields| ==> IsIdentWord(fields[i])
    requires TokenBoundary(rest) && !("." <= SkipWs(rest))
    ensures FieldSuffixes(SkipWs(DotsText(fields) + rest)) == (fields, SkipWs(rest))
  {
    if fields == [] {
      assert DotsText(fields) + rest == rest;
    } else {
      var tail := DotsText(fields[1..]) + rest;
      ConsSplit(fields);
      DotsCons(fields, rest);
      DotsBoundary(fields[1..], rest);
      DotsReads(fields[1..], rest);
      DotStep(fields[0], tail, fields[1..], SkipWs(rest));
    }
  }

  lemma DotsCons(fields: seq<string>, rest: string)
    requires fields != []
    ensures DotsText(fields) + rest == "." + (fields[0] + (DotsText(fields[1..]) + rest))
  {
  }

  /** Printed suffixes start with a dot, so they cannot continue an identifier. */
  lemma DotsBoundary(fields: seq<string>, rest: string)
    requires TokenBoundary(rest)
    ensures TokenBoundary(DotsText(fields) + rest)
  {
    if fields != [] {
      DotsCons(fields, rest);
    }
  }

  /** One printed `.name` suffix is read, and reading carries on after it. */
  lemma DotStep(f: string, tail: string, fields: seq<string>, t2: string)
    requires IsIdentWord(f) && TokenBoundary(tail)
    requires FieldSuffixes(SkipWs(tail)) == (fields, t2)
    ensures FieldSuffixes(SkipWs("." + (f + tail))) == ([f] + fields, t2)
  {
    var t := "." + (f + tail);
    SkipWsSolid(t);
    JustPrefix(".", f + tail);
    IdentText(f, tail);
  }

  /** `field_access` reads back the text of a chain followed by further suffixes. */
  lemma {:induction false} ChainReads(e: Expr, fields: seq<string>, rest: string)
    requires IsChain(e)
    requires forall i :: 0 <= i < |fields| ==> IsIdentWord(fields[i])
    requires TokenBoundary(rest) && !("." <= SkipWs(rest))
    ensures FieldAccessRule(ExprText(e) + DotsText(fields) + rest) == Some((FoldFields(e, fields), SkipWs(rest)))
  {
    match e
    case FieldAccess(obj, f) =>
      var more := [f] + fields;
      FieldMoves(obj, f, fields, rest);
      ChainReads(obj, more, rest);
    case _ =>
      BaseReads(e, fields, rest);
  }

  /** The last field access of a chain, seen as one more suffix of its object. */
  lemma FieldMoves(obj: Expr, f: string, fields: seq<string>, rest: string)
    requires IsIdentWord(f) && forall i :: 0 <= i < |fields| ==> IsIdentWord(fields[i])
    ensures ExprText(FieldAccess(obj, f)) + DotsText(fields) + rest == ExprText(obj) + DotsText([f] + fields) + rest
    ensures FoldFields(obj, [f] + fields) == FoldFields(FieldAccess(obj, f), fields)
    ensures forall i :: 0 <= i < |[f] + fields| ==> IsIdentWord(([f] + fields)[i])
  {
    var more := [f] + fields;
    assert more[1..] == fields;
    forall i | 0 <= i < |more| ensures IsIdentWord(more[i]) {
      if i > 0 { assert more[i] == fields[i - 1]; }
    }
  }

  /** The base of a chain and the suffixes printed after it. */
  lemma BaseReads(e: Expr, fields: seq<string>, rest: string)
    requires (e.Ident? || e.Literal?) && IsChain(e)
    requires forall i :: 0 <= i < |fields| ==> IsIdentWord(fields[i])
    requires TokenBoundary(rest) && !("." <= SkipWs(rest))
    ensures FieldAccessRule(ExprText(e) + DotsText(fields) + rest) == Some((FoldFields(e, fields), SkipWs(rest)))
  {
    var tail := DotsText(fields) + rest;
    assert ExprText(e) + DotsText(fields) + rest == ExprText(e) + tail;
    DotsBoundary(fields, rest);
    AtomReads(e, tail);
    DotsReads(fields, rest);
    FieldAccessStep(ExprText(e) + tail, e, SkipWs(tail), fields, SkipWs(rest));
  }

  /** `field_access` is an atom followed by suffixes. */
  lemma FieldAccessStep(t: string, atom: Expr, t1: string, fields: seq<string>, t2: string)
    requires AtomRule(t) == Some((atom, t1))
    requires FieldSuffixes(t1) == (fields, t2)
    ensures FieldAccessRule(t) == Some((FoldFields(atom, fields), t2))
  {
  }

  /** `unary` with a sign in front. */
  lemma SignedStep(t: string, op: UnOp, t1: string, x: Expr, t2: string)
    requires t == UnOpText(op) + t1
    requires FieldAccessRule(t1) == Some((x, t2))
    ensures UnaryRule(t) == Some((UnaryOp(op, x), t2))
  {
    JustPrefix(UnOpText(op), t1);
  }

  /** `unary` without a sign falls back to `field_access`. */
  lemma UnsignedStep(t: string, x: Expr, t2: string)
    requires |t| > 0 && t[0] != '!' && t[0] != '-'
    requires FieldAccessRule(t) == Some((x, t2))
    ensures UnaryRule(t) == Some((x, t2))
  {
  }

  /** The text of a chain starts with an identifier character or a quote. */
  lemma {:induction false} ChainLead(e: Expr)
    requires IsChain(e)
    ensures |ExprText(e)| > 0
    ensures IsIdentChar(ExprText(e)[0]) || ExprText(e)[0] == '"'
  {
    match e
    case FieldAccess(obj, f) => ChainLead(obj);
    case Ident(x) =>
    case Literal(l) =>
  }

  /** `field_access` reads back a whole chain. */
  lemma ChainReadsAll(e: Expr, rest: string)
    requires IsChain(e)
    requires TokenBoundary(rest) && !("." <= SkipWs(rest))
    ensures FieldAccessRule(ExprText(e) + rest) == Some((e, SkipWs(rest)))
  {
    NoDots(ExprText(e), rest);
    assert FoldFields(e, []) == e;
    ChainReads(e, [], rest);
  }

  lemma NoDots(x: string, rest: string)
    ensures x + DotsText([]) + rest == x + rest
  {
    assert DotsText([]) == "";
    assert x + "" == x;
  }

  lemma UnaryTextCons(op: UnOp, x: Expr, rest: string)
    ensures ExprText(UnaryOp(op, x)) + rest == UnOpText(op) + (ExprText(x) + rest)
  {
  }

  /** The text of a chain, and anything after it, does not start with a sign. */
  lemma ChainUnsigned(e: Expr, rest: string)
    requires IsChain(e)
    ensures |ExprText(e) + rest| > 0
    ensures (ExprText(e) + rest)[0] != '!' && (ExprText(e) + rest)[0] != '-'
  {
    ChainLead(e);
    assert (ExprText(e) + rest)[0] == ExprText(e)[0];
  }

  /** `unary` reads back the text of a unary form. */
  lemma UnaryReads(e: Expr, rest: string)
    requires IsUnaryForm(e)
    requires TokenBoundary(rest) && !("." <= SkipWs(rest))
    ensures UnaryRule(ExprText(e) + rest) == Some((e, SkipWs(rest)))
  {
    match e
    case UnaryOp(op, x) =>
      UnaryTextCons(op, x, rest);
      ChainReadsAll(x, rest);
      SignedStep(ExprText(e) + rest, op, ExprText(x) + rest, x, SkipWs(rest));
    case _ =>
      ChainUnsigned(e, rest);
      ChainReadsAll(e, rest);
      UnsignedStep(ExprText(e) + rest, e, SkipWs(rest));
  }

  // ------------------------------------------------------------ binary levels

  /** Nothing at level `lv` or any tighter level can continue into `t`: no field suffix, and no
      operator of those levels followed by an operand. */
  predicate Halts(lv: Level, t: string)
    decreases Rank(lv)
  {
    !("." <= t)
    && (match OperatorRule(lv, t) case None => true case Some((_, u)) => Operand(lv, u).None?)
    && (lv != Product ==> Halts(Tighter(lv), t))
  }

  /** `rest` may follow an expression of level `lv`. */
  predicate Follows(lv: Level, rest: string) {
    TokenBoundary(rest) && Halts(lv, SkipWs(rest))
  }

  /** `rest` may follow an operand of level `lv`. */
  predicate OperandFollows(lv: Level, rest: string) {
    if lv == Product then TokenBoundary(rest) && !("." <= SkipWs(rest)) else Follows(Tighter(lv), rest)
  }

  /** Every pair is an operator of level `lv` with an operand of that level. */
  predicate OpsAt(lv: Level, ops: seq<(BinOp, Expr)>) {
    forall i :: 0 <= i < |ops| ==> OpLevel(ops[i].0) == Some(lv) && InOperand(lv, ops[i].1)
  }

  function ExprSize(e: Expr): nat {
    match e
    case Ident(_) => 1
    case Literal(_) => 1
    case FieldAccess(obj, _) => 1 + ExprSize(obj)
    case UnaryOp(_, x) => 1 + ExprSize(x)
    case BinaryOp(_, l, r) => 2 + ExprSize(l) + ExprSize(r)
  }

  function OpsSize(ops: seq<(BinOp, Expr)>): nat {
    if ops == [] then 0 else 1 + ExprSize(ops[0].1) + OpsSize(ops[1..])
  }

  // text equalities

  lemma OpsEmpty(rest: string)
    ensures OpsText([]) + rest == rest
  {
  }

  lemma OpsCons(ops: seq<(BinOp, Expr)>, rest: string)
    requires ops != []
    ensures OpsText(ops) + rest
      == " " + (BinToken(ops[0].0) + (Gap(ExprText(ops[0].1)) + (ExprText(ops[0].1) + (OpsText(ops[1..]) + rest))))
  {
    var rt := ExprText(ops[0].1);
    assert OpsText(ops) == " " + BinToken(ops[0].0) + Gap(rt) + rt + OpsText(ops[1..]);
    Chain5(" ", BinToken(ops[0].0), Gap(rt), rt, OpsText(ops[1..]), rest);
  }

  lemma Chain5(a: string, b: string, c: string, d: string, e: string, f: string)
    ensures (a + b + c + d + e) + f == a + (b + (c + (d + (e + f))))
  {
  }

  /** The pair text of one pair in front of others. */
  lemma OpsOne(op: BinOp, r: Expr, ops: seq<(BinOp, Expr)>)
    ensures OpsText([(op, r)] + ops) == " " + BinToken(op) + Gap(ExprText(r)) + ExprText(r) + OpsText(ops)
  {
    assert ([(op, r)] + ops)[1..] == ops;
  }

  /** A binary expression printed in front of further pairs is its left operand in front of one more pair. */
  lemma BinaryTextCons(op: BinOp, l: Expr, r: Expr, ops: seq<(BinOp, Expr)>, rest: string)
    ensures ExprText(BinaryOp(op, l, r)) + (OpsText(ops) + rest) == ExprText(l) + (OpsText([(op, r)] + ops) + rest)
  {
    var rt := ExprText(r);
    OpsOne(op, r, ops);
    PairRegroup(ExprText(l), BinToken(op), Gap(rt), rt, OpsText(ops), rest, OpsText([(op, r)] + ops));
  }

  lemma PairRegroup(lt: string, tok: string, g: string, rt: string, more: string, rest: string, pairs: string)
    requires pairs == " " + tok + g + rt + more
    ensures (lt + " " + tok + g + rt) + (more + rest) == lt + (pairs + rest)
  {
  }

  lemma SpaceThenSolid(x: string, y: string)
    requires |x| > 0 && !IsWhitespace(x[0])
    ensures SkipWs(" " + (x + y)) == x + y
  {
    SkipWsPrefix(" ", x + y);
    assert (x + y)[0] == x[0];
    SkipWsSolid(x + y);
  }

  lemma GapText(rt: string, y: string)
    requires |rt| > 0
    ensures Gap(rt) == "" ==> Gap(rt) + (rt + y) == rt + y
    ensures Gap(rt) == " " ==> (rt + y)[0] != '!' && (rt + y)[0] != '-'
    ensures Gap(rt) == "" || Gap(rt) == " "
  {
    assert (rt + y)[0] == rt[0];
  }

  /** The text of a printable expression is never empty. */
  lemma LevelTextNonEmpty(lv: Level, e: Expr)
    requires InLevel(lv, e)
    ensures |ExprText(e)| > 0
    decreases e, Rank(lv)
  {
    if e.BinaryOp? && OpLevel(e.op) == Some(lv) && InLevel(lv, e.left) && InOperand(lv, e.right) {
      LevelTextNonEmpty(lv, e.left);
    } else if lv == Product {
      if IsChain(e) { ChainLead(e); }
    } else {
      LevelTextNonEmpty(Tighter(lv), e);
    }
  }

  lemma OperandTextNonEmpty(lv: Level, e: Expr)
    requires InOperand(lv, e)
    ensures |ExprText(e)| > 0
  {
    if lv == Product {
      if IsChain(e) { ChainLead(e); }
    } else {
      LevelTextNonEmpty(Tighter(lv), e);
    }
  }

  // facts about the folds

  lemma FoldCons(op: BinOp, l: Expr, r: Expr, ops: seq<(BinOp, Expr)>)
    ensures FoldBinary(l, [(op, r)] + ops) == FoldBinary(BinaryOp(op, l, r), ops)
  {
    assert ([(op, r)] + ops)[1..] == ops;
  }

  lemma OpsAtCons(lv: Level, op: BinOp, r: Expr, ops: seq<(BinOp, Expr)>)
    requires OpLevel(op) == Some(lv) && InOperand(lv, r) && OpsAt(lv, ops)
    ensures OpsAt(lv, [(op, r)] + ops)
    ensures OpsSize([(op, r)] + ops) == 1 + ExprSize(r) + OpsSize(ops)
  {
    var more := [(op, r)] + ops;
    assert more[1..] == ops;
    forall i | 0 <= i < |more| ensures OpLevel(more[i].0) == Some(lv) && InOperand(lv, more[i].1) {
      if i > 0 { assert more[i] == ops[i - 1]; }
    }
  }

  lemma OpsAtTail(lv: Level, ops: seq<(BinOp, Expr)>)
    requires ops != [] && OpsAt(lv, ops)
    ensures OpsAt(lv, ops[1..])
    ensures OpLevel(ops[0].0) == Some(lv) && InOperand(lv, ops[0].1)
  {
    forall i | 0 <= i < |ops[1..]| ensures OpLevel(ops[1..][i].0) == Some(lv) && InOperand(lv, ops[1..][i].1) {
      assert ops[1..][i] == ops[i + 1];
    }
  }

  // operator tokens

  /** The operator choice of a level reads the token of each of its own operators. */
  lemma OperatorToken(lv: Level, op: BinOp, x: string)
    requires OpLevel(op) == Some(lv)
    ensures OperatorRule(lv, BinToken(op) + x) == Some((op, x))
  {
    var t := BinToken(op) + x;
    JustPrefix(BinToken(op), x);
    assert t[0] == BinToken(op)[0];
    if |BinToken(op)| > 1 { assert t[1] == BinToken(op)[1]; }
  }

  /** The operator tokens of different levels begin with different characters. */
  lemma ForeignToken(m: Level, op: BinOp, x: string)
    requires OpLevel(op).Some? && OpLevel(op) != Some(m)
    ensures OperatorRule(m, BinToken(op) + x) == None
  {
    var t := BinToken(op) + x;
    assert t[0] == BinToken(op)[0];
  }

  /** Text that starts with an operator token halts every tighter level. */
  lemma HaltsAtToken(m: Level, op: BinOp, x: string)
    requires OpLevel(op).Some? && Rank(m) < Rank(OpLevel(op).value)
    ensures Halts(m, BinToken(op) + x)
    decreases Rank(m)
  {
    var t := BinToken(op) + x;
    assert t[0] == BinToken(op)[0];
    ForeignToken(m, op, x);
    if m != Product { HaltsAtToken(Tighter(m), op, x); }
  }

  // parser composition

  lemma LevelStep(lv: Level, t: string, first: Expr, t1: string, ops: seq<(BinOp, Expr)>, t2: string)
    requires Operand(lv, t) == Some((first, t1))
    requires LevelTail(lv, t1) == (ops, t2)
    ensures LevelRule(lv, t) == Some((FoldBinary(first, ops), t2))
  {
  }

  lemma TailStep(lv: Level, t: string, op: BinOp, t1: string, rhs: Expr, t2: string, ops: seq<(BinOp, Expr)>, t3: string)
    requires OperatorRule(lv, t) == Some((op, t1))
    requires Operand(lv, t1) == Some((rhs, t2))
    requires LevelTail(lv, t2) == (ops, t3)
    ensures LevelTail(lv, t) == ([(op, rhs)] + ops, t3)
  {
  }

  lemma TailStop(lv: Level, t: string)
    requires Halts(lv, t)
    ensures LevelTail(lv, t) == ([], t)
  {
  }

  /** A space in front of an unsigned operand changes nothing. */
  lemma AtomSpace(t: string)
    ensures AtomRule(" " + t) == AtomRule(t)
  {
    SkipWsPrefix(" ", t);
    LiteralSameStart(" " + t, t);
    IdentSameStart(" " + t, t);
  }

  /** The literal rule sees only what follows the leading white space. */
  lemma LiteralSameStart(s: string, s': string)
    requires SkipWs(s) == SkipWs(s')
    ensures LiteralRule(s) == LiteralRule(s')
  {
  }

  /** So does the identifier rule. */
  lemma IdentSameStart(s: string, s': string)
    requires SkipWs(s) == SkipWs(s')
    ensures IdentRule(s) == IdentRule(s')
  {
  }

  lemma UnarySpace(t: string)
    requires |t| > 0 && t[0] != '!' && t[0] != '-'
    ensures UnaryRule(" " + t) == UnaryRule(t)
  {
    AtomSpace(t);
    FieldAccessSameAtom(" " + t, t);
    assert (" " + t)[0] == ' ';
    UnsignedIsField(" " + t);
    UnsignedIsField(t);
  }

  lemma FieldAccessSameAtom(s: string, s': string)
    requires AtomRule(s) == AtomRule(s')
    ensures FieldAccessRule(s) == FieldAccessRule(s')
  {
  }

  /** Without a sign in front, `unary` is `field_access`. */
  lemma UnsignedIsField(s: string)
    requires |s| > 0 && s[0] != '!' && s[0] != '-'
    ensures UnaryRule(s) == FieldAccessRule(s)
  {
  }

  lemma OperandSpace(lv: Level, t: string)
    requires |t| > 0 && t[0] != '!' && t[0] != '-'
    ensures Operand(lv, " " + t) == Operand(lv, t)
    ensures lv != Product ==> LevelRule(Tighter(lv), " " + t) == LevelRule(Tighter(lv), t)
    decreases Rank(lv)
  {
    if lv == Product {
      UnarySpace(t);
    } else {
      OperandSpace(Tighter(lv), t);
    }
  }

  lemma GapOperand(lv: Level, rt: string, y: string)
    requires |rt| > 0
    ensures Operand(lv, Gap(rt) + (rt + y)) == Operand(lv, rt + y)
  {
    GapText(rt, y);
    if Gap(rt) == " " { OperandSpace(lv, rt + y); }
  }

  /** An operator token of level `lv` after a space ends an operand of that level. */
  lemma TokenFollows(lv: Level, op: BinOp, y: string)
    requires OpLevel(op) == Some(lv)
    ensures OperandFollows(lv, " " + (BinToken(op) + y))
  {
    SpaceThenSolid(BinToken(op), y);
    assert (BinToken(op) + y)[0] == BinToken(op)[0];
    if lv != Product { HaltsAtToken(Tighter(lv), op, y); }
  }

  lemma HaltsTighter(lv: Level, rest: string)
    requires Follows(lv, rest)
    ensures OperandFollows(lv, rest)
  {
  }

  /** What follows the first operand of a level lets that operand end there. */
  lemma OpsFollow(lv: Level, ops: seq<(BinOp, Expr)>, rest: string)
    requires OpsAt(lv, ops) && Follows(lv, rest)
    ensures OperandFollows(lv, OpsText(ops) + rest)
  {
    if ops == [] {
      OpsEmpty(rest);
      HaltsTighter(lv, rest);
    } else {
      var rt := ExprText(ops[0].1);
      OpsCons(ops, rest);
      OpsAtTail(lv, ops);
      TokenFollows(lv, ops[0].0, Gap(rt) + (rt + (OpsText(ops[1..]) + rest)));
    }
  }

  /** One printed pair of level `lv` reads back, and reading carries on after it. */
  lemma PairStep(lv: Level, op: BinOp, r: Expr, after: string, ops: seq<(BinOp, Expr)>, t3: string)
    requires OpLevel(op) == Some(lv) && |ExprText(r)| > 0
    requires Operand(lv, ExprText(r) + after) == Some((r, SkipWs(after)))
    requires LevelTail(lv, SkipWs(after)) == (ops, t3)
    ensures LevelTail(lv, SkipWs(" " + (BinToken(op) + (Gap(ExprText(r)) + (ExprText(r) + after))))) == ([(op, r)] + ops, t3)
  {
    var rt := ExprText(r);
    PairStepAt(lv, op, r, rt, Gap(rt) + (rt + after), after, ops, t3);
  }

  /** Every operator token starts with a character that is not white space. */
  lemma BinTokenLead(op: BinOp)
    ensures |BinToken(op)| > 0 && !IsWhitespace(BinToken(op)[0])
  {
  }

  lemma PairStepAt(lv: Level, op: BinOp, r: Expr, rt: string, y: string, after: string, ops: seq<(BinOp, Expr)>, t3: string)
    requires OpLevel(op) == Some(lv) && |rt| > 0 && rt == ExprText(r) && y == Gap(rt) + (rt + after)
    requires Operand(lv, rt + after) == Some((r, SkipWs(after)))
    requires LevelTail(lv, SkipWs(after)) == (ops, t3)
    ensures LevelTail(lv, SkipWs(" " + (BinToken(op) + y))) == ([(op, r)] + ops, t3)
  {
    BinTokenLead(op);
    SpaceThenSolid(BinToken(op), y);
    OperatorToken(lv, op, y);
    GapOperand(lv, rt, after);
    TailStep(lv, BinToken(op) + y, op, y, r, SkipWs(after), ops, t3);
  }

  /** Level `lv` reads back an expression of that level followed by further pairs of the level. */
  lemma {:induction false} LevelReads(lv: Level, e: Expr, ops: seq<(BinOp, Expr)>, rest: string)
    requires InLevel(lv, e) && OpsAt(lv, ops) && Follows(lv, rest)
    ensures LevelRule(lv, ExprText(e) + (OpsText(ops) + rest)) == Some((FoldBinary(e, ops), SkipWs(rest)))
    decreases ExprSize(e) + OpsSize(ops), Rank(lv), 2
  {
    if e.BinaryOp? && OpLevel(e.op) == Some(lv) && InLevel(lv, e.left) && InOperand(lv, e.right) {
      BinaryTextCons(e.op, e.left, e.right, ops, rest);
      FoldCons(e.op, e.left, e.right, ops);
      OpsAtCons(lv, e.op, e.right, ops);
      LevelReads(lv, e.left, [(e.op, e.right)] + ops, rest);
    } else {
      var after := OpsText(ops) + rest;
      OpsFollow(lv, ops, rest);
      OperandReads(lv, e, after);
      TailReads(lv, ops, rest);
      LevelStep(lv, ExprText(e) + after, e, SkipWs(after), ops, SkipWs(rest));
    }
  }

  /** An operand of level `lv` reads back. */
  lemma {:induction false} OperandReads(lv: Level, e: Expr, rest: string)
    requires InOperand(lv, e) && OperandFollows(lv, rest)
    ensures Operand(lv, ExprText(e) + rest) == Some((e, SkipWs(rest)))
    decreases ExprSize(e), Rank(lv), 1
  {
    if lv == Product {
      UnaryReads(e, rest);
    } else {
      OpsEmpty(rest);
      LevelReads(Tighter(lv), e, [], rest);
    }
  }

  /** The `(operator, operand)` pairs of level `lv` read back. */
  lemma {:induction false} TailReads(lv: Level, ops: seq<(BinOp, Expr)>, rest: string)
    requires OpsAt(lv, ops) && Follows(lv, rest)
    ensures LevelTail(lv, SkipWs(OpsText(ops) + rest)) == (ops, SkipWs(rest))
    decreases OpsSize(ops), Rank(lv), 0
  {
    if ops == [] {
      OpsEmpty(rest);
      TailStop(lv, SkipWs(rest));
    } else {
      var after := OpsText(ops[1..]) + rest;
      OpsCons(ops, rest);
      ConsSplit(ops);
      OpsAtTail(lv, ops);
      OperandTextNonEmpty(lv, ops[0].1);
      OpsFollow(lv, ops[1..], rest);
      OperandReads(lv, ops[0].1, after);
      TailReads(lv, ops[1..], rest);
      PairStep(lv, ops[0].0, ops[0].1, after, ops[1..], SkipWs(rest));
    }
  }

  /** `expr_parser` reads back the text of every expression it can produce. */
  lemma ExprReads(e: Expr, rest: string)
    requires IsExpr(e) && Follows(Disjunction, rest)
    ensures ExprRule(ExprText(e) + rest) == Some((e, SkipWs(rest)))
  {
    OpsEmpty(rest);
    LevelReads(Disjunction, e, [], rest);
  }
}
