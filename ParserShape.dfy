/** What the expression grammar can produce, whatever the input: literals are never signed,
    field accesses and unary operators take the forms the atom rules allow, each binary level
    nests only its own operators over operands of the next level, and `<=` and `>=` never appear. */
module ParserShape {
  import opened Wrappers
  import opened Text
  import opened Decimal
  import opened Ast
  import opened Parser
  import opened Printer

  // ------------------------------------------------------------ operators

  /** Each level's operator choice yields only that level's operators. */
  lemma OperatorLevel(lv: Level, s: string)
    ensures OperatorRule(lv, s).Some? ==> OpLevel(OperatorRule(lv, s).value.0) == Some(lv)
  {
  }

  /** `<` is tried before `<=`: on `<=` the choice takes `<` and leaves `=` behind. */
  lemma LessBeforeLessEqual(rest: string)
    ensures OperatorRule(Comparison, "<=" + rest) == Some((Lt, "=" + rest))
  {
    assert ("<=" + rest)[0] == '<';
    assert !("==" <= "<=" + rest) && !("!=" <= "<=" + rest);
    assert "<" <= "<=" + rest;
    assert ("<=" + rest)[1..] == "=" + rest;
  }

  /** `>` is tried before `>=`: on `>=` the choice takes `>` and leaves `=` behind. */
  lemma GreaterBeforeGreaterEqual(rest: string)
    ensures OperatorRule(Comparison, ">=" + rest) == Some((Gt, "=" + rest))
  {
    assert (">=" + rest)[0] == '>';
    assert !("==" <= ">=" + rest) && !("!=" <= ">=" + rest) && !("<" <= ">=" + rest) && !("<=" <= ">=" + rest);
    assert ">" <= ">=" + rest;
    assert (">=" + rest)[1..] == "=" + rest;
  }

  // ------------------------------------------------------------ literals

  /** A digit string that fits in 64 bits becomes that unsigned number. */
  lemma IntLiteralFits(digits: string)
    requires |digits| > 0 && AllDigits(digits) && Value(digits) < U64_LIMIT
    ensures IntLiteral(digits) == UInt(Value(digits) as u64)
  {
    assert !("-" <= digits) by { assert IsDigit(digits[0]); }
    ParseU64Digits(digits);
  }

  /** A digit string beyond the 64-bit range becomes `0`: the failed conversion is replaced by
      the default. */
  lemma IntLiteralOverflows(digits: string)
    requires |digits| > 0 && AllDigits(digits) && Value(digits) >= U64_LIMIT
    ensures IntLiteral(digits) == UInt(0)
  {
    assert !("-" <= digits) by { assert IsDigit(digits[0]); }
    ParseU64Digits(digits);
  }

  /** `text::int` reads digits only, so the literal rule never yields a signed integer; its strings
      hold no quote. */
  lemma LiteralShape(s: string)
    ensures LiteralRule(s).Some? ==> var l := LiteralRule(s).value.0; l.UInt? || l.Bool? || (l.String? && QuoteFree(l.s))
  {
    var t := SkipWs(s);
    match IntToken(t)
    case Some((digits, rest)) =>
      assert !("-" <= digits) by { assert IsDigit(digits[0]); }
    case None =>
  }

  /** A word the literal rule does not claim starts neither with `true` nor with `false`. */
  lemma IdentNotKeyword(s: string)
    requires LiteralRule(s).None? && IdentRule(s).Some?
    ensures !("true" <= IdentRule(s).value.0) && !("false" <= IdentRule(s).value.0)
  {
    var t := SkipWs(s);
    var x := IdentRule(s).value.0;
    assert x <= t;
  }

  // ------------------------------------------------------------ field accesses and unary forms

  lemma AtomShape(s: string)
    ensures AtomRule(s).Some? ==> IsChain(AtomRule(s).value.0)
  {
    LiteralShape(s);
    if LiteralRule(s).None? && IdentRule(s).Some? {
      IdentNotKeyword(s);
    }
  }

  predicate AllWords(fields: seq<string>) {
    forall k :: 0 <= k < |fields| ==> IsIdentWord(fields[k])
  }

  lemma WordsCons(f: string, fs: seq<string>)
    requires IsIdentWord(f) && AllWords(fs)
    ensures AllWords([f] + fs)
  {
    assert forall k :: 1 <= k < |[f] + fs| ==> ([f] + fs)[k] == fs[k - 1];
  }

  /** Every `.name` suffix is a complete identifier. */
  lemma {:induction false} SuffixesShape(s: string)
    ensures AllWords(FieldSuffixes(s).0)
    decreases |s|
  {
    match Just(".", s)
    case None =>
    case Some(s1) =>
      match IdentRule(s1)
      case None =>
      case Some((f, s2)) =>
        SuffixesShape(s2);
        WordsCons(f, FieldSuffixes(s2).0);
  }

  /** The left fold of field names over a chain is a chain. */
  lemma {:induction false} FoldFieldsShape(obj: Expr, fields: seq<string>)
    requires IsChain(obj) && AllWords(fields)
    ensures IsChain(FoldFields(obj, fields))
    decreases |fields|
  {
    if fields != [] {
      FoldFieldsShape(FieldAccess(obj, fields[0]), fields[1..]);
    }
  }

  lemma FieldAccessShape(s: string)
    ensures FieldAccessRule(s).Some? ==> IsChain(FieldAccessRule(s).value.0)
  {
    match AtomRule(s)
    case None =>
    case Some((atom, s1)) =>
      AtomShape(s);
      SuffixesShape(s1);
      FoldFieldsShape(atom, FieldSuffixes(s1).0);
  }

  /** A unary operator applies to a field access, never to another unary or a binary expression. */
  lemma UnaryShape(s: string)
    ensures UnaryRule(s).Some? ==> IsUnaryForm(UnaryRule(s).value.0)
  {
    FieldAccessShape(s);
    var sign: Option<(UnOp, string)> := OrElse(Tok("!", Not, s), Tok("-", Neg, s));
    if sign.Some? {
      FieldAccessShape(sign.value.1);
    }
  }

  // ------------------------------------------------------------ binary levels

  /** The pairs a level collects: its own operators, each with an operand of that level. */
  predicate TailOk(lv: Level, ops: seq<(BinOp, Expr)>) {
    forall k :: 0 <= k < |ops| ==> OpLevel(ops[k].0) == Some(lv) && InOperand(lv, ops[k].1)
  }

  /** Folding such pairs onto an expression of the level stays in the level. */
  lemma {:induction false} FoldBinaryShape(lv: Level, lhs: Expr, ops: seq<(BinOp, Expr)>)
    requires InLevel(lv, lhs) && TailOk(lv, ops)
    ensures InLevel(lv, FoldBinary(lhs, ops))
    decreases |ops|
  {
    if ops != [] {
      var next := BinaryOp(ops[0].0, lhs, ops[0].1);
      assert InLevel(lv, next);
      assert TailOk(lv, ops[1..]) by {
        assert forall k :: 0 <= k < |ops[1..]| ==> ops[1..][k] == ops[k + 1];
      }
      FoldBinaryShape(lv, next, ops[1..]);
    }
  }

  lemma {:induction false} LevelShape(lv: Level, s: string)
    ensures LevelRule(lv, s).Some? ==> InLevel(lv, LevelRule(lv, s).value.0)
    decreases |s|, Rank(lv), 1
  {
    match Operand(lv, s)
    case None =>
    case Some((first, s1)) =>
      OperandShape(lv, s);
      TailShape(lv, s1);
      FoldBinaryShape(lv, first, LevelTail(lv, s1).0);
  }

  lemma {:induction false} OperandShape(lv: Level, s: string)
    ensures Operand(lv, s).Some? ==> InOperand(lv, Operand(lv, s).value.0)
    decreases |s|, Rank(lv), 0
  {
    if lv == Product {
      UnaryShape(s);
    } else {
      LevelShape(Tighter(lv), s);
    }
  }

  lemma {:induction false} TailShape(lv: Level, s: string)
    ensures TailOk(lv, LevelTail(lv, s).0)
    decreases |s|, Rank(lv), 2
  {
    match OperatorRule(lv, s)
    case None =>
    case Some((op, s1)) =>
      match Operand(lv, s1)
      case None =>
      case Some((rhs, s2)) =>
        OperatorLevel(lv, s);
        OperandShape(lv, s1);
        TailShape(lv, s2);
        TailCons(lv, op, rhs, LevelTail(lv, s2).0);
  }

  lemma TailCons(lv: Level, op: BinOp, rhs: Expr, ops: seq<(BinOp, Expr)>)
    requires OpLevel(op) == Some(lv) && InOperand(lv, rhs) && TailOk(lv, ops)
    ensures TailOk(lv, [(op, rhs)] + ops)
  {
    assert forall k :: 1 <= k < |[(op, rhs)] + ops| ==> ([(op, rhs)] + ops)[k] == ops[k - 1];
  }

  /** Whatever `expr_parser` reads is an expression of the shape the grammar describes. */
  lemma ExprShape(s: string)
    ensures ExprRule(s).Some? ==> IsExpr(ExprRule(s).value.0)
  {
    LevelShape(Disjunction, s);
  }

  // ------------------------------------------------------------ no `<=`, no `>=`

  /** `op` occurs somewhere in `e`. */
  predicate Uses(e: Expr, op: BinOp) {
    match e
    case BinaryOp(o, l, r) => o == op || Uses(l, op) || Uses(r, op)
    case UnaryOp(_, x) => Uses(x, op)
    case FieldAccess(obj, _) => Uses(obj, op)
    case _ => false
  }

  lemma {:induction false} ChainFree(e: Expr, op: BinOp)
    requires IsChain(e)
    ensures !Uses(e, op)
  {
    if e.FieldAccess? {
      ChainFree(e.obj, op);
    }
  }

  /** No operator without a level occurs in an expression of a level. */
  lemma {:induction false} LevelFree(lv: Level, e: Expr, op: BinOp)
    requires InLevel(lv, e) && OpLevel(op).None?
    ensures !Uses(e, op)
    decreases e, Rank(lv), 1
  {
    if e.BinaryOp? && OpLevel(e.op) == Some(lv) && InLevel(lv, e.left) && InOperand(lv, e.right) {
      LevelFree(lv, e.left, op);
      OperandFree(lv, e.right, op);
    } else {
      OperandFree(lv, e, op);
    }
  }

  lemma {:induction false} OperandFree(lv: Level, e: Expr, op: BinOp)
    requires InOperand(lv, e) && OpLevel(op).None?
    ensures !Uses(e, op)
    decreases e, Rank(lv), 0
  {
    if lv == Product {
      if e.UnaryOp? && IsChain(e.operand) {
        ChainFree(e.operand, op);
      } else {
        ChainFree(e, op);
      }
    } else {
      LevelFree(Tighter(lv), e, op);
    }
  }

  /** `a <= b` and `a >= b` can never be read as `Le` or `Ge`. */
  lemma ExprNeverLeGe(s: string)
    ensures ExprRule(s).Some? ==> !Uses(ExprRule(s).value.0, Le) && !Uses(ExprRule(s).value.0, Ge)
  {
    ExprShape(s);
    if ExprRule(s).Some? {
      LevelFree(Disjunction, ExprRule(s).value.0, Le);
      LevelFree(Disjunction, ExprRule(s).value.0, Ge);
    }
  }
}
