/** Concrete readings of operator chains: each level folds to the left, and a tighter level binds
    before a looser one (`* / %`, then `+ -`, then comparisons, then `&&`, then `||`). */
module Precedence {
  import opened Wrappers
  import opened Text
  import opened Ast
  import opened Parser
  import opened Printer
  import opened ExprRoundTrip

  /** A field-access chain is an expression of every level. */
  lemma {:induction false} ChainInLevel(lv: Level, e: Expr)
    requires IsChain(e)
    ensures InLevel(lv, e) && InOperand(lv, e)
    decreases Rank(lv)
  {
    if lv != Product {
      ChainInLevel(Tighter(lv), e);
    }
  }

  /** A sum is an expression: every looser level takes it as an operand. */
  lemma SumIsExpr(e: Expr)
    requires InLevel(Sum, e)
    ensures IsExpr(e)
  {
    assert InOperand(Comparison, e);
    assert InOperand(Conjunction, e);
    assert InOperand(Disjunction, e);
  }

  /** Nothing can continue an expression at the end of the input. */
  lemma {:induction false} EmptyHalts(lv: Level)
    ensures Halts(lv, "")
    decreases Rank(lv)
  {
    if lv != Product {
      EmptyHalts(Tighter(lv));
    }
  }

  lemma EndFollows()
    ensures Follows(Disjunction, "") && SkipWs("") == ""
  {
    EmptyHalts(Disjunction);
  }

  /** The printed operand text of a chain is separated from its operator by one space. */
  lemma ChainGap(e: Expr)
    requires IsChain(e)
    ensures Gap(ExprText(e)) == " "
  {
    ChainUnsigned(e, "");
    assert ExprText(e) + "" == ExprText(e);
  }

  /** The text of `l op r` when both operands print without a sign. */
  lemma BinaryText(op: BinOp, l: Expr, r: Expr)
    requires Gap(ExprText(r)) == " "
    ensures ExprText(BinaryOp(op, l, r)) == ExprText(l) + (" " + BinToken(op) + " ") + ExprText(r)
  {
    SpacedToken(ExprText(l), BinToken(op), ExprText(r));
  }

  lemma SpacedToken(lt: string, tok: string, rt: string)
    ensures lt + " " + tok + " " + rt == lt + (" " + tok + " ") + rt
  {
  }

  lemma MinusWords()
    ensures " " + BinToken(Sub) + " " == " - "
  {
  }

  lemma PlusWords()
    ensures " " + BinToken(Add) + " " == " + "
  {
  }

  lemma TimesWords()
    ensures " " + BinToken(Mul) + " " == " * "
  {
  }

  /** `a - b - c` is `(a - b) - c`: the sum level folds to the left. */
  lemma SubtractionFoldsLeft(a: Expr, b: Expr, c: Expr)
    requires IsChain(a) && IsChain(b) && IsChain(c)
    ensures ExprRule(ExprText(a) + " - " + ExprText(b) + " - " + ExprText(c))
      == Some((BinaryOp(Sub, BinaryOp(Sub, a, b), c), ""))
  {
    var ab := BinaryOp(Sub, a, b);
    var e := BinaryOp(Sub, ab, c);
    ChainInLevel(Sum, a);
    ChainInLevel(Sum, b);
    ChainInLevel(Sum, c);
    SumIsExpr(e);
    ChainGap(b);
    ChainGap(c);
    BinaryText(Sub, a, b);
    BinaryText(Sub, ab, c);
    MinusWords();
    WholeReads(e);
  }

  /** `a + b * c` is `a + (b * c)`: the product binds first when it comes second. */
  lemma ProductBindsRight(a: Expr, b: Expr, c: Expr)
    requires IsChain(a) && IsChain(b) && IsChain(c)
    ensures ExprRule(ExprText(a) + " + " + ExprText(b) + " * " + ExprText(c))
      == Some((BinaryOp(Add, a, BinaryOp(Mul, b, c)), ""))
  {
    var bc := BinaryOp(Mul, b, c);
    var e := BinaryOp(Add, a, bc);
    ChainInLevel(Sum, a);
    ChainInLevel(Product, b);
    ChainInLevel(Product, c);
    SumIsExpr(e);
    ChainGap(b);
    ChainGap(c);
    assert ExprText(bc)[0] == ExprText(b)[0] by { BinaryText(Mul, b, c); }
    assert Gap(ExprText(bc)) == " ";
    BinaryText(Mul, b, c);
    BinaryText(Add, a, bc);
    PlusWords();
    TimesWords();
    Regroup(ExprText(a), " + ", ExprText(b), " * ", ExprText(c));
    WholeReads(e);
  }

  /** `a * b + c` is `(a * b) + c`: the product binds first when it comes first. */
  lemma ProductBindsLeft(a: Expr, b: Expr, c: Expr)
    requires IsChain(a) && IsChain(b) && IsChain(c)
    ensures ExprRule(ExprText(a) + " * " + ExprText(b) + " + " + ExprText(c))
      == Some((BinaryOp(Add, BinaryOp(Mul, a, b), c), ""))
  {
    var ab := BinaryOp(Mul, a, b);
    var e := BinaryOp(Add, ab, c);
    ChainInLevel(Product, a);
    ChainInLevel(Product, b);
    ChainInLevel(Sum, c);
    assert InLevel(Product, ab);
    assert InLevel(Sum, ab) by { assert InOperand(Sum, ab); }
    SumIsExpr(e);
    ChainGap(b);
    ChainGap(c);
    BinaryText(Mul, a, b);
    BinaryText(Add, ab, c);
    PlusWords();
    TimesWords();
    WholeReads(e);
  }

  /** `x.f.g` is `(x.f).g`: field suffixes fold to the left onto the atom. */
  lemma FieldAccessFoldsLeft(x: string, f: string, g: string)
    requires IsChain(Ident(x)) && IsIdentWord(f) && IsIdentWord(g)
    ensures ExprRule(x + "." + f + "." + g) == Some((FieldAccess(FieldAccess(Ident(x), f), g), ""))
  {
    var e := FieldAccess(FieldAccess(Ident(x), f), g);
    ChainInLevel(Disjunction, e);
    WholeReads(e);
    DotsWords(x, f, g);
  }

  lemma DotsWords(x: string, f: string, g: string)
    ensures ExprText(FieldAccess(FieldAccess(Ident(x), f), g)) == x + "." + f + "." + g
  {
    assert ExprText(Ident(x)) == x;
    assert ExprText(FieldAccess(Ident(x), f)) == x + "." + f;
  }

  /** An expression the grammar can produce reads back from exactly its own text. */
  lemma WholeReads(e: Expr)
    requires IsExpr(e)
    ensures ExprRule(ExprText(e)) == Some((e, ""))
  {
    EndFollows();
    assert ExprText(e) + "" == ExprText(e);
    ExprReads(e, "");
  }

  lemma Regroup(a: string, x: string, b: string, y: string, c: string)
    ensures a + x + (b + y + c) == a + x + b + y + c
  {
  }
}
