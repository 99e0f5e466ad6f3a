/** Reading back printed statements, instruction blocks and whole programs: for every program the
    printer can print, `parse` of its text gives the program back. */
module StmtRoundTrip {
  import opened Wrappers
  import opened Text
  import opened Ast
  import opened Parser
  import opened Printer
  import opened ExprRoundTrip
  import opened DeclRoundTrip

  // ------------------------------------------------------------ where a statement line ends

  /** Text that starts with a character other than whitespace. */
  predicate Solid(t: string) { |t| > 0 && !IsWhitespace(t[0]) }

  /** Text that can begin the line after a printed statement: the next statement or the closing
      brace of the body.  It cannot continue an expression, an optional message or an optional
      `signer` clause. */
  predicate LineStart(t: string) {
    |t| > 0
    && (t[0] == '}' || t[0] == '"' || IsIdentChar(t[0]) || (t[0] == '!' && !("!=" <= t)))
    && !("signer" <= t)
  }

  /** The text of a statement that none of the statements tried before assignment and expression
      statements can read. */
  predicate ExprStatementStart(t: string) {
    LineStart(t) && !("init" <= t) && !("require" <= t)
  }

  /** Text with no field suffix and no operator of any level at its start. */
  predicate Inert(t: string) {
    |t| > 0
    && t[0] != '.' && t[0] != '*' && t[0] != '/' && t[0] != '%' && t[0] != '+' && t[0] != '-'
    && t[0] != '=' && t[0] != '<' && t[0] != '>' && t[0] != '&' && t[0] != '|'
    && !("!=" <= t)
  }

  lemma {:induction false} InertHalts(lv: Level, t: string)
    requires Inert(t)
    ensures Halts(lv, t)
    decreases Rank(lv)
  {
    assert OperatorRule(lv, t) == None;
    if lv != Product { InertHalts(Tighter(lv), t); }
  }

  /** A line break and the start of a line end an expression. */
  lemma LineFollows(tail: string)
    requires LineStart(SkipWs(tail))
    ensures Follows(Disjunction, "\n" + tail)
    ensures SkipWs("\n" + tail) == SkipWs(tail)
  {
    var t := SkipWs(tail);
    SkipWsPrefix("\n", tail);
    LineStartInert(t);
    InertHalts(Disjunction, t);
    assert ("\n" + tail)[0] == '\n';
  }

  lemma LineStartInert(t: string)
    requires LineStart(t)
    ensures Inert(t)
  {
  }

  /** No assignment operator starts a line. */
  lemma LineNoAssignOp(t: string)
    requires LineStart(t)
    ensures AssignOpRule(t) == None
  {
    SkipWsSolid(t);
  }

  /** No text can be read as an operand from a character that starts no operand. */
  lemma {:induction false} OperandFails(lv: Level, u: string)
    requires Solid(u) && !IsIdentChar(u[0]) && u[0] != '"' && u[0] != '!' && u[0] != '-'
    ensures Operand(lv, u) == None
    ensures LevelRule(lv, u) == None
    decreases Rank(lv)
  {
    SkipWsSolid(u);
    assert IntToken(u) == None && StringToken(u) == None;
    assert LiteralRule(u) == None;
    if lv != Product { OperandFails(Tighter(lv), u); }
  }

  // ------------------------------------------------------------ how statement texts start

  /** The text after the leftmost unary form of an expression. */
  function HeadRest(e: Expr, x: string): string {
    if e.BinaryOp? then HeadRest(e.left, " " + (BinToken(e.op) + (Gap(ExprText(e.right)) + (ExprText(e.right) + x))))
    else x
  }

  lemma {:induction false} HeadSplit(e: Expr, x: string)
    ensures ExprText(e) + x == ExprText(Head(e)) + HeadRest(e, x)
    ensures TokenBoundary(x) ==> TokenBoundary(HeadRest(e, x))
  {
    if e.BinaryOp? {
      var y := " " + (BinToken(e.op) + (Gap(ExprText(e.right)) + (ExprText(e.right) + x)));
      assert ExprText(e) + x == ExprText(e.left) + y;
      HeadSplit(e.left, y);
    }
  }

  /** Every expression the grammar yields starts with a unary form. */
  lemma {:induction false} HeadUnary(lv: Level, e: Expr)
    requires InLevel(lv, e)
    ensures IsUnaryForm(Head(e))
    decreases e, Rank(lv)
  {
    if e.BinaryOp? && OpLevel(e.op) == Some(lv) && InLevel(lv, e.left) && InOperand(lv, e.right) {
      HeadUnary(lv, e.left);
    } else if lv != Product {
      HeadUnary(Tighter(lv), e);
    }
  }

  lemma UnaryFormSolid(h: Expr, y: string)
    requires IsUnaryForm(h)
    ensures Solid(ExprText(h) + y)
  {
    if h.UnaryOp? {
      UnaryTextCons(h.unOp, h.operand, y);
    } else {
      ChainLead(h);
      assert (ExprText(h) + y)[0] == ExprText(h)[0];
    }
  }

  /** The text of an expression starts with something other than whitespace. */
  lemma ExprSolid(e: Expr, x: string)
    requires IsExpr(e)
    ensures Solid(ExprText(e) + x)
  {
    HeadSplit(e, x);
    HeadUnary(Disjunction, e);
    UnaryFormSolid(Head(e), HeadRest(e, x));
  }

  /** The text of a chain whose base is not one of the statement keywords. */
  lemma {:induction false} ChainStarts(c: Expr, y: string)
    requires IsChain(c) && TokenBoundary(y)
    requires Base(c).Ident? ==> !("init" <= Base(c).id) && !("require" <= Base(c).id) && !("signer" <= Base(c).id)
    ensures ExprStatementStart(ExprText(c) + y)
  {
    match c
    case FieldAccess(obj, f) =>
      assert ExprText(c) + y == ExprText(obj) + ("." + (f + y));
      ChainStarts(obj, "." + (f + y));
    case Ident(x) =>
      assert (x + y)[0] == x[0];
      WordNotPrefix("init", x, y);
      WordNotPrefix("require", x, y);
      WordNotPrefix("signer", x, y);
    case Literal(l) =>
      LiteralStarts(l, y);
  }

  lemma LiteralStarts(l: Literal, y: string)
    requires l.UInt? || l.Bool? || l.String?
    ensures ExprStatementStart(LiteralText(l) + y)
  {
    var t := LiteralText(l) + y;
    assert t[0] == LiteralText(l)[0];
    if l.UInt? {
      assert IsDigit(t[0]);
    } else if l.Bool? {
      assert t[0] == 't' || t[0] == 'f';
    } else {
      assert t[0] == '"';
    }
  }

  lemma UnaryStarts(h: Expr, y: string)
    requires IsUnaryForm(h) && HeadOk(h) && TokenBoundary(y)
    ensures ExprStatementStart(ExprText(h) + y)
  {
    if h.UnaryOp? {
      UnaryTextCons(h.unOp, h.operand, y);
      ChainLead(h.operand);
      var t := ExprText(h) + y;
      assert t[1] == ExprText(h.operand)[0];
    } else {
      ChainStarts(h, y);
    }
  }

  /** The text of an expression statement is read by none of the statements tried before it. */
  lemma ExprStarts(e: Expr, x: string)
    requires IsExpr(e) && HeadOk(e) && TokenBoundary(x)
    ensures ExprStatementStart(ExprText(e) + x)
  {
    HeadSplit(e, x);
    HeadUnary(Disjunction, e);
    UnaryStarts(Head(e), HeadRest(e, x));
  }

  // ------------------------------------------------------------ token helpers

  /** A keyword followed by a space and more text. */
  lemma WordThenSpace(k: string, y: string)
    requires Solid(k) && Solid(y)
    ensures Keyword(k, k + (" " + y)) == Some(y)
  {
    KeywordReads(k, " " + y);
    SolidAfterWs(" ", y);
  }

  lemma IdentThenSpace(n: string, y: string)
    requires IsIdentWord(n) && Solid(y)
    ensures IdentRule(n + (" " + y)) == Some((n, y))
  {
    IdentText(n, " " + y);
    SolidAfterWs(" ", y);
  }

  lemma IdentThenSolid(n: string, y: string)
    requires IsIdentWord(n) && Solid(y) && !IsIdentChar(y[0])
    ensures IdentRule(n + y) == Some((n, y))
  {
    IdentText(n, y);
    SkipWsSolid(y);
  }

  lemma IdentSolid(n: string, y: string)
    requires IsIdentWord(n)
    ensures Solid(n + y) && IsIdentChar((n + y)[0])
  {
    assert (n + y)[0] == n[0];
  }

  lemma Prefix2(l: string, a: string, b: string, y: string)
    requires l == a + b
    ensures l + y == a + (b + y)
  {
  }

  lemma Prefix3(l: string, a: string, b: string, c: string, y: string)
    requires l == a + b + c
    ensures l + y == a + (b + (c + y))
  {
  }

  lemma Prefix4(l: string, a: string, b: string, c: string, d: string, y: string)
    requires l == a + b + c + d
    ensures l + y == a + (b + (c + (d + y)))
  {
  }

  lemma Regroup3(a: string, b: string, c: string, x: string)
    ensures a + b + c + x == a + (b + (c + x))
  {
  }

  lemma Regroup5(a: string, b: string, c: string, d: string, e: string, x: string)
    ensures a + b + c + d + e + x == a + (b + (c + (d + (e + x))))
  {
  }

  lemma Regroup7(a: string, b: string, c: string, d: string, e: string, f: string, g: string, x: string)
    ensures a + b + c + d + e + f + g + x == a + (b + (c + (d + (e + (f + (g + x))))))
  {
  }

  // ------------------------------------------------------------ the statement choice

  /** Text that starts with neither keyword of the statements tried first. */
  lemma NoKeywordStatement(s: string)
    requires ExprStatementStart(s)
    ensures InitAccountRule(s) == None && RequireRule(s) == None
  {
    SkipWsSolid(s);
  }

  lemma ChoiceInit(s: string, r: (Statement, string))
    requires InitAccountRule(s) == Some(r)
    ensures StatementRule(s) == Some(r)
  {
  }

  lemma ChoiceRequire(s: string, r: (Statement, string))
    requires InitAccountRule(s) == None && RequireRule(s) == Some(r)
    ensures StatementRule(s) == Some(r)
  {
  }

  lemma ChoiceAssign(s: string, r: (Statement, string))
    requires InitAccountRule(s) == None && RequireRule(s) == None && AssignRule(s) == Some(r)
    ensures StatementRule(s) == Some(r)
  {
  }

  lemma ChoiceExpr(s: string, r: (Statement, string))
    requires InitAccountRule(s) == None && RequireRule(s) == None && AssignRule(s) == None
    requires ExprStatementRule(s) == Some(r)
    ensures StatementRule(s) == Some(r)
  {
  }

  // ------------------------------------------------------------ init account

  lemma InitTextSplit(v: string, a: string, payer: string, signer: Option<string>, x: string)
    ensures StatementText(InitAccount(v, a, payer, signer)) + x
      == "init" + (" " + ("account" + (" " + (v + (":" + (" " + (a + (" " + ("payer" + (" "
           + (payer + (SignerText(signer) + x))))))))))))
  {
    var sig := SignerText(signer);
    var y3 := payer + (sig + x);
    var y2 := a + (" payer " + y3);
    var y1 := v + (": " + y2);
    Regroup7("init account ", v, ": ", a, " payer ", payer, sig, x);
    Prefix4("init account ", "init", " ", "account", " ", y1);
    Prefix2(": ", ":", " ", y2);
    Prefix3(" payer ", " ", "payer", " ", y3);
  }

  lemma InitStep(s: string, s1: string, s2: string, v: string, s3: string, s4: string, a: string, s5: string,
                 s6: string, payer: string, s7: string, signer: Option<string>, s8: string)
    requires Keyword("init", s) == Some(s1) && Keyword("account", s1) == Some(s2)
    requires IdentRule(s2) == Some((v, s3)) && Keyword(":", s3) == Some(s4)
    requires IdentRule(s4) == Some((a, s5)) && Keyword("payer", s5) == Some(s6)
    requires IdentRule(s6) == Some((payer, s7)) && SignerClause(s7) == (signer, s8)
    ensures InitAccountRule(s) == Some((InitAccount(v, a, payer, signer), SkipWs(s8)))
  {
  }

  /** The two keywords and the variable name of a printed `init account`. */
  lemma InitHead(v: string, y: string)
    requires IsIdentWord(v) && Solid(y)
    ensures Keyword("init", "init" + (" " + ("account" + (" " + (v + (":" + (" " + y)))))))
      == Some("account" + (" " + (v + (":" + (" " + y)))))
    ensures Keyword("account", "account" + (" " + (v + (":" + (" " + y))))) == Some(v + (":" + (" " + y)))
    ensures IdentRule(v + (":" + (" " + y))) == Some((v, ":" + (" " + y)))
  {
    var named := v + (":" + (" " + y));
    IdentSolid(v, ":" + (" " + y));
    WordThenSpace("account", named);
    WordThenSpace("init", "account" + (" " + named));
    IdentThenSolid(v, ":" + (" " + y));
  }

  /** The account type name and the `payer` keyword of a printed `init account`. */
  lemma InitMiddle(a: string, payer: string, z: string)
    requires IsIdentWord(a) && IsIdentWord(payer)
    ensures Keyword(":", ":" + (" " + (a + (" " + ("payer" + (" " + (payer + z)))))))
      == Some(a + (" " + ("payer" + (" " + (payer + z)))))
    ensures IdentRule(a + (" " + ("payer" + (" " + (payer + z))))) == Some((a, "payer" + (" " + (payer + z))))
    ensures Keyword("payer", "payer" + (" " + (payer + z))) == Some(payer + z)
  {
    IdentSolid(payer, z);
    WordThenSpace("payer", payer + z);
    IdentThenSpace(a, "payer" + (" " + (payer + z)));
    IdentSolid(a, " " + ("payer" + (" " + (payer + z))));
    WordThenSpace(":", a + (" " + ("payer" + (" " + (payer + z)))));
  }

  /** The payer ends before the optional `signer` clause or the line break. */
  lemma PayerEnds(payer: string, signer: Option<string>, tail: string)
    requires IsIdentWord(payer)
    ensures IdentRule(payer + (SignerText(signer) + ("\n" + tail)))
      == Some((payer, SkipWs(SignerText(signer) + ("\n" + tail))))
  {
    var z := SignerText(signer) + ("\n" + tail);
    assert z[0] == ' ' || z[0] == '\n';
    IdentText(payer, z);
  }

  /** The optional `signer` clause reads back, and the line break after the statement is skipped. */
  lemma SignerReads(signer: Option<string>, tail: string)
    requires signer.Some? ==> IsIdentWord(signer.value)
    requires LineStart(SkipWs(tail))
    ensures SignerClause(SkipWs(SignerText(signer) + ("\n" + tail))) == (signer, SkipWs(tail))
  {
    match signer
    case None => SignerAbsent(tail);
    case Some(x) => SignerPresent(x, tail);
  }

  lemma SignerAbsent(tail: string)
    requires LineStart(SkipWs(tail))
    ensures SignerClause(SkipWs(SignerText(None) + ("\n" + tail))) == (None, SkipWs(tail))
  {
    assert SignerText(None) + ("\n" + tail) == "\n" + tail;
    SkipWsPrefix("\n", tail);
    SignerMissing(SkipWs(tail));
  }

  lemma SignerMissing(t: string)
    requires LineStart(t)
    ensures SignerClause(t) == (None, t)
  {
    SkipWsSolid(t);
  }

  lemma SignerPresent(x: string, tail: string)
    requires IsIdentWord(x)
    ensures SignerClause(SkipWs(SignerText(Some(x)) + ("\n" + tail))) == (Some(x), SkipWs(tail))
  {
    SignerTextSplit(x, tail);
    SkipWsPrefix("\n", tail);
    SignerLine(x, "\n" + tail, SignerText(Some(x)) + ("\n" + tail), SkipWs(tail));
  }

  /** ` signer x` in front of a line break reads as the signer `x`. */
  lemma SignerLine(x: string, rest: string, s: string, after: string)
    requires IsIdentWord(x) && TokenBoundary(rest) && SkipWs(rest) == after
    requires s == " " + ("signer" + (" " + (x + rest)))
    ensures SignerClause(SkipWs(s)) == (Some(x), after)
  {
    var line := x + rest;
    IdentSolid(x, rest);
    SpaceThenSolid("signer", " " + line);
    WordThenSpace("signer", line);
    IdentText(x, rest);
    SignerStep("signer" + (" " + line), line, x, SkipWs(rest));
  }

  lemma SignerTextSplit(x: string, tail: string)
    ensures SignerText(Some(x)) + ("\n" + tail) == " " + ("signer" + (" " + (x + ("\n" + tail))))
  {
    Assoc(" signer ", x, "\n" + tail);
    SignerWords();
    Prefix3(" signer ", " ", "signer", " ", x + ("\n" + tail));
  }

  lemma SignerWords()
    ensures " signer " == " " + "signer" + " "
  {
  }

  lemma SignerStep(s: string, s1: string, x: string, s2: string)
    requires Keyword("signer", s) == Some(s1) && IdentRule(s1) == Some((x, s2))
    ensures SignerClause(s) == (Some(x), s2)
  {
  }

  /** `init_account` reads back a printed `init account` statement. */
  lemma InitReads(st: Statement, tail: string)
    requires st.InitAccount? && StatementOk(st) && LineStart(SkipWs(tail))
    ensures InitAccountRule(StatementText(st) + ("\n" + tail)) == Some((st, SkipWs(tail)))
  {
    var z := SignerText(st.signer) + ("\n" + tail);
    var p := "payer" + (" " + (st.payer + z));
    var y := st.accountName + (" " + p);
    InitTextSplit(st.varName, st.accountName, st.payer, st.signer, "\n" + tail);
    IdentSolid(st.accountName, " " + p);
    InitHead(st.varName, y);
    InitMiddle(st.accountName, st.payer, z);
    PayerEnds(st.payer, st.signer, tail);
    SignerReads(st.signer, tail);
    SkipWsIdempotent(tail);
    InitStep(StatementText(st) + ("\n" + tail), "account" + (" " + (st.varName + (":" + (" " + y)))),
      st.varName + (":" + (" " + y)), st.varName, ":" + (" " + y), y, st.accountName, p,
      st.payer + z, st.payer, SkipWs(z), st.signer, SkipWs(tail));
  }

  // ------------------------------------------------------------ require

  lemma RequireTextSplit(c: Expr, m: Option<string>, x: string)
    ensures StatementText(Require(c, m)) + x == "require" + (" " + (ExprText(c) + (MessageText(m) + x)))
  {
    Regroup3("require ", ExprText(c), MessageText(m), x);
    Prefix2("require ", "require", " ", ExprText(c) + (MessageText(m) + x));
  }

  lemma RequireStep(s: string, s1: string, c: Expr, s2: string, m: Option<string>, s3: string)
    requires Keyword("require", s) == Some(s1) && ExprRule(s1) == Some((c, s2)) && MessageClause(s2) == (m, s3)
    ensures RequireRule(s) == Some((Require(c, m), SkipWs(s3)))
  {
  }

  /** A comma ends an expression. */
  lemma CommaFollows(t: string)
    requires |t| > 0 && t[0] == ','
    ensures Follows(Disjunction, t) && SkipWs(t) == t
  {
    SkipWsSolid(t);
    InertHalts(Disjunction, t);
  }

  /** The optional message, or the line break, ends the condition of a `require`. */
  lemma MessageFollows(m: Option<string>, tail: string)
    requires LineStart(SkipWs(tail))
    ensures Follows(Disjunction, MessageText(m) + ("\n" + tail))
  {
    match m
    case None =>
      assert MessageText(m) + ("\n" + tail) == "\n" + tail;
      LineFollows(tail);
    case Some(text) =>
      var z := MessageText(m) + ("\n" + tail);
      assert z[0] == ',';
      CommaFollows(z);
  }

  /** The optional message reads back without its quotes, and the line break after it is skipped. */
  lemma MessageReads(m: Option<string>, tail: string)
    requires m.Some? ==> QuoteFree(m.value)
    requires LineStart(SkipWs(tail))
    ensures MessageClause(SkipWs(MessageText(m) + ("\n" + tail))).0 == m
    ensures SkipWs(MessageClause(SkipWs(MessageText(m) + ("\n" + tail))).1) == SkipWs(tail)
  {
    match m
    case None =>
      assert MessageText(m) + ("\n" + tail) == "\n" + tail;
      SkipWsPrefix("\n", tail);
      SkipWsIdempotent(tail);
      MessageMissing(SkipWs(tail));
    case Some(text) =>
      MessagePresent(text, tail);
  }

  lemma MessageMissing(t: string)
    requires LineStart(t)
    ensures MessageClause(t) == (None, t)
  {
  }

  lemma MessagePresent(text: string, tail: string)
    requires QuoteFree(text)
    ensures MessageClause(SkipWs(MessageText(Some(text)) + ("\n" + tail))) == (Some(text), "\n" + tail)
    ensures SkipWs("\n" + tail) == SkipWs(tail)
  {
    var quoted := "\"" + text + "\"" + ("\n" + tail);
    Regroup3(",\"", text, "\"", "\n" + tail);
    Regroup3("\"", text, "\"", "\n" + tail);
    Prefix2(",\"", ",", "\"", text + ("\"" + ("\n" + tail)));
    assert MessageText(Some(text)) + ("\n" + tail) == "," + quoted;
    SkipWsSolid("," + quoted);
    JustPrefix(",", quoted);
    StringTokenReads(text, "\n" + tail);
    SkipWsPrefix("\n", tail);
  }

  /** The keyword of a printed `require`, up to its condition. */
  lemma RequireKeyword(c: Expr, z: string)
    requires IsExpr(c)
    ensures Keyword("require", "require" + (" " + (ExprText(c) + z))) == Some(ExprText(c) + z)
  {
    ExprSolid(c, z);
    WordThenSpace("require", ExprText(c) + z);
  }

  /** `require` reads back a printed `require` statement. */
  lemma RequireReads(st: Statement, tail: string)
    requires st.Require? && StatementOk(st) && LineStart(SkipWs(tail))
    ensures RequireRule(StatementText(st) + ("\n" + tail)) == Some((st, SkipWs(tail)))
  {
    var z := MessageText(st.message) + ("\n" + tail);
    RequireTextSplit(st.condition, st.message, "\n" + tail);
    RequireKeyword(st.condition, z);
    MessageFollows(st.message, tail);
    ExprReads(st.condition, z);
    MessageReads(st.message, tail);
    RequireStep(StatementText(st) + ("\n" + tail), ExprText(st.condition) + z, st.condition, SkipWs(z),
      st.message, MessageClause(SkipWs(z)).1);
  }

  // ------------------------------------------------------------ assignments

  /** The operator the printer writes between the target and the value of an assignment. */
  function AssignToken(target: Expr, value: Expr): string {
    if PrintsCompound(target, value) then BinToken(value.op) + "=" else "="
  }

  /** The operation `assign_op` reads from that operator. */
  function AssignedOp(target: Expr, value: Expr): Option<BinOp> {
    if PrintsCompound(target, value) then Some(value.op) else None
  }

  /** The expression the printer writes after the operator. */
  function AssignedValue(target: Expr, value: Expr): Expr {
    if PrintsCompound(target, value) then value.right else value
  }

  lemma AssignTextSplit(t: Expr, v: Expr, x: string)
    ensures StatementText(Assign(t, v)) + x
      == ExprText(t) + (" " + (AssignToken(t, v) + (" " + (ExprText(AssignedValue(t, v)) + x))))
  {
    if PrintsCompound(t, v) {
      CompoundTextSplit(ExprText(t), BinToken(v.op), ExprText(v.right), x);
    } else {
      PlainTextSplit(ExprText(t), ExprText(v), x);
    }
  }

  lemma CompoundTextSplit(target: string, op: string, rt: string, x: string)
    ensures target + " " + op + "= " + rt + x == target + (" " + ((op + "=") + (" " + (rt + x))))
  {
    Regroup5(target, " ", op, "= ", rt, x);
    Prefix2("= ", "=", " ", rt + x);
    Assoc(op, "=", " " + (rt + x));
  }

  lemma PlainTextSplit(target: string, value: string, x: string)
    ensures target + " = " + value + x == target + (" " + ("=" + (" " + (value + x))))
  {
    Regroup3(target, " = ", value, x);
    Prefix3(" = ", " ", "=", " ", value + x);
  }

  /** The printed assignment operator is read back as the operation it names. */
  lemma AssignOpReads(t: Expr, v: Expr, y: string)
    requires Solid(y)
    ensures AssignOpRule(AssignToken(t, v) + (" " + y)) == Some((AssignedOp(t, v), y))
  {
    if PrintsCompound(t, v) {
      CompoundOpReads(v.op, y);
    } else {
      PlainOpReads(y);
    }
  }

  lemma CompoundOpReads(op: BinOp, y: string)
    requires IsCompound(op) && Solid(y)
    ensures AssignOpRule((BinToken(op) + "=") + (" " + y)) == Some((Some(op), y))
  {
    match op
    case Add => assert BinToken(op) + "=" == "+="; AddAssignReads(y);
    case Sub => assert BinToken(op) + "=" == "-="; SubAssignReads(y);
    case Mul => assert BinToken(op) + "=" == "*="; MulAssignReads(y);
    case Div => assert BinToken(op) + "=" == "/="; DivAssignReads(y);
    case Mod => assert BinToken(op) + "=" == "%="; ModAssignReads(y);
  }

  /** A compound operator token and the space after it are read over. */
  lemma OpTokenLead(k: string, y: string)
    requires |k| > 0 && !IsWhitespace(k[0]) && Solid(y)
    ensures SkipWs(k + (" " + y)) == k + (" " + y) && Just(k, k + (" " + y)) == Some(" " + y)
    ensures SkipWs(" " + y) == y
  {
    assert (k + (" " + y))[0] == k[0];
    SkipWsSolid(k + (" " + y));
    SolidAfterWs(" ", y);
    JustPrefix(k, " " + y);
  }

  lemma AddAssignReads(y: string)
    requires Solid(y)
    ensures AssignOpRule("+=" + (" " + y)) == Some((Some(Add), y))
  {
    OpTokenLead("+=", y);
  }

  lemma SubAssignReads(y: string)
    requires Solid(y)
    ensures AssignOpRule("-=" + (" " + y)) == Some((Some(Sub), y))
  {
    OpTokenLead("-=", y);
  }

  lemma MulAssignReads(y: string)
    requires Solid(y)
    ensures AssignOpRule("*=" + (" " + y)) == Some((Some(Mul), y))
  {
    OpTokenLead("*=", y);
  }

  lemma DivAssignReads(y: string)
    requires Solid(y)
    ensures AssignOpRule("/=" + (" " + y)) == Some((Some(Div), y))
  {
    OpTokenLead("/=", y);
  }

  lemma ModAssignReads(y: string)
    requires Solid(y)
    ensures AssignOpRule("%=" + (" " + y)) == Some((Some(Mod), y))
  {
    OpTokenLead("%=", y);
  }

  lemma PlainOpReads(y: string)
    requires Solid(y)
    ensures AssignOpRule("=" + (" " + y)) == Some((None, y))
  {
    var u := "=" + (" " + y);
    SkipWsSolid(u);
    SolidAfterWs(" ", y);
    JustPrefix("=", " " + y);
  }

  /** The left operand of a compound assignment is its target, so desugaring restores the value. */
  lemma AssignDesugars(t: Expr, v: Expr)
    ensures Desugar(t, AssignedOp(t, v), AssignedValue(t, v)) == Assign(t, v)
  {
  }

  /** An `=` followed by a space halts every level: `==` is not there, and no operand starts with `=`. */
  lemma {:induction false} EqualsHalts(lv: Level, y: string)
    ensures Halts(lv, "=" + (" " + y))
    decreases Rank(lv)
  {
    var u := "=" + (" " + y);
    assert u[0] == '=' && u[1] == ' ';
    assert OperatorRule(lv, u) == None;
    if lv != Product { EqualsHalts(Tighter(lv), y); }
  }

  /** A compound operator halts every level: its operator is read, but no operand starts with `=`. */
  lemma {:induction false} CompoundHalts(lv: Level, op: BinOp, y: string)
    requires IsCompound(op)
    ensures Halts(lv, BinToken(op) + ("=" + (" " + y)))
    decreases Rank(lv)
  {
    var u := "=" + (" " + y);
    var w := BinToken(op) + u;
    assert w[0] == BinToken(op)[0];
    assert u[0] == '=';
    if OpLevel(op) == Some(lv) {
      OperatorToken(lv, op, u);
      OperandFails(lv, u);
    } else {
      ForeignToken(lv, op, u);
    }
    if lv != Product { CompoundHalts(Tighter(lv), op, y); }
  }

  /** The assignment operator ends the target. */
  lemma AssignTokenFollows(t: Expr, v: Expr, y: string)
    ensures Follows(Disjunction, " " + (AssignToken(t, v) + (" " + y)))
    ensures SkipWs(" " + (AssignToken(t, v) + (" " + y))) == AssignToken(t, v) + (" " + y)
  {
    var u := AssignToken(t, v) + (" " + y);
    assert u[0] == AssignToken(t, v)[0];
    SolidAfterWs(" ", u);
    if PrintsCompound(t, v) {
      Assoc(BinToken(v.op), "=", " " + y);
      CompoundHalts(Disjunction, v.op, y);
    } else {
      EqualsHalts(Disjunction, y);
    }
  }

  lemma AssignStep(s: string, target: Expr, s1: string, op: Option<BinOp>, s2: string, value: Expr, s3: string)
    requires ExprRule(s) == Some((target, s1)) && AssignOpRule(s1) == Some((op, s2)) && ExprRule(s2) == Some((value, s3))
    ensures AssignRule(s) == Some((Desugar(target, op, value), SkipWs(s3)))
  {
  }

  /** The value of a printed assignment reads back up to the line break. */
  lemma ValueReads(value: Expr, tail: string)
    requires IsExpr(value) && LineStart(SkipWs(tail))
    ensures ExprRule(ExprText(value) + ("\n" + tail)) == Some((value, SkipWs(tail)))
    ensures Solid(ExprText(value) + ("\n" + tail))
  {
    LineFollows(tail);
    ExprReads(value, "\n" + tail);
    ExprSolid(value, "\n" + tail);
  }

  /** `assign` reads back a printed assignment, in the compound form where the printer uses it. */
  lemma AssignReads(st: Statement, tail: string)
    requires st.Assign? && StatementOk(st) && LineStart(SkipWs(tail))
    ensures AssignRule(StatementText(st) + ("\n" + tail)) == Some((st, SkipWs(tail)))
  {
    var t, v := st.target, st.value;
    var y := ExprText(AssignedValue(t, v)) + ("\n" + tail);
    var u := AssignToken(t, v) + (" " + y);
    AssignTextSplit(t, v, "\n" + tail);
    AssignTokenFollows(t, v, y);
    ExprReads(t, " " + u);
    ValueReads(AssignedValue(t, v), tail);
    AssignOpReads(t, v, y);
    AssignDesugars(t, v);
    SkipWsIdempotent(tail);
    AssignStep(StatementText(st) + ("\n" + tail), t, u, AssignedOp(t, v), y, AssignedValue(t, v), SkipWs(tail));
  }

  /** The target of a printed assignment starts like no statement tried before assignments. */
  lemma AssignStarts(st: Statement, tail: string)
    requires st.Assign? && StatementOk(st)
    ensures ExprStatementStart(StatementText(st) + ("\n" + tail))
  {
    var t, v := st.target, st.value;
    var x := " " + (AssignToken(t, v) + (" " + (ExprText(AssignedValue(t, v)) + ("\n" + tail))));
    AssignTextSplit(t, v, "\n" + tail);
    ExprStarts(t, x);
  }

  // ------------------------------------------------------------ expression statements

  lemma ExprStatementStep(s: string, e: Expr, s1: string)
    requires ExprRule(s) == Some((e, s1)) && AssignOpRule(s1) == None
    ensures AssignRule(s) == None && ExprStatementRule(s) == Some((Statement.Expr(e), s1))
  {
  }

  /** An expression statement reads back, and no assignment operator follows it. */
  lemma ExprStatementReads(st: Statement, tail: string)
    requires st.Expr? && StatementOk(st) && LineStart(SkipWs(tail))
    ensures AssignRule(StatementText(st) + ("\n" + tail)) == None
    ensures ExprStatementRule(StatementText(st) + ("\n" + tail)) == Some((st, SkipWs(tail)))
  {
    ValueReads(st.expr, tail);
    LineNoAssignOp(SkipWs(tail));
    ExprStatementStep(StatementText(st) + ("\n" + tail), st.expr, SkipWs(tail));
  }

  // ------------------------------------------------------------ statements

  /** The text of every printable statement can start a line. */
  lemma StatementStarts(st: Statement, tail: string)
    requires StatementOk(st)
    ensures LineStart(StatementText(st) + ("\n" + tail))
    ensures st.Assign? || st.Expr? ==> ExprStatementStart(StatementText(st) + ("\n" + tail))
  {
    var t := StatementText(st) + ("\n" + tail);
    match st
    case InitAccount(v, a, payer, signer) =>
      InitTextSplit(v, a, payer, signer, "\n" + tail);
    case Require(c, m) =>
      RequireTextSplit(c, m, "\n" + tail);
    case Assign(_, _) =>
      AssignStarts(st, tail);
    case Expr(e) =>
      ExprStarts(e, "\n" + tail);
  }

  /** `statement_parser` reads back a printed statement up to the start of the next line. */
  lemma StatementReads(st: Statement, tail: string)
    requires StatementOk(st) && LineStart(SkipWs(tail))
    ensures StatementRule(StatementText(st) + ("\n" + tail)) == Some((st, SkipWs(tail)))
  {
    match st
    case InitAccount(_, _, _, _) => InitStatementReads(st, tail);
    case Require(_, _) => RequireStatementReads(st, tail);
    case Assign(_, _) => AssignStatementReads(st, tail);
    case Expr(_) => ExprStatementChosen(st, tail);
  }

  lemma InitStatementReads(st: Statement, tail: string)
    requires st.InitAccount? && StatementOk(st) && LineStart(SkipWs(tail))
    ensures StatementRule(StatementText(st) + ("\n" + tail)) == Some((st, SkipWs(tail)))
  {
    InitReads(st, tail);
    ChoiceInit(StatementText(st) + ("\n" + tail), (st, SkipWs(tail)));
  }

  lemma RequireStatementReads(st: Statement, tail: string)
    requires st.Require? && StatementOk(st) && LineStart(SkipWs(tail))
    ensures StatementRule(StatementText(st) + ("\n" + tail)) == Some((st, SkipWs(tail)))
  {
    var s := StatementText(st) + ("\n" + tail);
    RequireTextSplit(st.condition, st.message, "\n" + tail);
    RequireNotInit(s);
    RequireReads(st, tail);
    ChoiceRequire(s, (st, SkipWs(tail)));
  }

  lemma AssignStatementReads(st: Statement, tail: string)
    requires st.Assign? && StatementOk(st) && LineStart(SkipWs(tail))
    ensures StatementRule(StatementText(st) + ("\n" + tail)) == Some((st, SkipWs(tail)))
  {
    var s := StatementText(st) + ("\n" + tail);
    AssignStarts(st, tail);
    NoKeywordStatement(s);
    AssignReads(st, tail);
    ChoiceAssign(s, (st, SkipWs(tail)));
  }

  lemma ExprStatementChosen(st: Statement, tail: string)
    requires st.Expr? && StatementOk(st) && LineStart(SkipWs(tail))
    ensures StatementRule(StatementText(st) + ("\n" + tail)) == Some((st, SkipWs(tail)))
  {
    var s := StatementText(st) + ("\n" + tail);
    ExprStarts(st.expr, "\n" + tail);
    NoKeywordStatement(s);
    ExprStatementReads(st, tail);
    ChoiceExpr(s, (st, SkipWs(tail)));
  }

  lemma RequireNotInit(s: string)
    requires "require" <= s
    ensures InitAccountRule(s) == None
  {
    assert s[0] == 'r';
    SkipWsSolid(s);
  }

  /** Nothing reads a statement from a closing brace. */
  lemma BraceEndsStatements(t: string)
    requires |t| > 0 && t[0] == '}'
    ensures StatementRule(t) == None
  {
    SkipWsSolid(t);
    OperandFails(Disjunction, t);
  }

  lemma StatementsCons(ss: seq<Statement>, rest: string)
    requires ss != []
    ensures StatementsText(ss) + rest == "  " + (StatementText(ss[0]) + ("\n" + (StatementsText(ss[1..]) + rest)))
  {
    Regroup3("  ", StatementText(ss[0]), "\n", StatementsText(ss[1..]) + rest);
    Assoc("  " + StatementText(ss[0]) + "\n", StatementsText(ss[1..]), rest);
  }

  lemma StatementsStep(s: string, st: Statement, s1: string, ss: seq<Statement>, s2: string)
    requires StatementRule(s) == Some((st, s1)) && StatementsRule(s1) == (ss, s2)
    ensures StatementsRule(s) == ([st] + ss, s2)
  {
  }

  /** What follows a printed statement line starts a line: the next statement or the brace. */
  lemma NextLineStarts(ss: seq<Statement>, rest: string)
    requires forall k :: 0 <= k < |ss| ==> StatementOk(ss[k])
    requires |rest| > 0 && rest[0] == '}'
    ensures LineStart(SkipWs(StatementsText(ss) + rest))
  {
    if ss == [] {
      assert StatementsText(ss) + rest == rest;
      SkipWsSolid(rest);
    } else {
      var tail := StatementsText(ss[1..]) + rest;
      StatementsCons(ss, rest);
      StatementStarts(ss[0], tail);
      IndentedLine(StatementText(ss[0]) + ("\n" + tail));
    }
  }

  lemma IndentedLine(line: string)
    requires LineStart(line)
    ensures SkipWs("  " + line) == line
  {
    SolidAfterWs("  ", line);
  }

  /** `statement_parser.repeated()` reads back printed statements, one per line, up to the
      closing brace. */
  lemma {:induction false} StatementsReads(ss: seq<Statement>, rest: string)
    requires forall k :: 0 <= k < |ss| ==> StatementOk(ss[k])
    requires |rest| > 0 && rest[0] == '}'
    ensures StatementsRule(SkipWs(StatementsText(ss) + rest)) == (ss, rest)
  {
    if ss == [] {
      assert StatementsText(ss) + rest == rest;
      SkipWsSolid(rest);
      BraceEndsStatements(rest);
    } else {
      StatementsReads(ss[1..], rest);
      StatementsMore(ss, rest);
    }
  }

  /** One more printed statement in front of statements that read back. */
  lemma StatementsMore(ss: seq<Statement>, rest: string)
    requires ss != [] && StatementOk(ss[0])
    requires forall k :: 0 <= k < |ss[1..]| ==> StatementOk(ss[1..][k])
    requires |rest| > 0 && rest[0] == '}'
    requires StatementsRule(SkipWs(StatementsText(ss[1..]) + rest)) == (ss[1..], rest)
    ensures StatementsRule(SkipWs(StatementsText(ss) + rest)) == (ss, rest)
  {
    var tail := StatementsText(ss[1..]) + rest;
    var line := StatementText(ss[0]) + ("\n" + tail);
    StatementsCons(ss, rest);
    StatementStarts(ss[0], tail);
    IndentedLine(line);
    NextLineStarts(ss[1..], rest);
    StatementReads(ss[0], tail);
    StatementsStep(line, ss[0], SkipWs(tail), ss[1..], rest);
    ConsSplit(ss);
  }

  // ------------------------------------------------------------ instructions

  lemma InstructionTextSplit(i: Instruction, rest: string)
    ensures InstructionText(i) + rest
      == "instruction" + (" " + (i.name + ("(" + (ParamsText(i.params) + (")" + (" " + ("{" + ("\n"
           + (StatementsText(i.body) + ("}" + ("\n" + rest)))))))))))
  {
    var body := StatementsText(i.body) + ("}" + ("\n" + rest));
    Regroup7("instruction ", i.name, "(", ParamsText(i.params), ") {\n", StatementsText(i.body), "}\n", rest);
    Prefix2("instruction ", "instruction", " ", i.name + ("(" + (ParamsText(i.params) + (") {\n" + (StatementsText(i.body) + ("}\n" + rest))))));
    Prefix4(") {\n", ")", " ", "{", "\n", StatementsText(i.body) + ("}\n" + rest));
    Prefix2("}\n", "}", "\n", rest);
  }

  lemma InstructionStep(s: string, s1: string, name: string, s2: string, s3: string, params: seq<Param>, s4: string,
                        s5: string, s6: string, body: seq<Statement>, s7: string, s8: string)
    requires Keyword("instruction", s) == Some(s1) && IdentRule(s1) == Some((name, s2))
    requires Keyword("(", s2) == Some(s3) && ParamListRule(s3) == (params, s4)
    requires Keyword(")", s4) == Some(s5) && Keyword("{", s5) == Some(s6)
    requires StatementsRule(s6) == (body, s7) && Keyword("}", s7) == Some(s8)
    ensures InstructionRule(s) == Some((Instruction(name, params, body), SkipWs(s8)))
  {
  }

  /** Printed parameters, and the closing parenthesis after them, start with an identifier or
      with that parenthesis. */
  lemma ParamsLead(ps: seq<Param>, rest: string)
    requires forall k :: 0 <= k < |ps| ==> ParamOk(ps[k])
    requires |rest| > 0 && rest[0] == ')'
    ensures Solid(ParamsText(ps) + rest)
  {
    if ps != [] {
      assert ParamsText(ps) + rest == ps[0].name + (": " + ParamTypeText(ps[0].ty) + MoreParamsText(ps[1..]) + rest);
      IdentSolid(ps[0].name, ": " + ParamTypeText(ps[0].ty) + MoreParamsText(ps[1..]) + rest);
    }
  }

  /** The keyword, the name and the opening parenthesis of a printed instruction. */
  lemma InstructionHead(name: string, params: string)
    requires IsIdentWord(name) && Solid(params)
    ensures Keyword("instruction", "instruction" + (" " + (name + ("(" + params)))) == Some(name + ("(" + params))
    ensures IdentRule(name + ("(" + params)) == Some((name, "(" + params))
    ensures Keyword("(", "(" + params) == Some(params)
  {
    IdentSolid(name, "(" + params);
    WordThenSpace("instruction", name + ("(" + params));
    IdentThenSolid(name, "(" + params);
    KeywordReads("(", params);
    SkipWsSolid(params);
  }

  /** The parenthesis and the brace between the parameters and the body. */
  lemma BodyOpens(body: string)
    ensures Keyword(")", ")" + (" " + ("{" + ("\n" + body)))) == Some("{" + ("\n" + body))
    ensures Keyword("{", "{" + ("\n" + body)) == Some(SkipWs(body))
  {
    WordThenSpace(")", "{" + ("\n" + body));
    OpenBrace(body);
  }

  lemma StatementsBeforeBrace(body: seq<Statement>, rest: string)
    requires forall k :: 0 <= k < |body| ==> StatementOk(body[k])
    ensures StatementsRule(SkipWs(StatementsText(body) + ("}" + ("\n" + rest)))) == (body, "}" + ("\n" + rest))
  {
    StatementsReads(body, "}" + ("\n" + rest));
  }

  /** `instruction` reads back the text of an instruction block. */
  lemma InstructionReads(i: Instruction, rest: string)
    requires InstructionOk(i)
    ensures InstructionRule(InstructionText(i) + rest) == Some((i, SkipWs(rest)))
  {
    var closing := "}" + ("\n" + rest);
    var body := StatementsText(i.body) + closing;
    var params := ParamsText(i.params) + (")" + (" " + ("{" + ("\n" + body))));
    InstructionTextSplit(i, rest);
    ParamsLead(i.params, ")" + (" " + ("{" + ("\n" + body))));
    InstructionHead(i.name, params);
    ParamListReads(i.params, ")" + (" " + ("{" + ("\n" + body))));
    BodyOpens(body);
    StatementsBeforeBrace(i.body, rest);
    CloseBrace(rest);
    SkipWsIdempotent(rest);
    InstructionStep(InstructionText(i) + rest, i.name + ("(" + params), i.name, "(" + params, params, i.params,
      ")" + (" " + ("{" + ("\n" + body))), "{" + ("\n" + body), SkipWs(body), i.body, closing, SkipWs(rest));
  }

  lemma InstructionsCons(instructions: seq<Instruction>, rest: string)
    requires instructions != []
    ensures InstructionsText(instructions) + rest
      == "\n" + (InstructionText(instructions[0]) + (InstructionsText(instructions[1..]) + rest))
  {
    Regroup3("\n", InstructionText(instructions[0]), InstructionsText(instructions[1..]), rest);
  }

  lemma InstructionsStep(s: string, i: Instruction, s1: string, instructions: seq<Instruction>, s2: string)
    requires InstructionRule(s) == Some((i, s1)) && InstructionsRule(s1) == (instructions, s2)
    ensures InstructionsRule(s) == ([i] + instructions, s2)
  {
  }

  /** `instruction.repeated()` reads back printed instruction blocks, up to text it cannot read. */
  lemma {:induction false} InstructionsReads(instructions: seq<Instruction>, rest: string)
    requires forall k :: 0 <= k < |instructions| ==> InstructionOk(instructions[k])
    requires InstructionRule(SkipWs(rest)) == None
    ensures InstructionsRule(SkipWs(InstructionsText(instructions) + rest)) == (instructions, SkipWs(rest))
  {
    if instructions == [] {
      assert InstructionsText(instructions) + rest == rest;
    } else {
      assert forall k :: 0 <= k < |instructions[1..]| ==> instructions[1..][k] == instructions[k + 1];
      InstructionsReads(instructions[1..], rest);
      InstructionsConsReads(instructions, rest);
    }
  }

  /** One more printed block in front of blocks that read back reads back with them. */
  lemma InstructionsConsReads(instructions: seq<Instruction>, rest: string)
    requires instructions != [] && InstructionOk(instructions[0])
    requires InstructionsRule(SkipWs(InstructionsText(instructions[1..]) + rest)) == (instructions[1..], SkipWs(rest))
    ensures InstructionsRule(SkipWs(InstructionsText(instructions) + rest)) == (instructions, SkipWs(rest))
  {
    var tail := InstructionsText(instructions[1..]) + rest;
    var block := InstructionText(instructions[0]) + tail;
    InstructionsLine(instructions, rest);
    InstructionReads(instructions[0], tail);
    InstructionsStep(block, instructions[0], SkipWs(tail), instructions[1..], SkipWs(rest));
    ConsSplit(instructions);
  }

  lemma InstructionsLine(instructions: seq<Instruction>, rest: string)
    requires instructions != []
    ensures SkipWs(InstructionsText(instructions) + rest)
      == InstructionText(instructions[0]) + (InstructionsText(instructions[1..]) + rest)
  {
    var block := InstructionText(instructions[0]) + (InstructionsText(instructions[1..]) + rest);
    InstructionsCons(instructions, rest);
    InstructionTextSplit(instructions[0], InstructionsText(instructions[1..]) + rest);
    assert block[0] == 'i';
    SolidAfterWs("\n", block);
  }

  // ------------------------------------------------------------ programs

  lemma ProgramTextSplit(p: Program, rest: string)
    ensures ProgramText(p) + rest
      == "program" + (" " + (p.name + ("\n" + (AccountsText(p.accounts) + (InstructionsText(p.instructions) + rest)))))
  {
    Regroup5("program ", p.name, "\n", AccountsText(p.accounts), InstructionsText(p.instructions), rest);
    Prefix2("program ", "program", " ",
      p.name + ("\n" + (AccountsText(p.accounts) + (InstructionsText(p.instructions) + rest))));
  }

  lemma ProgramStep(s: string, s1: string, name: string, s2: string, accounts: seq<AccountDef>, s3: string,
                    instructions: seq<Instruction>, s4: string)
    requires Keyword("program", s) == Some(s1) && IdentRule(s1) == Some((name, s2))
    requires AccountDefsRule(s2) == (accounts, s3) && InstructionsRule(s3) == (instructions, s4)
    ensures ProgramPrefix(s) == Some((Program(name, accounts, instructions), s4))
  {
  }

  /** The keyword and the name of a printed program, after any leading whitespace. */
  lemma ProgramHead(w: string, p: Program, rest: string)
    requires AllWhitespace(w) && IsIdentWord(p.name)
    ensures Keyword("program", w + (ProgramText(p) + rest))
      == Some(p.name + ("\n" + (AccountsText(p.accounts) + (InstructionsText(p.instructions) + rest))))
    ensures IdentRule(p.name + ("\n" + (AccountsText(p.accounts) + (InstructionsText(p.instructions) + rest))))
      == Some((p.name, SkipWs(AccountsText(p.accounts) + (InstructionsText(p.instructions) + rest))))
  {
    ProgramTextSplit(p, rest);
    ProgramKeyword(w, p.name, AccountsText(p.accounts) + (InstructionsText(p.instructions) + rest));
  }

  lemma ProgramKeyword(w: string, name: string, decls: string)
    requires AllWhitespace(w) && IsIdentWord(name)
    ensures Keyword("program", w + ("program" + (" " + (name + ("\n" + decls))))) == Some(name + ("\n" + decls))
    ensures IdentRule(name + ("\n" + decls)) == Some((name, SkipWs(decls)))
  {
    var t := "program" + (" " + (name + ("\n" + decls)));
    SkipWsPrefix(w, t);
    SkipWsSolid(t);
    KeywordSkips("program", w + t);
    IdentSolid(name, "\n" + decls);
    WordThenSpace("program", name + ("\n" + decls));
    IdentText(name, "\n" + decls);
    SkipWsPrefix("\n", decls);
  }

  /** After the last account block come the instruction blocks, which start no account block, and
      then whatever follows the program. */
  lemma NoAccountBeforeInstructions(instructions: seq<Instruction>, rest: string)
    requires AccountDefRule(SkipWs(rest)) == None
    ensures AccountDefRule(SkipWs(InstructionsText(instructions) + rest)) == None
  {
    if instructions == [] {
      assert InstructionsText(instructions) + rest == rest;
    } else {
      InstructionsLine(instructions, rest);
      InstructionTextSplit(instructions[0], InstructionsText(instructions[1..]) + rest);
      var t := SkipWs(InstructionsText(instructions) + rest);
      assert t[0] == 'i';
      SkipWsSolid(t);
    }
  }

  lemma AccountsBeforeInstructions(accounts: seq<AccountDef>, instructions: seq<Instruction>, rest: string)
    requires forall k :: 0 <= k < |accounts| ==> AccountOk(accounts[k])
    requires AccountDefRule(SkipWs(rest)) == None
    ensures AccountDefsRule(SkipWs(AccountsText(accounts) + (InstructionsText(instructions) + rest)))
      == (accounts, SkipWs(InstructionsText(instructions) + rest))
  {
    NoAccountBeforeInstructions(instructions, rest);
    AccountsReads(accounts, InstructionsText(instructions) + rest);
  }

  /** `program_parser` reads a printable program back from its printed text, whatever whitespace
      comes before it, and stops where neither an account block nor an instruction block starts. */
  lemma ProgramPrefixReads(w: string, p: Program, rest: string)
    requires AllWhitespace(w) && Printable(p)
    requires AccountDefRule(SkipWs(rest)) == None && InstructionRule(SkipWs(rest)) == None
    ensures ProgramPrefix(w + (ProgramText(p) + rest)) == Some((p, SkipWs(rest)))
  {
    var s := w + (ProgramText(p) + rest);
    var decls := AccountsText(p.accounts) + (InstructionsText(p.instructions) + rest);
    ProgramHead(w, p, rest);
    AccountsBeforeInstructions(p.accounts, p.instructions, rest);
    InstructionsReads(p.instructions, rest);
    ProgramStep(s, p.name + ("\n" + decls), p.name, SkipWs(decls), p.accounts,
      SkipWs(InstructionsText(p.instructions) + rest), p.instructions, SkipWs(rest));
  }

  lemma EndOfInput()
    ensures SkipWs("") == "" && AccountDefRule("") == None && InstructionRule("") == None
  {
    SkipWsNoWhitespace("");
  }

  lemma ParseStep(s: string, p: Program)
    requires ProgramPrefix(s) == Some((p, ""))
    ensures Parse(s) == Ok(p)
  {
  }

  /** The round trip: `parse` reads back the printed text of every printable program, whatever
      whitespace comes before it. */
  lemma ProgramReads(w: string, p: Program)
    requires AllWhitespace(w) && Printable(p)
    ensures Parse(w + ProgramText(p)) == Ok(p)
  {
    EndOfInput();
    assert ProgramText(p) + "" == ProgramText(p);
    ProgramPrefixReads(w, p, "");
    ParseStep(w + ProgramText(p), p);
  }

  /** Text after a complete program that starts neither an account block nor an instruction block
      is left over, and leftover input fails the parse: an unmatched `}` after the last block, say. */
  lemma TrailingTextRejected(w: string, p: Program, rest: string)
    requires AllWhitespace(w) && Printable(p) && SkipWs(rest) != []
    requires AccountDefRule(SkipWs(rest)) == None && InstructionRule(SkipWs(rest)) == None
    ensures Parse(w + (ProgramText(p) + rest)) == Err(SyntaxError)
  {
    ProgramPrefixReads(w, p, rest);
  }

  lemma BraceStartsNoBlock()
    ensures SkipWs("}") == "}" && AccountDefRule("}") == None && InstructionRule("}") == None
  {
    SkipWsNoWhitespace("}");
  }

  /** A closing brace after the last block of a printed program fails the parse. */
  lemma ExtraBraceRejected(w: string, p: Program)
    requires AllWhitespace(w) && Printable(p)
    ensures Parse(w + (ProgramText(p) + "}")) == Err(SyntaxError)
  {
    BraceStartsNoBlock();
    TrailingTextRejected(w, p, "}");
  }
}
