/** The counter program of the parser's unit test: its source parses, it validates, and the
    account it creates needs 48 bytes. */
module CounterExample {
  import opened Wrappers
  import opened Text
  import opened Ast
  import opened Parser
  import opened Printer
  import opened StmtRoundTrip
  import opened Hir
  import opened Codegen

  const StateAuthority: Expr := FieldAccess(Ident("state"), "authority")
  const StateCount: Expr := FieldAccess(Ident("state"), "count")
  const AuthorityKey: Expr := FieldAccess(Ident("authority"), "key")

  const CounterState: AccountDef :=
    AccountDef("CounterState", [Field("authority", Type.Pubkey), Field("count", Type.U64)])

  const Initialize: Instruction :=
    Instruction("initialize", [Param("authority", ParamType.Signer)], [
      InitAccount("state", "CounterState", "authority", None),
      Assign(StateAuthority, AuthorityKey),
      Assign(StateCount, Expr.Literal(UInt(0)))])

  const Increment: Instruction :=
    Instruction("increment", [Param("authority", ParamType.Signer)], [
      Require(BinaryOp(Eq, StateAuthority, AuthorityKey), None),
      Assign(StateCount, BinaryOp(Add, StateCount, Expr.Literal(UInt(1))))])

  /** The tree the counter source describes. */
  const CounterAst: Program := Program("Counter", [CounterState], [Initialize, Increment])

  /** A line of a field list or a statement body. */
  function Indented(line: string): string { "  " + line + "\n" }

  /** The source text of the unit test, line by line. */
  const CounterSource: string :=
    "\n" + "program Counter\n"
    + "\n" + "account CounterState {\n"
    + Indented("authority: Pubkey")
    + Indented("count: u64")
    + "}\n"
    + "\n" + "instruction initialize(authority: Signer) {\n"
    + Indented("init account state: CounterState payer authority")
    + Indented("state.authority = authority.key")
    + Indented("state.count = 0")
    + "}\n"
    + "\n" + "instruction increment(authority: Signer) {\n"
    + Indented("require state.authority == authority.key")
    + Indented("state.count += 1")
    + "}\n"

  // ------------------------------------------------------------ blocks of a fixed shape

  lemma AccountBlock(a: AccountDef, fa: Field, fb: Field, head: string, la: string, lb: string)
    requires a.fields == [fa, fb]
    requires head == "account " + a.name + " {\n"
    requires la == FieldText(fa) && lb == FieldText(fb)
    ensures AccountText(a) == head + (Indented(la) + Indented(lb)) + "}\n"
  {
    assert a.fields[1..] == [fb];
    assert a.fields[1..][1..] == [];
    assert FieldsText([fb]) == Indented(lb) + "";
    assert Indented(lb) + "" == Indented(lb);
  }

  lemma InstructionBlock3(i: Instruction, s1: Statement, s2: Statement, s3: Statement,
                          head: string, l1: string, l2: string, l3: string)
    requires i.body == [s1, s2, s3]
    requires head == "instruction " + i.name + "(" + ParamsText(i.params) + ") {\n"
    requires l1 == StatementText(s1) && l2 == StatementText(s2) && l3 == StatementText(s3)
    ensures InstructionText(i) == head + (Indented(l1) + (Indented(l2) + Indented(l3))) + "}\n"
  {
    assert i.body[1..] == [s2, s3];
    assert i.body[1..][1..] == [s3];
    assert i.body[1..][1..][1..] == [];
    assert StatementsText([s3]) == Indented(l3) + "";
    assert Indented(l3) + "" == Indented(l3);
    assert StatementsText(i.body[1..]) == Indented(l2) + Indented(l3);
    assert StatementsText(i.body) == Indented(l1) + (Indented(l2) + Indented(l3));
  }

  lemma InstructionBlock2(i: Instruction, s1: Statement, s2: Statement, head: string, l1: string, l2: string)
    requires i.body == [s1, s2]
    requires head == "instruction " + i.name + "(" + ParamsText(i.params) + ") {\n"
    requires l1 == StatementText(s1) && l2 == StatementText(s2)
    ensures InstructionText(i) == head + (Indented(l1) + Indented(l2)) + "}\n"
  {
    assert i.body[1..] == [s2];
    assert i.body[1..][1..] == [];
    assert StatementsText([s2]) == Indented(l2) + "";
    assert Indented(l2) + "" == Indented(l2);
  }

  lemma ProgramBlock(p: Program, a: AccountDef, i1: Instruction, i2: Instruction, head: string,
                     ta: string, t1: string, t2: string)
    requires p.accounts == [a] && p.instructions == [i1, i2]
    requires head == "program " + p.name + "\n"
    requires ta == AccountText(a) && t1 == InstructionText(i1) && t2 == InstructionText(i2)
    ensures ProgramText(p) == head + ("\n" + ta) + ("\n" + t1 + ("\n" + t2))
  {
    assert p.accounts[1..] == [];
    assert AccountsText([a]) == "\n" + ta + "";
    assert "\n" + ta + "" == "\n" + ta;
    assert p.instructions[1..] == [i2];
    assert p.instructions[1..][1..] == [];
    assert InstructionsText([i2]) == "\n" + t2 + "";
    assert "\n" + t2 + "" == "\n" + t2;
  }

  lemma Flatten(n: string, head: string, ha: string, la: string, lb: string, cl: string,
                h1: string, l1: string, l2: string, l3: string, h2: string, m1: string, m2: string)
    ensures n + (head + (n + (ha + (la + lb) + cl)) + (n + (h1 + (l1 + (l2 + l3)) + cl) + (n + (h2 + (m1 + m2) + cl))))
         == n + head + n + ha + la + lb + cl + n + h1 + l1 + l2 + l3 + cl + n + h2 + m1 + m2 + cl
  {}

  // ------------------------------------------------------------ the lines of the counter

  lemma ProgramLine() ensures "program " + CounterAst.name + "\n" == "program Counter\n" {}

  lemma AccountLine() ensures "account " + CounterState.name + " {\n" == "account CounterState {\n" {}

  lemma AuthorityFieldLine() ensures FieldText(Field("authority", Type.Pubkey)) == "authority: Pubkey" {}

  lemma CountFieldLine() ensures FieldText(Field("count", Type.U64)) == "count: u64" {}

  lemma SignerParams() ensures ParamsText([Param("authority", ParamType.Signer)]) == "authority: Signer" {
    assert [Param("authority", ParamType.Signer)][1..] == [];
  }

  lemma InitializeWords()
    ensures "instruction " + "initialize" + "(" + "authority: Signer" + ") {\n"
         == "instruction initialize(authority: Signer) {\n"
  {}

  lemma IncrementWords()
    ensures "instruction " + "increment" + "(" + "authority: Signer" + ") {\n"
         == "instruction increment(authority: Signer) {\n"
  {}

  lemma InitializeLine()
    ensures "instruction " + Initialize.name + "(" + ParamsText(Initialize.params) + ") {\n"
         == "instruction initialize(authority: Signer) {\n"
  {
    SignerParams();
    InitializeWords();
  }

  lemma IncrementLine()
    ensures "instruction " + Increment.name + "(" + ParamsText(Increment.params) + ") {\n"
         == "instruction increment(authority: Signer) {\n"
  {
    SignerParams();
    IncrementWords();
  }

  lemma InitForm(v: string, a: string, payer: string)
    ensures StatementText(InitAccount(v, a, payer, None)) == "init account " + v + ": " + a + " payer " + payer
  {
    var t := "init account " + v + ": " + a + " payer " + payer;
    assert SignerText(None) == "";
    assert t + "" == t;
  }

  lemma InitWords()
    ensures "init account " + "state" + ": " + "CounterState" + " payer " + "authority"
         == "init account state: CounterState payer authority"
  {}

  lemma InitLine()
    ensures StatementText(InitAccount("state", "CounterState", "authority", None))
         == "init account state: CounterState payer authority"
  {
    InitForm("state", "CounterState", "authority");
    InitWords();
  }

  /** A plain assignment prints as target, ` = `, value. */
  lemma AssignForm(target: Expr, value: Expr, t: string, v: string)
    requires !PrintsCompound(target, value) && ExprText(target) == t && ExprText(value) == v
    ensures StatementText(Assign(target, value)) == t + " = " + v
  {}

  lemma AuthorityAssignWords()
    ensures "state.authority" + " = " + "authority.key" == "state.authority = authority.key"
  {}

  lemma AuthorityAssignLine()
    ensures StatementText(Assign(StateAuthority, AuthorityKey)) == "state.authority = authority.key"
  {
    StateAuthorityText();
    AuthorityKeyText();
    AssignForm(StateAuthority, AuthorityKey, "state.authority", "authority.key");
    AuthorityAssignWords();
  }

  lemma CountResetLine() ensures StatementText(Assign(StateCount, Expr.Literal(UInt(0)))) == "state.count = 0" {
    assert StatementText(Assign(StateCount, Expr.Literal(UInt(0)))) == "state" + "." + "count" + " = " + "0";
  }

  lemma StateAuthorityText() ensures ExprText(StateAuthority) == "state.authority" {}

  lemma AuthorityKeyText() ensures ExprText(AuthorityKey) == "authority.key" {}

  lemma AuthorityCheckText()
    ensures ExprText(BinaryOp(Eq, StateAuthority, AuthorityKey)) == "state.authority == authority.key"
  {
    StateAuthorityText();
    AuthorityKeyText();
    assert Gap("authority.key") == " ";
    assert ExprText(BinaryOp(Eq, StateAuthority, AuthorityKey))
        == "state.authority" + " " + "==" + " " + "authority.key";
  }

  lemma RequireForm(c: Expr, t: string)
    requires ExprText(c) == t
    ensures StatementText(Require(c, None)) == "require " + t
  {
    assert MessageText(None) == "";
    assert "require " + t + "" == "require " + t;
  }

  lemma RequireLine()
    ensures StatementText(Require(BinaryOp(Eq, StateAuthority, AuthorityKey), None))
         == "require state.authority == authority.key"
  {
    AuthorityCheckText();
    RequireForm(BinaryOp(Eq, StateAuthority, AuthorityKey), "state.authority == authority.key");
    RequireWords();
  }

  lemma RequireWords()
    ensures "require " + "state.authority == authority.key" == "require state.authority == authority.key"
  {}

  lemma CountIncrementLine()
    ensures StatementText(Assign(StateCount, BinaryOp(Add, StateCount, Expr.Literal(UInt(1))))) == "state.count += 1"
  {
    assert PrintsCompound(StateCount, BinaryOp(Add, StateCount, Expr.Literal(UInt(1))));
    assert StatementText(Assign(StateCount, BinaryOp(Add, StateCount, Expr.Literal(UInt(1)))))
        == "state" + "." + "count" + " " + "+" + "= " + "1";
  }

  /** The counter tree prints as the unit-test source, leading line break aside. */
  lemma CounterText()
    ensures "\n" + ProgramText(CounterAst) == CounterSource
  {
    ProgramLine();
    AccountLine();
    AuthorityFieldLine();
    CountFieldLine();
    AccountBlock(CounterState, CounterState.fields[0], CounterState.fields[1], "account CounterState {\n",
      "authority: Pubkey", "count: u64");
    InitializeLine();
    InitLine();
    AuthorityAssignLine();
    CountResetLine();
    InstructionBlock3(Initialize, Initialize.body[0], Initialize.body[1], Initialize.body[2],
      "instruction initialize(authority: Signer) {\n", "init account state: CounterState payer authority",
      "state.authority = authority.key", "state.count = 0");
    IncrementLine();
    RequireLine();
    CountIncrementLine();
    InstructionBlock2(Increment, Increment.body[0], Increment.body[1],
      "instruction increment(authority: Signer) {\n", "require state.authority == authority.key",
      "state.count += 1");
    ProgramBlock(CounterAst, CounterState, Initialize, Increment, "program Counter\n",
      AccountText(CounterState), InstructionText(Initialize), InstructionText(Increment));
    Flatten("\n", "program Counter\n", "account CounterState {\n", Indented("authority: Pubkey"),
      Indented("count: u64"), "}\n", "instruction initialize(authority: Signer) {\n",
      Indented("init account state: CounterState payer authority"), Indented("state.authority = authority.key"),
      Indented("state.count = 0"), "instruction increment(authority: Signer) {\n",
      Indented("require state.authority == authority.key"), Indented("state.count += 1"));
  }

  // ------------------------------------------------------------ the counter in the pipeline

  /** A unary form is an expression of every level. */
  lemma UnaryIsExpr(e: Expr)
    requires IsUnaryForm(e)
    ensures IsExpr(e)
  {
    assert InLevel(Product, e);
    assert InLevel(Sum, e);
    assert InLevel(Comparison, e);
    assert InLevel(Conjunction, e);
  }

  /** A comparison of two unary forms is an expression. */
  lemma ComparisonIsExpr(op: BinOp, l: Expr, r: Expr)
    requires OpLevel(op) == Some(Comparison) && IsUnaryForm(l) && IsUnaryForm(r)
    ensures IsExpr(BinaryOp(op, l, r))
  {
    assert InLevel(Sum, l) by { assert InLevel(Product, l); }
    assert InLevel(Comparison, l);
    assert InOperand(Comparison, r) by { assert InLevel(Product, r); }
    assert InLevel(Comparison, BinaryOp(op, l, r));
    assert InLevel(Conjunction, BinaryOp(op, l, r));
  }

  lemma CounterWords()
    ensures IsIdentWord("Counter") && IsIdentWord("CounterState") && IsIdentWord("authority")
    ensures IsIdentWord("count") && IsIdentWord("state") && IsIdentWord("key")
    ensures IsIdentWord("initialize") && IsIdentWord("increment")
  {}

  lemma CounterChains()
    ensures IsChain(StateAuthority) && IsChain(StateCount) && IsChain(AuthorityKey)
    ensures IsChain(Expr.Literal(UInt(0))) && IsChain(Expr.Literal(UInt(1)))
  {
    CounterWords();
  }

  lemma InitializeOk() ensures InstructionOk(Initialize) {
    CounterWords();
    CounterChains();
    UnaryIsExpr(StateAuthority);
    UnaryIsExpr(AuthorityKey);
    UnaryIsExpr(StateCount);
    UnaryIsExpr(Expr.Literal(UInt(0)));
    assert StatementOk(Initialize.body[0]);
    assert StatementOk(Initialize.body[1]);
    assert StatementOk(Initialize.body[2]);
  }

  lemma IncrementOk() ensures InstructionOk(Increment) {
    CounterWords();
    CounterChains();
    ComparisonIsExpr(Eq, StateAuthority, AuthorityKey);
    UnaryIsExpr(StateCount);
    UnaryIsExpr(Expr.Literal(UInt(1)));
    assert StatementOk(Increment.body[0]);
    assert StatementOk(Increment.body[1]);
  }

  /** The counter tree is one the printer prints back faithfully. */
  lemma CounterPrintable() ensures Printable(CounterAst) {
    CounterWords();
    InitializeOk();
    IncrementOk();
    assert AccountOk(CounterState);
  }

  /** The unit test: the counter source parses into the counter tree. */
  lemma CounterParses() ensures Parse(CounterSource) == Ok(CounterAst) {
    CounterPrintable();
    CounterText();
    ReadsAfterBreak(CounterAst, CounterSource);
  }

  /** A source that starts with a line break and goes on with the printed text of a printable
      program parses into that program, as the unit test's raw string does. */
  lemma ReadsAfterBreak(p: Program, source: string)
    requires Printable(p) && source == "\n" + ProgramText(p)
    ensures Parse(source) == Ok(p)
  {
    assert AllWhitespace("\n") by { assert IsWhitespace('\n'); }
    ProgramReads("\n", p);
  }

  /** Both instructions take only a signer, so validation passes the counter through. */
  lemma CounterValidates() ensures Validate(CounterAst) == Ok(Hir(CounterAst)) {
    ValidateNoAccountParams(CounterAst);
    ValidateKeeps(CounterAst);
  }

  /** The state account reserves the discriminator, a public key and a `u64`: 48 bytes. */
  lemma CounterSpace() ensures Space(CounterAst.accounts, "CounterState") == 48 {
    var fs := CounterState.fields;
    assert fs[..1] == [fs[0]] && fs[..1][..0] == [];
    assert FieldsSize(fs) == FieldsSize(fs[..1]) + 8;
    assert FieldsSize(fs[..1]) == 32;
  }
}
