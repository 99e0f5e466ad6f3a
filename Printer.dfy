/** A printer from syntax trees back to source text, laid out the way the DSL is written
    (two-space indented bodies, one declaration per block), and the shape of the trees the
    grammar can produce. */
module Printer {
  import opened Wrappers
  import opened Text
  import opened Decimal
  import opened Ast
  import opened Parser

  /** The operator text for each binary operation. */
  function BinToken(op: BinOp): string {
    match op
    case Add => "+"
    case Sub => "-"
    case Mul => "*"
    case Div => "/"
    case Mod => "%"
    case Eq => "=="
    case Ne => "!="
    case Lt => "<"
    case Le => "<="
    case Gt => ">"
    case Ge => ">="
    case And => "&&"
    case Or => "||"
  }

  /** The grammar level whose operator choice yields `op`; `<=` and `>=` have none, because
      `<` and `>` are tried first and always win. */
  function OpLevel(op: BinOp): Option<Level> {
    match op
    case Mul => Some(Product)
    case Div => Some(Product)
    case Mod => Some(Product)
    case Add => Some(Sum)
    case Sub => Some(Sum)
    case Eq => Some(Comparison)
    case Ne => Some(Comparison)
    case Lt => Some(Comparison)
    case Gt => Some(Comparison)
    case And => Some(Conjunction)
    case Or => Some(Disjunction)
    case Le => None
    case Ge => None
  }

  function LiteralText(l: Literal): string {
    match l
    case Int(i) => RenderI64(i)
    case UInt(u) => Render(u as int)
    case Bool(b) => if b then "true" else "false"
    case String(s) => "\"" + s + "\""
  }

  function UnOpText(op: UnOp): string {
    match op
    case Not => "!"
    case Neg => "-"
  }

  /** No space between a binary operator and an operand that begins with a sign: the grammar
      does not skip whitespace in front of `!` and `-`. */
  function Gap(operand: string): string {
    if |operand| > 0 && (operand[0] == '!' || operand[0] == '-') then "" else " "
  }

  function ExprText(e: Expr): string {
    match e
    case Ident(x) => x
    case FieldAccess(obj, f) => ExprText(obj) + "." + f
    case Literal(l) => LiteralText(l)
    case UnaryOp(op, x) => UnOpText(op) + ExprText(x)
    case BinaryOp(op, l, r) => ExprText(l) + " " + BinToken(op) + Gap(ExprText(r)) + ExprText(r)
  }

  /** The text of the `(operator, operand)` pairs that follow the first operand of a level. */
  function OpsText(ops: seq<(BinOp, Expr)>): string {
    if ops == [] then "" else
      var rt := ExprText(ops[0].1);
      " " + BinToken(ops[0].0) + Gap(rt) + rt + OpsText(ops[1..])
  }

  /** The text of `.name` suffixes. */
  function DotsText(fields: seq<string>): string {
    if fields == [] then "" else "." + fields[0] + DotsText(fields[1..])
  }

  predicate QuoteFree(s: string) { forall i :: 0 <= i < |s| ==> s[i] != '"' }

  /** What `field_access` yields: an identifier that `literal` does not claim first, an
      unsigned, boolean or string literal, or field accesses on one of those. */
  predicate IsChain(e: Expr) {
    match e
    case Ident(x) => IsIdentWord(x) && !("true" <= x) && !("false" <= x)
    case Literal(l) => l.UInt? || l.Bool? || (l.String? && QuoteFree(l.s))
    case FieldAccess(obj, f) => IsChain(obj) && IsIdentWord(f)
    case _ => false
  }

  /** What `unary` yields. */
  predicate IsUnaryForm(e: Expr) {
    IsChain(e) || (e.UnaryOp? && IsChain(e.operand))
  }

  /** What level `lv` yields: a left-nested chain of its own operators over operands. */
  predicate InLevel(lv: Level, e: Expr)
    decreases e, Rank(lv), 1
  {
    (e.BinaryOp? && OpLevel(e.op) == Some(lv) && InLevel(lv, e.left) && InOperand(lv, e.right))
    || InOperand(lv, e)
  }

  /** What an operand of level `lv` yields. */
  predicate InOperand(lv: Level, e: Expr)
    decreases e, Rank(lv), 0
  {
    if lv == Product then IsUnaryForm(e) else InLevel(Tighter(lv), e)
  }

  /** What `expr_parser` yields. */
  predicate IsExpr(e: Expr) { InLevel(Disjunction, e) }

  // ------------------------------------------------------------ declarations

  /** A parameter type as the DSL spells it: the type name, or the account type's own name. */
  function ParamTypeText(t: ParamType): string {
    match t
    case Signer => "Signer"
    case Account(name) => name
    case Pubkey => "Pubkey"
    case U8 => "u8"
    case U16 => "u16"
    case U32 => "u32"
    case U64 => "u64"
    case I8 => "i8"
    case I16 => "i16"
    case I32 => "i32"
    case I64 => "i64"
    case Bool => "bool"
    case String => "String"
  }

  function FieldText(f: Field): string { f.name + ": " + TypeRust(f.ty) }

  /** One indented field per line. */
  function FieldsText(fs: seq<Field>): string {
    if fs == [] then "" else "  " + FieldText(fs[0]) + "\n" + FieldsText(fs[1..])
  }

  function AccountText(a: AccountDef): string {
    "account " + a.name + " {\n" + FieldsText(a.fields) + "}\n"
  }

  /** Account blocks, each after a blank line. */
  function AccountsText(accounts: seq<AccountDef>): string {
    if accounts == [] then "" else "\n" + AccountText(accounts[0]) + AccountsText(accounts[1..])
  }

  function ParamText(p: Param): string { p.name + ": " + ParamTypeText(p.ty) }

  /** The `, param` pairs after the first parameter. */
  function MoreParamsText(ps: seq<Param>): string {
    if ps == [] then "" else ", " + ParamText(ps[0]) + MoreParamsText(ps[1..])
  }

  function ParamsText(ps: seq<Param>): string {
    if ps == [] then "" else ParamText(ps[0]) + MoreParamsText(ps[1..])
  }

  // ------------------------------------------------------------ statements and programs

  /** The compound operators `+=`, `-=`, `*=`, `/=` and `%=`. */
  predicate IsCompound(op: BinOp) { op == Add || op == Sub || op == Mul || op == Div || op == Mod }

  /** An assignment whose value applies a compound operator to the target itself is printed
      in the compound form. */
  predicate PrintsCompound(target: Expr, value: Expr) {
    value.BinaryOp? && IsCompound(value.op) && value.left == target
  }

  /** The message of a `require` follows the comma directly: the quoted-string rule does not
      skip whitespace in front of the opening quote. */
  function MessageText(message: Option<string>): string {
    match message
    case Some(m) => ",\"" + m + "\""
    case None => ""
  }

  function SignerText(signer: Option<string>): string {
    match signer
    case Some(x) => " signer " + x
    case None => ""
  }

  function StatementText(s: Statement): string {
    match s
    case InitAccount(v, a, payer, signer) =>
      "init account " + v + ": " + a + " payer " + payer + SignerText(signer)
    case Require(c, m) => "require " + ExprText(c) + MessageText(m)
    case Assign(t, v) =>
      if PrintsCompound(t, v) then ExprText(t) + " " + BinToken(v.op) + "= " + ExprText(v.right)
      else ExprText(t) + " = " + ExprText(v)
    case Expr(e) => ExprText(e)
  }

  /** One indented statement per line. */
  function StatementsText(ss: seq<Statement>): string {
    if ss == [] then "" else "  " + StatementText(ss[0]) + "\n" + StatementsText(ss[1..])
  }

  function InstructionText(i: Instruction): string {
    "instruction " + i.name + "(" + ParamsText(i.params) + ") {\n" + StatementsText(i.body) + "}\n"
  }

  /** Instruction blocks, each after a blank line. */
  function InstructionsText(instructions: seq<Instruction>): string {
    if instructions == [] then ""
    else "\n" + InstructionText(instructions[0]) + InstructionsText(instructions[1..])
  }

  function ProgramText(p: Program): string {
    "program " + p.name + "\n" + AccountsText(p.accounts) + InstructionsText(p.instructions)
  }

  // ------------------------------------------------------------ what the printer can print back

  /** An account type name that none of the fixed parameter type names is a prefix of: the
      choice tries those names first and does not look for the end of a word. */
  predicate AccountNameOk(n: string) {
    IsIdentWord(n) && forall i :: 0 <= i < |ParamTypeNames| ==> !(ParamTypeNames[i] <= n)
  }

  predicate ParamOk(p: Param) {
    IsIdentWord(p.name) && (p.ty.Account? ==> AccountNameOk(p.ty.accountName))
  }

  /** The leftmost unary form of an expression, whose text starts the expression's text. */
  function Head(e: Expr): Expr {
    if e.BinaryOp? then Head(e.left) else e
  }

  /** The innermost object of a chain of field accesses. */
  function Base(e: Expr): Expr {
    if e.FieldAccess? then Base(e.obj) else e
  }

  /** An assignment or expression statement must not start like the statements tried before it
      (`init`, `require`), like the optional `signer` clause of a statement before it, or with
      a `-` that the expression before it would read as a subtraction. */
  predicate HeadOk(e: Expr) {
    var h := Head(e);
    !(h.UnaryOp? && h.unOp == Neg)
    && (Base(h).Ident? ==>
          !("init" <= Base(h).id) && !("require" <= Base(h).id) && !("signer" <= Base(h).id))
  }

  predicate StatementOk(s: Statement) {
    match s
    case InitAccount(v, a, payer, signer) =>
      IsIdentWord(v) && IsIdentWord(a) && IsIdentWord(payer) && (signer.Some? ==> IsIdentWord(signer.value))
    case Require(c, m) => IsExpr(c) && (m.Some? ==> QuoteFree(m.value))
    case Assign(t, v) => IsExpr(t) && HeadOk(t) && (if PrintsCompound(t, v) then IsExpr(v.right) else IsExpr(v))
    case Expr(e) => IsExpr(e) && HeadOk(e)
  }

  predicate AccountOk(a: AccountDef) {
    IsIdentWord(a.name) && forall k :: 0 <= k < |a.fields| ==> IsIdentWord(a.fields[k].name)
  }

  predicate InstructionOk(i: Instruction) {
    IsIdentWord(i.name)
    && (forall k :: 0 <= k < |i.params| ==> ParamOk(i.params[k]))
    && (forall k :: 0 <= k < |i.body| ==> StatementOk(i.body[k]))
  }

  /** The programs whose printed text the grammar reads back. */
  predicate Printable(p: Program) {
    IsIdentWord(p.name)
    && (forall k :: 0 <= k < |p.accounts| ==> AccountOk(p.accounts[k]))
    && (forall k :: 0 <= k < |p.instructions| ==> InstructionOk(p.instructions[k]))
  }
}
