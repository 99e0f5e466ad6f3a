/** The Anchor code generator: Rust source text for a validated program. */
module Codegen {
  import opened Wrappers
  import opened Text
  import opened Decimal
  import opened Ast
  import opened Hir

  // ---------------------------------------------------------------------------------------------
  // Account sizes

  /** `calculate_type_size`: bytes reserved for one field of type `t`. */
  function TypeSize(t: Type): (r: nat)
    ensures r >= 1
    ensures t.Vec? ==> r > 8
    ensures t.Option? ==> r > 1
  {
    match t
    case Pubkey => 32
    case U8 => 1
    case I8 => 1
    case U16 => 2
    case I16 => 2
    case U32 => 4
    case I32 => 4
    case U64 => 8
    case I64 => 8
    case Bool => 1
    case String => 4 + 4
    case Vec(inner) => 4 + 4 + TypeSize(inner)
    case Option(inner) => 1 + TypeSize(inner)
  }

  /** Sum of the field sizes, accumulated in declaration order. */
  function FieldsSize(fields: seq<Field>): nat {
    if fields == [] then 0 else FieldsSize(fields[..|fields| - 1]) + TypeSize(fields[|fields| - 1].ty)
  }

  /** First account definition called `name`. */
  function FindAccount(accounts: seq<AccountDef>, name: string): (r: Option<AccountDef>)
    ensures r.Some? <==> exists k :: 0 <= k < |accounts| && accounts[k].name == name
    ensures r.Some? ==> r.value.name == name
    ensures r.Some? ==>
              exists k :: 0 <= k < |accounts| && accounts[k] == r.value && forall m :: 0 <= m < k ==> accounts[m].name != name
  {
    if accounts == [] then None
    else if accounts[0].name == name then Some(accounts[0])
    else
      var r := FindAccount(accounts[1..], name);
      assert forall k :: 1 <= k < |accounts| ==> accounts[k] == accounts[1..][k - 1];
      r
  }

  /** `space`: the 8-byte discriminator plus the fields of the first account called `name`
      (only the discriminator when there is none). */
  function Space(accounts: seq<AccountDef>, name: string): nat {
    match FindAccount(accounts, name)
    case Some(def) => 8 + FieldsSize(def.fields)
    case None => 8
  }

  lemma {:induction false} FieldsSizeAppend(a: seq<Field>, b: seq<Field>)
    ensures FieldsSize(a + b) == FieldsSize(a) + FieldsSize(b)
    decreases |b|
  {
    if b == [] {
      assert a + b == a;
    } else {
      var n := |b| - 1;
      assert (a + b)[..|a + b| - 1] == a + b[..n];
      assert (a + b)[|a + b| - 1] == b[n];
      FieldsSizeAppend(a, b[..n]);
    }
  }

  /** Every field adds at least one byte, wherever it is inserted. */
  lemma FieldsSizeGrows(a: seq<Field>, f: Field, b: seq<Field>)
    ensures FieldsSize(a + [f] + b) >= FieldsSize(a + b) + 1
  {
    FieldsSizeAppend(a + [f], b);
    FieldsSizeAppend(a, b);
    assert (a + [f])[..|a|] == a;
  }

  /** The size never depends on the order in which the fields are declared. */
  lemma {:induction false} FieldsSizePermutation(a: seq<Field>, b: seq<Field>)
    requires multiset(a) == multiset(b)
    ensures FieldsSize(a) == FieldsSize(b)
    decreases |a|
  {
    if a != [] {
      var n := |a| - 1;
      var f := a[n];
      assert a == a[..n] + [f];
      assert f in multiset(b);
      var k :| 0 <= k < |b| && b[k] == f;
      assert b == b[..k] + [f] + b[k + 1..];
      var rest := b[..k] + b[k + 1..];
      assert multiset(a[..n]) == multiset(rest) by {
        calc {
          multiset(a[..n]);
          multiset(a) - multiset{f};
          multiset(b) - multiset{f};
          { assert multiset(b) == multiset(b[..k]) + multiset{f} + multiset(b[k + 1..]); }
          multiset(b[..k]) + multiset(b[k + 1..]);
          multiset(rest);
        }
      }
      FieldsSizePermutation(a[..n], rest);
      FieldsSizeAppend(b[..k] + [f], b[k + 1..]);
      FieldsSizeAppend(b[..k], b[k + 1..]);
      assert (b[..k] + [f])[..k] == b[..k];
    }
  }

  /** Every field takes at least one byte. */
  lemma {:induction false} FieldsSizeAtLeastCount(fields: seq<Field>)
    ensures FieldsSize(fields) >= |fields|
    decreases |fields|
  {
    if fields != [] {
      FieldsSizeAtLeastCount(fields[..|fields| - 1]);
    }
  }

  // ---------------------------------------------------------------------------------------------
  // Expressions and statements

  /** The Rust operator emitted for `op`. */
  function OpRust(op: BinOp): string {
    match op
    case Add => "+"
    case Sub => "-"
    case Mul => "*"
    case Div => "/"
    case Mod => "%"
    case Eq => "=="
    case Ne => "!="
    case Lt => "<"
    case Le => "<="
    case Gt => ">"
    case Ge => ">="
    case And => "&&"
    case Or => "||"
  }

  /** Rust's `to_string` of a literal; a string literal is put back between quotes. */
  function LiteralRust(l: Literal): string {
    match l
    case Int(i) => RenderI64(i)
    case UInt(u) => Render(u as int)
    case Bool(b) => if b then "true" else "false"
    case String(s) => "\"" + s + "\""
  }

  /** `generate_expr`. The context name is accepted and never used: every identifier is read
      from `ctx.accounts`. */
  function GenExpr(e: Expr, contextName: string): string {
    match e
    case Ident(name) => "ctx.accounts." + name
    case FieldAccess(obj, field) => GenExpr(obj, contextName) + "." + field
    case Literal(lit) => LiteralRust(lit)
    case BinaryOp(op, l, r) => "(" + GenExpr(l, contextName) + " " + OpRust(op) + " " + GenExpr(r, contextName) + ")"
    case UnaryOp(op, operand) => (match op case Not => "!" case Neg => "-") + GenExpr(operand, contextName)
  }

  /** `generate_statement`: one indented line per statement, none for `init account`; a `require`
      message is copied as it is, without quotes. */
  function GenStatement(s: Statement, contextName: string): string {
    match s
    case InitAccount(_, _, _, _) => ""
    case Require(condition, message) =>
      (match message
       case Some(msg) => "        require!(" + GenExpr(condition, contextName) + ", " + msg + ");\n"
       case None => "        require!(" + GenExpr(condition, contextName) + ");\n")
    case Assign(target, value) => "        " + GenExpr(target, contextName) + " = " + GenExpr(value, contextName) + ";\n"
    case Expr(expr) => "        " + GenExpr(expr, contextName) + ";\n"
  }

  lemma {:induction false} GenExprIgnoresContext(e: Expr, c1: string, c2: string)
    ensures GenExpr(e, c1) == GenExpr(e, c2)
  {
    match e
    case Ident(_) =>
    case Literal(_) =>
    case FieldAccess(obj, _) => GenExprIgnoresContext(obj, c1, c2);
    case BinaryOp(_, l, r) =>
      GenExprIgnoresContext(l, c1, c2);
      GenExprIgnoresContext(r, c1, c2);
    case UnaryOp(_, operand) => GenExprIgnoresContext(operand, c1, c2);
  }

  /** Number of binary operations in `e`. */
  function BinaryCount(e: Expr): nat {
    match e
    case Ident(_) => 0
    case Literal(_) => 0
    case FieldAccess(obj, _) => BinaryCount(obj)
    case BinaryOp(_, l, r) => 1 + BinaryCount(l) + BinaryCount(r)
    case UnaryOp(_, operand) => BinaryCount(operand)
  }

  predicate ParenFree(s: string) { Occurrences('(', s) == 0 && Occurrences(')', s) == 0 }

  /** No name, field or string literal in `e` contains a parenthesis. */
  predicate ParenFreeNames(e: Expr) {
    match e
    case Ident(name) => ParenFree(name)
    case Literal(lit) => lit.String? ==> ParenFree(lit.s)
    case FieldAccess(obj, field) => ParenFreeNames(obj) && ParenFree(field)
    case BinaryOp(_, l, r) => ParenFreeNames(l) && ParenFreeNames(r)
    case UnaryOp(_, operand) => ParenFreeNames(operand)
  }

  lemma {:induction false} Absent(c: char, s: string)
    requires forall i :: 0 <= i < |s| ==> s[i] != c
    ensures Occurrences(c, s) == 0
  {
    if s != [] {
      Absent(c, s[1..]);
    }
  }

  lemma ParenFreeConcat(a: string, b: string)
    requires ParenFree(a) && ParenFree(b)
    ensures ParenFree(a + b)
  {
    OccurrencesAppend('(', a, b);
    OccurrencesAppend(')', a, b);
  }

  lemma ParenFreeDigits(s: string)
    requires AllDigits(s)
    ensures ParenFree(s)
  {
    Absent('(', s);
    Absent(')', s);
  }

  lemma ParenFreeLiteral(l: Literal)
    requires l.String? ==> ParenFree(l.s)
    ensures ParenFree(LiteralRust(l))
  {
    match l
    case Int(i) =>
      if i < 0 {
        ParenFreeDigits(Render(-(i as int)));
        Absent('(', "-");
        Absent(')', "-");
        ParenFreeConcat("-", Render(-(i as int)));
      } else {
        ParenFreeDigits(Render(i as int));
      }
    case UInt(u) => ParenFreeDigits(Render(u as int));
    case Bool(b) =>
      Absent('(', "true"); Absent(')', "true");
      Absent('(', "false"); Absent(')', "false");
    case String(s) =>
      Absent('(', "\""); Absent(')', "\"");
      ParenFreeConcat("\"", s);
      ParenFreeConcat("\"" + s, "\"");
  }

  lemma IdentParens(prefix: string, name: string)
    requires prefix == "ctx.accounts." && ParenFree(name)
    ensures ParenFree(prefix + name)
  {
    assert ParenFree(prefix) by {
      Absent('(', prefix);
      Absent(')', prefix);
    }
    ParenFreeConcat(prefix, name);
  }

  lemma FieldParens(g: string, field: string)
    requires ParenFree(field)
    ensures Occurrences('(', g + "." + field) == Occurrences('(', g)
    ensures Occurrences(')', g + "." + field) == Occurrences(')', g)
  {
    Absent('(', ".");
    Absent(')', ".");
    ParenFreeConcat(".", field);
    assert g + "." + field == g + ("." + field);
    OccurrencesAppend('(', g, "." + field);
    OccurrencesAppend(')', g, "." + field);
  }

  lemma WrapParens(gl: string, op: BinOp, gr: string)
    ensures Occurrences('(', "(" + gl + " " + OpRust(op) + " " + gr + ")") == Occurrences('(', gl) + Occurrences('(', gr) + 1
    ensures Occurrences(')', "(" + gl + " " + OpRust(op) + " " + gr + ")") == Occurrences(')', gl) + Occurrences(')', gr) + 1
  {
    var mid := " " + OpRust(op) + " ";
    Absent('(', mid);
    Absent(')', mid);
    WrapRegroup("(", gl, " ", OpRust(op), " ", gr, ")", mid);
    WrapCount('(', gl, mid, gr);
    WrapCount(')', gl, mid, gr);
  }

  lemma WrapRegroup(a: string, b: string, c: string, d: string, e: string, f: string, g: string, m: string)
    requires m == c + d + e
    ensures a + b + c + d + e + f + g == a + (b + (m + (f + g)))
  {
  }

  /** Wrapping in one pair of parentheses adds one of each. */
  lemma WrapCount(c: char, gl: string, mid: string, gr: string)
    requires (c == '(' || c == ')') && Occurrences(c, mid) == 0
    ensures Occurrences(c, "(" + (gl + (mid + (gr + ")")))) == Occurrences(c, gl) + Occurrences(c, gr) + 1
  {
    OccurrencesAppend(c, gr, ")");
    OccurrencesAppend(c, mid, gr + ")");
    OccurrencesAppend(c, gl, mid + (gr + ")"));
    OccurrencesAppend(c, "(", gl + (mid + (gr + ")")));
  }

  lemma SignParens(sign: string, g: string)
    requires sign == "!" || sign == "-"
    ensures Occurrences('(', sign + g) == Occurrences('(', g)
    ensures Occurrences(')', sign + g) == Occurrences(')', g)
  {
    OccurrencesAppend('(', sign, g);
    OccurrencesAppend(')', sign, g);
  }

  /** Every binary operation is parenthesised once and nothing else is: the lowered text holds
      exactly one `(` and one `)` per binary operation. */
  lemma {:induction false} GenExprParens(e: Expr, c: string)
    requires ParenFreeNames(e)
    ensures Occurrences('(', GenExpr(e, c)) == BinaryCount(e)
    ensures Occurrences(')', GenExpr(e, c)) == BinaryCount(e)
  {
    match e
    case Ident(name) => IdentParens("ctx.accounts.", name);
    case Literal(lit) => ParenFreeLiteral(lit);
    case FieldAccess(obj, field) =>
      GenExprParens(obj, c);
      FieldParens(GenExpr(obj, c), field);
    case BinaryOp(op, l, r) =>
      GenExprParens(l, c);
      GenExprParens(r, c);
      WrapParens(GenExpr(l, c), op, GenExpr(r, c));
    case UnaryOp(op, operand) =>
      GenExprParens(operand, c);
      SignParens(match op case Not => "!" case Neg => "-", GenExpr(operand, c));
  }

  /** A compound assignment `t op= v`, desugared by the parser to `t = t op v`, is emitted as
      an assignment of the parenthesised operation. */
  lemma CompoundAssignLowering(t: Expr, op: BinOp, v: Expr, c: string)
    ensures GenStatement(Assign(t, BinaryOp(op, t, v)), c)
      == "        " + GenExpr(t, c) + " = (" + GenExpr(t, c) + " " + OpRust(op) + " " + GenExpr(v, c) + ");\n"
  {
    AssignText(GenExpr(t, c), OpRust(op), GenExpr(v, c));
  }

  lemma AssignText(target: string, op: string, value: string)
    ensures "        " + target + " = " + ("(" + target + " " + op + " " + value + ")") + ";\n"
      == "        " + target + " = (" + target + " " + op + " " + value + ");\n"
  {
    var lhs := "        " + target + " = ";
    assert lhs + "(" == "        " + target + " = (";
    assert ")" + ";\n" == ");\n";
  }

  lemma CountLowering(c: string)
    ensures GenExpr(FieldAccess(Expr.Ident("state"), "count"), c) == "ctx.accounts.state.count"
  {
  }

  /** `state.count += 1` becomes the line of the counter example:
      `ctx.accounts.state.count = (ctx.accounts.state.count + 1);`. */
  lemma CounterIncrementLowering(c: string)
    ensures var count := FieldAccess(Expr.Ident("state"), "count");
      GenStatement(Assign(count, BinaryOp(Add, count, Literal(UInt(1)))), c)
      == "        " + GenExpr(count, c) + " = (" + GenExpr(count, c) + " + 1);\n"
  {
    var count := FieldAccess(Expr.Ident("state"), "count");
    CompoundAssignLowering(count, Add, Literal(UInt(1)), c);
    CountLowering(c);
    assert GenExpr(Literal(UInt(1)), c) == "1" by {
      assert Render(1) == "1";
    }
    var x := GenExpr(count, c);
    assert x + " " + "+" + " " + "1" + ");\n" == x + " + 1);\n";
  }

  /** `init account` is the one statement that emits nothing. */
  lemma GenStatementEmptyIff(s: Statement, c: string)
    ensures s.InitAccount? <==> GenStatement(s, c) == ""
  {
  }

  /** The message follows the condition verbatim: a message `m` is emitted as `m`, not `"m"`. */
  lemma RequireMessageVerbatim(condition: Expr, msg: string, c: string)
    ensures GenStatement(Require(condition, Some(msg)), c)
      == GenStatement(Require(condition, None), c)[..|GenStatement(Require(condition, None), c)| - 3] + ", " + msg + ");\n"
  {
    var bare := GenStatement(Require(condition, None), c);
    assert bare == ("        require!(" + GenExpr(condition, c)) + ");\n";
    assert bare[..|bare| - 3] == "        require!(" + GenExpr(condition, c);
  }

  // ---------------------------------------------------------------------------------------------
  // The emitted sections

  const Prelude := "use anchor_lang::prelude::*;\n\n"

  function FieldLine(f: Field): string {
    "    pub " + f.name + ": " + TypeRust(f.ty) + ",\n"
  }

  function FieldLines(fields: seq<Field>): string {
    if fields == [] then "" else FieldLines(fields[..|fields| - 1]) + FieldLine(fields[|fields| - 1])
  }

  function AccountStruct(a: AccountDef): string {
    "#[account]\n" + "pub struct " + a.name + " {\n" + FieldLines(a.fields) + "}\n\n"
  }

  function AccountStructs(accounts: seq<AccountDef>): string {
    if accounts == [] then "" else AccountStructs(accounts[..|accounts| - 1]) + AccountStruct(accounts[|accounts| - 1])
  }

  function ModuleHeader(name: string): string {
    "#[program]\n" + "pub mod " + Lower(name) + " {\n" + "    use super::*;\n\n"
  }

  /** Signer and account parameters live in the context struct, not in the handler's signature. */
  predicate InContext(t: ParamType) { t.Signer? || t.Account? }

  function ArgLine(p: Param): string {
    "        " + p.name + ": " + ParamTypeRust(p.ty) + ",\n"
  }

  function ArgLines(params: seq<Param>): string {
    if params == [] then ""
    else
      var p := params[|params| - 1];
      ArgLines(params[..|params| - 1]) + (if InContext(p.ty) then "" else ArgLine(p))
  }

  function BodyLines(body: seq<Statement>, contextName: string): string {
    if body == [] then "" else BodyLines(body[..|body| - 1], contextName) + GenStatement(body[|body| - 1], contextName)
  }

  function Handler(ins: Instruction): string {
    "    pub fn " + ins.name + "(\n" + "        ctx: Context<" + ins.name + "Context>,\n"
    + ArgLines(ins.params) + "    ) -> Result<()> {\n"
    + BodyLines(ins.body, ins.name + "Context") + "        Ok(())\n" + "    }\n\n"
  }

  function Handlers(instructions: seq<Instruction>): string {
    if instructions == [] then ""
    else Handlers(instructions[..|instructions| - 1]) + Handler(instructions[|instructions| - 1])
  }

  /** One element of `init_accounts`: parameter name, payer and optional signer. */
  datatype InitEntry = InitEntry(paramName: string, payer: string, signer: Option<string>)

  /** First parameter called `name`. */
  function FindParam(params: seq<Param>, name: string): (r: Option<Param>)
    ensures r.Some? ==> r.value.name == name
    ensures r.Some? <==> exists k :: 0 <= k < |params| && params[k].name == name
  {
    if params == [] then None
    else if params[0].name == name then Some(params[0])
    else
      var r := FindParam(params[1..], name);
      assert forall k :: 1 <= k < |params| ==> params[k] == params[1..][k - 1];
      r
  }

  /** The `filter_map` over the body: one entry per `init account` whose variable names a parameter. */
  function InitEntries(params: seq<Param>, body: seq<Statement>): seq<InitEntry> {
    if body == [] then []
    else
      InitEntries(params, body[..|body| - 1]) +
      match body[|body| - 1]
      case InitAccount(varName, _, payer, signer) =>
        (match FindParam(params, varName)
         case Some(p) => [InitEntry(p.name, payer, signer)]
         case None => [])
      case _ => []
  }

  /** First entry for parameter `name`. */
  function FindInit(entries: seq<InitEntry>, name: string): Option<InitEntry> {
    if entries == [] then None
    else if entries[0].paramName == name then Some(entries[0])
    else FindInit(entries[1..], name)
  }

  function Attribute(accounts: seq<AccountDef>, init: Option<InitEntry>, accountName: string): string {
    match init
    case Some(entry) =>
      "    #[account(\n        init,\n        payer = " + entry.payer + ",\n        space = "
      + Render(Space(accounts, accountName)) + "\n    )]\n"
    case None => "    #[account(mut)]\n"
  }

  /** The context-struct field of one parameter; scalar parameters have none. */
  function ContextField(accounts: seq<AccountDef>, inits: seq<InitEntry>, p: Param): string {
    match p.ty
    case Signer => "    #[account(mut)]\n    pub " + p.name + ": Signer<'info>,\n"
    case Account(accountName) =>
      Attribute(accounts, FindInit(inits, p.name), accountName)
      + "    pub " + p.name + ": Account<'info, " + accountName + ">,\n"
    case _ => ""
  }

  function ContextFields(accounts: seq<AccountDef>, inits: seq<InitEntry>, params: seq<Param>): string {
    if params == [] then ""
    else ContextFields(accounts, inits, params[..|params| - 1]) + ContextField(accounts, inits, params[|params| - 1])
  }

  function ContextStruct(accounts: seq<AccountDef>, ins: Instruction): string {
    "#[derive(Accounts)]\n" + "pub struct " + ins.name + "Context<'info> {\n"
    + ContextFields(accounts, InitEntries(ins.params, ins.body), ins.params) + "}\n\n"
  }

  function ContextStructs(accounts: seq<AccountDef>, instructions: seq<Instruction>): string {
    if instructions == [] then ""
    else ContextStructs(accounts, instructions[..|instructions| - 1]) + ContextStruct(accounts, instructions[|instructions| - 1])
  }

  /** `generate_anchor_code` as a value. */
  function AnchorCode(h: Hir): string {
    var p := h.program;
    Prelude + AccountStructs(p.accounts) + ModuleHeader(p.name) + Handlers(p.instructions) + "}\n\n"
    + ContextStructs(p.accounts, p.instructions)
  }

  // ---------------------------------------------------------------------------------------------
  // Properties of the emitted text

  /** The elements of `xs` that satisfy `f`, in their order in `xs`. */
  function Filter<T(!new)>(f: T -> bool, xs: seq<T>): (r: seq<T>)
    ensures |r| <= |xs|
    ensures forall x :: x in r <==> x in xs && f(x)
  {
    if xs == [] then []
    else Filter(f, xs[..|xs| - 1]) + (if f(xs[|xs| - 1]) then [xs[|xs| - 1]] else [])
  }

  /** The parameters a handler takes after `ctx`. */
  function HandlerParams(params: seq<Param>): seq<Param> {
    Filter((p: Param) => !InContext(p.ty), params)
  }

  /** The parameters that get a field in the context struct. */
  function ContextParams(params: seq<Param>): seq<Param> {
    Filter((p: Param) => InContext(p.ty), params)
  }

  /** One argument line per parameter, unconditionally. */
  function AllArgLines(params: seq<Param>): string {
    if params == [] then "" else AllArgLines(params[..|params| - 1]) + ArgLine(params[|params| - 1])
  }

  /** After `ctx`, a handler lists exactly its non-signer, non-account parameters, in order. */
  lemma {:induction false} ArgLinesAreHandlerParams(params: seq<Param>)
    ensures ArgLines(params) == AllArgLines(HandlerParams(params))
    decreases |params|
  {
    if params != [] {
      var n := |params| - 1;
      var rest := HandlerParams(params[..n]);
      ArgLinesAreHandlerParams(params[..n]);
      assert HandlerParams(params) == rest + (if !InContext(params[n].ty) then [params[n]] else []);
      if !InContext(params[n].ty) {
        assert (rest + [params[n]])[..|rest|] == rest;
      } else {
        assert rest + [] == rest;
      }
    }
  }

  /** Only signer and account parameters have a context field. */
  lemma ContextFieldEmptyIff(accounts: seq<AccountDef>, inits: seq<InitEntry>, p: Param)
    ensures ContextField(accounts, inits, p) == "" <==> !InContext(p.ty)
  {
  }

  /** The context struct holds the fields of exactly its signer and account parameters, in order. */
  lemma {:induction false} ContextFieldsAreContextParams(accounts: seq<AccountDef>, inits: seq<InitEntry>, params: seq<Param>)
    ensures ContextFields(accounts, inits, params) == ContextFields(accounts, inits, ContextParams(params))
    decreases |params|
  {
    if params != [] {
      var n := |params| - 1;
      var rest := ContextParams(params[..n]);
      ContextFieldsAreContextParams(accounts, inits, params[..n]);
      assert ContextParams(params) == rest + (if InContext(params[n].ty) then [params[n]] else []);
      if InContext(params[n].ty) {
        assert (rest + [params[n]])[..|rest|] == rest;
      } else {
        assert rest + [] == rest;
        assert ContextField(accounts, inits, params[n]) == "";
      }
    }
  }

  /** `init account` statements contribute nothing to a handler body. */
  lemma {:induction false} BodyLinesSkipInit(body: seq<Statement>, c: string)
    ensures BodyLines(body, c) == BodyLines(Filter((s: Statement) => !s.InitAccount?, body), c)
    decreases |body|
  {
    if body != [] {
      var n := |body| - 1;
      var rest := Filter((s: Statement) => !s.InitAccount?, body[..n]);
      BodyLinesSkipInit(body[..n], c);
      if !body[n].InitAccount? {
        assert (rest + [body[n]])[..|rest|] == rest;
      } else {
        assert rest + [] == rest;
      }
    }
  }

  /** The generated file starts with the prelude and the account structs, then the program module. */
  lemma AnchorCodeStarts(h: Hir)
    ensures Prelude <= AnchorCode(h)
    ensures Prelude + AccountStructs(h.program.accounts) + ModuleHeader(h.program.name) <= AnchorCode(h)
  {
  }

  predicate IsInitOf(s: Statement, name: string) { s.InitAccount? && s.varName == name }

  /** The first `init account` of variable `name` in the body, read off the statement itself. */
  function FirstInit(body: seq<Statement>, name: string): Option<InitEntry> {
    if body == [] then None
    else
      var earlier := FirstInit(body[..|body| - 1], name);
      var s := body[|body| - 1];
      if earlier.Some? then earlier
      else if IsInitOf(s, name) then Some(InitEntry(name, s.payer, s.signer))
      else None
  }

  lemma {:induction false} FirstInitSpec(body: seq<Statement>, name: string)
    ensures FirstInit(body, name).Some? <==> exists k :: 0 <= k < |body| && IsInitOf(body[k], name)
    ensures FirstInit(body, name).Some? ==>
      exists k :: 0 <= k < |body| && IsInitOf(body[k], name) && (forall m :: 0 <= m < k ==> !IsInitOf(body[m], name))
        && FirstInit(body, name).value == InitEntry(name, body[k].payer, body[k].signer)
    decreases |body|
  {
    if body != [] {
      var n := |body| - 1;
      FirstInitSpec(body[..n], name);
      assert forall k :: 0 <= k < n ==> body[..n][k] == body[k];
    }
  }

  lemma {:induction false} FindInitAppend(a: seq<InitEntry>, b: seq<InitEntry>, name: string)
    ensures FindInit(a + b, name) == if FindInit(a, name).Some? then FindInit(a, name) else FindInit(b, name)
  {
    if a == [] {
      assert a + b == b;
    } else {
      assert (a + b)[1..] == a[1..] + b;
      FindInitAppend(a[1..], b, name);
    }
  }

  /** For a parameter `name`, the `init_accounts` lookup finds the first `init account` of `name`. */
  lemma {:induction false} InitEntriesFind(params: seq<Param>, body: seq<Statement>, name: string)
    requires FindParam(params, name).Some?
    ensures FindInit(InitEntries(params, body), name) == FirstInit(body, name)
    decreases |body|
  {
    if body != [] {
      var n := |body| - 1;
      InitEntriesFind(params, body[..n], name);
      var tail := match body[n]
        case InitAccount(varName, _, payer, signer) =>
          (match FindParam(params, varName) case Some(p) => [InitEntry(p.name, payer, signer)] case None => [])
        case _ => [];
      assert InitEntries(params, body) == InitEntries(params, body[..n]) + tail;
      FindInitAppend(InitEntries(params, body[..n]), tail, name);
    }
  }

  /** An `init account` whose variable is no parameter leaves no entry behind. */
  lemma {:induction false} InitEntriesNameParams(params: seq<Param>, body: seq<Statement>)
    ensures forall e :: e in InitEntries(params, body) ==> FindParam(params, e.paramName).Some?
    decreases |body|
  {
    if body != [] {
      InitEntriesNameParams(params, body[..|body| - 1]);
    }
  }

  /** The context field of account parameter j carries the `init` attribute, with the payer of the
      first `init account` of that parameter and the computed space, exactly when the body has such
      a statement; otherwise it is `mut`. */
  lemma AccountFieldInit(accounts: seq<AccountDef>, ins: Instruction, j: int)
    requires 0 <= j < |ins.params| && ins.params[j].ty.Account?
    ensures var p := ins.params[j];
      ContextField(accounts, InitEntries(ins.params, ins.body), p)
      == Attribute(accounts, FirstInit(ins.body, p.name), p.ty.accountName)
         + "    pub " + p.name + ": Account<'info, " + p.ty.accountName + ">,\n"
    ensures var p := ins.params[j];
      FirstInit(ins.body, p.name).Some? <==> exists k :: 0 <= k < |ins.body| && IsInitOf(ins.body[k], p.name)
    ensures var p := ins.params[j];
      FirstInit(ins.body, p.name).Some? ==>
        exists k :: 0 <= k < |ins.body| && IsInitOf(ins.body[k], p.name)
          && (forall m :: 0 <= m < k ==> !IsInitOf(ins.body[m], p.name))
          && FirstInit(ins.body, p.name).value.payer == ins.body[k].payer
  {
    var p := ins.params[j];
    assert FindParam(ins.params, p.name).Some?;
    InitEntriesFind(ins.params, ins.body, p.name);
    FirstInitSpec(ins.body, p.name);
  }

  // ---------------------------------------------------------------------------------------------
  // The emitter

  /** The `size` loop: 8 plus the size of every field of the first account called `accountName`. */
  method AccountSpace(accounts: seq<AccountDef>, accountName: string) returns (size: nat)
    ensures size == Space(accounts, accountName)
  {
    size := 8;
    match FindAccount(accounts, accountName) {
      case Some(def) =>
        var k := 0;
        while k < |def.fields|
          invariant 0 <= k <= |def.fields|
          invariant size == 8 + FieldsSize(def.fields[..k])
        {
          assert def.fields[..k + 1][..k] == def.fields[..k];
          size := size + TypeSize(def.fields[k].ty);
          k := k + 1;
        }
        assert def.fields[..k] == def.fields;
      case None =>
    }
  }

  method EmitFields(fields: seq<Field>) returns (text: string)
    ensures text == FieldLines(fields)
  {
    text := "";
    var k := 0;
    while k < |fields|
      invariant 0 <= k <= |fields|
      invariant text == FieldLines(fields[..k])
    {
      assert fields[..k + 1][..k] == fields[..k];
      text := text + FieldLine(fields[k]);
      k := k + 1;
    }
    assert fields[..k] == fields;
  }

  /** The handler's parameter lines, skipping those that live in the context. */
  method EmitArgs(params: seq<Param>) returns (text: string)
    ensures text == ArgLines(params)
  {
    text := "";
    var k := 0;
    while k < |params|
      invariant 0 <= k <= |params|
      invariant text == ArgLines(params[..k])
    {
      assert params[..k + 1][..k] == params[..k];
      if !InContext(params[k].ty) {
        text := text + ArgLine(params[k]);
      }
      k := k + 1;
    }
    assert params[..k] == params;
  }

  method EmitBody(body: seq<Statement>, contextName: string) returns (text: string)
    ensures text == BodyLines(body, contextName)
  {
    text := "";
    var k := 0;
    while k < |body|
      invariant 0 <= k <= |body|
      invariant text == BodyLines(body[..k], contextName)
    {
      assert body[..k + 1][..k] == body[..k];
      text := text + GenStatement(body[k], contextName);
      k := k + 1;
    }
    assert body[..k] == body;
  }

  /** The `filter_map` building `init_accounts`. */
  method CollectInitEntries(params: seq<Param>, body: seq<Statement>) returns (inits: seq<InitEntry>)
    ensures inits == InitEntries(params, body)
  {
    inits := [];
    var k := 0;
    while k < |body|
      invariant 0 <= k <= |body|
      invariant inits == InitEntries(params, body[..k])
    {
      assert body[..k + 1][..k] == body[..k];
      match body[k] {
        case InitAccount(varName, _, payer, signer) =>
          match FindParam(params, varName) {
            case Some(p) => inits := inits + [InitEntry(p.name, payer, signer)];
            case None =>
          }
        case _ =>
      }
      k := k + 1;
    }
    assert body[..k] == body;
  }

  // Appending pieces one after the other to a buffer is appending their concatenation.

  lemma Append2(o: string, a: string, b: string)
    ensures o + a + b == o + (a + b)
  {
  }

  lemma Append3(o: string, a: string, b: string, c: string)
    ensures o + a + b + c == o + (a + b + c)
  {
  }

  lemma Append5(o: string, a: string, b: string, c: string, d: string, e: string)
    ensures o + a + b + c + d + e == o + (a + b + c + d + e)
  {
  }

  lemma Append6(o: string, a: string, b: string, c: string, d: string, e: string, f: string)
    ensures o + a + b + c + d + e + f == o + (a + b + c + d + e + f)
  {
  }

  lemma Append11(o: string, a: string, b: string, c: string, d: string, e: string, f: string,
                 g: string, h: string, i: string, j: string, k: string)
    ensures o + a + b + c + d + e + f + g + h + i + j + k == o + (a + b + c + d + e + f + g + h + i + j + k)
  {
  }

  /** The attribute line(s) of an account parameter. */
  method EmitAttribute(accounts: seq<AccountDef>, init: Option<InitEntry>, accountName: string) returns (attribute: string)
    ensures attribute == Attribute(accounts, init, accountName)
  {
    match init {
      case Some(entry) =>
        var size := AccountSpace(accounts, accountName);
        attribute := "    #[account(\n        init,\n        payer = " + entry.payer + ",\n        space = "
          + Render(size) + "\n    )]\n";
      case None =>
        attribute := "    #[account(mut)]\n";
    }
  }

  /** The context-struct fields, one parameter at a time. */
  method EmitContextFields(accounts: seq<AccountDef>, inits: seq<InitEntry>, params: seq<Param>) returns (text: string)
    ensures text == ContextFields(accounts, inits, params)
  {
    text := "";
    var k := 0;
    while k < |params|
      invariant 0 <= k <= |params|
      invariant text == ContextFields(accounts, inits, params[..k])
    {
      assert params[..k + 1][..k] == params[..k];
      var param := params[k];
      ghost var before := text;
      match param.ty {
        case Signer =>
          text := text + "    #[account(mut)]\n    pub " + param.name + ": Signer<'info>,\n";
          Append3(before, "    #[account(mut)]\n    pub ", param.name, ": Signer<'info>,\n");
        case Account(accountName) =>
          var attribute := EmitAttribute(accounts, FindInit(inits, param.name), accountName);
          text := text + attribute;
          text := text + "    pub " + param.name + ": Account<'info, " + accountName + ">,\n";
          Append6(before, attribute, "    pub ", param.name, ": Account<'info, ", accountName, ">,\n");
        case _ =>
      }
      assert text == before + ContextField(accounts, inits, param);
      k := k + 1;
    }
    assert params[..k] == params;
  }

  /** One account struct. */
  method PushAccountStruct(output0: string, account: AccountDef) returns (output: string)
    ensures output == output0 + AccountStruct(account)
  {
    var fields := EmitFields(account.fields);
    output := output0 + "#[account]\n";
    output := output + "pub struct " + account.name + " {\n";
    output := output + fields;
    output := output + "}\n\n";
    Append6(output0, "#[account]\n", "pub struct ", account.name, " {\n", fields, "}\n\n");
  }

  /** The account-struct loop: one `#[account]` struct per definition, appended to `output`. */
  method PushAccountStructs(output0: string, accounts: seq<AccountDef>) returns (output: string)
    ensures output == output0 + AccountStructs(accounts)
  {
    output := output0;
    var i := 0;
    while i < |accounts|
      invariant 0 <= i <= |accounts|
      invariant output == output0 + AccountStructs(accounts[..i])
    {
      assert accounts[..i + 1][..i] == accounts[..i];
      Append2(output0, AccountStructs(accounts[..i]), AccountStruct(accounts[i]));
      output := PushAccountStruct(output, accounts[i]);
      i := i + 1;
    }
    assert accounts[..i] == accounts;
  }

  /** One handler: `ctx`, the other parameters, the lowered body and `Ok(())`. */
  method PushHandler(output0: string, instruction: Instruction) returns (output: string)
    ensures output == output0 + Handler(instruction)
  {
    var args := EmitArgs(instruction.params);
    var contextName := instruction.name + "Context";
    var body := EmitBody(instruction.body, contextName);
    output := output0 + "    pub fn " + instruction.name + "(\n";
    output := output + "        ctx: Context<";
    output := output + instruction.name;
    output := output + "Context>,\n";
    output := output + args;
    output := output + "    ) -> Result<()> {\n";
    output := output + body;
    output := output + "        Ok(())\n";
    output := output + "    }\n\n";
    Append11(output0, "    pub fn ", instruction.name, "(\n", "        ctx: Context<", instruction.name, "Context>,\n",
             args, "    ) -> Result<()> {\n", body, "        Ok(())\n", "    }\n\n");
  }

  lemma HandlersStep(instructions: seq<Instruction>, i: int)
    requires 0 <= i < |instructions|
    ensures Handlers(instructions[..i + 1]) == Handlers(instructions[..i]) + Handler(instructions[i])
  {
    assert instructions[..i + 1][..i] == instructions[..i];
  }

  /** The handler loop: one `pub fn` per instruction, appended to `output`. */
  method PushHandlers(output0: string, instructions: seq<Instruction>) returns (output: string)
    ensures output == output0 + Handlers(instructions)
  {
    output := output0;
    var i := 0;
    while i < |instructions|
      invariant 0 <= i <= |instructions|
      invariant output == output0 + Handlers(instructions[..i])
    {
      HandlersStep(instructions, i);
      Append2(output0, Handlers(instructions[..i]), Handler(instructions[i]));
      output := PushHandler(output, instructions[i]);
      i := i + 1;
    }
    assert instructions[..i] == instructions;
  }

  /** One context struct: a field per signer or account parameter. */
  method PushContextStruct(output0: string, accounts: seq<AccountDef>, instruction: Instruction) returns (output: string)
    ensures output == output0 + ContextStruct(accounts, instruction)
  {
    var inits := CollectInitEntries(instruction.params, instruction.body);
    var fields := EmitContextFields(accounts, inits, instruction.params);
    output := output0 + "#[derive(Accounts)]\n";
    output := output + "pub struct " + instruction.name + "Context<'info> {\n";
    output := output + fields;
    output := output + "}\n\n";
    Append6(output0, "#[derive(Accounts)]\n", "pub struct ", instruction.name, "Context<'info> {\n", fields, "}\n\n");
  }

  /** The context-struct loop: one `#[derive(Accounts)]` struct per instruction, appended to `output`. */
  method PushContextStructs(output0: string, accounts: seq<AccountDef>, instructions: seq<Instruction>) returns (output: string)
    ensures output == output0 + ContextStructs(accounts, instructions)
  {
    output := output0;
    var i := 0;
    while i < |instructions|
      invariant 0 <= i <= |instructions|
      invariant output == output0 + ContextStructs(accounts, instructions[..i])
    {
      assert instructions[..i + 1][..i] == instructions[..i];
      Append2(output0, ContextStructs(accounts, instructions[..i]), ContextStruct(accounts, instructions[i]));
      output := PushContextStruct(output, accounts, instructions[i]);
      i := i + 1;
    }
    assert instructions[..i] == instructions;
  }

  /** `generate_anchor_code`: the prelude, the account structs, the program module with one
      handler per instruction, and one context struct per instruction, appended to one output
      string. Code generation cannot fail, so the `Result` of the source is always `Ok` and is
      left out. */
  method GenerateAnchorCode(hir: Hir) returns (output: string)
    ensures output == AnchorCode(hir)
  {
    var program := hir.program;
    output := "";
    output := output + Prelude;
    assert output == Prelude;
    output := PushAccountStructs(output, program.accounts);
    assert output == Prelude + AccountStructs(program.accounts);
    ghost var structs := output;
    output := output + "#[program]\n";
    output := output + "pub mod " + Lower(program.name) + " {\n";
    output := output + "    use super::*;\n\n";
    Append5(structs, "#[program]\n", "pub mod ", Lower(program.name), " {\n", "    use super::*;\n\n");
    assert output == structs + ModuleHeader(program.name);
    output := PushHandlers(output, program.instructions);
    output := output + "}\n\n";
    assert output == Prelude + AccountStructs(program.accounts) + ModuleHeader(program.name) + Handlers(program.instructions) + "}\n\n";
    output := PushContextStructs(output, program.accounts, program.instructions);
  }
}
