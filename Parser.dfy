/** The combinator grammar as a recursive-descent parser over the text.
    Every rule maps an input to `None` (the rule fails) or to its result and the rest of
    the input.  An ordered `choice` is a chain of `OrElse`: the first alternative that
    succeeds wins.  A greedy `repeated` is a recursive rule that stops at, and backtracks
    over, the first iteration that fails.  A `.padded()` skips whitespace on both sides;
    where the padded parser already begins by skipping whitespace, only the trailing
    skip is written out. */
module Parser {
  import opened Wrappers
  import opened Text
  import opened Decimal
  import opened Ast

  /** A failed parse.  The causes the combinator library aggregates are not modelled. */
  datatype ParseError = SyntaxError

  /** `just(k)`: the exact text k at the start of the input. */
  function Just(k: string, s: string): (r: Option<string>)
    ensures r.Some? <==> k <= s
    ensures r.Some? ==> s == k + r.value
  {
    if k <= s then Some(s[|k|..]) else None
  }

  /** `just(k).to(x)`. */
  function Tok<X>(k: string, x: X, s: string): (r: Option<(X, string)>)
    ensures r.Some? <==> k <= s
    ensures r.Some? ==> r.value.0 == x && s == k + r.value.1
  {
    match Just(k, s)
    case Some(rest) => Some((x, rest))
    case None => None
  }

  /** `just(k).padded()`, the grammar's `keyword` helper. */
  function Keyword(k: string, s: string): (r: Option<string>)
    ensures r.Some? ==> |r.value| + |k| <= |s|
  {
    match Just(k, SkipWs(s))
    case Some(rest) => Some(SkipWs(rest))
    case None => None
  }

  /** `text::ident().padded()`. */
  function IdentRule(s: string): (r: Option<(string, string)>)
    ensures r.Some? ==> IsIdentWord(r.value.0) && |r.value.1| < |s|
  {
    var t := SkipWs(s);
    if |t| > 0 && IsIdentStart(t[0]) then
      var n := 1 + CountWhile(IsIdentChar, t[1..]);
      assert forall i :: 1 <= i < n ==> t[i] == t[1..][i - 1];
      Some((t[..n], SkipWs(t[n..])))
    else None
  }

  // ---------------------------------------------------------------- types

  /** A choice of `just(names[i]).to(values[i])` alternatives, tried in the order of the table. */
  function NameChoice<X>(names: seq<string>, values: seq<X>, s: string): (r: Option<(X, string)>)
    requires |names| == |values|
    requires forall i :: 0 <= i < |names| ==> names[i] != []
    ensures r.Some? ==> |r.value.1| < |s|
  {
    if names == [] then None
    else if names[0] <= s then Some((values[0], s[|names[0]|..]))
    else NameChoice(names[1..], values[1..], s)
  }

  /** The scalar alternatives of `type_parser`, in the grammar's order: their text ... */
  const TypeNames: seq<string> :=
    ["Pubkey", "u8", "u16", "u32", "u64", "i8", "i16", "i32", "i64", "bool", "String"]

  /** ... and the types they stand for. */
  const TypeValues: seq<Type> :=
    [Type.Pubkey, Type.U8, Type.U16, Type.U32, Type.U64, Type.I8, Type.I16, Type.I32,
     Type.I64, Type.Bool, Type.String]

  /** The fixed alternatives of `param_type_parser`, in the grammar's order: their text ... */
  const ParamTypeNames: seq<string> :=
    ["Signer", "Pubkey", "u8", "u16", "u32", "u64", "i8", "i16", "i32", "i64", "bool", "String"]

  /** ... and the parameter types they stand for. */
  const ParamTypeValues: seq<ParamType> :=
    [ParamType.Signer, ParamType.Pubkey, ParamType.U8, ParamType.U16, ParamType.U32,
     ParamType.U64, ParamType.I8, ParamType.I16, ParamType.I32, ParamType.I64,
     ParamType.Bool, ParamType.String]

  /** `type_parser`: a scalar name, or `Vec<`/`Option<` around a type, padded. */
  function TypeRule(s: string): (r: Option<(Type, string)>)
    ensures r.Some? ==> |r.value.1| < |s|
    decreases |s|, 1
  {
    var t := SkipWs(s);
    var vec := match DelimitedType("Vec<", t)
      case Some((inner, rest)) => Some((Type.Vec(inner), rest))
      case None => None;
    var option := match DelimitedType("Option<", t)
      case Some((inner, rest)) => Some((Type.Option(inner), rest))
      case None => None;
    var alt: Option<(Type, string)> := OrElse(NameChoice(TypeNames, TypeValues, t), OrElse(vec, option));
    match alt
    case Some((ty, rest)) => Some((ty, SkipWs(rest)))
    case None => None
  }

  /** `ty.delimited_by(just(open), just(">"))`. */
  function DelimitedType(open: string, t: string): (r: Option<(Type, string)>)
    requires |open| > 0
    ensures r.Some? ==> |r.value.1| < |t|
    decreases |t|, 0
  {
    match Just(open, t)
    case None => None
    case Some(t1) =>
      match TypeRule(t1)
      case None => None
      case Some((inner, t2)) =>
        match Just(">", t2)
        case None => None
        case Some(t3) => Some((inner, t3))
  }

  // --------------------------------------------------------------- accounts

  /** `field`: `ident ":" type`, padded. */
  function FieldRule(s: string): (r: Option<(Field, string)>)
    ensures r.Some? ==> |r.value.1| < |s|
  {
    match IdentRule(s)
    case None => None
    case Some((name, s1)) =>
      match Keyword(":", s1)
      case None => None
      case Some(s2) =>
        match TypeRule(s2)
        case None => None
        case Some((ty, s3)) => Some((Field(name, ty), SkipWs(s3)))
  }

  /** `field.repeated()`. */
  function FieldsRule(s: string): (r: (seq<Field>, string))
    ensures |r.1| <= |s|
    decreases |s|
  {
    match FieldRule(s)
    case None => ([], s)
    case Some((f, s1)) =>
      var (fs, s2) := FieldsRule(s1);
      ([f] + fs, s2)
  }

  /** `account_def`: `"account" ident "{" field* "}"`, padded. */
  function AccountDefRule(s: string): (r: Option<(AccountDef, string)>)
    ensures r.Some? ==> |r.value.1| < |s|
  {
    match Keyword("account", s)
    case None => None
    case Some(s1) =>
      match IdentRule(s1)
      case None => None
      case Some((name, s2)) =>
        match Keyword("{", s2)
        case None => None
        case Some(s3) =>
          var (fields, s4) := FieldsRule(s3);
          match Keyword("}", s4)
          case None => None
          case Some(s5) => Some((AccountDef(name, fields), SkipWs(s5)))
  }

  /** `account_def.repeated()`. */
  function AccountDefsRule(s: string): (r: (seq<AccountDef>, string))
    ensures |r.1| <= |s|
    decreases |s|
  {
    match AccountDefRule(s)
    case None => ([], s)
    case Some((a, s1)) =>
      var (rest, s2) := AccountDefsRule(s1);
      ([a] + rest, s2)
  }

  // ------------------------------------------------------------- parameters

  /** `param_type_parser`: `Signer`, a scalar name, or any identifier as an account type, padded. */
  function ParamTypeRule(s: string): (r: Option<(ParamType, string)>)
    ensures r.Some? ==> |r.value.1| < |s|
  {
    var t := SkipWs(s);
    var account := match IdentRule(t)
      case Some((name, rest)) => Some((ParamType.Account(name), rest))
      case None => None;
    var alt: Option<(ParamType, string)> := OrElse(NameChoice(ParamTypeNames, ParamTypeValues, t), account);
    match alt
    case Some((ty, rest)) => Some((ty, SkipWs(rest)))
    case None => None
  }

  /** `param`: `ident ":" param_type`, padded. */
  function ParamRule(s: string): (r: Option<(Param, string)>)
    ensures r.Some? ==> |r.value.1| < |s|
  {
    match IdentRule(s)
    case None => None
    case Some((name, s1)) =>
      match Keyword(":", s1)
      case None => None
      case Some(s2) =>
        match ParamTypeRule(s2)
        case None => None
        case Some((ty, s3)) => Some((Param(name, ty), SkipWs(s3)))
  }

  /** `param.separated_by(just(",").padded())`: no parameter, or one followed by `, param` pairs. */
  function ParamListRule(s: string): (r: (seq<Param>, string))
    ensures |r.1| <= |s|
  {
    match ParamRule(s)
    case None => ([], s)
    case Some((p, s1)) =>
      var (ps, s2) := MoreParamsRule(s1);
      ([p] + ps, s2)
  }

  /** The `, param` pairs after the first parameter; a pair whose parameter fails is not consumed. */
  function MoreParamsRule(s: string): (r: (seq<Param>, string))
    ensures |r.1| <= |s|
    decreases |s|
  {
    match Keyword(",", s)
    case None => ([], s)
    case Some(s1) =>
      match ParamRule(s1)
      case None => ([], s)
      case Some((p, s2)) =>
        var (ps, s3) := MoreParamsRule(s2);
        ([p] + ps, s3)
  }

  // ------------------------------------------------------------ expressions

  /** The closure applied to the text of `text::int`: a leading '-' would make a signed literal. */
  function IntLiteral(text: string): Literal {
    if "-" <= text then Literal.Int(ParseI64(text).GetOr(0)) else UInt(ParseU64(text).GetOr(0))
  }

  /** `text::int(10)`: the digit "0" alone, or a non-zero digit followed by any digits. */
  function IntToken(t: string): (r: Option<(string, string)>)
    ensures r.Some? ==> |r.value.0| > 0 && AllDigits(r.value.0) && t == r.value.0 + r.value.1
  {
    if |t| > 0 && IsDigit(t[0]) && t[0] != '0' then
      var n := 1 + CountWhile(IsDigit, t[1..]);
      assert forall i :: 1 <= i < n ==> t[i] == t[1..][i - 1];
      Some((t[..n], t[n..]))
    else if "0" <= t then Some(("0", t[1..]))
    else None
  }

  /** `just('"').ignore_then(none_of('"').repeated()).then_ignore(just('"'))`. */
  function StringToken(t: string): (r: Option<(string, string)>)
    ensures r.Some? ==> (forall i :: 0 <= i < |r.value.0| ==> r.value.0[i] != '"')
    ensures r.Some? ==> t == "\"" + r.value.0 + "\"" + r.value.1
  {
    match Just("\"", t)
    case None => None
    case Some(t1) =>
      var n := CountWhile(NotQuote, t1);
      match Just("\"", t1[n..])
      case None => None
      case Some(t2) =>
        assert t1 == t1[..n] + t1[n..];
        Some((t1[..n], t2))
  }

  /** `literal`: an integer, `true`, `false` or a double-quoted string, padded. */
  function LiteralRule(s: string): (r: Option<(Literal, string)>)
    ensures r.Some? ==> |r.value.1| < |s|
  {
    var t := SkipWs(s);
    var integer := match IntToken(t)
      case Some((digits, rest)) => Some((IntLiteral(digits), rest))
      case None => None;
    var str := match StringToken(t)
      case Some((text, rest)) => Some((Literal.String(text), rest))
      case None => None;
    var alt: Option<(Literal, string)> :=
      OrElse(integer,
      OrElse(Tok("true", Literal.Bool(true), t),
      OrElse(Tok("false", Literal.Bool(false), t),
      str)));
    match alt
    case Some((lit, rest)) => Some((lit, SkipWs(rest)))
    case None => None
  }

  /** `atom`: a literal, else an identifier.  There is no parenthesised form. */
  function AtomRule(s: string): (r: Option<(Expr, string)>)
    ensures r.Some? ==> |r.value.1| < |s|
  {
    var literal := match LiteralRule(s)
      case Some((lit, rest)) => Some((Expr.Literal(lit), rest))
      case None => None;
    var ident := match IdentRule(s)
      case Some((name, rest)) => Some((Expr.Ident(name), rest))
      case None => None;
    OrElse(literal, ident)
  }

  /** `just(".").ignore_then(ident).repeated()`. */
  function FieldSuffixes(s: string): (r: (seq<string>, string))
    ensures |r.1| <= |s|
    decreases |s|
  {
    match Just(".", s)
    case None => ([], s)
    case Some(s1) =>
      match IdentRule(s1)
      case None => ([], s)
      case Some((f, s2)) =>
        var (fs, s3) := FieldSuffixes(s2);
        ([f] + fs, s3)
  }

  /** The field-access `foldl`: each name wraps everything to its left. */
  function FoldFields(obj: Expr, fields: seq<string>): Expr
    decreases |fields|
  {
    if fields == [] then obj else FoldFields(FieldAccess(obj, fields[0]), fields[1..])
  }

  /** `field_access`: an atom followed by any number of `.name` suffixes. */
  function FieldAccessRule(s: string): (r: Option<(Expr, string)>)
    ensures r.Some? ==> |r.value.1| < |s|
  {
    match AtomRule(s)
    case None => None
    case Some((atom, s1)) =>
      var (fields, s2) := FieldSuffixes(s1);
      Some((FoldFields(atom, fields), s2))
  }

  /** `unary`: `!` or `-` in front of a field access, else a field access. */
  function UnaryRule(s: string): (r: Option<(Expr, string)>)
    ensures r.Some? ==> |r.value.1| < |s|
  {
    var sign: Option<(UnOp, string)> := OrElse(Tok("!", Not, s), Tok("-", Neg, s));
    var prefixed := match sign
      case None => None
      case Some((op, s1)) =>
        match FieldAccessRule(s1)
        case None => None
        case Some((operand, s2)) => Some((UnaryOp(op, operand), s2));
    OrElse(prefixed, FieldAccessRule(s))
  }

  /** The five binary levels, tightest first: `product`, `sum`, `comparison`, `logical_and`, `logical_or`. */
  datatype Level = Product | Sum | Comparison | Conjunction | Disjunction

  function Rank(lv: Level): nat {
    match lv
    case Product => 0
    case Sum => 1
    case Comparison => 2
    case Conjunction => 3
    case Disjunction => 4
  }

  /** The level whose expressions are the operands of `lv`. */
  function Tighter(lv: Level): (r: Level)
    requires lv != Product
    ensures Rank(r) + 1 == Rank(lv)
  {
    match lv
    case Sum => Product
    case Comparison => Sum
    case Conjunction => Comparison
    case Disjunction => Conjunction
  }

  /** The operator choice of each level, in the grammar's order.  At `comparison`, `<` is tried
      before `<=` and `>` before `>=`. */
  function OperatorRule(lv: Level, s: string): (r: Option<(BinOp, string)>)
    ensures r.Some? ==> |r.value.1| < |s|
  {
    match lv
    case Product => OrElse(Tok("*", Mul, s), OrElse(Tok("/", Div, s), Tok("%", Mod, s)))
    case Sum => OrElse(Tok("+", Add, s), Tok("-", Sub, s))
    case Comparison =>
      OrElse(Tok("==", Eq, s),
      OrElse(Tok("!=", Ne, s),
      OrElse(Tok("<", Lt, s),
      OrElse(Tok("<=", Le, s),
      OrElse(Tok(">", Gt, s),
      Tok(">=", Ge, s))))))
    case Conjunction => Tok("&&", And, s)
    case Disjunction => Tok("||", Or, s)
  }

  /** The `foldl` over the collected `(operator, operand)` pairs of one level. */
  function FoldBinary(lhs: Expr, ops: seq<(BinOp, Expr)>): Expr
    decreases |ops|
  {
    if ops == [] then lhs else FoldBinary(BinaryOp(ops[0].0, lhs, ops[0].1), ops[1..])
  }

  /** One binary level: an operand, then greedily `(operator, operand)` pairs, folded left. */
  function LevelRule(lv: Level, s: string): (r: Option<(Expr, string)>)
    ensures r.Some? ==> |r.value.1| < |s|
    decreases |s|, Rank(lv), 1
  {
    match Operand(lv, s)
    case None => None
    case Some((first, s1)) =>
      var (ops, s2) := LevelTail(lv, s1);
      Some((FoldBinary(first, ops), s2))
  }

  /** An operand of level `lv`: a unary expression under `product`, else the next tighter level. */
  function Operand(lv: Level, s: string): (r: Option<(Expr, string)>)
    ensures r.Some? ==> |r.value.1| < |s|
    decreases |s|, Rank(lv), 0
  {
    if lv == Product then UnaryRule(s) else LevelRule(Tighter(lv), s)
  }

  /** `op.then(operand).repeated()`: an iteration whose operand fails gives back its operator. */
  function LevelTail(lv: Level, s: string): (r: (seq<(BinOp, Expr)>, string))
    ensures |r.1| <= |s|
    decreases |s|, Rank(lv), 2
  {
    match OperatorRule(lv, s)
    case None => ([], s)
    case Some((op, s1)) =>
      match Operand(lv, s1)
      case None => ([], s)
      case Some((rhs, s2)) =>
        var (ops, s3) := LevelTail(lv, s2);
        ([(op, rhs)] + ops, s3)
  }

  /** `expr_parser`: the loosest level, `logical_or`. */
  function ExprRule(s: string): (r: Option<(Expr, string)>)
    ensures r.Some? ==> |r.value.1| < |s|
  {
    LevelRule(Disjunction, s)
  }

  // ------------------------------------------------------------- statements

  /** `init_account`: `"init" "account" ident ":" ident "payer" ident ("signer" ident)?`, padded.
      The doubled padding around `payer` is the same as a single one. */
  function InitAccountRule(s: string): (r: Option<(Statement, string)>)
    ensures r.Some? ==> |r.value.1| < |s|
  {
    match Keyword("init", s)
    case None => None
    case Some(s1) =>
      match Keyword("account", s1)
      case None => None
      case Some(s2) =>
        match IdentRule(s2)
        case None => None
        case Some((varName, s3)) =>
          match Keyword(":", s3)
          case None => None
          case Some(s4) =>
            match IdentRule(s4)
            case None => None
            case Some((accountName, s5)) =>
              match Keyword("payer", s5)
              case None => None
              case Some(s6) =>
                match IdentRule(s6)
                case None => None
                case Some((payer, s7)) =>
                  var (signer, s8) := SignerClause(s7);
                  assert |s8| <= |s7| < |s6| < |s5| < |s4| < |s3| < |s2| < |s1| < |s|;
                  Some((InitAccount(varName, accountName, payer, signer), SkipWs(s8)))
  }

  /** `keyword("signer").ignore_then(ident).or_not()`. */
  function SignerClause(s: string): (r: (Option<string>, string))
    ensures |r.1| <= |s|
  {
    match Keyword("signer", s)
    case None => (None, s)
    case Some(s1) =>
      match IdentRule(s1)
      case None => (None, s)
      case Some((name, s2)) => (Some(name), s2)
  }

  /** `just(",").ignore_then(<quoted text>).or_not()`: the quotes are dropped from the message. */
  function MessageClause(s: string): (r: (Option<string>, string))
    ensures |r.1| <= |s|
  {
    match Just(",", s)
    case None => (None, s)
    case Some(s1) =>
      match StringToken(s1)
      case None => (None, s)
      case Some((text, s2)) => (Some(text), s2)
  }

  /** `require`: `"require" expr ("," "<message>")?`, padded. */
  function RequireRule(s: string): (r: Option<(Statement, string)>)
    ensures r.Some? ==> |r.value.1| < |s|
  {
    match Keyword("require", s)
    case None => None
    case Some(s1) =>
      match ExprRule(s1)
      case None => None
      case Some((condition, s2)) =>
        var (message, s3) := MessageClause(s2);
        Some((Require(condition, message), SkipWs(s3)))
  }

  /** `assign_op`: a compound operator names the operation it applies; `=` names none. */
  function AssignOpRule(s: string): (r: Option<(Option<BinOp>, string)>)
    ensures r.Some? ==> |r.value.1| < |s|
  {
    var t := SkipWs(s);
    var alt: Option<(Option<BinOp>, string)> :=
      OrElse(Tok("+=", Some(Add), t),
      OrElse(Tok("-=", Some(Sub), t),
      OrElse(Tok("*=", Some(Mul), t),
      OrElse(Tok("/=", Some(Div), t),
      OrElse(Tok("%=", Some(Mod), t),
      Tok("=", None, t))))));
    match alt
    case Some((op, rest)) => Some((op, SkipWs(rest)))
    case None => None
  }

  /** The `assign` closure: `t op= v` becomes `t = t op v`, the target cloned into the left operand. */
  function Desugar(target: Expr, op: Option<BinOp>, value: Expr): Statement {
    match op
    case Some(o) => Assign(target, BinaryOp(o, target, value))
    case None => Assign(target, value)
  }

  /** `assign`: `expr assign_op expr`, padded. */
  function AssignRule(s: string): (r: Option<(Statement, string)>)
    ensures r.Some? ==> |r.value.1| < |s|
  {
    match ExprRule(s)
    case None => None
    case Some((target, s1)) =>
      match AssignOpRule(s1)
      case None => None
      case Some((op, s2)) =>
        match ExprRule(s2)
        case None => None
        case Some((value, s3)) => Some((Desugar(target, op, value), SkipWs(s3)))
  }

  /** The expression statement: `expr_parser.map(Statement::Expr)`. */
  function ExprStatementRule(s: string): (r: Option<(Statement, string)>)
    ensures r.Some? ==> |r.value.1| < |s|
  {
    match ExprRule(s)
    case None => None
    case Some((e, rest)) => Some((Statement.Expr(e), rest))
  }

  /** `statement_parser`: init, require, assignment, expression, in that order. */
  function StatementRule(s: string): (r: Option<(Statement, string)>)
    ensures r.Some? ==> |r.value.1| < |s|
  {
    OrElse(InitAccountRule(s), OrElse(RequireRule(s), OrElse(AssignRule(s), ExprStatementRule(s))))
  }

  /** `statement_parser.repeated()`. */
  function StatementsRule(s: string): (r: (seq<Statement>, string))
    ensures |r.1| <= |s|
    decreases |s|
  {
    match StatementRule(s)
    case None => ([], s)
    case Some((st, s1)) =>
      var (sts, s2) := StatementsRule(s1);
      ([st] + sts, s2)
  }

  // ----------------------------------------------------------- instructions

  /** `instruction`: `"instruction" ident "(" params ")" "{" statement* "}"`, padded. */
  function InstructionRule(s: string): (r: Option<(Instruction, string)>)
    ensures r.Some? ==> |r.value.1| < |s|
  {
    match Keyword("instruction", s)
    case None => None
    case Some(s1) =>
      match IdentRule(s1)
      case None => None
      case Some((name, s2)) =>
        match Keyword("(", s2)
        case None => None
        case Some(s3) =>
          var (params, s4) := ParamListRule(s3);
          match Keyword(")", s4)
          case None => None
          case Some(s5) =>
            match Keyword("{", s5)
            case None => None
            case Some(s6) =>
              var (body, s7) := StatementsRule(s6);
              match Keyword("}", s7)
              case None => None
              case Some(s8) => Some((Instruction(name, params, body), SkipWs(s8)))
  }

  /** `instruction.repeated()`. */
  function InstructionsRule(s: string): (r: (seq<Instruction>, string))
    ensures |r.1| <= |s|
    decreases |s|
  {
    match InstructionRule(s)
    case None => ([], s)
    case Some((ins, s1)) =>
      var (rest, s2) := InstructionsRule(s1);
      ([ins] + rest, s2)
  }

  // ---------------------------------------------------------------- program

  /** `"program" ident account_def* instruction*`, before the final `end()`. */
  function ProgramPrefix(s: string): (r: Option<(Program, string)>)
    ensures r.Some? ==> |r.value.1| < |s|
  {
    match Keyword("program", s)
    case None => None
    case Some(s1) =>
      match IdentRule(s1)
      case None => None
      case Some((name, s2)) =>
        var (accounts, s3) := AccountDefsRule(s2);
        var (instructions, s4) := InstructionsRule(s3);
        Some((Program(name, accounts, instructions), s4))
  }

  /** `parse`: the whole program followed by the end of the input, or an error and no program. */
  function Parse(source: string): (r: Result<Program, ParseError>)
    ensures r.Ok? <==> ProgramPrefix(source).Some? && ProgramPrefix(source).value.1 == []
    ensures r.Ok? ==> r.value == ProgramPrefix(source).value.0
  {
    match ProgramPrefix(source)
    case Some((program, rest)) => if rest == [] then Ok(program) else Err(SyntaxError)
    case None => Err(SyntaxError)
  }
}
