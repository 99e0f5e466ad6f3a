/** The abstract syntax tree shared by the parser, the validator and the generator,
    with the fixed type-name tables. */
module Ast {
  import opened Wrappers
  import opened Text
  import opened Decimal

  datatype Program = Program(name: string, accounts: seq<AccountDef>, instructions: seq<Instruction>)

  datatype AccountDef = AccountDef(name: string, fields: seq<Field>)

  datatype Field = Field(name: string, ty: Type)

  /** Types of account fields: scalars plus the recursive `Vec` and `Option`. */
  datatype Type =
    | Pubkey | U8 | U16 | U32 | U64 | I8 | I16 | I32 | I64 | Bool | String
    | Vec(inner: Type)
    | Option(inner: Type)

  datatype Instruction = Instruction(name: string, params: seq<Param>, body: seq<Statement>)

  datatype Param = Param(name: string, ty: ParamType)

  /** Types of instruction parameters; `Account` names an account type by its name. */
  datatype ParamType =
    | Signer
    | Account(accountName: string)
    | Pubkey | U8 | U16 | U32 | U64 | I8 | I16 | I32 | I64 | Bool | String

  datatype Statement =
    | InitAccount(varName: string, accountName: string, payer: string, signer: Option<string>)
    | Require(condition: Expr, message: Option<string>)
    | Assign(target: Expr, value: Expr)
    | Expr(expr: Expr)

  datatype Expr =
    | Ident(id: string)
    | FieldAccess(obj: Expr, field: string)
    | Literal(lit: Literal)
    | BinaryOp(op: BinOp, left: Expr, right: Expr)
    | UnaryOp(unOp: UnOp, operand: Expr)

  datatype Literal = Int(i: i64) | UInt(u: u64) | Bool(b: bool) | String(s: string)

  datatype BinOp = Add | Sub | Mul | Div | Mod | Eq | Ne | Lt | Le | Gt | Ge | And | Or

  datatype UnOp = Not | Neg

  /** `Type::to_rust_type`. */
  function TypeRust(t: Type): string {
    match t
    case Pubkey => "Pubkey"
    case U8 => "u8"
    case U16 => "u16"
    case U32 => "u32"
    case U64 => "u64"
    case I8 => "i8"
    case I16 => "i16"
    case I32 => "i32"
    case I64 => "i64"
    case Bool => "bool"
    case String => "String"
    case Vec(inner) => "Vec<" + TypeRust(inner) + ">"
    case Option(inner) => "Option<" + TypeRust(inner) + ">"
  }

  /** `Type::to_anchor_type`. */
  function TypeAnchor(t: Type): string {
    match t
    case Pubkey => "pubkey"
    case U8 => "u8"
    case U16 => "u16"
    case U32 => "u32"
    case U64 => "u64"
    case I8 => "i8"
    case I16 => "i16"
    case I32 => "i32"
    case I64 => "i64"
    case Bool => "bool"
    case String => "string"
    case Vec(inner) => "vec<" + TypeAnchor(inner) + ">"
    case Option(inner) => "option<" + TypeAnchor(inner) + ">"
  }

  /** `ParamType::to_rust_type`. */
  function ParamTypeRust(p: ParamType): string {
    match p
    case Signer => "Signer<'_>"
    case Account(name) => "Account<'_, " + name + ">"
    case Pubkey => "Pubkey"
    case U8 => "u8"
    case U16 => "u16"
    case U32 => "u32"
    case U64 => "u64"
    case I8 => "i8"
    case I16 => "i16"
    case I32 => "i32"
    case I64 => "i64"
    case Bool => "bool"
    case String => "String"
  }

  predicate IsScalar(t: Type) { !t.Vec? && !t.Option? }

  /** The parameter type with the same variant name as a scalar field type. */
  function ScalarParam(t: Type): ParamType
    requires IsScalar(t)
  {
    match t
    case Pubkey => ParamType.Pubkey
    case U8 => ParamType.U8
    case U16 => ParamType.U16
    case U32 => ParamType.U32
    case U64 => ParamType.U64
    case I8 => ParamType.I8
    case I16 => ParamType.I16
    case I32 => ParamType.I32
    case I64 => ParamType.I64
    case Bool => ParamType.Bool
    case String => ParamType.String
  }

  /** The two renderers agree on every variant the two type enums share. */
  lemma ParamTypeRustAgrees(t: Type)
    requires IsScalar(t)
    ensures ParamTypeRust(ScalarParam(t)) == TypeRust(t)
  {
  }

  /** Every shared name is one the parameter renderer also produces: only Signer and Account differ. */
  lemma ParamTypeRustShape(p: ParamType)
    ensures p.Signer? ==> ParamTypeRust(p) == "Signer<'_>"
    ensures p.Account? ==> ParamTypeRust(p) == "Account<'_, " + p.accountName + ">"
    ensures !p.Signer? && !p.Account? ==> exists t :: IsScalar(t) && ScalarParam(t) == p && ParamTypeRust(p) == TypeRust(t)
  {
    if !p.Signer? && !p.Account? {
      var t: Type :=
        match p
        case Pubkey => Type.Pubkey
        case U8 => Type.U8
        case U16 => Type.U16
        case U32 => Type.U32
        case U64 => Type.U64
        case I8 => Type.I8
        case I16 => Type.I16
        case I32 => Type.I32
        case I64 => Type.I64
        case Bool => Type.Bool
        case String => Type.String;
      assert IsScalar(t) && ScalarParam(t) == p;
    }
  }

  /** The framework's type names are the Rust names lower-cased (`Pubkey`/`pubkey`, `Vec<..>`/`vec<..>`). */
  lemma {:induction false} AnchorIsLowerRust(t: Type)
    ensures TypeAnchor(t) == Lower(TypeRust(t))
  {
    match t
    case Vec(inner) =>
      AnchorIsLowerRust(inner);
      LowerWrapped("Vec<", TypeRust(inner), ">");
      VecWords();
    case Option(inner) =>
      AnchorIsLowerRust(inner);
      LowerWrapped("Option<", TypeRust(inner), ">");
      OptionWords();
    case _ =>
      AnchorIsLowerRustScalar(t);
  }

  lemma VecWords()
    ensures Lower("Vec<") == "vec<" && Lower(">") == ">"
  {
  }

  lemma OptionWords()
    ensures Lower("Option<") == "option<" && Lower(">") == ">"
  {
  }

  lemma AnchorIsLowerRustScalar(t: Type)
    requires IsScalar(t)
    ensures TypeAnchor(t) == Lower(TypeRust(t))
  {
    match t
    case Pubkey => PubkeyWords();
    case String => StringWords();
    case _ => LowerKeeps(TypeRust(t));
  }

  lemma PubkeyWords()
    ensures Lower("Pubkey") == "pubkey"
  {
  }

  lemma StringWords()
    ensures Lower("String") == "string"
  {
  }

  /** A name without capitals is its own lower case. */
  lemma LowerKeeps(s: string)
    requires forall i :: 0 <= i < |s| ==> !('A' <= s[i] <= 'Z')
    ensures Lower(s) == s
  {
  }

  lemma LowerWrapped(open: string, x: string, close: string)
    ensures Lower(open + x + close) == Lower(open) + Lower(x) + Lower(close)
  {
    LowerAppend(open + x, close);
    LowerAppend(open, x);
  }
}
