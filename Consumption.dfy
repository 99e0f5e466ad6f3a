/** The grammar only reads forward: whatever a rule leaves unread is a suffix of what it was
    given.  So text without a closing brace can complete neither an account block nor an
    instruction block. */
module Consumption {
  import opened Wrappers
  import opened Text
  import opened Ast
  import opened Parser
  import opened Printer
  import opened StmtRoundTrip

  /** `r` is what is left of `s` once some prefix of it has been read. */
  predicate IsSuffix(r: string, s: string) {
    |r| <= |s| && s[|s| - |r|..] == r
  }

  /** A rule that succeeds leaves a suffix of its input. */
  predicate Leaves<X>(r: Option<(X, string)>, s: string) {
    r.Some? ==> IsSuffix(r.value.1, s)
  }

  // ------------------------------------------------------------ suffixes

  lemma SuffixRefl(s: string)
    ensures IsSuffix(s, s)
  {
  }

  lemma DropSuffix(s: string, k: int)
    requires 0 <= k <= |s|
    ensures IsSuffix(s[k..], s)
  {
  }

  lemma AppendSuffix(a: string, b: string)
    ensures IsSuffix(b, a + b)
  {
    assert (a + b)[|a|..] == b;
  }

  lemma SuffixTrans(a: string, b: string, c: string)
    requires IsSuffix(a, b) && IsSuffix(b, c)
    ensures IsSuffix(a, c)
  {
    assert c[|c| - |a|..] == c[|c| - |b|..][|b| - |a|..];
  }

  lemma Chain3(a: string, b: string, c: string, d: string)
    requires IsSuffix(a, b) && IsSuffix(b, c) && IsSuffix(c, d)
    ensures IsSuffix(a, d)
  {
    SuffixTrans(a, b, c);
    SuffixTrans(a, c, d);
  }

  /** A character missing from the whole is missing from every suffix. */
  lemma NotInSuffix(c: char, r: string, s: string)
    requires IsSuffix(r, s) && c !in s
    ensures c !in r
  {
    assert forall k :: 0 <= k < |r| ==> r[k] == s[|s| - |r| + k];
  }

  lemma SkipWsSuffix(s: string)
    ensures IsSuffix(SkipWs(s), s)
  {
    DropSuffix(s, CountWhile(IsWhitespace, s));
  }

  /** The trailing `padded` of a rule keeps what it leaves a suffix. */
  lemma PadSuffix(r: string, s: string)
    requires IsSuffix(r, s)
    ensures IsSuffix(SkipWs(r), s)
  {
    SkipWsSuffix(r);
    SuffixTrans(SkipWs(r), r, s);
  }

  lemma OrElseSuffix<X>(a: Option<(X, string)>, b: Option<(X, string)>, s: string)
    requires Leaves(a, s) && Leaves(b, s)
    ensures Leaves(OrElse(a, b), s)
  {
  }

  // ------------------------------------------------------------ tokens

  lemma JustSuffix(k: string, s: string)
    ensures Just(k, s).Some? ==> IsSuffix(Just(k, s).value, s)
  {
    if k <= s {
      DropSuffix(s, |k|);
    }
  }

  lemma TokSuffix<X>(k: string, x: X, s: string)
    ensures Leaves(Tok(k, x, s), s)
  {
    JustSuffix(k, s);
  }

  lemma KeywordSuffix(k: string, s: string)
    ensures Keyword(k, s).Some? ==> IsSuffix(Keyword(k, s).value, s)
  {
    var t := SkipWs(s);
    SkipWsSuffix(s);
    JustSuffix(k, t);
    if k <= t {
      SuffixTrans(t[|k|..], t, s);
      PadSuffix(t[|k|..], s);
    }
  }

  lemma IdentSuffix(s: string)
    ensures Leaves(IdentRule(s), s)
  {
    var t := SkipWs(s);
    SkipWsSuffix(s);
    if |t| > 0 && IsIdentStart(t[0]) {
      var n := 1 + CountWhile(IsIdentChar, t[1..]);
      DropSuffix(t, n);
      SuffixTrans(t[n..], t, s);
      PadSuffix(t[n..], s);
    }
  }

  lemma {:induction false} NameChoiceSuffix<X>(names: seq<string>, values: seq<X>, s: string)
    requires |names| == |values|
    requires forall i :: 0 <= i < |names| ==> names[i] != []
    ensures Leaves(NameChoice(names, values, s), s)
    decreases |names|
  {
    if names == [] {
    } else if names[0] <= s {
      DropSuffix(s, |names[0]|);
    } else {
      assert forall i :: 0 <= i < |names[1..]| ==> names[1..][i] == names[i + 1];
      NameChoiceSuffix(names[1..], values[1..], s);
    }
  }

  // ------------------------------------------------------------ types and accounts

  lemma {:induction false} TypeSuffix(s: string)
    ensures Leaves(TypeRule(s), s)
    decreases |s|, 1
  {
    var t := SkipWs(s);
    SkipWsSuffix(s);
    DelimitedSuffix("Vec<", t);
    DelimitedSuffix("Option<", t);
    NameChoiceSuffix(TypeNames, TypeValues, t);
    var vec := match DelimitedType("Vec<", t)
      case Some((inner, rest)) => Some((Type.Vec(inner), rest))
      case None => None;
    var option := match DelimitedType("Option<", t)
      case Some((inner, rest)) => Some((Type.Option(inner), rest))
      case None => None;
    OrElseSuffix(vec, option, t);
    OrElseSuffix(NameChoice(TypeNames, TypeValues, t), OrElse(vec, option), t);
    var alt: Option<(Type, string)> := OrElse(NameChoice(TypeNames, TypeValues, t), OrElse(vec, option));
    if alt.Some? {
      SuffixTrans(alt.value.1, t, s);
      PadSuffix(alt.value.1, s);
    }
  }

  lemma {:induction false} DelimitedSuffix(open: string, t: string)
    requires |open| > 0
    ensures Leaves(DelimitedType(open, t), t)
    decreases |t|, 0
  {
    JustSuffix(open, t);
    match Just(open, t)
    case None =>
    case Some(t1) =>
      TypeSuffix(t1);
      match TypeRule(t1)
      case None =>
      case Some((inner, t2)) =>
        JustSuffix(">", t2);
        if ">" <= t2 {
          Chain3(t2[1..], t2, t1, t);
        }
  }

  lemma FieldSuffix(s: string)
    ensures Leaves(FieldRule(s), s)
  {
    if FieldRule(s).Some? {
      var s1 := IdentRule(s).value.1;
      var s2 := Keyword(":", s1).value;
      var s3 := TypeRule(s2).value.1;
      assert FieldRule(s).value.1 == SkipWs(s3);
      IdentSuffix(s);
      KeywordSuffix(":", s1);
      TypeSuffix(s2);
      Chain3(s3, s2, s1, s);
      PadSuffix(s3, s);
    }
  }

  lemma {:induction false} FieldsSuffix(s: string)
    ensures IsSuffix(FieldsRule(s).1, s)
    decreases |s|
  {
    match FieldRule(s)
    case None =>
    case Some((f, s1)) =>
      FieldSuffix(s);
      FieldsSuffix(s1);
      SuffixTrans(FieldsRule(s1).1, s1, s);
  }

  /** What precedes the closing brace of an account block is a suffix of the block's text. */
  lemma AccountBodySuffix(s: string, s3: string)
    requires Keyword("account", s).Some? && IdentRule(Keyword("account", s).value).Some?
    requires Keyword("{", IdentRule(Keyword("account", s).value).value.1) == Some(s3)
    ensures IsSuffix(FieldsRule(s3).1, s)
  {
    var s1 := Keyword("account", s).value;
    var s2 := IdentRule(s1).value.1;
    KeywordSuffix("account", s);
    IdentSuffix(s1);
    KeywordSuffix("{", s2);
    FieldsSuffix(s3);
    Chain3(FieldsRule(s3).1, s3, s2, s1);
    SuffixTrans(FieldsRule(s3).1, s1, s);
  }

  lemma AccountDefSuffix(s: string)
    ensures Leaves(AccountDefRule(s), s)
  {
    match Keyword("account", s)
    case None =>
    case Some(s1) =>
      match IdentRule(s1)
      case None =>
      case Some((name, s2)) =>
        match Keyword("{", s2)
        case None =>
        case Some(s3) =>
          var s4 := FieldsRule(s3).1;
          AccountBodySuffix(s, s3);
          KeywordSuffix("}", s4);
          match Keyword("}", s4)
          case None =>
          case Some(s5) =>
            SuffixTrans(s5, s4, s);
            PadSuffix(s5, s);
  }

  lemma {:induction false} AccountDefsSuffix(s: string)
    ensures IsSuffix(AccountDefsRule(s).1, s)
    decreases |s|
  {
    match AccountDefRule(s)
    case None =>
    case Some((a, s1)) =>
      AccountDefSuffix(s);
      AccountDefsSuffix(s1);
      SuffixTrans(AccountDefsRule(s1).1, s1, s);
  }

  // ------------------------------------------------------------ parameters

  lemma ParamTypeSuffix(s: string)
    ensures Leaves(ParamTypeRule(s), s)
  {
    var t := SkipWs(s);
    SkipWsSuffix(s);
    IdentSuffix(t);
    NameChoiceSuffix(ParamTypeNames, ParamTypeValues, t);
    var account := match IdentRule(t)
      case Some((name, rest)) => Some((ParamType.Account(name), rest))
      case None => None;
    OrElseSuffix(NameChoice(ParamTypeNames, ParamTypeValues, t), account, t);
    var alt: Option<(ParamType, string)> := OrElse(NameChoice(ParamTypeNames, ParamTypeValues, t), account);
    if alt.Some? {
      SuffixTrans(alt.value.1, t, s);
      PadSuffix(alt.value.1, s);
    }
  }

  lemma ParamSuffix(s: string)
    ensures Leaves(ParamRule(s), s)
  {
    if ParamRule(s).Some? {
      var s1 := IdentRule(s).value.1;
      var s2 := Keyword(":", s1).value;
      var s3 := ParamTypeRule(s2).value.1;
      assert ParamRule(s).value.1 == SkipWs(s3);
      IdentSuffix(s);
      KeywordSuffix(":", s1);
      ParamTypeSuffix(s2);
      Chain3(s3, s2, s1, s);
      PadSuffix(s3, s);
    }
  }

  lemma {:induction false} MoreParamsSuffix(s: string)
    ensures IsSuffix(MoreParamsRule(s).1, s)
    decreases |s|
  {
    if Keyword(",", s).Some? && ParamRule(Keyword(",", s).value).Some? {
      var s1 := Keyword(",", s).value;
      var s2 := ParamRule(s1).value.1;
      assert MoreParamsRule(s).1 == MoreParamsRule(s2).1;
      KeywordSuffix(",", s);
      ParamSuffix(s1);
      MoreParamsSuffix(s2);
      Chain3(MoreParamsRule(s2).1, s2, s1, s);
    }
  }

  lemma ParamListSuffix(s: string)
    ensures IsSuffix(ParamListRule(s).1, s)
  {
    match ParamRule(s)
    case None =>
    case Some((p, s1)) =>
      ParamSuffix(s);
      MoreParamsSuffix(s1);
      SuffixTrans(MoreParamsRule(s1).1, s1, s);
  }

  // ------------------------------------------------------------ expressions

  lemma LiteralSuffix(s: string)
    ensures Leaves(LiteralRule(s), s)
  {
    var t := SkipWs(s);
    SkipWsSuffix(s);
    var integer := match IntToken(t)
      case Some((digits, rest)) => Some((IntLiteral(digits), rest))
      case None => None;
    var str := match StringToken(t)
      case Some((text, rest)) => Some((Literal.String(text), rest))
      case None => None;
    if IntToken(t).Some? {
      AppendSuffix(IntToken(t).value.0, IntToken(t).value.1);
    }
    if StringToken(t).Some? {
      AppendSuffix("\"" + StringToken(t).value.0 + "\"", StringToken(t).value.1);
    }
    TokSuffix("true", Literal.Bool(true), t);
    TokSuffix("false", Literal.Bool(false), t);
    OrElseSuffix(Tok("false", Literal.Bool(false), t), str, t);
    OrElseSuffix(Tok("true", Literal.Bool(true), t), OrElse(Tok("false", Literal.Bool(false), t), str), t);
    OrElseSuffix(integer, OrElse(Tok("true", Literal.Bool(true), t), OrElse(Tok("false", Literal.Bool(false), t), str)), t);
    var alt: Option<(Literal, string)> :=
      OrElse(integer,
      OrElse(Tok("true", Literal.Bool(true), t),
      OrElse(Tok("false", Literal.Bool(false), t),
      str)));
    if alt.Some? {
      SuffixTrans(alt.value.1, t, s);
      PadSuffix(alt.value.1, s);
    }
  }

  lemma AtomSuffix(s: string)
    ensures Leaves(AtomRule(s), s)
  {
    LiteralSuffix(s);
    IdentSuffix(s);
  }

  lemma {:induction false} FieldSuffixesSuffix(s: string)
    ensures IsSuffix(FieldSuffixes(s).1, s)
    decreases |s|
  {
    match Just(".", s)
    case None =>
    case Some(s1) =>
      match IdentRule(s1)
      case None =>
      case Some((f, s2)) =>
        JustSuffix(".", s);
        IdentSuffix(s1);
        FieldSuffixesSuffix(s2);
        Chain3(FieldSuffixes(s2).1, s2, s1, s);
  }

  lemma FieldAccessSuffix(s: string)
    ensures Leaves(FieldAccessRule(s), s)
  {
    AtomSuffix(s);
    match AtomRule(s)
    case None =>
    case Some((atom, s1)) =>
      FieldSuffixesSuffix(s1);
      SuffixTrans(FieldSuffixes(s1).1, s1, s);
  }

  lemma UnarySuffix(s: string)
    ensures Leaves(UnaryRule(s), s)
  {
    FieldAccessSuffix(s);
    TokSuffix("!", Not, s);
    TokSuffix("-", Neg, s);
    var sign: Option<(UnOp, string)> := OrElse(Tok("!", Not, s), Tok("-", Neg, s));
    OrElseSuffix(Tok("!", Not, s), Tok("-", Neg, s), s);
    var prefixed := match sign
      case None => None
      case Some((op, s1)) =>
        match FieldAccessRule(s1)
        case None => None
        case Some((operand, s2)) => Some((UnaryOp(op, operand), s2));
    if sign.Some? {
      var s1 := sign.value.1;
      FieldAccessSuffix(s1);
      if FieldAccessRule(s1).Some? {
        SuffixTrans(FieldAccessRule(s1).value.1, s1, s);
      }
    }
    assert Leaves(prefixed, s);
    OrElseSuffix(prefixed, FieldAccessRule(s), s);
  }

  lemma OperatorSuffix(lv: Level, s: string)
    ensures Leaves(OperatorRule(lv, s), s)
  {
    match lv
    case Product =>
      TokSuffix("*", Mul, s);
      TokSuffix("/", Div, s);
      TokSuffix("%", Mod, s);
    case Sum =>
      TokSuffix("+", Add, s);
      TokSuffix("-", Sub, s);
    case Comparison =>
      TokSuffix("==", Eq, s);
      TokSuffix("!=", Ne, s);
      TokSuffix("<", Lt, s);
      TokSuffix("<=", Le, s);
      TokSuffix(">", Gt, s);
      TokSuffix(">=", Ge, s);
    case Conjunction =>
      TokSuffix("&&", And, s);
    case Disjunction =>
      TokSuffix("||", Or, s);
  }

  lemma {:induction false} LevelSuffix(lv: Level, s: string)
    ensures Leaves(LevelRule(lv, s), s)
    decreases |s|, Rank(lv), 1
  {
    OperandSuffix(lv, s);
    match Operand(lv, s)
    case None =>
    case Some((first, s1)) =>
      TailSuffix(lv, s1);
      SuffixTrans(LevelTail(lv, s1).1, s1, s);
  }

  lemma {:induction false} OperandSuffix(lv: Level, s: string)
    ensures Leaves(Operand(lv, s), s)
    decreases |s|, Rank(lv), 0
  {
    if lv == Product {
      UnarySuffix(s);
    } else {
      LevelSuffix(Tighter(lv), s);
    }
  }

  lemma {:induction false} TailSuffix(lv: Level, s: string)
    ensures IsSuffix(LevelTail(lv, s).1, s)
    decreases |s|, Rank(lv), 2
  {
    match OperatorRule(lv, s)
    case None =>
    case Some((op, s1)) =>
      match Operand(lv, s1)
      case None =>
      case Some((rhs, s2)) =>
        OperatorSuffix(lv, s);
        OperandSuffix(lv, s1);
        TailSuffix(lv, s2);
        Chain3(LevelTail(lv, s2).1, s2, s1, s);
  }

  /** Reading an expression never produces input that was not there. */
  lemma ExprSuffix(s: string)
    ensures Leaves(ExprRule(s), s)
  {
    LevelSuffix(Disjunction, s);
  }

  // ------------------------------------------------------------ statements

  lemma SignerSuffix(s: string)
    ensures IsSuffix(SignerClause(s).1, s)
  {
    match Keyword("signer", s)
    case None =>
    case Some(s1) =>
      KeywordSuffix("signer", s);
      IdentSuffix(s1);
      match IdentRule(s1)
      case None =>
      case Some((name, s2)) =>
        SuffixTrans(s2, s1, s);
  }

  /** The first four steps of `init account`: `init account v :` */
  lemma InitHeadSuffix(s: string, s4: string)
    requires Keyword("init", s).Some? && Keyword("account", Keyword("init", s).value).Some?
    requires IdentRule(Keyword("account", Keyword("init", s).value).value).Some?
    requires Keyword(":", IdentRule(Keyword("account", Keyword("init", s).value).value).value.1) == Some(s4)
    ensures IsSuffix(s4, s)
  {
    var s1 := Keyword("init", s).value;
    var s2 := Keyword("account", s1).value;
    var s3 := IdentRule(s2).value.1;
    KeywordSuffix("init", s);
    KeywordSuffix("account", s1);
    IdentSuffix(s2);
    KeywordSuffix(":", s3);
    Chain3(s4, s3, s2, s1);
    SuffixTrans(s4, s1, s);
  }

  /** The last steps of `init account`: `T payer p [signer s]` */
  lemma InitTailSuffix(s4: string)
    requires IdentRule(s4).Some? && Keyword("payer", IdentRule(s4).value.1).Some?
    requires IdentRule(Keyword("payer", IdentRule(s4).value.1).value).Some?
    ensures IsSuffix(SignerClause(IdentRule(Keyword("payer", IdentRule(s4).value.1).value).value.1).1, s4)
  {
    var s5 := IdentRule(s4).value.1;
    var s6 := Keyword("payer", s5).value;
    var s7 := IdentRule(s6).value.1;
    IdentSuffix(s4);
    KeywordSuffix("payer", s5);
    IdentSuffix(s6);
    SignerSuffix(s7);
    Chain3(SignerClause(s7).1, s7, s6, s5);
    SuffixTrans(SignerClause(s7).1, s5, s4);
  }

  lemma InitAccountSuffix(s: string)
    ensures Leaves(InitAccountRule(s), s)
  {
    match Keyword("init", s)
    case None =>
    case Some(s1) =>
      match Keyword("account", s1)
      case None =>
      case Some(s2) =>
        match IdentRule(s2)
        case None =>
        case Some((varName, s3)) =>
          match Keyword(":", s3)
          case None =>
          case Some(s4) =>
            match IdentRule(s4)
            case None =>
            case Some((accountName, s5)) =>
              match Keyword("payer", s5)
              case None =>
              case Some(s6) =>
                match IdentRule(s6)
                case None =>
                case Some((payer, s7)) =>
                  InitHeadSuffix(s, s4);
                  InitTailSuffix(s4);
                  SuffixTrans(SignerClause(s7).1, s4, s);
                  PadSuffix(SignerClause(s7).1, s);
  }

  lemma MessageSuffix(s: string)
    ensures IsSuffix(MessageClause(s).1, s)
  {
    match Just(",", s)
    case None =>
    case Some(s1) =>
      match StringToken(s1)
      case None =>
      case Some((text, s2)) =>
        JustSuffix(",", s);
        AppendSuffix("\"" + text + "\"", s2);
        SuffixTrans(s2, s1, s);
  }

  lemma RequireSuffix(s: string)
    ensures Leaves(RequireRule(s), s)
  {
    match Keyword("require", s)
    case None =>
    case Some(s1) =>
      match ExprRule(s1)
      case None =>
      case Some((condition, s2)) =>
        KeywordSuffix("require", s);
        ExprSuffix(s1);
        MessageSuffix(s2);
        Chain3(MessageClause(s2).1, s2, s1, s);
        PadSuffix(MessageClause(s2).1, s);
  }

  lemma AssignOpSuffix(s: string)
    ensures Leaves(AssignOpRule(s), s)
  {
    var t := SkipWs(s);
    SkipWsSuffix(s);
    TokSuffix("+=", Some(Add), t);
    TokSuffix("-=", Some(Sub), t);
    TokSuffix("*=", Some(Mul), t);
    TokSuffix("/=", Some(Div), t);
    TokSuffix("%=", Some(Mod), t);
    TokSuffix("=", Option<BinOp>.None, t);
    var alt: Option<(Option<BinOp>, string)> :=
      OrElse(Tok("+=", Some(Add), t),
      OrElse(Tok("-=", Some(Sub), t),
      OrElse(Tok("*=", Some(Mul), t),
      OrElse(Tok("/=", Some(Div), t),
      OrElse(Tok("%=", Some(Mod), t),
      Tok("=", None, t))))));
    if alt.Some? {
      SuffixTrans(alt.value.1, t, s);
      PadSuffix(alt.value.1, s);
    }
  }

  lemma AssignSuffix(s: string)
    ensures Leaves(AssignRule(s), s)
  {
    match ExprRule(s)
    case None =>
    case Some((target, s1)) =>
      match AssignOpRule(s1)
      case None =>
      case Some((op, s2)) =>
        match ExprRule(s2)
        case None =>
        case Some((value, s3)) =>
          ExprSuffix(s);
          AssignOpSuffix(s1);
          ExprSuffix(s2);
          Chain3(s3, s2, s1, s);
          PadSuffix(s3, s);
  }

  /** Reading a statement never produces input that was not there. */
  lemma StatementSuffix(s: string)
    ensures Leaves(StatementRule(s), s)
  {
    InitAccountSuffix(s);
    RequireSuffix(s);
    AssignSuffix(s);
    ExprSuffix(s);
  }

  lemma {:induction false} StatementsSuffix(s: string)
    ensures IsSuffix(StatementsRule(s).1, s)
    decreases |s|
  {
    match StatementRule(s)
    case None =>
    case Some((st, s1)) =>
      StatementSuffix(s);
      StatementsSuffix(s1);
      SuffixTrans(StatementsRule(s1).1, s1, s);
  }

  // ------------------------------------------------------------ instructions and programs

  /** `instruction f (`: the header up to the parameter list. */
  lemma InstructionHeadSuffix(s: string, s3: string)
    requires Keyword("instruction", s).Some? && IdentRule(Keyword("instruction", s).value).Some?
    requires Keyword("(", IdentRule(Keyword("instruction", s).value).value.1) == Some(s3)
    ensures IsSuffix(s3, s)
  {
    var s1 := Keyword("instruction", s).value;
    var s2 := IdentRule(s1).value.1;
    KeywordSuffix("instruction", s);
    IdentSuffix(s1);
    KeywordSuffix("(", s2);
    Chain3(s3, s2, s1, s);
  }

  /** `params ) {  statements`: what follows the header, up to the closing brace. */
  lemma InstructionBodySuffix(s3: string)
    requires Keyword(")", ParamListRule(s3).1).Some?
    requires Keyword("{", Keyword(")", ParamListRule(s3).1).value).Some?
    ensures IsSuffix(StatementsRule(Keyword("{", Keyword(")", ParamListRule(s3).1).value).value).1, s3)
  {
    var s4 := ParamListRule(s3).1;
    var s5 := Keyword(")", s4).value;
    var s6 := Keyword("{", s5).value;
    ParamListSuffix(s3);
    KeywordSuffix(")", s4);
    KeywordSuffix("{", s5);
    StatementsSuffix(s6);
    Chain3(StatementsRule(s6).1, s6, s5, s4);
    SuffixTrans(StatementsRule(s6).1, s4, s3);
  }

  /** What is left before the closing brace of an instruction block is a suffix of its text. */
  lemma BeforeCloseSuffix(s: string, s7: string)
    requires Keyword("instruction", s).Some? && IdentRule(Keyword("instruction", s).value).Some?
    requires Keyword("(", IdentRule(Keyword("instruction", s).value).value.1).Some?
    requires var s3 := Keyword("(", IdentRule(Keyword("instruction", s).value).value.1).value;
      Keyword(")", ParamListRule(s3).1).Some?
      && Keyword("{", Keyword(")", ParamListRule(s3).1).value).Some?
      && s7 == StatementsRule(Keyword("{", Keyword(")", ParamListRule(s3).1).value).value).1
    ensures IsSuffix(s7, s)
  {
    var s3 := Keyword("(", IdentRule(Keyword("instruction", s).value).value.1).value;
    InstructionHeadSuffix(s, s3);
    InstructionBodySuffix(s3);
    SuffixTrans(s7, s3, s);
  }

  lemma InstructionSuffix(s: string)
    ensures Leaves(InstructionRule(s), s)
  {
    match Keyword("instruction", s)
    case None =>
    case Some(s1) =>
      match IdentRule(s1)
      case None =>
      case Some((name, s2)) =>
        match Keyword("(", s2)
        case None =>
        case Some(s3) =>
          var (params, s4) := ParamListRule(s3);
          match Keyword(")", s4)
          case None =>
          case Some(s5) =>
            match Keyword("{", s5)
            case None =>
            case Some(s6) =>
              var (body, s7) := StatementsRule(s6);
              match Keyword("}", s7)
              case None =>
              case Some(s8) =>
                BeforeCloseSuffix(s, s7);
                KeywordSuffix("}", s7);
                SuffixTrans(s8, s7, s);
                PadSuffix(s8, s);
  }

  lemma {:induction false} InstructionsSuffix(s: string)
    ensures IsSuffix(InstructionsRule(s).1, s)
    decreases |s|
  {
    match InstructionRule(s)
    case None =>
    case Some((ins, s1)) =>
      InstructionSuffix(s);
      InstructionsSuffix(s1);
      SuffixTrans(InstructionsRule(s1).1, s1, s);
  }

  /** What the program rule leaves for the final end-of-input check is a suffix of the source. */
  lemma ProgramPrefixSuffix(s: string)
    ensures Leaves(ProgramPrefix(s), s)
  {
    match Keyword("program", s)
    case None =>
    case Some(s1) =>
      match IdentRule(s1)
      case None =>
      case Some((name, s2)) =>
        var s3 := AccountDefsRule(s2).1;
        KeywordSuffix("program", s);
        IdentSuffix(s1);
        AccountDefsSuffix(s2);
        InstructionsSuffix(s3);
        Chain3(InstructionsRule(s3).1, s3, s2, s1);
        SuffixTrans(InstructionsRule(s3).1, s1, s);
  }

  // ------------------------------------------------------------ a missing closing brace

  /** A padded `}` can only be read where a `}` is. */
  lemma NoClose(s: string)
    requires '}' !in s
    ensures Keyword("}", s) == None
  {
    var t := SkipWs(s);
    SkipWsSuffix(s);
    NotInSuffix('}', t, s);
    assert t != [] ==> t[0] in t;
  }

  /** Account blocks and instruction blocks end in `}`: text without one completes neither. */
  lemma BlocksNeedBrace(s: string)
    requires '}' !in s
    ensures AccountDefRule(s) == None && InstructionRule(s) == None
  {
    AccountNeedsBrace(s);
    InstructionNeedsBrace(s);
  }

  lemma AccountNeedsBrace(s: string)
    requires '}' !in s
    ensures AccountDefRule(s) == None
  {
    match Keyword("account", s)
    case None =>
    case Some(s1) =>
      match IdentRule(s1)
      case None =>
      case Some((name, s2)) =>
        match Keyword("{", s2)
        case None =>
        case Some(s3) =>
          var s4 := FieldsRule(s3).1;
          AccountBodySuffix(s, s3);
          NotInSuffix('}', s4, s);
          NoClose(s4);
  }

  lemma InstructionNeedsBrace(s: string)
    requires '}' !in s
    ensures InstructionRule(s) == None
  {
    match Keyword("instruction", s)
    case None =>
    case Some(s1) =>
      match IdentRule(s1)
      case None =>
      case Some((name, s2)) =>
        match Keyword("(", s2)
        case None =>
        case Some(s3) =>
          var s4 := ParamListRule(s3).1;
          match Keyword(")", s4)
          case None =>
          case Some(s5) =>
            match Keyword("{", s5)
            case None =>
            case Some(s6) =>
              var s7 := StatementsRule(s6).1;
              BeforeCloseSuffix(s, s7);
              NotInSuffix('}', s7, s);
              NoClose(s7);
  }
}
