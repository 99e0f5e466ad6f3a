/** Reading back printed declarations: field types, fields, account blocks and parameter lists. */
module DeclRoundTrip {
  import opened Wrappers
  import opened Text
  import opened Ast
  import opened Parser
  import opened Printer
  import opened ExprRoundTrip

  /** `just(k).padded()` reads k from text that starts with it. */
  lemma KeywordReads(k: string, y: string)
    requires |k| > 0 && !IsWhitespace(k[0])
    ensures Keyword(k, k + y) == Some(SkipWs(y))
  {
    assert (k + y)[0] == k[0];
    SkipWsSolid(k + y);
    JustPrefix(k, y);
  }

  /** Whitespace in front of the text changes nothing for a rule that skips whitespace first. */
  lemma KeywordSkips(k: string, s: string)
    ensures Keyword(k, SkipWs(s)) == Keyword(k, s)
  {
    SkipWsIdempotent(s);
  }

  // ------------------------------------------------------------ name tables

  predicate NonEmptyNames(names: seq<string>) {
    forall i :: 0 <= i < |names| ==> names[i] != []
  }

  /** No name of the table is a prefix of another, so the order of the alternatives does not matter. */
  predicate PrefixFree(names: seq<string>) {
    forall i, j :: 0 <= i < |names| && 0 <= j < |names| && i != j ==> !(names[i] <= names[j])
  }

  /** Of two words neither of which is a prefix of the other, the first is not a prefix of the second
      followed by anything. */
  lemma Apart(a: string, b: string, c: string)
    requires !(a <= b) && !(b <= a)
    ensures !(a <= b + c)
  {
    if |a| <= |b| {
      assert (b + c)[..|a|] == b[..|a|];
    } else {
      assert (b + c)[..|b|] == b;
    }
  }

  /** Words that differ in one of their first two characters are not prefixes of each other. */
  lemma TwoCharsApart(a: string, b: string)
    requires |a| >= 2 && |b| >= 2 && (a[0] != b[0] || a[1] != b[1])
    ensures !(a <= b)
  {
  }

  /** In a prefix-free table, the choice reads each name to its own value. */
  lemma {:induction false} NameChoiceReads<X>(names: seq<string>, values: seq<X>, i: int, rest: string)
    requires |names| == |values| && NonEmptyNames(names) && PrefixFree(names) && 0 <= i < |names|
    ensures NameChoice(names, values, names[i] + rest) == Some((values[i], rest))
  {
    if i == 0 {
      JustPrefix(names[0], rest);
    } else {
      Apart(names[0], names[i], rest);
      var tail := names[1..];
      assert tail[i - 1] == names[i] && values[1..][i - 1] == values[i];
      assert PrefixFree(tail) by {
        forall j, k | 0 <= j < |tail| && 0 <= k < |tail| && j != k ensures !(tail[j] <= tail[k]) {
          assert tail[j] == names[j + 1] && tail[k] == names[k + 1];
        }
      }
      NameChoiceReads(tail, values[1..], i - 1, rest);
    }
  }

  /** The choice fails on text that starts with none of the names. */
  lemma {:induction false} NameChoiceMisses<X>(names: seq<string>, values: seq<X>, s: string)
    requires |names| == |values| && NonEmptyNames(names)
    requires forall i :: 0 <= i < |names| ==> !(names[i] <= s)
    ensures NameChoice(names, values, s) == None
  {
    if names != [] {
      var tail := names[1..];
      assert forall i :: 0 <= i < |tail| ==> tail[i] == names[i + 1];
      NameChoiceMisses(tail, values[1..], s);
    }
  }

  /** The position of a name in the table of scalar type names, from its first two characters. */
  function TypeSlot(k: string): int {
    if |k| < 2 then -1
    else if k[0] == 'P' then 0
    else if k[0] == 'u' && k[1] == '8' then 1
    else if k[0] == 'u' && k[1] == '1' then 2
    else if k[0] == 'u' && k[1] == '3' then 3
    else if k[0] == 'u' && k[1] == '6' then 4
    else if k[0] == 'i' && k[1] == '8' then 5
    else if k[0] == 'i' && k[1] == '1' then 6
    else if k[0] == 'i' && k[1] == '3' then 7
    else if k[0] == 'i' && k[1] == '6' then 8
    else if k[0] == 'b' then 9
    else if k[0] == 'S' then 10
    else -1
  }

  lemma TypeNamesNonEmpty()
    ensures NonEmptyNames(TypeNames)
  {
  }

  /** No scalar type name is a prefix of another: their first two characters tell them apart. */
  lemma TypeNamesPrefixFree()
    ensures NonEmptyNames(TypeNames) && PrefixFree(TypeNames)
  {
    forall i | 0 <= i < |TypeNames| ensures TypeSlot(TypeNames[i]) == i && |TypeNames[i]| >= 2 {
      assert i == 0 || i == 1 || i == 2 || i == 3 || i == 4 || i == 5 || i == 6 || i == 7 || i == 8 || i == 9 || i == 10;
    }
    forall i, j | 0 <= i < |TypeNames| && 0 <= j < |TypeNames| && i != j
      ensures !(TypeNames[i] <= TypeNames[j])
    {
      var a := TypeNames[i];
      var b := TypeNames[j];
      assert a[0] != b[0] || a[1] != b[1];
      TwoCharsApart(a, b);
    }
  }

  /** The position of a scalar type in the table of type names, under its own text. */
  function ScalarIndex(t: Type): (i: nat)
    requires IsScalar(t)
    ensures i < |TypeNames| && i < |TypeValues| && TypeNames[i] == TypeRust(t) && TypeValues[i] == t
  {
    match t
    case Pubkey => 0
    case U8 => 1
    case U16 => 2
    case U32 => 3
    case U64 => 4
    case I8 => 5
    case I16 => 6
    case I32 => 7
    case I64 => 8
    case Bool => 9
    case String => 10
  }

  /** Text starting with `V` or `O` starts with no scalar name. */
  lemma TypeNamesMiss(s: string)
    requires |s| > 0 && (s[0] == 'V' || s[0] == 'O')
    ensures NameChoice(TypeNames, TypeValues, s) == None
  {
    TypeNamesLead();
    forall i | 0 <= i < |TypeNames| ensures !(TypeNames[i] <= s) {
      assert TypeNames[i][0] != s[0];
    }
    NameChoiceMisses(TypeNames, TypeValues, s);
  }

  /** No scalar type name starts with `V` or `O`. */
  lemma TypeNamesLead()
    ensures forall i :: 0 <= i < |TypeNames| ==> |TypeNames[i]| > 0 && TypeNames[i][0] != 'V' && TypeNames[i][0] != 'O'
  {
    forall i | 0 <= i < |TypeNames| ensures |TypeNames[i]| > 0 && TypeNames[i][0] != 'V' && TypeNames[i][0] != 'O' {
      assert i == 0 || i == 1 || i == 2 || i == 3 || i == 4 || i == 5 || i == 6 || i == 7 || i == 8 || i == 9 || i == 10;
    }
  }

  // ------------------------------------------------------------ types

  /** The text of a type starts with a letter. */
  lemma TypeLead(t: Type, rest: string)
    ensures |TypeRust(t)| > 0 && (TypeRust(t) + rest)[0] == TypeRust(t)[0]
    ensures IsIdentStart(TypeRust(t)[0]) && !IsWhitespace(TypeRust(t)[0])
  {
  }

  lemma ScalarReads(t: Type, rest: string)
    requires IsScalar(t)
    ensures TypeRule(TypeRust(t) + rest) == Some((t, SkipWs(rest)))
  {
    var s := TypeRust(t) + rest;
    TypeLead(t, rest);
    SkipWsSolid(s);
    TypeNamesPrefixFree();
    NameChoiceReads(TypeNames, TypeValues, ScalarIndex(t), rest);
  }

  /** `delimited_by(just(open), just(">"))` around a type that reads back. */
  lemma DelimitedReads(open: string, inner: Type, x: string, rest: string)
    requires |open| > 0
    requires TypeRule(x) == Some((inner, ">" + rest))
    ensures DelimitedType(open, open + x) == Some((inner, rest))
  {
    JustPrefix(open, x);
    JustPrefix(">", rest);
  }

  /** Text that starts with `V` or `O` has no leading whitespace and starts with no scalar name. */
  lemma WrapperLead(s: string)
    requires |s| > 0 && (s[0] == 'V' || s[0] == 'O')
    ensures SkipWs(s) == s && NameChoice(TypeNames, TypeValues, s) == None
  {
    SkipWsSolid(s);
    TypeNamesMiss(s);
  }

  lemma VecStep(s: string, inner: Type, after: string)
    requires SkipWs(s) == s && NameChoice(TypeNames, TypeValues, s) == None
    requires DelimitedType("Vec<", s) == Some((inner, after))
    ensures TypeRule(s) == Some((Type.Vec(inner), SkipWs(after)))
  {
  }

  lemma OptionStep(s: string, inner: Type, after: string)
    requires SkipWs(s) == s && NameChoice(TypeNames, TypeValues, s) == None
    requires DelimitedType("Vec<", s) == None
    requires DelimitedType("Option<", s) == Some((inner, after))
    ensures TypeRule(s) == Some((Type.Option(inner), SkipWs(after)))
  {
  }

  lemma NotVec(s: string)
    requires |s| > 0 && s[0] == 'O'
    ensures DelimitedType("Vec<", s) == None
  {
    assert !("Vec<" <= s);
  }

  lemma WrappedText(open: string, inner: string, rest: string)
    ensures open + inner + ">" + rest == open + (inner + (">" + rest))
  {
  }

  /** `type_parser` reads back the text of every field type. */
  lemma {:induction false} TypeReads(t: Type, rest: string)
    ensures TypeRule(TypeRust(t) + rest) == Some((t, SkipWs(rest)))
  {
    match t
    case Vec(inner) =>
      var x := TypeRust(inner) + (">" + rest);
      WrappedText("Vec<", TypeRust(inner), rest);
      TypeReads(inner, ">" + rest);
      SkipWsSolid(">" + rest);
      DelimitedReads("Vec<", inner, x, rest);
      WrapperLead("Vec<" + x);
      VecStep("Vec<" + x, inner, rest);
    case Option(inner) =>
      var x := TypeRust(inner) + (">" + rest);
      WrappedText("Option<", TypeRust(inner), rest);
      TypeReads(inner, ">" + rest);
      SkipWsSolid(">" + rest);
      DelimitedReads("Option<", inner, x, rest);
      WrapperLead("Option<" + x);
      NotVec("Option<" + x);
      OptionStep("Option<" + x, inner, rest);
    case _ =>
      ScalarReads(t, rest);
  }

  /** Different types have different texts, so the reading back is unambiguous. */
  lemma TypeRustInjective(t: Type, u: Type)
    requires TypeRust(t) == TypeRust(u)
    ensures t == u
  {
    TypeReads(t, "");
    TypeReads(u, "");
  }

  // ------------------------------------------------------------ fields and accounts

  lemma FieldTextSplit(f: Field, rest: string)
    ensures FieldText(f) + rest == f.name + (":" + (" " + (TypeRust(f.ty) + rest)))
  {
  }

  /** The field rule is an identifier, a colon and a type. */
  lemma FieldStep(s: string, name: string, s1: string, s2: string, ty: Type, s3: string)
    requires IdentRule(s) == Some((name, s1))
    requires Keyword(":", s1) == Some(s2)
    requires TypeRule(s2) == Some((ty, s3))
    ensures FieldRule(s) == Some((Field(name, ty), SkipWs(s3)))
  {
  }

  /** `field` reads back the text of a field. */
  lemma FieldReads(f: Field, rest: string)
    requires IsIdentWord(f.name)
    ensures FieldRule(FieldText(f) + rest) == Some((f, SkipWs(rest)))
  {
    var typed := TypeRust(f.ty) + rest;
    FieldTextSplit(f, rest);
    IdentText(f.name, ":" + (" " + typed));
    SkipWsSolid(":" + (" " + typed));
    KeywordReads(":", " " + typed);
    TypeLead(f.ty, rest);
    SpaceThenSolid(TypeRust(f.ty), rest);
    TypeReads(f.ty, rest);
    SkipWsIdempotent(rest);
    FieldStep(FieldText(f) + rest, f.name, ":" + (" " + typed), typed, f.ty, SkipWs(rest));
  }

  lemma FieldsCons(fs: seq<Field>, rest: string)
    requires fs != []
    ensures FieldsText(fs) + rest == "  " + (FieldText(fs[0]) + ("\n" + (FieldsText(fs[1..]) + rest)))
  {
  }

  /** `field.repeated()` after whitespace: one field, then the fields that follow it. */
  lemma FieldsStep(s: string, line: string, f: Field, tail: string, fs: seq<Field>, rest: string)
    requires SkipWs(s) == line
    requires FieldRule(line) == Some((f, SkipWs(tail)))
    requires FieldsRule(SkipWs(tail)) == (fs, rest)
    ensures FieldsRule(SkipWs(s)) == ([f] + fs, rest)
  {
  }

  /** The indentation in front of a printed field is skipped. */
  lemma FieldsLine(fs: seq<Field>, rest: string)
    requires fs != [] && IsIdentWord(fs[0].name)
    ensures SkipWs(FieldsText(fs) + rest) == FieldText(fs[0]) + ("\n" + (FieldsText(fs[1..]) + rest))
  {
    var line := FieldText(fs[0]) + ("\n" + (FieldsText(fs[1..]) + rest));
    FieldsCons(fs, rest);
    FieldLead(fs[0], "\n" + (FieldsText(fs[1..]) + rest));
    SolidAfterWs("  ", line);
  }

  /** A printed field starts with the first letter of its name. */
  lemma FieldLead(f: Field, y: string)
    requires IsIdentWord(f.name)
    ensures (FieldText(f) + y)[0] == f.name[0] && !IsWhitespace(f.name[0])
  {
    assert FieldText(f) + y == f.name + (": " + TypeRust(f.ty) + y);
  }

  /** A printed field line reads back, and the line break after it is skipped. */
  lemma FieldLineReads(f: Field, tail: string)
    requires IsIdentWord(f.name)
    ensures FieldRule(FieldText(f) + ("\n" + tail)) == Some((f, SkipWs(tail)))
  {
    LineBreakSkipped(tail);
    FieldReads(f, "\n" + tail);
  }

  lemma LineBreakSkipped(tail: string)
    ensures SkipWs("\n" + tail) == SkipWs(tail)
  {
    SkipWsPrefix("\n", tail);
  }

  /** Text that starts with a character no identifier starts with ends a list of fields. */
  lemma FieldStops(t: string)
    requires |t| > 0 && !IsIdentStart(t[0]) && !IsWhitespace(t[0])
    ensures FieldRule(t) == None
  {
    SkipWsSolid(t);
  }

  lemma SolidAfterWs(w: string, x: string)
    requires AllWhitespace(w) && |x| > 0 && !IsWhitespace(x[0])
    ensures SkipWs(w + x) == x
  {
    SkipWsPrefix(w, x);
    SkipWsSolid(x);
  }

  /** `field.repeated()` reads back printed fields up to a closing brace. */
  lemma {:induction false} FieldsReads(fs: seq<Field>, rest: string)
    requires forall k :: 0 <= k < |fs| ==> IsIdentWord(fs[k].name)
    requires |rest| > 0 && rest[0] == '}'
    ensures FieldsRule(SkipWs(FieldsText(fs) + rest)) == (fs, rest)
  {
    if fs == [] {
      FieldsNone(rest);
    } else {
      FieldsReads(fs[1..], rest);
      FieldsMore(fs, rest);
    }
  }

  lemma FieldsNone(rest: string)
    requires |rest| > 0 && rest[0] == '}'
    ensures FieldsRule(SkipWs(FieldsText([]) + rest)) == ([], rest)
  {
    assert FieldsText([]) + rest == rest;
    SkipWsSolid(rest);
    FieldStops(rest);
  }

  /** One more printed field in front of fields that read back. */
  lemma FieldsMore(fs: seq<Field>, rest: string)
    requires fs != [] && IsIdentWord(fs[0].name)
    requires FieldsRule(SkipWs(FieldsText(fs[1..]) + rest)) == (fs[1..], rest)
    ensures FieldsRule(SkipWs(FieldsText(fs) + rest)) == (fs, rest)
  {
    var tail := FieldsText(fs[1..]) + rest;
    FieldsLine(fs, rest);
    FieldLineReads(fs[0], tail);
    FieldsStep(FieldsText(fs) + rest, FieldText(fs[0]) + ("\n" + tail), fs[0], tail, fs[1..], rest);
    ConsSplit(fs);
  }

  lemma AccountTextSplit(a: AccountDef, rest: string)
    ensures AccountText(a) + rest
      == "account" + (" " + (a.name + (" " + ("{" + ("\n" + (FieldsText(a.fields) + ("}" + ("\n" + rest))))))))
  {
  }

  /** `account_def` is the keyword, a name and a braced list of fields. */
  lemma AccountStep(s: string, s1: string, name: string, s2: string, s3: string, fields: seq<Field>, s4: string, s5: string)
    requires Keyword("account", s) == Some(s1)
    requires IdentRule(s1) == Some((name, s2))
    requires Keyword("{", s2) == Some(s3)
    requires FieldsRule(s3) == (fields, s4)
    requires Keyword("}", s4) == Some(s5)
    ensures AccountDefRule(s) == Some((AccountDef(name, fields), SkipWs(s5)))
  {
  }

  /** The keyword and the name of a printed account block read back. */
  lemma AccountHead(name: string, opening: string)
    requires IsIdentWord(name) && |opening| > 0 && opening[0] == '{'
    ensures Keyword("account", "account" + (" " + (name + (" " + opening)))) == Some(name + (" " + opening))
    ensures IdentRule(name + (" " + opening)) == Some((name, opening))
  {
    var named := name + (" " + opening);
    KeywordReads("account", " " + named);
    assert named[0] == name[0];
    SolidAfterWs(" ", named);
    IdentText(name, " " + opening);
    SolidAfterWs(" ", opening);
  }

  /** A keyword at the end of a printed line reads back, and the line break after it is skipped. */
  lemma KeywordLine(k: string, x: string)
    requires |k| > 0 && !IsWhitespace(k[0])
    ensures Keyword(k, k + ("\n" + x)) == Some(SkipWs(x))
  {
    KeywordReads(k, "\n" + x);
    SkipWsPrefix("\n", x);
  }

  /** The keyword and the name of an account block, in the printed text of the block. */
  lemma AccountOpens(a: AccountDef, rest: string, opening: string)
    requires AccountOk(a) && opening == "{" + ("\n" + (FieldsText(a.fields) + ("}" + ("\n" + rest))))
    ensures Keyword("account", AccountText(a) + rest) == Some(a.name + (" " + opening))
    ensures IdentRule(a.name + (" " + opening)) == Some((a.name, opening))
  {
    AccountTextSplit(a, rest);
    AccountHead(a.name, opening);
  }

  lemma OpenBrace(x: string)
    ensures Keyword("{", "{" + ("\n" + x)) == Some(SkipWs(x))
  {
    KeywordLine("{", x);
  }

  lemma CloseBrace(x: string)
    ensures Keyword("}", "}" + ("\n" + x)) == Some(SkipWs(x))
  {
    KeywordLine("}", x);
  }

  lemma FieldsBeforeBrace(fields: seq<Field>, rest: string)
    requires forall k :: 0 <= k < |fields| ==> IsIdentWord(fields[k].name)
    ensures FieldsRule(SkipWs(FieldsText(fields) + ("}" + ("\n" + rest)))) == (fields, "}" + ("\n" + rest))
  {
    FieldsReads(fields, "}" + ("\n" + rest));
  }

  /** `account_def` reads back the text of an account block. */
  lemma AccountReads(a: AccountDef, rest: string)
    requires AccountOk(a)
    ensures AccountDefRule(AccountText(a) + rest) == Some((a, SkipWs(rest)))
  {
    var closing := "}" + ("\n" + rest);
    var body := FieldsText(a.fields) + closing;
    var opening := "{" + ("\n" + body);
    AccountOpens(a, rest, opening);
    OpenBrace(body);
    FieldsBeforeBrace(a.fields, rest);
    CloseBrace(rest);
    SkipWsIdempotent(rest);
    AccountStep(AccountText(a) + rest, a.name + (" " + opening), a.name, opening, SkipWs(body),
      a.fields, closing, SkipWs(rest));
  }

  lemma AccountsCons(accounts: seq<AccountDef>, rest: string)
    requires accounts != []
    ensures AccountsText(accounts) + rest == "\n" + (AccountText(accounts[0]) + (AccountsText(accounts[1..]) + rest))
  {
  }

  lemma AccountsStep(s: string, a: AccountDef, s1: string, accounts: seq<AccountDef>, s2: string)
    requires AccountDefRule(s) == Some((a, s1))
    requires AccountDefsRule(s1) == (accounts, s2)
    ensures AccountDefsRule(s) == ([a] + accounts, s2)
  {
  }

  /** `account_def.repeated()` reads back printed account blocks, up to text it cannot read. */
  lemma {:induction false} AccountsReads(accounts: seq<AccountDef>, rest: string)
    requires forall k :: 0 <= k < |accounts| ==> AccountOk(accounts[k])
    requires AccountDefRule(SkipWs(rest)) == None
    ensures AccountDefsRule(SkipWs(AccountsText(accounts) + rest)) == (accounts, SkipWs(rest))
  {
    if accounts == [] {
      assert AccountsText(accounts) + rest == rest;
    } else {
      var tail := AccountsText(accounts[1..]) + rest;
      var block := AccountText(accounts[0]) + tail;
      AccountsCons(accounts, rest);
      assert block[0] == 'a';
      SolidAfterWs("\n", block);
      AccountReads(accounts[0], tail);
      AccountsReads(accounts[1..], rest);
      AccountsStep(block, accounts[0], SkipWs(tail), accounts[1..], SkipWs(rest));
      ConsSplit(accounts);
    }
  }

  // ------------------------------------------------------------ parameters

  /** The position of a name in the table of fixed parameter type names, from its first two characters. */
  function ParamSlot(k: string): int {
    if |k| < 2 then -1
    else if k[0] == 'S' && k[1] == 'i' then 0
    else if k[0] == 'P' then 1
    else if k[0] == 'u' && k[1] == '8' then 2
    else if k[0] == 'u' && k[1] == '1' then 3
    else if k[0] == 'u' && k[1] == '3' then 4
    else if k[0] == 'u' && k[1] == '6' then 5
    else if k[0] == 'i' && k[1] == '8' then 6
    else if k[0] == 'i' && k[1] == '1' then 7
    else if k[0] == 'i' && k[1] == '3' then 8
    else if k[0] == 'i' && k[1] == '6' then 9
    else if k[0] == 'b' then 10
    else if k[0] == 'S' && k[1] == 't' then 11
    else -1
  }

  /** Each fixed parameter type name is an identifier word found at its own slot. */
  lemma ParamTypeNameAt(i: int)
    requires 0 <= i < |ParamTypeNames|
    ensures ParamSlot(ParamTypeNames[i]) == i && |ParamTypeNames[i]| >= 2
    ensures forall c :: 0 <= c < |ParamTypeNames[i]| ==> IsIdentChar(ParamTypeNames[i][c])
  {
    assert i == 0 || i == 1 || i == 2 || i == 3 || i == 4 || i == 5 || i == 6 || i == 7 || i == 8 || i == 9 || i == 10 || i == 11;
  }

  /** No fixed parameter type name is a prefix of another. */
  lemma ParamTypeNamesPrefixFree()
    ensures NonEmptyNames(ParamTypeNames) && PrefixFree(ParamTypeNames)
  {
    forall i | 0 <= i < |ParamTypeNames| ensures ParamSlot(ParamTypeNames[i]) == i && |ParamTypeNames[i]| >= 2 {
      ParamTypeNameAt(i);
    }
    forall i, j | 0 <= i < |ParamTypeNames| && 0 <= j < |ParamTypeNames| && i != j
      ensures !(ParamTypeNames[i] <= ParamTypeNames[j])
    {
      var a := ParamTypeNames[i];
      var b := ParamTypeNames[j];
      assert a[0] != b[0] || a[1] != b[1];
      TwoCharsApart(a, b);
    }
  }

  /** The position of a fixed parameter type in its table, under its own text. */
  function ParamIndex(t: ParamType): (i: nat)
    requires !t.Account?
    ensures i < |ParamTypeNames| && i < |ParamTypeValues|
    ensures ParamTypeNames[i] == ParamTypeText(t) && ParamTypeValues[i] == t
  {
    match t
    case Signer => 0
    case Pubkey => 1
    case U8 => 2
    case U16 => 3
    case U32 => 4
    case U64 => 5
    case I8 => 6
    case I16 => 7
    case I32 => 8
    case I64 => 9
    case Bool => 10
    case String => 11
  }

  /** An account type name that no fixed name starts, followed by text that cannot continue it,
      makes the fixed alternatives fail. */
  lemma AccountNameMisses(n: string, rest: string)
    requires AccountNameOk(n) && TokenBoundary(rest)
    ensures NameChoice(ParamTypeNames, ParamTypeValues, n + rest) == None
  {
    forall i | 0 <= i < |ParamTypeNames| ensures !(ParamTypeNames[i] <= n + rest) {
      ParamTypeNameAt(i);
      WordNotPrefix(ParamTypeNames[i], n, rest);
    }
    ParamTypeNamesPrefixFree();
    NameChoiceMisses(ParamTypeNames, ParamTypeValues, n + rest);
  }

  /** `param_type_parser` with a fixed name that matches. */
  lemma FixedParamStep(s: string, t: ParamType, r: string)
    requires SkipWs(s) == s && NameChoice(ParamTypeNames, ParamTypeValues, s) == Some((t, r))
    ensures ParamTypeRule(s) == Some((t, SkipWs(r)))
  {
  }

  /** `param_type_parser` falling through to an account type name. */
  lemma AccountParamStep(s: string, n: string, r: string)
    requires SkipWs(s) == s && NameChoice(ParamTypeNames, ParamTypeValues, s) == None
    requires IdentRule(s) == Some((n, r))
    ensures ParamTypeRule(s) == Some((ParamType.Account(n), SkipWs(r)))
  {
  }

  /** The text of a parameter type starts with a letter. */
  lemma ParamTypeLead(t: ParamType, rest: string)
    requires t.Account? ==> AccountNameOk(t.accountName)
    ensures |ParamTypeText(t)| > 0 && (ParamTypeText(t) + rest)[0] == ParamTypeText(t)[0]
    ensures IsIdentStart(ParamTypeText(t)[0]) && !IsWhitespace(ParamTypeText(t)[0])
  {
  }

  /** `param_type_parser` reads back the text of a parameter type. */
  lemma ParamTypeReads(t: ParamType, rest: string)
    requires t.Account? ==> AccountNameOk(t.accountName)
    requires TokenBoundary(rest)
    ensures ParamTypeRule(ParamTypeText(t) + rest) == Some((t, SkipWs(rest)))
  {
    var s := ParamTypeText(t) + rest;
    ParamTypeLead(t, rest);
    SkipWsSolid(s);
    if t.Account? {
      AccountNameMisses(t.accountName, rest);
      IdentText(t.accountName, rest);
      AccountParamStep(s, t.accountName, SkipWs(rest));
      SkipWsIdempotent(rest);
    } else {
      ParamTypeNamesPrefixFree();
      NameChoiceReads(ParamTypeNames, ParamTypeValues, ParamIndex(t), rest);
      FixedParamStep(s, t, rest);
    }
  }

  /** A fixed parameter type name is read as its type even when an identifier goes on after it:
      the choice does not look for the end of the word, and leaves the rest of the word unread. */
  lemma FixedPrefixWins(i: int, tail: string)
    requires 0 <= i < |ParamTypeNames|
    ensures ParamTypeRule(ParamTypeNames[i] + tail) == Some((ParamTypeValues[i], SkipWs(tail)))
  {
    var s := ParamTypeNames[i] + tail;
    ParamTypeNameAt(i);
    assert s[0] == ParamTypeNames[i][0];
    SkipWsSolid(s);
    ParamTypeNamesPrefixFree();
    NameChoiceReads(ParamTypeNames, ParamTypeValues, i, tail);
    FixedParamStep(s, ParamTypeValues[i], tail);
  }

  lemma FixedNameSolid(i: int)
    requires 0 <= i < |ParamTypeNames|
    ensures |ParamTypeNames[i]| > 0 && !IsWhitespace(ParamTypeNames[i][0])
  {
    ParamTypeNameAt(i);
  }

  /** Text that goes on with an identifier character holds no `,` or `)` to read. */
  lemma WordGoesOn(tail: string)
    requires |tail| > 0 && IsIdentChar(tail[0])
    ensures SkipWs(tail) == tail
    ensures Keyword(",", tail) == None && Keyword(")", tail) == None
    ensures MoreParamsRule(tail) == ([], tail)
  {
    PunctMiss(tail);
    KeywordMiss(",", tail);
    KeywordMiss(")", tail);
    MoreParamsStop(tail);
  }

  lemma PunctMiss(tail: string)
    requires |tail| > 0 && IsIdentChar(tail[0])
    ensures SkipWs(tail) == tail && !("," <= tail) && !(")" <= tail)
  {
    SkipWsSolid(tail);
  }

  lemma KeywordMiss(k: string, t: string)
    requires SkipWs(t) == t && !(k <= t)
    ensures Keyword(k, t) == None
  {
  }

  lemma MoreParamsStop(s: string)
    requires Keyword(",", s) == None
    ensures MoreParamsRule(s) == ([], s)
  {
  }

  /** `v: ` before text that starts solid reads the name and the colon. */
  lemma NameColon(v: string, typed: string)
    requires IsIdentWord(v) && |typed| > 0 && !IsWhitespace(typed[0])
    ensures IdentRule(v + (":" + (" " + typed))) == Some((v, ":" + (" " + typed)))
    ensures Keyword(":", ":" + (" " + typed)) == Some(typed)
  {
    IdentText(v, ":" + (" " + typed));
    SkipWsSolid(":" + (" " + typed));
    ColonSpace(typed);
  }

  lemma ColonSpace(typed: string)
    requires |typed| > 0 && !IsWhitespace(typed[0])
    ensures Keyword(":", ":" + (" " + typed)) == Some(typed)
  {
    KeywordReads(":", " " + typed);
    SolidAfterWs(" ", typed);
  }

  lemma FixedPrefixParamRule(v: string, i: int, tail: string)
    requires IsIdentWord(v) && 0 <= i < |ParamTypeNames|
    requires |tail| > 0 && IsIdentChar(tail[0])
    ensures ParamRule(v + (":" + (" " + (ParamTypeNames[i] + tail)))) == Some((Param(v, ParamTypeValues[i]), tail))
  {
    var typed := ParamTypeNames[i] + tail;
    FixedNameSolid(i);
    assert typed[0] == ParamTypeNames[i][0];
    NameColon(v, typed);
    FixedPrefixWins(i, tail);
    WordGoesOn(tail);
    ParamStep(v + (":" + (" " + typed)), v, ":" + (" " + typed), typed, ParamTypeValues[i], tail);
  }

  /** A parameter whose type name starts with a fixed name ends before the rest of that name. */
  lemma FixedPrefixParam(v: string, i: int, tail: string)
    requires IsIdentWord(v) && 0 <= i < |ParamTypeNames|
    requires |tail| > 0 && IsIdentChar(tail[0])
    ensures ParamListRule(v + (":" + (" " + (ParamTypeNames[i] + tail))))
      == ([Param(v, ParamTypeValues[i])], tail)
  {
    FixedPrefixParamRule(v, i, tail);
    WordGoesOn(tail);
    ParamListStep(v + (":" + (" " + (ParamTypeNames[i] + tail))), Param(v, ParamTypeValues[i]), tail, [], tail);
    assert [Param(v, ParamTypeValues[i])] + [] == [Param(v, ParamTypeValues[i])];
  }

  lemma WordSolid(w: string, y: string)
    requires IsIdentWord(w)
    ensures SkipWs(w + y) == w + y
  {
    assert (w + y)[0] == w[0];
    SkipWsSolid(w + y);
  }

  /** `instruction` that stops after its parameter list. */
  lemma HeaderStopStep(s: string, s1: string, name: string, s2: string, s3: string, ps: seq<Param>, s4: string)
    requires Keyword("instruction", s) == Some(s1)
    requires IdentRule(s1) == Some((name, s2))
    requires Keyword("(", s2) == Some(s3)
    requires ParamListRule(s3) == (ps, s4)
    requires Keyword(")", s4) == None
    ensures InstructionRule(s) == None
  {
  }

  /** So an account type whose name starts with a fixed name, such as `StringHolder`, cannot be
      declared as a parameter: its parameter reads as the fixed type, and the instruction header
      then fails on the rest of the name. */
  lemma FixedPrefixHeaderFails(name: string, v: string, i: int, tail: string)
    requires IsIdentWord(name) && IsIdentWord(v) && 0 <= i < |ParamTypeNames|
    requires |tail| > 0 && IsIdentChar(tail[0])
    ensures InstructionRule("instruction" + (" " + (name + ("(" + (v + (":" + (" " + (ParamTypeNames[i] + tail))))))))
      == None
  {
    var x := v + (":" + (" " + (ParamTypeNames[i] + tail)));
    HeaderOpens(name, x);
    WordSolid(v, ":" + (" " + (ParamTypeNames[i] + tail)));
    FixedPrefixParam(v, i, tail);
    WordGoesOn(tail);
    HeaderStopStep("instruction" + (" " + (name + ("(" + x))), name + ("(" + x), name, "(" + x, x,
      [Param(v, ParamTypeValues[i])], tail);
  }

  /** `instruction name(` reads the keyword, the name and the parenthesis. */
  lemma HeaderOpens(name: string, x: string)
    requires IsIdentWord(name)
    ensures Keyword("instruction", "instruction" + (" " + (name + ("(" + x)))) == Some(name + ("(" + x))
    ensures IdentRule(name + ("(" + x)) == Some((name, "(" + x))
    ensures Keyword("(", "(" + x) == Some(SkipWs(x))
  {
    HeaderKeyword(name, "(" + x);
    HeaderName(name, x);
    KeywordReads("(", x);
  }

  lemma HeaderKeyword(name: string, opening: string)
    requires IsIdentWord(name)
    ensures Keyword("instruction", "instruction" + (" " + (name + opening))) == Some(name + opening)
  {
    KeywordReads("instruction", " " + (name + opening));
    SpaceThenSolid(name, opening);
  }

  lemma HeaderName(name: string, x: string)
    requires IsIdentWord(name)
    ensures IdentRule(name + ("(" + x)) == Some((name, "(" + x))
  {
    IdentText(name, "(" + x);
    SkipWsSolid("(" + x);
  }

  /** The instance with `StringHolder`: `instruction name(v: StringHolder...` is no instruction. */
  lemma StringHolderRejected(name: string, v: string, rest: string)
    requires IsIdentWord(name) && IsIdentWord(v)
    ensures InstructionRule("instruction" + (" " + (name + ("(" + (v + (":" + (" " + ("StringHolder" + rest))))))))
      == None
  {
    assert ParamTypeNames[11] == "String";
    assert "StringHolder" + rest == ParamTypeNames[11] + ("Holder" + rest);
    FixedPrefixHeaderFails(name, v, 11, "Holder" + rest);
  }

  lemma ParamTextSplit(p: Param, rest: string)
    ensures ParamText(p) + rest == p.name + (":" + (" " + (ParamTypeText(p.ty) + rest)))
  {
  }

  /** The parameter rule is an identifier, a colon and a parameter type. */
  lemma ParamStep(s: string, name: string, s1: string, s2: string, ty: ParamType, s3: string)
    requires IdentRule(s) == Some((name, s1))
    requires Keyword(":", s1) == Some(s2)
    requires ParamTypeRule(s2) == Some((ty, s3))
    ensures ParamRule(s) == Some((Param(name, ty), SkipWs(s3)))
  {
  }

  /** `param` reads back the text of a parameter. */
  lemma ParamReads(p: Param, rest: string)
    requires ParamOk(p) && TokenBoundary(rest)
    ensures ParamRule(ParamText(p) + rest) == Some((p, SkipWs(rest)))
  {
    var typed := ParamTypeText(p.ty) + rest;
    ParamTextSplit(p, rest);
    IdentText(p.name, ":" + (" " + typed));
    SkipWsSolid(":" + (" " + typed));
    KeywordReads(":", " " + typed);
    ParamTypeLead(p.ty, rest);
    SpaceThenSolid(ParamTypeText(p.ty), rest);
    ParamTypeReads(p.ty, rest);
    SkipWsIdempotent(rest);
    ParamStep(ParamText(p) + rest, p.name, ":" + (" " + typed), typed, p.ty, SkipWs(rest));
  }

  lemma MoreParamsCons(ps: seq<Param>, rest: string)
    requires ps != []
    ensures MoreParamsText(ps) + rest == "," + (" " + (ParamText(ps[0]) + (MoreParamsText(ps[1..]) + rest)))
  {
  }

  /** Printed `, param` pairs, and the closing parenthesis after them, start with a comma or
      with that parenthesis. */
  lemma MoreParamsLead(ps: seq<Param>, rest: string)
    requires |rest| > 0 && rest[0] == ')'
    ensures |MoreParamsText(ps) + rest| > 0
    ensures (MoreParamsText(ps) + rest)[0] == ',' || (MoreParamsText(ps) + rest)[0] == ')'
  {
    if ps != [] { MoreParamsCons(ps, rest); }
  }

  lemma MoreParamsStep(s: string, s1: string, p: Param, s2: string, ps: seq<Param>, s3: string)
    requires Keyword(",", s) == Some(s1)
    requires ParamRule(s1) == Some((p, s2))
    requires MoreParamsRule(s2) == (ps, s3)
    ensures MoreParamsRule(s) == ([p] + ps, s3)
  {
  }

  /** A printed parameter reads back up to the comma or parenthesis after it. */
  lemma ParamBeforeComma(p: Param, tail: string)
    requires ParamOk(p)
    requires |tail| > 0 && (tail[0] == ',' || tail[0] == ')')
    ensures ParamRule(ParamText(p) + tail) == Some((p, tail))
  {
    SkipWsSolid(tail);
    assert TokenBoundary(tail);
    ParamReads(p, tail);
  }

  /** A comma and a space in front of a printed parameter are read over. */
  lemma CommaThenParam(p: Param, tail: string)
    requires ParamOk(p)
    ensures Keyword(",", "," + (" " + (ParamText(p) + tail))) == Some(ParamText(p) + tail)
  {
    var x := ParamText(p) + tail;
    KeywordReads(",", " " + x);
    assert x[0] == p.name[0];
    SolidAfterWs(" ", x);
  }

  /** One more printed pair in front of pairs that read back. */
  lemma MoreParamsMore(ps: seq<Param>, rest: string)
    requires ps != [] && ParamOk(ps[0]) && |rest| > 0 && rest[0] == ')'
    requires MoreParamsRule(MoreParamsText(ps[1..]) + rest) == (ps[1..], rest)
    ensures MoreParamsRule(MoreParamsText(ps) + rest) == (ps, rest)
  {
    var tail := MoreParamsText(ps[1..]) + rest;
    MoreParamsCons(ps, rest);
    MoreParamsLead(ps[1..], rest);
    CommaThenParam(ps[0], tail);
    ParamBeforeComma(ps[0], tail);
    MoreParamsStep(MoreParamsText(ps) + rest, ParamText(ps[0]) + tail, ps[0], tail, ps[1..], rest);
    ConsSplit(ps);
  }

  /** The `, param` pairs read back up to the closing parenthesis. */
  lemma {:induction false} MoreParamsReads(ps: seq<Param>, rest: string)
    requires forall k :: 0 <= k < |ps| ==> ParamOk(ps[k])
    requires |rest| > 0 && rest[0] == ')'
    ensures MoreParamsRule(MoreParamsText(ps) + rest) == (ps, rest)
  {
    if ps == [] {
      assert MoreParamsText(ps) + rest == rest;
      SkipWsSolid(rest);
    } else {
      MoreParamsReads(ps[1..], rest);
      MoreParamsMore(ps, rest);
    }
  }

  lemma ParamListStep(s: string, p: Param, s1: string, ps: seq<Param>, s2: string)
    requires ParamRule(s) == Some((p, s1))
    requires MoreParamsRule(s1) == (ps, s2)
    ensures ParamListRule(s) == ([p] + ps, s2)
  {
  }

  /** `param.separated_by(just(",").padded())` reads back a printed parameter list. */
  lemma ParamListReads(ps: seq<Param>, rest: string)
    requires forall k :: 0 <= k < |ps| ==> ParamOk(ps[k])
    requires |rest| > 0 && rest[0] == ')'
    ensures ParamListRule(ParamsText(ps) + rest) == (ps, rest)
  {
    if ps == [] {
      assert ParamsText(ps) + rest == rest;
      SkipWsSolid(rest);
    } else {
      ParamListCons(ps, rest);
    }
  }

  lemma ParamListCons(ps: seq<Param>, rest: string)
    requires ps != [] && forall k :: 0 <= k < |ps| ==> ParamOk(ps[k])
    requires |rest| > 0 && rest[0] == ')'
    ensures ParamListRule(ParamsText(ps) + rest) == (ps, rest)
  {
    var tail := MoreParamsText(ps[1..]) + rest;
    ParamsCons(ps, rest);
    MoreParamsLead(ps[1..], rest);
    ParamBeforeComma(ps[0], tail);
    MoreParamsReads(ps[1..], rest);
    ParamListStep(ParamsText(ps) + rest, ps[0], tail, ps[1..], rest);
    ConsSplit(ps);
  }

  lemma ParamsCons(ps: seq<Param>, rest: string)
    requires ps != []
    ensures ParamsText(ps) + rest == ParamText(ps[0]) + (MoreParamsText(ps[1..]) + rest)
  {
    assert ParamsText(ps) == ParamText(ps[0]) + MoreParamsText(ps[1..]);
    Assoc(ParamText(ps[0]), MoreParamsText(ps[1..]), rest);
  }

  lemma Assoc(a: string, b: string, c: string)
    ensures (a + b) + c == a + (b + c)
  {
  }
}
