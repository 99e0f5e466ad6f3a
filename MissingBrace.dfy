/** A block that has lost its closing brace makes the parse fail.  For an account block this holds
    wherever the block stands: the field loop stops at the next block or at the end of the input,
    the `}` the block needs is not there, and what follows is left over.  For an instruction block
    it is shown for the last block of the source. */
module MissingBrace {
  import opened Wrappers
  import opened Text
  import opened Ast
  import opened Parser
  import opened Printer
  import opened ExprRoundTrip
  import opened DeclRoundTrip
  import opened StmtRoundTrip
  import opened Consumption

  // ------------------------------------------------------------ an account block without its `}`

  /** The printed text of an account block without its closing brace. */
  function UnclosedAccountText(a: AccountDef): (r: string)
    ensures AccountText(a) == r + "}\n"
  {
    "account " + a.name + " {\n" + FieldsText(a.fields)
  }

  /** The printed text of `p` around the closing `}` of account block `k` and its line break:
      the text before them and the text after them. */
  function AccountCut(p: Program, k: int): (string, string)
    requires 0 <= k < |p.accounts|
  {
    (ProgramText(Program(p.name, p.accounts[..k], [])) + ("\n" + UnclosedAccountText(p.accounts[k])),
     AccountsText(p.accounts[k + 1..]) + InstructionsText(p.instructions))
  }

  lemma {:induction false} AccountsTextAppend(a: seq<AccountDef>, b: seq<AccountDef>)
    ensures AccountsText(a + b) == AccountsText(a) + AccountsText(b)
    decreases |a|
  {
    if a == [] {
      assert a + b == b;
    } else {
      assert (a + b)[0] == a[0];
      assert (a + b)[1..] == a[1..] + b;
      AccountsTextAppend(a[1..], b);
    }
  }

  lemma Regroup4(a: string, b: string, c: string, d: string, x: string)
    ensures a + (b + (c + d)) + x == a + (b + c) + d + x
  {
  }

  /** The account blocks split around block `k`. */
  lemma AccountsAround(accounts: seq<AccountDef>, k: int)
    requires 0 <= k < |accounts|
    ensures AccountsText(accounts)
      == AccountsText(accounts[..k]) + ("\n" + UnclosedAccountText(accounts[k])) + "}\n" + AccountsText(accounts[k + 1..])
  {
    var pre, suf := accounts[..k], accounts[k..];
    assert pre + suf == accounts;
    AccountsTextAppend(pre, suf);
    assert suf[0] == accounts[k];
    assert suf[1..] == accounts[k + 1..];
    var open := UnclosedAccountText(accounts[k]);
    assert AccountsText(suf) == "\n" + (open + "}\n") + AccountsText(accounts[k + 1..]);
    Regroup4(AccountsText(pre), "\n", open, "}\n", AccountsText(accounts[k + 1..]));
  }

  /** Putting the `}` and its line break back between the two parts gives the printed program. */
  lemma AccountCutText(p: Program, k: int)
    requires 0 <= k < |p.accounts|
    ensures ProgramText(p) == AccountCut(p, k).0 + "}\n" + AccountCut(p, k).1
  {
    AccountsAround(p.accounts, k);
    var head := "program " + p.name + "\n";
    var pre := AccountsText(p.accounts[..k]);
    var open := "\n" + UnclosedAccountText(p.accounts[k]);
    var post := AccountsText(p.accounts[k + 1..]);
    var tail := InstructionsText(p.instructions);
    assert ProgramText(Program(p.name, p.accounts[..k], [])) == head + pre + "";
    assert ProgramText(p) == head + (pre + open + "}\n" + post) + tail;
    Regroup6(head, pre, open, "}\n", post, tail);
  }

  lemma Regroup6(h: string, a: string, b: string, c: string, d: string, x: string)
    ensures h + (a + b + c + d) + x == (h + a + "" + b) + c + (d + x)
  {
  }

  lemma FieldsMoreTo(fs: seq<Field>, rest: string, out: string)
    requires fs != [] && IsIdentWord(fs[0].name)
    requires FieldsRule(SkipWs(FieldsText(fs[1..]) + rest)) == (fs[1..], out)
    ensures FieldsRule(SkipWs(FieldsText(fs) + rest)) == (fs, out)
  {
    var tail := FieldsText(fs[1..]) + rest;
    FieldsLine(fs, rest);
    FieldLineReads(fs[0], tail);
    FieldsStep(FieldsText(fs) + rest, FieldText(fs[0]) + ("\n" + tail), fs[0], tail, fs[1..], out);
    ConsSplit(fs);
  }

  /** `field.repeated()` reads printed fields back up to any text that is not a field. */
  lemma {:induction false} FieldsReadsTo(fs: seq<Field>, rest: string)
    requires forall k :: 0 <= k < |fs| ==> IsIdentWord(fs[k].name)
    requires FieldRule(SkipWs(rest)) == None
    ensures FieldsRule(SkipWs(FieldsText(fs) + rest)) == (fs, SkipWs(rest))
  {
    if fs == [] {
      assert FieldsText(fs) + rest == rest;
    } else {
      FieldsReadsTo(fs[1..], rest);
      FieldsMoreTo(fs, rest, SkipWs(rest));
    }
  }

  lemma NoColon(t: string)
    requires |t| > 0 && IsIdentStart(t[0])
    ensures Keyword(":", t) == None
  {
    SkipWsSolid(t);
  }

  /** `field` fails when its name is not followed by `:`. */
  lemma FieldStopStep(s: string, name: string, s1: string)
    requires IdentRule(s) == Some((name, s1)) && Keyword(":", s1) == None
    ensures FieldRule(s) == None
  {
  }

  /** Two words, like `account Name` or `instruction name`, do not start a field. */
  lemma WordsNoField(kw: string, x: string, tail: string)
    requires IsIdentWord(kw) && IsIdentWord(x)
    ensures FieldRule(kw + (" " + (x + tail))) == None
  {
    var named := x + tail;
    assert named[0] == x[0];
    IdentText(kw, " " + named);
    SolidAfterWs(" ", named);
    NoColon(named);
    FieldStopStep(kw + (" " + named), kw, named);
  }

  lemma WordNoClose(kw: string, tail: string)
    requires IsIdentWord(kw)
    ensures Keyword("}", kw + tail) == None
  {
    assert (kw + tail)[0] == kw[0];
    SkipWsSolid(kw + tail);
  }

  lemma AccountWords()
    ensures IsIdentWord("account") && IsIdentWord("instruction")
  {
  }

  /** A following account block starts neither a field nor a `}`. */
  lemma AccountBlockStops(after: string, b: AccountDef, more: string)
    requires AccountOk(b) && after == "\n" + (AccountText(b) + more)
    ensures FieldRule(SkipWs(after)) == None && Keyword("}", SkipWs(after)) == None
  {
    var block := AccountText(b) + more;
    var tail := " " + ("{" + ("\n" + (FieldsText(b.fields) + ("}" + ("\n" + more)))));
    AccountTextSplit(b, more);
    assert block[0] == 'a';
    SolidAfterWs("\n", block);
    AccountWords();
    WordsNoField("account", b.name, tail);
    WordNoClose("account", " " + (b.name + tail));
  }

  /** A following instruction block starts neither a field nor a `}`. */
  lemma InstructionBlockStops(after: string, i: Instruction, more: string)
    requires InstructionOk(i) && after == "\n" + (InstructionText(i) + more)
    ensures FieldRule(SkipWs(after)) == None && Keyword("}", SkipWs(after)) == None
  {
    var block := InstructionText(i) + more;
    var tail := "(" + (ParamsText(i.params) + (")" + (" " + ("{" + ("\n"
      + (StatementsText(i.body) + ("}" + ("\n" + more))))))));
    InstructionTextSplit(i, more);
    assert block[0] == 'i';
    SolidAfterWs("\n", block);
    AccountWords();
    WordsNoField("instruction", i.name, tail);
    WordNoClose("instruction", " " + (i.name + tail));
  }

  lemma EndStops(after: string)
    requires after == "" + ""
    ensures FieldRule(SkipWs(after)) == None && Keyword("}", SkipWs(after)) == None
  {
    SkipWsNoWhitespace("");
  }

  /** What follows a cut account block starts neither a field nor a `}`. */
  lemma AfterCutStops(accounts: seq<AccountDef>, instructions: seq<Instruction>)
    requires forall k :: 0 <= k < |accounts| ==> AccountOk(accounts[k])
    requires forall k :: 0 <= k < |instructions| ==> InstructionOk(instructions[k])
    ensures var t := SkipWs(AccountsText(accounts) + InstructionsText(instructions));
      FieldRule(t) == None && Keyword("}", t) == None
  {
    var after := AccountsText(accounts) + InstructionsText(instructions);
    if accounts != [] {
      AccountsFirst(after, accounts, InstructionsText(instructions));
    } else if instructions != [] {
      assert AccountsText(accounts) == "";
      InstructionsFirst(after, instructions);
    } else {
      EndStops(after);
    }
  }

  lemma AccountsFirst(after: string, accounts: seq<AccountDef>, tail: string)
    requires accounts != [] && AccountOk(accounts[0])
    requires after == AccountsText(accounts) + tail
    ensures FieldRule(SkipWs(after)) == None && Keyword("}", SkipWs(after)) == None
  {
    var first, later := AccountText(accounts[0]), AccountsText(accounts[1..]);
    assert AccountsText(accounts) == "\n" + first + later;
    Regroup3("\n", first, later, tail);
    AccountBlockStops(after, accounts[0], later + tail);
  }

  lemma InstructionsFirst(after: string, instructions: seq<Instruction>)
    requires instructions != [] && InstructionOk(instructions[0])
    requires after == InstructionsText(instructions)
    ensures FieldRule(SkipWs(after)) == None && Keyword("}", SkipWs(after)) == None
  {
    var first, more := InstructionText(instructions[0]), InstructionsText(instructions[1..]);
    assert after == "\n" + first + more;
    Assoc("\n", first, more);
    InstructionBlockStops(after, instructions[0], more);
  }

  lemma UnclosedAccountSplit(a: AccountDef, after: string)
    ensures UnclosedAccountText(a) + after
      == "account" + (" " + (a.name + (" " + ("{" + ("\n" + (FieldsText(a.fields) + after))))))
  {
    Regroup7("account", " ", a.name, " ", "{", "\n", FieldsText(a.fields), after);
  }

  /** `account_def` that reads the fields and then finds no `}` fails. */
  lemma AccountStopStep(s: string, s1: string, name: string, s2: string, s3: string, fields: seq<Field>, s4: string)
    requires Keyword("account", s) == Some(s1)
    requires IdentRule(s1) == Some((name, s2))
    requires Keyword("{", s2) == Some(s3)
    requires FieldsRule(s3) == (fields, s4)
    requires Keyword("}", s4) == None
    ensures AccountDefRule(s) == None
  {
  }

  /** An account block cut before its `}` and followed by text that starts neither a field nor a
      `}` is not an account block. */
  lemma UnclosedAccountStops(a: AccountDef, after: string)
    requires AccountOk(a)
    requires FieldRule(SkipWs(after)) == None && Keyword("}", SkipWs(after)) == None
    ensures AccountDefRule(UnclosedAccountText(a) + after) == None
  {
    var body := FieldsText(a.fields) + after;
    var opening := "{" + ("\n" + body);
    UnclosedAccountSplit(a, after);
    AccountHead(a.name, opening);
    OpenBrace(body);
    FieldsReadsTo(a.fields, after);
    AccountStopStep(UnclosedAccountText(a) + after, a.name + (" " + opening), a.name, opening,
      SkipWs(body), a.fields, SkipWs(after));
  }

  /** Text that starts with `account` starts no instruction block. */
  lemma NoInstructionAt(block: string)
    requires |block| > 0 && block[0] == 'a'
    ensures InstructionRule(block) == None
  {
    SkipWsSolid(block);
  }

  lemma PrefixPrintable(p: Program, k: int)
    requires Printable(p) && 0 <= k <= |p.accounts|
    ensures Printable(Program(p.name, p.accounts[..k], []))
  {
    assert forall j :: 0 <= j < k ==> p.accounts[..k][j] == p.accounts[j];
  }

  lemma LaterAccountsOk(accounts: seq<AccountDef>, k: int, later: seq<AccountDef>)
    requires forall j :: 0 <= j < |accounts| ==> AccountOk(accounts[j])
    requires 0 <= k < |accounts| && later == accounts[k + 1..]
    ensures forall j :: 0 <= j < |later| ==> AccountOk(later[j])
  {
    forall j | 0 <= j < |later|
      ensures AccountOk(later[j])
    {
      assert later[j] == accounts[k + 1 + j];
    }
  }

  /** A cut account block, followed by text that starts neither a field nor a `}`, is left over
      by the account and instruction loops. */
  lemma CutBlockTrails(a: AccountDef, after: string)
    requires AccountOk(a)
    requires FieldRule(SkipWs(after)) == None && Keyword("}", SkipWs(after)) == None
    ensures var t := SkipWs("\n" + (UnclosedAccountText(a) + after));
      t != [] && AccountDefRule(t) == None && InstructionRule(t) == None
  {
    var block := UnclosedAccountText(a) + after;
    UnclosedAccountStops(a, after);
    assert block[0] == 'a';
    SolidAfterWs("\n", block);
    NoInstructionAt(block);
  }

  /** The cut text is a printable program's text followed by the cut block and what comes after it. */
  lemma CutRegroup(p: Program, k: int)
    requires 0 <= k < |p.accounts|
    ensures AccountCut(p, k).0 + AccountCut(p, k).1
      == ProgramText(Program(p.name, p.accounts[..k], []))
         + ("\n" + (UnclosedAccountText(p.accounts[k]) + AccountCut(p, k).1))
  {
    var before := ProgramText(Program(p.name, p.accounts[..k], []));
    var open := UnclosedAccountText(p.accounts[k]);
    var after := AccountCut(p, k).1;
    assert AccountCut(p, k).0 == before + ("\n" + open);
    Assoc(before, "\n" + open, after);
    Assoc("\n", open, after);
  }

  /** An account block that has lost its closing `}` fails the parse, whichever block of the
      printed program it is. */
  lemma AccountUnclosedRejected(w: string, p: Program, k: int)
    requires AllWhitespace(w) && Printable(p) && 0 <= k < |p.accounts|
    ensures ProgramText(p) == AccountCut(p, k).0 + "}\n" + AccountCut(p, k).1
    ensures Parse(w + (AccountCut(p, k).0 + AccountCut(p, k).1)) == Err(SyntaxError)
  {
    AccountCutText(p, k);
    var q := Program(p.name, p.accounts[..k], []);
    var after := AccountCut(p, k).1;
    CutRegroup(p, k);
    PrefixPrintable(p, k);
    LaterAccountsOk(p.accounts, k, p.accounts[k + 1..]);
    AfterCutStops(p.accounts[k + 1..], p.instructions);
    CutBlockTrails(p.accounts[k], after);
    TrailingTextRejected(w, q, "\n" + (UnclosedAccountText(p.accounts[k]) + after));
  }

  // ------------------------------------------------------------ the last instruction block without its `}`

  /** The printed text of an instruction block without its closing brace. */
  function UnclosedInstructionText(i: Instruction): (r: string)
    ensures InstructionText(i) == r + "}\n"
  {
    "instruction " + i.name + "(" + ParamsText(i.params) + ") {\n" + StatementsText(i.body)
  }

  lemma {:induction false} InstructionsTextAppend(a: seq<Instruction>, i: Instruction)
    ensures InstructionsText(a + [i]) == InstructionsText(a) + ("\n" + InstructionText(i))
    decreases |a|
  {
    if a == [] {
      assert a + [i] == [i];
      assert [i][1..] == [];
    } else {
      assert (a + [i])[0] == a[0];
      assert (a + [i])[1..] == a[1..] + [i];
      InstructionsTextAppend(a[1..], i);
    }
  }

  /** Appending an instruction to a program appends its block, after a line break, to the text. */
  lemma AppendedBlockText(p: Program, i: Instruction)
    ensures ProgramText(Program(p.name, p.accounts, p.instructions + [i]))
      == ProgramText(p) + ("\n" + UnclosedInstructionText(i)) + "}\n"
  {
    InstructionsTextAppend(p.instructions, i);
  }

  lemma UnclosedStarts(i: Instruction)
    ensures SkipWs("\n" + UnclosedInstructionText(i)) != []
  {
    SkipWsPrefix("\n", UnclosedInstructionText(i));
    assert UnclosedInstructionText(i)[0] == 'i';
    SkipWsNoWhitespace(UnclosedInstructionText(i));
  }

  /** A final instruction block that has lost its closing brace fails the parse: the text of a
      printable program followed by an instruction block cut before its `}`, when the block holds
      no other `}` (a `require` message may hold one). */
  lemma LastInstructionUnclosedRejected(w: string, p: Program, i: Instruction)
    requires AllWhitespace(w) && Printable(p)
    requires '}' !in UnclosedInstructionText(i)
    ensures Parse(w + (ProgramText(p) + ("\n" + UnclosedInstructionText(i)))) == Err(SyntaxError)
  {
    var rest := "\n" + UnclosedInstructionText(i);
    var t := SkipWs(rest);
    assert '}' !in rest by {
      assert forall k :: 1 <= k < |rest| ==> rest[k] == UnclosedInstructionText(i)[k - 1];
    }
    SkipWsSuffix(rest);
    NotInSuffix('}', t, rest);
    BlocksNeedBrace(t);
    UnclosedStarts(i);
    TrailingTextRejected(w, p, rest);
  }
}
