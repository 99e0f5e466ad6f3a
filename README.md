# solx: a verified model of the DSL compile pipeline

`solx` compiles a small contract language into Rust source for the Anchor framework. A
program declares account structs, each a list of typed fields, and instructions. An
instruction has parameters and a body of statements: `init account`, `require`,
assignments (plain or compound, like `+=`) and bare expressions. The `build` command runs
three stages and stops at the first one that fails:

1. `parse` reads the source text into a syntax tree.
2. `Hir::from_ast` checks that every `Account(T)` parameter names a declared account.
3. `generate_anchor_code` emits the Rust text.

This project models the three stages and the shared syntax tree in Dafny, and proves what the
stages promise.

- `Ast` holds the syntax tree, with its three type renderers (`to_rust_type` on field types
  and on parameter types, and `to_anchor_type`).
- `Parser` is the combinator grammar written as a recursive-descent parser. Every rule takes
  the remaining input to `None` or to a result and the rest of the input. An ordered
  `choice` takes the first alternative that succeeds. A greedy `repeated` stops at the first
  iteration that fails and backtracks over it. `padded` skips white space as Rust's
  `char::is_whitespace` defines it, which is the Unicode White_Space list. An identifier is
  what `text::ident` reads: an ASCII letter or `_`, then ASCII letters, digits and `_`.
- `Printer` prints a syntax tree back as DSL text, laid out as in the parser's unit test.
  The round-trip modules (`DeclRoundTrip`, `ExprRoundTrip`, `StmtRoundTrip`) prove that
  parsing the printed text gives the tree back. They cover every type, field, account,
  parameter, expression, statement, instruction and whole program. They also prove that
  text left after the program is rejected.
- `Consumption` proves that every rule only reads forward: what it leaves unread is a suffix of
  its input. From this it follows that text holding no `}` completes neither an account block
  nor an instruction block.
- `MissingBrace` proves that deleting the `}` that closes any one account block from the
  printed text of a program makes the parse fail, whichever block it is. It proves the same
  for the last instruction block, when that block holds no other `}`.
- `ParserShape` and `Precedence` prove what the expression grammar can and cannot produce:
  - left folds;
  - the precedence of the five binary levels;
  - unary operators applied only to field-access chains;
  - unsigned integer literals only;
  - that `<=` and `>=` never yield `Le` or `Ge`, because `<` and `>` are tried first.
- `Hir` models the validator twice: as a function, and as the nested loops with an early
  return. It proves that validation succeeds exactly when every account parameter resolves,
  that it keeps the program unchanged, and that a failure names the first unresolved
  parameter.
- `Codegen` models the generator in two forms:
  - functions that state each emitted section;
  - methods that append to the output buffer in the source's loop order, each proved equal
    to its function.

  It proves the account-size arithmetic and the shape of the emitted text.
- `Pipeline` chains the three stages.
- `CounterExample` proves that the counter program from the parser's unit test parses to
  the expected tree, validates, and gets `space = 48`.

## Model

| member | source | states |
|---|---|---|
| Ast.ParamTypeRustAgrees | crates/solx_ast/src/lib.rs:108-123 | on every shared scalar variant, Pubkey through String, the parameter type renders to the same Rust text as the field type |
| Ast.ParamTypeRustShape | crates/solx_ast/src/lib.rs:108-124 | Signer renders as `Signer<'_>` and `Account(n)` as ``Account<'_, n>``; every other parameter type renders as the Rust name of its scalar field type |
| Ast.AnchorIsLowerRust | crates/solx_ast/src/lib.rs:40-74 | the framework name of every type is its Rust name in lower case (`pubkey`, `string`, `vec<..>`, `option<..>`), recursively |
| DeclRoundTrip.TypeRustInjective | crates/solx_ast/src/lib.rs:40-56 | two types with the same Rust name are the same type |
| DeclRoundTrip.TypeReads | crates/solx_parser/src/lib.rs:26-47 | the type rule reads the Rust name of every type back to that type and skips the white space after it |
| DeclRoundTrip.NameChoiceReads | crates/solx_parser/src/lib.rs:27-38 | an ordered choice of fixed names, where no name is a prefix of another, picks the value of the name the text starts with |
| DeclRoundTrip.FieldReads | crates/solx_parser/src/lib.rs:49-53 | a field `name: type` reads back to that field |
| DeclRoundTrip.FieldsReads | crates/solx_parser/src/lib.rs:58-59 | the repeated field rule reads printed fields back in order and stops at the closing brace |
| DeclRoundTrip.AccountReads | crates/solx_parser/src/lib.rs:55-62 | an account block reads back to its name and fields |
| DeclRoundTrip.AccountsReads | crates/solx_parser/src/lib.rs:316 | the repeated account rule reads every printed account block in order and stops at text that is not one |
| DeclRoundTrip.AccountNameMisses | crates/solx_parser/src/lib.rs:64-77 | an identifier that starts with none of the fixed parameter-type names falls through every fixed alternative when followed by a token boundary |
| DeclRoundTrip.ParamTypeReads | crates/solx_parser/src/lib.rs:64-79 | every parameter type reads back; an account name reaches the identifier fallback and becomes `Account(name)` |
| DeclRoundTrip.FixedPrefixWins | crates/solx_parser/src/lib.rs:64-79 | text that starts with a fixed parameter-type name reads as that type whatever follows, and what follows the name is left unread |
| DeclRoundTrip.FixedPrefixHeaderFails | crates/solx_parser/src/lib.rs:300-304 | an instruction whose first parameter's type name starts with a fixed name and goes on with an identifier character fails: the parameter ends after the fixed name, and the rest is neither `,` nor `)` |
| DeclRoundTrip.StringHolderRejected | crates/solx_parser/src/lib.rs:64-79 | `instruction f(state: StringHolder` is no instruction, whatever follows |
| DeclRoundTrip.ParamReads | crates/solx_parser/src/lib.rs:81-85 | a parameter `name: type` reads back to that parameter |
| DeclRoundTrip.ParamListReads | crates/solx_parser/src/lib.rs:303-304 | a comma-separated parameter list, possibly empty, reads back in order up to the closing parenthesis |
| ExprRoundTrip.IntTokenReads | crates/solx_parser/src/lib.rs:89 | the integer token reads the decimal text of a number, whole |
| ExprRoundTrip.StringTokenReads | crates/solx_parser/src/lib.rs:99-102 | a quoted text without a quote inside reads back to its contents |
| ExprRoundTrip.LiteralReads | crates/solx_parser/src/lib.rs:88-105 | every unsigned, boolean or quote-free string literal reads back |
| ExprRoundTrip.AtomReads | crates/solx_parser/src/lib.rs:107-110 | an identifier or literal atom reads back |
| ExprRoundTrip.ChainReads | crates/solx_parser/src/lib.rs:112-124 | an atom followed by `.name` suffixes reads back to the suffixes folded left onto the atom |
| ExprRoundTrip.UnaryReads | crates/solx_parser/src/lib.rs:126-135 | a field-access chain, with or without one `!` or `-` in front, reads back |
| ExprRoundTrip.LevelReads | crates/solx_parser/src/lib.rs:137-219 | each binary level reads an operand and its operator pairs and folds them left |
| ExprRoundTrip.ExprReads | crates/solx_parser/src/lib.rs:87-222 | every expression the grammar can produce reads back from its printed text |
| Precedence.SubtractionFoldsLeft | crates/solx_parser/src/lib.rs:155-170 | `a - b - c` reads as `(a - b) - c` |
| Precedence.ProductBindsRight | crates/solx_parser/src/lib.rs:137-170 | `a + b * c` reads as `a + (b * c)` |
| Precedence.ProductBindsLeft | crates/solx_parser/src/lib.rs:137-170 | `a * b + c` reads as `(a * b) + c` |
| Precedence.FieldAccessFoldsLeft | crates/solx_parser/src/lib.rs:112-124 | `x.f.g` reads as `FieldAccess(FieldAccess(Ident x, f), g)` |
| ParserShape.OperatorLevel | crates/solx_parser/src/lib.rs:140-182 | each level's operator choice yields only that level's operators |
| ParserShape.LessBeforeLessEqual | crates/solx_parser/src/lib.rs:175-182 | on `<=` the comparison choice takes `<` and leaves `=` unread |
| ParserShape.GreaterBeforeGreaterEqual | crates/solx_parser/src/lib.rs:175-182 | on `>=` the comparison choice takes `>` and leaves `=` unread |
| ParserShape.ExprNeverLeGe | crates/solx_parser/src/lib.rs:172-191 | no expression the grammar reads contains `Le` or `Ge` |
| ParserShape.IntLiteralFits | crates/solx_parser/src/lib.rs:89-96 | a digit string below 2^64 becomes `UInt` of its value |
| ParserShape.IntLiteralOverflows | crates/solx_parser/src/lib.rs:89-96 | a digit string of 2^64 or more becomes `UInt(0)` |
| ParserShape.LiteralShape | crates/solx_parser/src/lib.rs:88-105 | a literal read is never `Int`; it is `UInt`, `Bool`, or a string with no quote |
| ParserShape.IdentNotKeyword | crates/solx_parser/src/lib.rs:107-110 | an identifier atom never starts with `true` or `false`, because the literal is tried first |
| ParserShape.FieldAccessShape | crates/solx_parser/src/lib.rs:112-124 | the field-access rule yields only chains of field names over an atom |
| ParserShape.UnaryShape | crates/solx_parser/src/lib.rs:126-135 | a unary operator wraps a field-access chain, never another unary or a binary expression |
| ParserShape.ExprShape | crates/solx_parser/src/lib.rs:137-221 | every expression read nests each level's operators over operands of the next tighter level |
| StmtRoundTrip.InitReads | crates/solx_parser/src/lib.rs:225-243 | `init account v: T payer p [signer s]` reads back to its four parts |
| StmtRoundTrip.SignerReads | crates/solx_parser/src/lib.rs:232-236 | the optional signer clause reads back present or absent |
| StmtRoundTrip.RequireReads | crates/solx_parser/src/lib.rs:245-257 | `require c[,"m"]` reads back to its condition and optional message |
| StmtRoundTrip.MessageReads | crates/solx_parser/src/lib.rs:247-255 | the optional message reads back, without its quotes |
| StmtRoundTrip.AssignOpReads | crates/solx_parser/src/lib.rs:259-267 | the assignment operator reads back to its compound operator, or to none for `=` |
| StmtRoundTrip.CompoundOpReads | crates/solx_parser/src/lib.rs:259-264 | each of `+= -= *= /= %=` reads as its operator |
| StmtRoundTrip.PlainOpReads | crates/solx_parser/src/lib.rs:265 | `=` reads as the plain assignment |
| StmtRoundTrip.AssignDesugars | crates/solx_parser/src/lib.rs:273-289 | desugaring the printed operator and value gives the assignment back: `t op= v` becomes `Assign(t, BinaryOp(op, t, v))` and `t = v` becomes `Assign(t, v)` |
| StmtRoundTrip.AssignReads | crates/solx_parser/src/lib.rs:269-290 | a printed assignment, compound or plain, reads back to the same `Assign` statement |
| StmtRoundTrip.ExprStatementReads | crates/solx_parser/src/lib.rs:292-297 | a bare expression line fails as an assignment and reads back as an expression statement |
| StmtRoundTrip.StatementReads | crates/solx_parser/src/lib.rs:292-297 | the ordered statement choice reads back every printed statement |
| StmtRoundTrip.BraceEndsStatements | crates/solx_parser/src/lib.rs:307-309 | no statement starts at a closing brace |
| StmtRoundTrip.StatementsReads | crates/solx_parser/src/lib.rs:307-309 | the repeated statement rule reads printed statements back in order and stops at the closing brace |
| StmtRoundTrip.InstructionReads | crates/solx_parser/src/lib.rs:300-312 | an instruction block reads back to its name, parameters and body |
| StmtRoundTrip.InstructionsReads | crates/solx_parser/src/lib.rs:317 | the repeated instruction rule reads every printed block in order and stops at text that is not one |
| StmtRoundTrip.ProgramPrefixReads | crates/solx_parser/src/lib.rs:314-322 | `program` and a name, then all account blocks, then all instructions, read back to that program |
| StmtRoundTrip.ProgramReads | crates/solx_parser/src/lib.rs:314-323 | parsing the printed text of a program gives that program |
| StmtRoundTrip.TrailingTextRejected | crates/solx_parser/src/lib.rs:323 | text after the last instruction that starts no account or instruction makes the parse fail |
| StmtRoundTrip.ExtraBraceRejected | crates/solx_parser/src/lib.rs:314-323 | a stray `}` after a program makes the parse fail |
| Consumption.ExprSuffix | crates/solx_parser/src/lib.rs:87-222 | whatever the expression grammar leaves unread is a suffix of its input |
| Consumption.StatementSuffix | crates/solx_parser/src/lib.rs:224-298 | whatever the statement choice leaves unread is a suffix of its input |
| Consumption.AccountDefSuffix | crates/solx_parser/src/lib.rs:55-62 | whatever the account rule leaves unread is a suffix of its input |
| Consumption.InstructionSuffix | crates/solx_parser/src/lib.rs:300-312 | whatever the instruction rule leaves unread is a suffix of its input |
| Consumption.ProgramPrefixSuffix | crates/solx_parser/src/lib.rs:314-322 | what the program rule leaves for the end-of-input check is a suffix of the source |
| Consumption.BlocksNeedBrace | crates/solx_parser/src/lib.rs:55-62 | text holding no `}` completes neither an account block nor an instruction block |
| MissingBrace.AccountUnclosedRejected | crates/solx_parser/src/lib.rs:55-62 | the printed text of a program splits around the `}` that closes any one of its account blocks, and the source with that `}` and its line break removed fails to parse |
| MissingBrace.LastInstructionUnclosedRejected | crates/solx_parser/src/lib.rs:300-323 | a printable program followed by an instruction block that has lost its closing `}` fails to parse, provided the block holds no other `}` |
| Parser.Parse | crates/solx_parser/src/lib.rs:5-17 | the parse succeeds exactly when the program rule succeeds and leaves no input, and then yields the program read |
| CounterExample.CounterText | crates/solx_parser/src/lib.rs:332-350 | the unit test's source is the printed text of the counter tree, after one leading line break |
| CounterExample.CounterParses | crates/solx_parser/src/lib.rs:330-353 | the unit test's counter source parses to the counter tree |
| Decimal.ParseU64Digits | crates/solx_parser/src/lib.rs:94 | converting a digit string to `u64` succeeds exactly when its value is below 2^64, and yields that value |
| Decimal.ValueOfRender | crates/solx_codegen/src/lib.rs:187 | the decimal text of a number denotes that number |
| Decimal.ParseU64Render | crates/solx_codegen/src/lib.rs:187 | parsing the printed text of a `u64` gives the number back |
| Hir.ScanFromSpec | crates/solx_hir/src/lib.rs:13-21 | scanning from a position finds nothing exactly when no later parameter is unresolved; otherwise it finds the name of the first unresolved one |
| Hir.ValidateOkIff | crates/solx_hir/src/lib.rs:13-21 | validation succeeds exactly when every `Account(name)` parameter of every instruction names a declared account |
| Hir.ValidateKeeps | crates/solx_hir/src/lib.rs:23 | on success the wrapped program is the input, unchanged |
| Hir.ValidateReportsFirst | crates/solx_hir/src/lib.rs:13-17 | a failure names the first unresolved account parameter, in instruction order and then parameter order |
| Hir.ValidateMonotone | crates/solx_hir/src/lib.rs:16 | declaring more accounts never turns a valid program into an invalid one |
| Hir.ValidateNoInstructions | crates/solx_hir/src/lib.rs:13 | a program without instructions always validates |
| Hir.ValidateNoAccountParams | crates/solx_hir/src/lib.rs:15 | a program without `Account` parameters always validates, whatever its statements, payers, signers or names |
| Hir.ValidateAgrees | crates/solx_hir/src/lib.rs:13-21 | two programs with the same parameters and the same declared names get the same verdict and the same error |
| Hir.HasAccount | crates/solx_hir/src/lib.rs:16 | the search loop finds a declared account exactly when one has the name |
| Hir.FromAst | crates/solx_hir/src/lib.rs:11-24 | the nested loops with an early return give the validation function's result: success with the input kept exactly when all parameters resolve, and the first failure otherwise |
| Codegen.TypeSize | crates/solx_codegen/src/lib.rs:135-147 | every type takes at least one byte, a `Vec` more than 8 and an `Option` more than 1 |
| Codegen.FieldsSizeAppend | crates/solx_codegen/src/lib.rs:109-111 | the size of two field lists put together is the sum of their sizes |
| Codegen.FieldsSizeGrows | crates/solx_codegen/src/lib.rs:109-111 | inserting a field anywhere adds at least one byte |
| Codegen.FieldsSizePermutation | crates/solx_codegen/src/lib.rs:109-111 | the size does not depend on the order of the fields |
| Codegen.FieldsSizeAtLeastCount | crates/solx_codegen/src/lib.rs:109-111 | a field list takes at least one byte per field |
| Codegen.FindAccount | crates/solx_codegen/src/lib.rs:108 | the lookup finds an account exactly when one has the name, and returns the first such account |
| Codegen.AccountSpace | crates/solx_codegen/src/lib.rs:107-112 | the accumulating loop gives 8 plus the size of the fields of the first account with the name, or 8 when there is none |
| CounterExample.CounterSpace | crates/solx_codegen/src/lib.rs:107-111 | the counter's `CounterState` (a Pubkey and a u64) gets `space = 48` |
| Codegen.GenExprIgnoresContext | crates/solx_codegen/src/lib.rs:175-219 | the lowered expression does not depend on the context name |
| Codegen.GenExprParens | crates/solx_codegen/src/lib.rs:191-209 | a lowered expression holds exactly one pair of parentheses per binary operation and no other, when no name or string in it holds a parenthesis |
| Codegen.CompoundAssignLowering | crates/solx_codegen/src/lib.rs:164-168 | a desugared compound assignment lowers to `t = (t op v);` |
| Codegen.CountLowering | crates/solx_codegen/src/lib.rs:177-184 | `state.count` lowers to `ctx.accounts.state.count` |
| Codegen.CounterIncrementLowering | crates/solx_codegen/src/lib.rs:164-168 | the counter's `state.count += 1` lowers to `T = (T + 1);`, where `T` is the lowering of `state.count` |
| Codegen.GenStatementEmptyIff | crates/solx_codegen/src/lib.rs:149-173 | a statement lowers to no text exactly when it is `init account` |
| Codegen.RequireMessageVerbatim | crates/solx_codegen/src/lib.rs:156-163 | a `require` with a message lowers to the form without it, with `, msg` inserted before `);`, with no quoting |
| Codegen.FindParam | crates/solx_codegen/src/lib.rs:79-82 | the parameter lookup finds one exactly when a parameter has the name |
| Codegen.ArgLinesAreHandlerParams | crates/solx_codegen/src/lib.rs:39-44 | the handler's argument lines are one line per non-Signer, non-Account parameter, in order |
| Codegen.ContextFieldEmptyIff | crates/solx_codegen/src/lib.rs:91-127 | a parameter gets a context field exactly when it is a Signer or an Account parameter |
| Codegen.ContextFieldsAreContextParams | crates/solx_codegen/src/lib.rs:91-127 | the context struct's fields are those of the Signer and Account parameters alone, in order |
| Codegen.BodyLinesSkipInit | crates/solx_codegen/src/lib.rs:51-53 | the handler body is the lowering of the statements other than `init account`, in order |
| Codegen.FirstInitSpec | crates/solx_codegen/src/lib.rs:67-88 | the first `init account` of a variable is found exactly when one exists, and gives its payer and signer |
| Codegen.InitEntriesNameParams | crates/solx_codegen/src/lib.rs:79-83 | every collected entry names a parameter; an `init account` that matches no parameter contributes nothing |
| Codegen.InitEntriesFind | crates/solx_codegen/src/lib.rs:67-103 | for a parameter, the lookup in the collected entries gives the first `init account` of that variable |
| Codegen.AccountFieldInit | crates/solx_codegen/src/lib.rs:99-123 | an Account parameter gets `init, payer, space` exactly when some `init account` in the body has its name, using the first one, and `#[account(mut)]` otherwise |
| Codegen.AnchorCodeStarts | crates/solx_codegen/src/lib.rs:10-29 | the output starts with the `use` line, then the account structs in order, then the module header with the lower-cased program name |
| Codegen.EmitFields | crates/solx_codegen/src/lib.rs:16-22 | the field loop emits one `pub name: type,` line per field, in order |
| Codegen.EmitArgs | crates/solx_codegen/src/lib.rs:39-44 | the parameter loop with `continue` emits the handler's argument lines |
| Codegen.EmitBody | crates/solx_codegen/src/lib.rs:51-53 | the statement loop emits the lowered body |
| Codegen.CollectInitEntries | crates/solx_codegen/src/lib.rs:67-88 | the `filter_map` loop collects the `init_accounts` entries |
| Codegen.EmitAttribute | crates/solx_codegen/src/lib.rs:105-119 | the attribute is the `init` form with payer and computed space, or `#[account(mut)]` |
| Codegen.EmitContextFields | crates/solx_codegen/src/lib.rs:91-127 | the parameter loop emits the context fields |
| Codegen.PushAccountStruct | crates/solx_codegen/src/lib.rs:14-23 | one account struct is appended to the output |
| Codegen.PushAccountStructs | crates/solx_codegen/src/lib.rs:13-24 | the account loop appends every account struct in order |
| Codegen.PushHandler | crates/solx_codegen/src/lib.rs:33-56 | one handler is appended |
| Codegen.PushHandlers | crates/solx_codegen/src/lib.rs:32-57 | the instruction loop appends every handler in order |
| Codegen.PushContextStruct | crates/solx_codegen/src/lib.rs:63-129 | one context struct is appended |
| Codegen.PushContextStructs | crates/solx_codegen/src/lib.rs:62-130 | the second instruction loop appends every context struct in order |
| Codegen.GenerateAnchorCode | crates/solx_codegen/src/lib.rs:5-133 | the buffer built step by step is exactly the generated code |
| Pipeline.CompileResult | crates/solx_cli/src/main.rs:181-185 | compiling succeeds exactly when the source parses and all account parameters resolve, and yields the generated code; otherwise it reports the first failing stage, naming the first unresolved account |
| Pipeline.Compile | crates/solx_cli/src/main.rs:181-185 | parse, validate and generate in turn, returning the first error, give the compile result |
| Pipeline.PrintedCompiles | crates/solx_cli/src/main.rs:181-185 | the printed text of a program whose account parameters all resolve compiles to the code generated for that program |
| Pipeline.CounterCompiles | crates/solx_cli/src/main.rs:181-185 | the counter source compiles to the code generated for the counter tree |

## Left out

- Chumsky's error values, their messages and its error recovery: a failed parse is the single
  value `SyntaxError`. The `Parse errors:` text that `anyhow` builds is not modelled either.
- serde derives and anyhow plumbing. The generator's `Result` can never be an error, so
  `GenerateAnchorCode` returns the text itself.
- `crates/solx_cli/src/main.rs` apart from lines 181-185: argument handling, scaffolding,
  finding and reading `program.solx`, writing `lib.rs`, and the `anchor` subprocesses. Reading
  the source file becomes the `source` parameter of `Compile`. The `use`/`declare_id!`
  prefix that main.rs:190-193 puts in front of the generated code is not modelled.
- The generated Rust files of the two counter example projects are not
  modelled. The counter's space of 48 appears as `CounterExample.CounterSpace`.
- `u64` overflow of the size accumulator: sizes are unbounded naturals.
- Text.Lower: lower-cases ASCII letters only, whereas Rust's `to_lowercase` maps all of
  Unicode. The two agree on every program the parser produces, because a program name comes
  from `text::ident` and so is ASCII. They differ only on a syntax tree built by other means
  with a non-ASCII capital in its name.
- StmtRoundTrip.ProgramReads: the round trip is proved for printable trees only. That is a
  sufficient condition, not the exact set of trees the parser can produce. A tree is
  printable when all of the following hold:
  - the program, account, field, instruction and parameter names, and the variable, account,
    payer and signer names of `init account`, are identifiers;
  - the type name of an `Account` parameter does not start with `Signer`, `Pubkey`, `u8`,
    `u16`, `u32`, `u64`, `i8`, `i16`, `i32`, `i64`, `bool` or `String`. The choice tries
    those names first and does not look for the end of the word, so `state: StringHolder`
    reads as a `String` parameter, and the instruction then fails at `Holder`
    (`DeclRoundTrip.StringHolderRejected`);
  - every expression has a shape the grammar produces: operators nested to the left within
    each level, the tighter levels inside the looser ones, `!` and `-` applied only to
    field-access chains, no `Int` literal, no `Le` or `Ge`;
  - an identifier atom does not start with `true` or `false`, which the literal rule would
    read first;
  - string literals and `require` messages hold no `"`;
  - an assignment or expression statement does not start with an identifier that begins with
    `init`, `require` or `signer`. Those words would be read as the statements tried first,
    or as the `signer` clause of an `init account` line before it;
  - an assignment or expression statement does not start with a unary `-`, which the
    expression on the line before would read as a subtraction;
  - an assignment is printed in compound form, `t op= v`, exactly when its value is
    `BinaryOp(op, t, v)` for a compound operator, and the target and operand are then
    expressions of the grammar's shape.
- MissingBrace.LastInstructionUnclosedRejected: a missing `}` is proved fatal only for the last
  instruction block, and only when it holds no other `}`. An earlier instruction block that
  loses its brace is not covered. Its statement loop goes on into the next block's
  `instruction name(...)` header, because `instruction` and the name begin like statements.
  The proof would have to follow the statement grammar through an arbitrary name, which may
  begin with `init`, `require`, `true` or `false`, up to the `(` where the loop stops.
- `param.separated_by(...)` is modelled with the separator and the next parameter read
  together. A `,` not followed by a parameter is left unread, and the closing `)` then fails.
  Either way the whole parse fails, as it does in the source.
- The `_expr` recursion handle of the expression grammar is never used by the source. The
  atom has no parenthesised form, and the model has none.
