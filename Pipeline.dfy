/** The compile pipeline of the `build` command: parse the source, validate the tree, generate
    the Anchor code, and stop at the first stage that fails. */
module Pipeline {
  import opened Wrappers
  import opened Ast
  import opened Parser
  import opened Printer
  import opened StmtRoundTrip
  import opened Hir
  import opened Codegen
  import opened CounterExample

  /** The error that stops the pipeline, tagged with the stage that raised it. */
  datatype CompileError = Syntax(parse: ParseError) | Validation(validation: ValidationError)

  /** What the pipeline produces from a source text. */
  function CompileResult(source: string): (r: Result<string, CompileError>)
    ensures r.Ok? <==> Parse(source).Ok? && AllResolved(Parse(source).value)
    ensures r.Ok? ==> r.value == AnchorCode(Hir(Parse(source).value))
    ensures Parse(source).Err? ==> r == Err(Syntax(Parse(source).error))
    ensures Parse(source).Ok? && r.Err? ==>
      exists i, j :: FirstUnresolved(Parse(source).value, i, j)
        && r.error == Validation(UnknownAccountType(AccountNameAt(Parse(source).value, i, j)))
  {
    match Parse(source)
    case Err(e) => Err(Syntax(e))
    case Ok(ast) =>
      ValidateOkIff(ast);
      ValidateReportsFirst(ast);
      match Validate(ast)
      case Err(v) => Err(Validation(v))
      case Ok(hir) => Ok(AnchorCode(hir))
  }

  /** `parse`, then `Hir::from_ast`, then `generate_anchor_code`, each failure returned as is. */
  method Compile(source: string) returns (r: Result<string, CompileError>)
    ensures r == CompileResult(source)
  {
    var ast := Parse(source);
    if ast.Err? {
      return Err(Syntax(ast.error));
    }
    var hir := FromAst(ast.value);
    if hir.Err? {
      return Err(Validation(hir.error));
    }
    var code := GenerateAnchorCode(hir.value);
    return Ok(code);
  }

  /** Every printable program whose account parameters are all declared compiles from its own
      printed text to the code generated for it. */
  lemma PrintedCompiles(p: Program)
    requires Printable(p) && AllResolved(p)
    ensures CompileResult(ProgramText(p)) == Ok(AnchorCode(Hir(p)))
  {
    assert "" + ProgramText(p) == ProgramText(p);
    ProgramReads("", p);
  }

  /** The counter source of the parser's unit test compiles to the code generated for its tree. */
  lemma CounterCompiles()
    ensures CompileResult(CounterSource) == Ok(AnchorCode(Hir(CounterAst)))
  {
    CounterParses();
    CounterValidates();
    ValidateOkIff(CounterAst);
  }
}
