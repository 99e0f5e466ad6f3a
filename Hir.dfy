/** The validation layer between the syntax tree and code generation: every account type an
    instruction parameter names must be declared by the program. */
module Hir {
  import opened Wrappers
  import opened Ast

  datatype ValidationError = UnknownAccountType(name: string)

  /** The validated program, unchanged. */
  datatype Hir = Hir(program: Program)

  /** Some account definition of `p` carries `name` (the `any` over `program.accounts`). */
  predicate Declared(p: Program, name: string) {
    exists k :: 0 <= k < |p.accounts| && p.accounts[k].name == name
  }

  /** Parameter j of instruction i exists and is an account of an undeclared type. */
  predicate Unresolved(p: Program, i: int, j: int) {
    0 <= i < |p.instructions| && 0 <= j < |p.instructions[i].params|
    && p.instructions[i].params[j].ty.Account?
    && !Declared(p, p.instructions[i].params[j].ty.accountName)
  }

  ghost predicate AllResolved(p: Program) {
    forall i, j :: !Unresolved(p, i, j)
  }

  /** (i2, j2) is visited before (i, j): instructions in order, and parameters in order within each. */
  predicate Before(i2: int, j2: int, i: int, j: int) {
    i2 < i || (i2 == i && j2 < j)
  }

  /** (i, j) is the unresolved reference the validation loop meets first. */
  ghost predicate FirstUnresolved(p: Program, i: int, j: int) {
    Unresolved(p, i, j) && forall i2, j2 :: Before(i2, j2, i, j) ==> !Unresolved(p, i2, j2)
  }

  function AccountNameAt(p: Program, i: int, j: int): string
    requires Unresolved(p, i, j)
  {
    p.instructions[i].params[j].ty.accountName
  }

  function ParamCount(p: Program, i: nat): nat {
    if i < |p.instructions| then |p.instructions[i].params| else 0
  }

  /** The reference the loop reports first when it starts at parameter j of instruction i. */
  function ScanFrom(p: Program, i: nat, j: nat): Option<string>
    requires i <= |p.instructions| && j <= ParamCount(p, i)
    decreases |p.instructions| - i, ParamCount(p, i) - j
  {
    if i == |p.instructions| then None
    else if j == |p.instructions[i].params| then ScanFrom(p, i + 1, 0)
    else if Unresolved(p, i, j) then Some(AccountNameAt(p, i, j))
    else ScanFrom(p, i, j + 1)
  }

  /** `Hir::from_ast` as a value. */
  function Validate(p: Program): Result<Hir, ValidationError> {
    match ScanFrom(p, 0, 0)
    case None => Ok(Hir(p))
    case Some(name) => Err(UnknownAccountType(name))
  }

  /** The scan from (i, j) finds nothing exactly when no reference at or after (i, j) is unresolved,
      and what it finds is the first unresolved reference at or after (i, j). */
  lemma {:induction false} ScanFromSpec(p: Program, i: nat, j: nat)
    requires i <= |p.instructions| && j <= ParamCount(p, i)
    ensures ScanFrom(p, i, j).None? <==> forall i2, j2 :: !Before(i2, j2, i, j) ==> !Unresolved(p, i2, j2)
    ensures ScanFrom(p, i, j).Some? ==>
      exists i2, j2 :: !Before(i2, j2, i, j) && Unresolved(p, i2, j2)
        && ScanFrom(p, i, j).value == AccountNameAt(p, i2, j2)
        && forall i3, j3 :: !Before(i3, j3, i, j) && Before(i3, j3, i2, j2) ==> !Unresolved(p, i3, j3)
    decreases |p.instructions| - i, ParamCount(p, i) - j
  {
    if i == |p.instructions| {
    } else if j == |p.instructions[i].params| {
      ScanFromSpec(p, i + 1, 0);
      assert forall j2 :: !Unresolved(p, i, j2) || j2 < j;
    } else if Unresolved(p, i, j) {
    } else {
      ScanFromSpec(p, i, j + 1);
    }
  }

  /** Validation succeeds exactly when every account parameter names a declared account type. */
  lemma ValidateOkIff(p: Program)
    ensures Validate(p).Ok? <==> AllResolved(p)
  {
    ScanFromSpec(p, 0, 0);
  }

  /** A validated program is passed on untouched. */
  lemma ValidateKeeps(p: Program)
    ensures Validate(p).Ok? ==> Validate(p).value.program == p
  {
  }

  /** A failed validation names the account type of the first unresolved reference. */
  lemma ValidateReportsFirst(p: Program)
    ensures Validate(p).Err? ==>
      exists i, j :: FirstUnresolved(p, i, j) && Validate(p).error == UnknownAccountType(AccountNameAt(p, i, j))
  {
    ScanFromSpec(p, 0, 0);
    if Validate(p).Err? {
      var i, j :| Unresolved(p, i, j) && ScanFrom(p, 0, 0).value == AccountNameAt(p, i, j)
        && forall i3, j3 :: !Before(i3, j3, 0, 0) && Before(i3, j3, i, j) ==> !Unresolved(p, i3, j3);
      assert FirstUnresolved(p, i, j);
    }
  }

  /** Declaring more account types never makes a valid program invalid. */
  lemma ValidateMonotone(p: Program, more: seq<AccountDef>)
    ensures Validate(p).Ok? ==> Validate(Program(p.name, p.accounts + more, p.instructions)).Ok?
  {
    var q := Program(p.name, p.accounts + more, p.instructions);
    ValidateOkIff(p);
    ValidateOkIff(q);
    if AllResolved(p) {
      forall i, j ensures !Unresolved(q, i, j) {
        if 0 <= i < |p.instructions| && 0 <= j < |p.instructions[i].params| && p.instructions[i].params[j].ty.Account? {
          var name := p.instructions[i].params[j].ty.accountName;
          assert !Unresolved(p, i, j);
          var k :| 0 <= k < |p.accounts| && p.accounts[k].name == name;
          assert q.accounts[k] == p.accounts[k];
        }
      }
    }
  }

  /** Without instructions there is nothing to check. */
  lemma ValidateNoInstructions(p: Program)
    requires p.instructions == []
    ensures Validate(p) == Ok(Hir(p))
  {
  }

  /** Signer and scalar parameters are never checked: a program without account parameters validates. */
  lemma ValidateNoAccountParams(p: Program)
    requires forall i, j :: 0 <= i < |p.instructions| && 0 <= j < |p.instructions[i].params| ==> !p.instructions[i].params[j].ty.Account?
    ensures Validate(p).Ok?
  {
    ValidateOkIff(p);
  }

  lemma {:induction false} ScanAgree(p: Program, q: Program, i: nat, j: nat)
    requires |p.instructions| == |q.instructions|
    requires forall k :: 0 <= k < |p.instructions| ==> p.instructions[k].params == q.instructions[k].params
    requires forall name :: Declared(p, name) == Declared(q, name)
    requires i <= |p.instructions| && j <= ParamCount(p, i)
    ensures ScanFrom(p, i, j) == ScanFrom(q, i, j)
    decreases |p.instructions| - i, ParamCount(p, i) - j
  {
    if i < |p.instructions| {
      if j == |p.instructions[i].params| {
        ScanAgree(p, q, i + 1, 0);
      } else if !Unresolved(p, i, j) {
        ScanAgree(p, q, i, j + 1);
      }
    }
  }

  /** Only the account parameters and the declared account names decide the outcome: instruction
      names, bodies (`init` targets, payers, expressions) and the account fields play no part. */
  lemma ValidateAgrees(p: Program, q: Program)
    requires |p.instructions| == |q.instructions|
    requires forall k :: 0 <= k < |p.instructions| ==> p.instructions[k].params == q.instructions[k].params
    requires forall name :: Declared(p, name) == Declared(q, name)
    ensures Validate(p).Ok? == Validate(q).Ok?
    ensures Validate(p).Err? ==> Validate(p) == Validate(q)
  {
    ScanAgree(p, q, 0, 0);
  }

  /** `acc.name == *name` for some account definition, searched in order. */
  method HasAccount(accounts: seq<AccountDef>, name: string) returns (found: bool)
    ensures found <==> exists k :: 0 <= k < |accounts| && accounts[k].name == name
  {
    var k := 0;
    while k < |accounts|
      invariant 0 <= k <= |accounts|
      invariant forall m :: 0 <= m < k ==> accounts[m].name != name
    {
      if accounts[k].name == name {
        return true;
      }
      k := k + 1;
    }
    return false;
  }

  /** `Hir::from_ast`: visit every parameter of every instruction in order and stop at the first
      account parameter whose type is not declared. */
  method FromAst(program: Program) returns (r: Result<Hir, ValidationError>)
    ensures r == Validate(program)
    ensures r.Ok? <==> AllResolved(program)
    ensures r.Ok? ==> r.value.program == program
    ensures r.Err? ==> exists i, j :: FirstUnresolved(program, i, j) && r.error == UnknownAccountType(AccountNameAt(program, i, j))
  {
    ValidateOkIff(program);
    ValidateReportsFirst(program);
    var i := 0;
    while i < |program.instructions|
      invariant 0 <= i <= |program.instructions|
      invariant ScanFrom(program, i, 0) == ScanFrom(program, 0, 0)
    {
      var instruction := program.instructions[i];
      var j := 0;
      while j < |instruction.params|
        invariant 0 <= j <= |instruction.params|
        invariant ScanFrom(program, i, j) == ScanFrom(program, 0, 0)
      {
        var param := instruction.params[j];
        if param.ty.Account? {
          var found := HasAccount(program.accounts, param.ty.accountName);
          if !found {
            assert Unresolved(program, i, j);
            return Err(UnknownAccountType(param.ty.accountName));
          }
        }
        j := j + 1;
      }
      i := i + 1;
    }
    return Ok(Hir(program));
  }
}
