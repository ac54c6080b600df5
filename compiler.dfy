/**
 * The generator as the source runs it: a program object whose code vector grows by
 * appending and whose tables are updated in place, filled by loops over the parameters,
 * the functions and their statements, and by a recursive expression lowering.
 */
module Compiler {
  import opened Wrappers
  import opened Ast
  import opened Bytecode
  import opened Symbols
  import opened Lowering

  /** The compiled unit: the instruction stream and the program's tables. */
  class VMProgram {
    var code: seq<MemoryCell>
    var data: ProgramData

    constructor ()
      ensures code == [] && data == ProgramData.New()
    {
      code := [];
      data := ProgramData.New();
    }

    function Image(): ProgramImage
      reads this
    {
      ProgramImage(code, data)
    }
  }

  /**
   * Appends the cells of `expr` to `program.code`: exactly the cells of ExprCode when it
   * succeeds, and ExprCode's error when it fails. The tables are unchanged.
   */
  method GenerateExpr(program: VMProgram, fnc: FuncMeta, expr: Expr, toF32: real -> bv32)
      returns (res: Outcome<CodegenError>)
    modifies program
    ensures program.data == old(program.data)
    ensures res == Status(ExprCode(old(program.data), fnc, expr, toF32))
    ensures res.Pass? ==> program.code == old(program.code) + ExprCode(old(program.data), fnc, expr, toF32).value
    decreases expr
  {
    ghost var before := program.code;
    match expr
    case BinaryOp(op, left, right) =>
      res := GenerateExpr(program, fnc, left, toF32);
      if res.Fail? { return; }
      ghost var lc := ExprCode(program.data, fnc, left, toF32).value;
      res := GenerateExpr(program, fnc, right, toF32);
      if res.Fail? { return; }
      ghost var rc := ExprCode(program.data, fnc, right, toF32).value;
      var inst := PlainInst(BinaryOpCode(op));
      program.code := program.code + [inst];
      AppendAssoc(before + lc, rc, [inst]);
      AppendAssoc(before, lc, rc + [inst]);
      AppendAssoc(lc, rc, [inst]);
    case FuncCall(callee, _) =>
      if callee !in program.data.functions {
        return Fail(UnresolvedFunction(callee));
      }
      var address := program.data.functions[callee].address;
      program.code := program.code + [WithData(Call, U16(address))];
      res := Pass;
    case Literal(lit) =>
      match lit {
        case DecimalLiteral(f) =>
          program.code := program.code + [PlainInst(ConstF32)];
          program.code := program.code + [Raw(toF32(f))];
          AppendAssoc(before, [PlainInst(ConstF32)], [Raw(toF32(f))]);
          res := Pass;
        case OtherLiteral =>
          res := Fail(UnsupportedLiteral);
      }
    case Symbol(name) =>
      if name in fnc.symbols {
        program.code := program.code + [WithData(Load4, U16(fnc.symbols[name].offset))];
        res := Pass;
      } else if name in program.data.globalSymbols {
        program.code := program.code + [WithData(Load4Global, U16(program.data.globalSymbols[name].offset))];
        res := Pass;
      } else {
        res := Fail(UnresolvedSymbol(name));
      }
    case UnaryOp(op, operand) =>
      match op {
        case Sub =>
          res := GenerateExpr(program, fnc, operand, toF32);
          if res.Fail? { return; }
          ghost var c := ExprCode(program.data, fnc, operand, toF32).value;
          var (push, bits, mul) := (PlainInst(ConstF32), Raw(NegOneF32Bits), PlainInst(MulF32));
          program.code := program.code + [push];
          program.code := program.code + [bits];
          program.code := program.code + [mul];
          assert program.code == before + c + [push] + [bits] + [mul];
          assert [push] + [bits] + [mul] == [push, bits, mul];
          AppendAssoc(before + c + [push], [bits], [mul]);
          AppendAssoc(before + c, [push], [bits] + [mul]);
          AppendAssoc(before, c, [push, bits, mul]);
        case OtherUnary =>
          res := Fail(UnsupportedUnaryOperator);
      }
    case OtherExpr =>
      res := Fail(UnsupportedExpression);
  }

  /**
   * Lowers one statement of the function being generated, given the generator's locals
   * (the function's table, the stack offset and whether a return was seen); the result is
   * StmtCode's.
   */
  method GenerateStatement(program: VMProgram, funcMeta: FuncMeta, stackOffset: nat, hasReturn: bool, s: Statement, toF32: real -> bv32)
      returns (res: Outcome<CodegenError>, funcMeta': FuncMeta, stackOffset': nat, hasReturn': bool)
    modifies program
    ensures program.data == old(program.data)
    ensures res == Status(StmtCode(old(program.data), FnState(old(program.code), funcMeta, stackOffset, hasReturn), s, toF32))
    ensures res.Pass? ==> FnState(program.code, funcMeta', stackOffset', hasReturn')
                          == StmtCode(old(program.data), FnState(old(program.code), funcMeta, stackOffset, hasReturn), s, toF32).value
  {
    funcMeta', stackOffset', hasReturn' := funcMeta, stackOffset, hasReturn;
    match s
    case Assignment(target, rhs) =>
      res := GenerateExpr(program, funcMeta, rhs, toF32);
      if res.Fail? { return; }
      if target in program.data.globalSymbols {
        var store := WithData(Mov4Global, U16(program.data.globalSymbols[target].offset));
        program.code := program.code + [store];
      } else {
        funcMeta' := funcMeta.(symbols := funcMeta.symbols[target := SymbolMeta(stackOffset, false, F32)]);
        stackOffset' := stackOffset + 4;
      }
    case Return(value) =>
      res := GenerateExpr(program, funcMeta, value, toF32);
      if res.Fail? { return; }
      program.code := program.code + [WithData(Ret, U16(stackOffset))];
      hasReturn' := true;
  }

  /**
   * Lowers one function: its address is the current code length, its statements are lowered
   * in order, `Void; Ret` closes it when none was a return, and only then is it entered in
   * the function table. The result is FunctionCode's.
   */
  method GenerateFunction(program: VMProgram, f: Function, toF32: real -> bv32) returns (res: Outcome<CodegenError>)
    modifies program
    ensures res == Status(FunctionCode(old(program.Image()), f, toF32))
    ensures res.Pass? ==> program.Image() == FunctionCode(old(program.Image()), f, toF32).value
  {
    ghost var before := program.Image();
    var funcMeta := FuncMeta.New(|program.code|);
    var hasReturn := false;
    var stackOffset: nat := 0;
    var stmts := f.statements;
    for i := 0 to |stmts|
      invariant program.data == before.data
      invariant StmtsCode(before.data, FnState(program.code, funcMeta, stackOffset, hasReturn), stmts[i..], toF32)
             == StmtsCode(before.data, EntryState(before.code), stmts, toF32)
    {
      assert stmts[i..][1..] == stmts[i + 1..];
      res, funcMeta, stackOffset, hasReturn := GenerateStatement(program, funcMeta, stackOffset, hasReturn, stmts[i], toF32);
      if res.Fail? { return; }
    }
    if !hasReturn {
      program.code := program.code + [PlainInst(Void)];
      program.code := program.code + [WithData(Ret, U16(stackOffset))];
    }
    program.data := program.data.(functions := program.data.functions[f.name := funcMeta]);
    res := Pass;
  }

  /**
   * Gives each parameter, in order, the next 4 bytes of the static section from `offset`,
   * as a static global of its declared type; a repeated name is rebound. Returns the offset
   * after the last one. The result is AllocateGlobals's.
   */
  method AllocateParams(program: VMProgram, params: seq<Param>, offset: nat) returns (end: nat)
    modifies program
    ensures program.code == old(program.code)
    ensures program.data == old(program.data).(globalSymbols := AllocateGlobals(old(program.data.globalSymbols), offset, params).0)
    ensures end == AllocateGlobals(old(program.data.globalSymbols), offset, params).1
  {
    end := offset;
    for i := 0 to |params|
      invariant AllocateGlobals(program.data.globalSymbols, end, params[i..]) == AllocateGlobals(old(program.data.globalSymbols), offset, params)
      invariant program.code == old(program.code)
      invariant program.data == old(program.data).(globalSymbols := program.data.globalSymbols)
    {
      var p := params[i];
      program.data := program.data.(globalSymbols := program.data.globalSymbols[p.name := SymbolMeta(end, true, p.typeKind)]);
      end := end + 4;
      assert params[i..][1..] == params[i + 1..];
    }
  }

  /**
   * Compiles a (folded) program: allocates the globals, lowers each function in order and
   * records the section sizes. Succeeds exactly when CodegenSpec does, with its image.
   */
  method Codegen(ast: Program, toF32: real -> bv32) returns (r: Result<VMProgram, CodegenError>)
    ensures Status(r) == Status(CodegenSpec(ast, toF32))
    ensures r.Success? ==> fresh(r.value) && r.value.Image() == CodegenSpec(ast, toF32).value
  {
    var program := new VMProgram();
    var staticSection: nat := 0;

    staticSection := AllocateParams(program, ast.inParameters, staticSection);
    staticSection := AllocateParams(program, ast.outParameters, staticSection);

    ghost var start := program.Image();
    assert start == GlobalsImage(StaticLayout(ast).0);
    var fns := ast.functions;
    for k := 0 to |fns|
      invariant FunctionsCode(program.Image(), fns[k..], toF32) == FunctionsCode(start, fns, toF32)
    {
      assert fns[k..][1..] == fns[k + 1..];
      var res := GenerateFunction(program, fns[k], toF32);
      if res.Fail? {
        return Failure(res.error);
      }
    }

    program.data := program.data.(staticSectionSize := staticSection, minStackSize := staticSection + 1024);
    r := Success(program);
  }
}
