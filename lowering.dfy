/**
 * The code generator as functions on values: each function here is the specification of
 * one loop or recursion of the generator, and the methods in module Compiler are proved
 * to compute exactly these results.
 */
module Lowering {
  import opened Wrappers
  import opened Ast
  import opened Bytecode
  import opened Symbols

  /** Bit pattern of the single-precision float -1.0: sign 1, biased exponent 127, mantissa 0. */
  const NegOneF32Bits: bv32 := 0xBF80_0000

  /** Working margin added to the static section to give the minimum stack size. */
  const StackMargin: nat := 1024

  /** The value of a `VMProgram`: its instruction stream and its tables. */
  datatype ProgramImage = ProgramImage(code: seq<MemoryCell>, data: ProgramData)

  /** The float-arithmetic opcode a binary operator lowers to. */
  function BinaryOpCode(op: BinaryOperator): OpCode {
    match op
    case Add => AddF32
    case Sub => SubF32
    case Mul => MulF32
    case Div => DivF32
  }

  /** Cells of a call: one `Call` carrying the callee's entry address; its arguments are not lowered. */
  function CallCode(data: ProgramData, callee: string): Result<seq<MemoryCell>, CodegenError> {
    if callee in data.functions then
      Success([WithData(Call, U16(data.functions[callee].address))])
    else
      Failure(UnresolvedFunction(callee))
  }

  /** Cells of a literal: `ConstF32` and the raw bits of the value as an `f32`. */
  function LiteralCode(lit: LiteralValue, toF32: real -> bv32): Result<seq<MemoryCell>, CodegenError> {
    match lit
    case DecimalLiteral(f) => Success([PlainInst(ConstF32), Raw(toF32(f))])
    case OtherLiteral => Failure(UnsupportedLiteral)
  }

  /** Cells of a symbol reference: a load from the local of that name, else from the global. */
  function SymbolCode(data: ProgramData, fnc: FuncMeta, name: string): Result<seq<MemoryCell>, CodegenError> {
    if name in fnc.symbols then
      Success([WithData(Load4, U16(fnc.symbols[name].offset))])
    else if name in data.globalSymbols then
      Success([WithData(Load4Global, U16(data.globalSymbols[name].offset))])
    else
      Failure(UnresolvedSymbol(name))
  }

  /**
   * Cells appended for one expression, post-order, resolving symbols in the function's
   * locals `fnc` first and then in the globals of `data`, and calls in the functions of
   * `data`. `toF32` is the conversion of a literal to the bits of an `f32`.
   */
  function ExprCode(data: ProgramData, fnc: FuncMeta, e: Expr, toF32: real -> bv32): Result<seq<MemoryCell>, CodegenError>
    decreases e
  {
    match e
    case BinaryOp(op, left, right) =>
      (match ExprCode(data, fnc, left, toF32)
       case Failure(err) => Failure(err)
       case Success(lc) =>
         match ExprCode(data, fnc, right, toF32)
         case Failure(err) => Failure(err)
         case Success(rc) => Success(lc + rc + [PlainInst(BinaryOpCode(op))]))
    case FuncCall(callee, _) => CallCode(data, callee)
    case Literal(lit) => LiteralCode(lit, toF32)
    case Symbol(name) => SymbolCode(data, fnc, name)
    case UnaryOp(op, operand) =>
      (match op
       case Sub =>
         (match ExprCode(data, fnc, operand, toF32)
          case Failure(err) => Failure(err)
          case Success(c) => Success(c + [PlainInst(ConstF32), Raw(NegOneF32Bits), PlainInst(MulF32)]))
       case OtherUnary => Failure(UnsupportedUnaryOperator))
    case OtherExpr => Failure(UnsupportedExpression)
  }

  /** The generator's state while it lowers the statements of one function. */
  datatype FnState = FnState(code: seq<MemoryCell>, meta: FuncMeta, stackOffset: nat, hasReturn: bool)

  /** The metadata a fresh stack local receives. */
  function LocalSymbol(offset: nat): SymbolMeta {
    SymbolMeta(offset, false, F32)
  }

  /** Lowering of one statement. */
  function StmtCode(data: ProgramData, st: FnState, s: Statement, toF32: real -> bv32): Result<FnState, CodegenError> {
    match s
    case Assignment(target, rhs) =>
      var c :- ExprCode(data, st.meta, rhs, toF32);
      if target in data.globalSymbols then
        var store := WithData(Mov4Global, U16(data.globalSymbols[target].offset));
        Success(st.(code := st.code + c + [store]))
      else
        var meta := st.meta.(symbols := st.meta.symbols[target := LocalSymbol(st.stackOffset)]);
        Success(FnState(st.code + c, meta, st.stackOffset + 4, st.hasReturn))
    case Return(value) =>
      var c :- ExprCode(data, st.meta, value, toF32);
      Success(st.(code := st.code + c + [WithData(Ret, U16(st.stackOffset))], hasReturn := true))
  }

  /** Lowering of a statement list, in order; the first failure aborts. */
  function StmtsCode(data: ProgramData, st: FnState, stmts: seq<Statement>, toF32: real -> bv32): Result<FnState, CodegenError>
    decreases |stmts|
  {
    if stmts == [] then Success(st)
    else
      var next :- StmtCode(data, st, stmts[0], toF32);
      StmtsCode(data, next, stmts[1..], toF32)
  }

  /** The state in which lowering of a function begins, given the code emitted so far. */
  function EntryState(code: seq<MemoryCell>): FnState {
    FnState(code, FuncMeta.New(|code|), 0, false)
  }

  /**
   * Lowering of one function: its statements, then `Void; Ret` unless one of them was a
   * return, then its entry in the function table.
   */
  function FunctionCode(img: ProgramImage, f: Function, toF32: real -> bv32): Result<ProgramImage, CodegenError> {
    var st :- StmtsCode(img.data, EntryState(img.code), f.statements, toF32);
    var code := if st.hasReturn then st.code
                else st.code + [PlainInst(Void), WithData(Ret, U16(st.stackOffset))];
    Success(ProgramImage(code, img.data.(functions := img.data.functions[f.name := st.meta])))
  }

  /** Lowering of the functions, in order; the first failure aborts. */
  function FunctionsCode(img: ProgramImage, fns: seq<Function>, toF32: real -> bv32): Result<ProgramImage, CodegenError>
    decreases |fns|
  {
    if fns == [] then Success(img)
    else
      var next :- FunctionCode(img, fns[0], toF32);
      FunctionsCode(next, fns[1..], toF32)
  }

  /**
   * Allocation of static storage to parameters, in order, 4 bytes each from `offset`:
   * the table and the offset after the last parameter.
   */
  function AllocateGlobals(globals: map<string, SymbolMeta>, offset: nat, params: seq<Param>): (r: (map<string, SymbolMeta>, nat))
    ensures r.1 == offset + 4 * |params|
    ensures r.0.Keys == globals.Keys + ParamNames(params)
    decreases |params|
  {
    if params == [] then (globals, offset)
    else
      var p := params[0];
      assert ParamNames(params) == {p.name} + ParamNames(params[1..]) by {
        assert forall q :: q in params <==> q == p || q in params[1..];
      }
      AllocateGlobals(globals[p.name := SymbolMeta(offset, true, p.typeKind)], offset + 4, params[1..])
  }

  /** The globals and the static section's size after the in- and then the out-parameters. */
  function StaticLayout(ast: Program): (map<string, SymbolMeta>, nat) {
    var (inGlobals, inEnd) := AllocateGlobals(map[], 0, ast.inParameters);
    AllocateGlobals(inGlobals, inEnd, ast.outParameters)
  }

  /** The program before any function is lowered: no code, no functions, the given globals. */
  function GlobalsImage(globals: map<string, SymbolMeta>): ProgramImage {
    ProgramImage([], ProgramData.New().(globalSymbols := globals))
  }

  /** Whole-program generation: in-parameters, out-parameters, functions, sizes. */
  function CodegenSpec(ast: Program, toF32: real -> bv32): Result<ProgramImage, CodegenError> {
    var (globals, staticSection) := StaticLayout(ast);
    var img :- FunctionsCode(GlobalsImage(globals), ast.functions, toF32);
    Success(img.(data := img.data.(staticSectionSize := staticSection, minStackSize := staticSection + StackMargin)))
  }
}
