/** Symbol and function tables of a compiled program, and the errors that abort generation. */
module Symbols {
  import opened Ast

  /** Storage of one name: a byte offset, static (global) or stack-local, and its type. */
  datatype SymbolMeta = SymbolMeta(offset: nat, isStatic: bool, typeKind: TypeKind)

  /** One function's entry address (a cell index) and its local symbols. */
  datatype FuncMeta = FuncMeta(address: nat, symbols: map<string, SymbolMeta>) {
    static function New(address: nat): FuncMeta {
      FuncMeta(address, map[])
    }
  }

  datatype ProgramData = ProgramData(
    functions: map<string, FuncMeta>,
    globalSymbols: map<string, SymbolMeta>,
    minStackSize: nat,
    staticSectionSize: nat)
  {
    static function New(): ProgramData {
      ProgramData(map[], map[], 0, 0)
    }
  }

  /** What aborts code generation (each is a panic in the generator this models). */
  datatype CodegenError =
    | UnresolvedSymbol(symbolName: string)
    | UnresolvedFunction(functionName: string)
    | UnsupportedLiteral
    | UnsupportedUnaryOperator
    | UnsupportedExpression
}
