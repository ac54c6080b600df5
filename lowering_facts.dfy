/**
 * Properties of the code generator, stated on the functions of module Lowering against
 * independent reference definitions (which expressions are supported, which names they
 * need, how many cells they take) and against the decoded instruction stream.
 */
module LoweringFacts {
  import opened Wrappers
  import opened Ast
  import opened Bytecode
  import opened Symbols
  import opened Lowering

  // ---------------------------------------------------------------------------------
  // Expressions
  // ---------------------------------------------------------------------------------

  /** The expression forms the generator lowers: decimal literals, negation, the four operators, symbols and calls. */
  predicate Supported(e: Expr)
    decreases e
  {
    match e
    case BinaryOp(_, l, r) => Supported(l) && Supported(r)
    case UnaryOp(op, x) => op.Sub? && Supported(x)
    case FuncCall(_, _) => true
    case Literal(lit) => lit.DecimalLiteral?
    case Symbol(_) => true
    case OtherExpr => false
  }

  /** The symbols an expression reads; call arguments are not lowered, so their symbols are not read. */
  function SymbolsOf(e: Expr): set<string>
    decreases e
  {
    match e
    case BinaryOp(_, l, r) => SymbolsOf(l) + SymbolsOf(r)
    case UnaryOp(_, x) => SymbolsOf(x)
    case Symbol(name) => {name}
    case _ => {}
  }

  /** The functions an expression calls (again ignoring call arguments). */
  function CalleesOf(e: Expr): set<string>
    decreases e
  {
    match e
    case BinaryOp(_, l, r) => CalleesOf(l) + CalleesOf(r)
    case UnaryOp(_, x) => CalleesOf(x)
    case FuncCall(callee, _) => {callee}
    case _ => {}
  }

  /** Every name the expression uses is bound: symbols as locals or globals, callees as functions. */
  predicate Resolved(data: ProgramData, fnc: FuncMeta, e: Expr) {
    SymbolsOf(e) <= fnc.symbols.Keys + data.globalSymbols.Keys && CalleesOf(e) <= data.functions.Keys
  }

  /** Cells an expression occupies: one per instruction, two for a float push, three more for a negation. */
  function WordCount(e: Expr): nat
    decreases e
  {
    match e
    case BinaryOp(_, l, r) => WordCount(l) + WordCount(r) + 1
    case UnaryOp(_, x) => WordCount(x) + 3
    case FuncCall(_, _) => 1
    case Literal(_) => 2
    case Symbol(_) => 1
    case OtherExpr => 0
  }

  /** Expression lowering succeeds exactly for supported expressions whose names all resolve. */
  lemma {:induction false} ExprCodeSucceedsIff(data: ProgramData, fnc: FuncMeta, e: Expr, toF32: real -> bv32)
    ensures ExprCode(data, fnc, e, toF32).Success? <==> Supported(e) && Resolved(data, fnc, e)
    decreases e
  {
    match e
    case BinaryOp(_, l, r) =>
      ExprCodeSucceedsIff(data, fnc, l, toF32);
      ExprCodeSucceedsIff(data, fnc, r, toF32);
    case UnaryOp(_, x) =>
      ExprCodeSucceedsIff(data, fnc, x, toF32);
    case _ =>
  }

  /** A failure names its cause: an unbound symbol or callee of the expression, or an unsupported form in it. */
  lemma {:induction false} ExprCodeErrorCause(data: ProgramData, fnc: FuncMeta, e: Expr, toF32: real -> bv32)
    requires ExprCode(data, fnc, e, toF32).Failure?
    ensures var err := ExprCode(data, fnc, e, toF32).error;
      match err
      case UnresolvedSymbol(n) =>
        n in SymbolsOf(e) && n !in fnc.symbols && n !in data.globalSymbols
      case UnresolvedFunction(n) => n in CalleesOf(e) && n !in data.functions
      case _ => !Supported(e)
    decreases e
  {
    match e
    case BinaryOp(_, l, r) =>
      if ExprCode(data, fnc, l, toF32).Failure? {
        ExprCodeErrorCause(data, fnc, l, toF32);
      } else {
        ExprCodeErrorCause(data, fnc, r, toF32);
      }
    case UnaryOp(op, x) =>
      if op.Sub? {
        ExprCodeErrorCause(data, fnc, x, toF32);
      }
    case _ =>
  }

  /** A lowered expression takes exactly WordCount cells. */
  lemma {:induction false} ExprCodeLength(data: ProgramData, fnc: FuncMeta, e: Expr, toF32: real -> bv32)
    requires ExprCode(data, fnc, e, toF32).Success?
    ensures |ExprCode(data, fnc, e, toF32).value| == WordCount(e)
    decreases e
  {
    match e
    case BinaryOp(_, l, r) =>
      ExprCodeLength(data, fnc, l, toF32);
      ExprCodeLength(data, fnc, r, toF32);
    case UnaryOp(_, x) =>
      ExprCodeLength(data, fnc, x, toF32);
    case _ =>
  }

  /** Decoding of a concatenation whose parts decode, in the three-part form lowering produces. */
  lemma DisassembleAppend3(a: seq<MemoryCell>, b: seq<MemoryCell>, c: seq<MemoryCell>)
    requires Disassemble(a).Some? && Disassemble(b).Some? && Disassemble(c).Some?
    ensures Disassemble(a + b + c) == Some(Disassemble(a).value + Disassemble(b).value + Disassemble(c).value)
  {
    DisassembleAppend(a, b);
    DisassembleAppend(a + b, c);
  }

  /** Every cell stream a supported expression lowers to is a well-formed instruction sequence. */
  lemma {:induction false} ExprCodeDecodes(data: ProgramData, fnc: FuncMeta, e: Expr, toF32: real -> bv32)
    requires ExprCode(data, fnc, e, toF32).Success?
    ensures Disassemble(ExprCode(data, fnc, e, toF32).value).Some?
    decreases e
  {
    match e
    case BinaryOp(op, l, r) =>
      ExprCodeDecodes(data, fnc, l, toF32);
      ExprCodeDecodes(data, fnc, r, toF32);
      DisassembleInst(BinaryOpCode(op), 0);
      PlainInstRoundTrip(BinaryOpCode(op));
      DisassembleAppend3(ExprCode(data, fnc, l, toF32).value, ExprCode(data, fnc, r, toF32).value, [PlainInst(BinaryOpCode(op))]);
    case UnaryOp(_, x) =>
      ExprCodeDecodes(data, fnc, x, toF32);
      NegationTailDecodes();
      DisassembleAppend(ExprCode(data, fnc, x, toF32).value, NegationTail());
    case FuncCall(callee, _) =>
      DisassembleInst(Call, U16(data.functions[callee].address));
    case Literal(lit) =>
      DisassemblePush(toF32(lit.value));
    case Symbol(name) =>
      if name in fnc.symbols {
        DisassembleInst(Load4, U16(fnc.symbols[name].offset));
      } else {
        DisassembleInst(Load4Global, U16(data.globalSymbols[name].offset));
      }
    case OtherExpr =>
  }

  /** The three cells a negation appends after its operand. */
  function NegationTail(): seq<MemoryCell> {
    [PlainInst(ConstF32), Raw(NegOneF32Bits), PlainInst(MulF32)]
  }

  /** The negation tail decodes to a push of -1.0 and one float multiplication. */
  lemma NegationTailDecodes()
    ensures Disassemble(NegationTail()) == Some([PushF32(NegOneF32Bits), Op(MulF32, 0)])
  {
    DisassemblePush(NegOneF32Bits);
    PlainInstRoundTrip(MulF32);
    DisassembleInst(MulF32, 0);
    assert NegationTail() == [PlainInst(ConstF32), Raw(NegOneF32Bits)] + [PlainInst(MulF32)];
    DisassembleAppend([PlainInst(ConstF32), Raw(NegOneF32Bits)], [PlainInst(MulF32)]);
    assert [PushF32(NegOneF32Bits)] + [Op(MulF32, 0)] == [PushF32(NegOneF32Bits), Op(MulF32, 0)];
  }

  /** A binary operation runs its left operand, then its right operand, then the operator's float opcode. */
  lemma BinaryLowering(data: ProgramData, fnc: FuncMeta, op: BinaryOperator, l: Expr, r: Expr, toF32: real -> bv32)
    requires ExprCode(data, fnc, BinaryOp(op, l, r), toF32).Success?
    ensures ExprCode(data, fnc, l, toF32).Success? && ExprCode(data, fnc, r, toF32).Success?
    ensures Disassemble(ExprCode(data, fnc, l, toF32).value).Some? && Disassemble(ExprCode(data, fnc, r, toF32).value).Some?
    ensures Disassemble(ExprCode(data, fnc, BinaryOp(op, l, r), toF32).value)
         == Some(Disassemble(ExprCode(data, fnc, l, toF32).value).value
                 + Disassemble(ExprCode(data, fnc, r, toF32).value).value
                 + [Op(BinaryOpCode(op), 0)])
    ensures BinaryOpCode(op) in {AddF32, SubF32, MulF32, DivF32}
  {
    ExprCodeDecodes(data, fnc, l, toF32);
    ExprCodeDecodes(data, fnc, r, toF32);
    PlainInstRoundTrip(BinaryOpCode(op));
    DisassembleInst(BinaryOpCode(op), 0);
    DisassembleAppend3(ExprCode(data, fnc, l, toF32).value, ExprCode(data, fnc, r, toF32).value, [PlainInst(BinaryOpCode(op))]);
  }

  /** Negation runs its operand, pushes -1.0 and multiplies: three cells more than the operand. */
  lemma NegationLowering(data: ProgramData, fnc: FuncMeta, x: Expr, toF32: real -> bv32)
    requires ExprCode(data, fnc, UnaryOp(UnaryOperator.Sub, x), toF32).Success?
    ensures ExprCode(data, fnc, x, toF32).Success? && Disassemble(ExprCode(data, fnc, x, toF32).value).Some?
    ensures |ExprCode(data, fnc, UnaryOp(UnaryOperator.Sub, x), toF32).value| == |ExprCode(data, fnc, x, toF32).value| + 3
    ensures Disassemble(ExprCode(data, fnc, UnaryOp(UnaryOperator.Sub, x), toF32).value)
         == Some(Disassemble(ExprCode(data, fnc, x, toF32).value).value + [PushF32(NegOneF32Bits), Op(MulF32, 0)])
  {
    ExprCodeDecodes(data, fnc, x, toF32);
    NegationTailDecodes();
    DisassembleAppend(ExprCode(data, fnc, x, toF32).value, NegationTail());
  }

  /** A decimal literal is one float push of its converted bits, in two cells; no other literal is lowered. */
  lemma LiteralLowering(data: ProgramData, fnc: FuncMeta, lit: LiteralValue, toF32: real -> bv32)
    ensures ExprCode(data, fnc, Literal(lit), toF32).Success? <==> lit.DecimalLiteral?
    ensures lit.DecimalLiteral? ==>
      |ExprCode(data, fnc, Literal(lit), toF32).value| == 2 &&
      Disassemble(ExprCode(data, fnc, Literal(lit), toF32).value) == Some([PushF32(toF32(lit.value))])
    ensures lit.OtherLiteral? ==> ExprCode(data, fnc, Literal(lit), toF32) == Failure(UnsupportedLiteral)
  {
    if lit.DecimalLiteral? {
      DisassemblePush(toF32(lit.value));
    }
  }

  /** A call is one `Call` to the callee's recorded address, whatever its arguments; an unknown callee fails. */
  lemma CallLowering(data: ProgramData, fnc: FuncMeta, callee: string, args: seq<Expr>, toF32: real -> bv32)
    ensures ExprCode(data, fnc, FuncCall(callee, args), toF32).Success? <==> callee in data.functions
    ensures ExprCode(data, fnc, FuncCall(callee, args), toF32) == ExprCode(data, fnc, FuncCall(callee, []), toF32)
    ensures callee in data.functions ==>
      Disassemble(ExprCode(data, fnc, FuncCall(callee, args), toF32).value) == Some([Op(Call, U16(data.functions[callee].address))])
    ensures callee !in data.functions ==>
      ExprCode(data, fnc, FuncCall(callee, args), toF32) == Failure(UnresolvedFunction(callee))
  {
    if callee in data.functions {
      DisassembleInst(Call, U16(data.functions[callee].address));
    }
  }

  /** A symbol is one load: from its local slot when it is a local, else from its global slot; else it fails. */
  lemma SymbolLowering(data: ProgramData, fnc: FuncMeta, name: string, toF32: real -> bv32)
    ensures ExprCode(data, fnc, Symbol(name), toF32).Success? <==> name in fnc.symbols || name in data.globalSymbols
    ensures name in fnc.symbols ==>
      Disassemble(ExprCode(data, fnc, Symbol(name), toF32).value) == Some([Op(Load4, U16(fnc.symbols[name].offset))])
    ensures name !in fnc.symbols && name in data.globalSymbols ==>
      Disassemble(ExprCode(data, fnc, Symbol(name), toF32).value) == Some([Op(Load4Global, U16(data.globalSymbols[name].offset))])
    ensures name !in fnc.symbols && name !in data.globalSymbols ==>
      ExprCode(data, fnc, Symbol(name), toF32) == Failure(UnresolvedSymbol(name))
  {
    if name in fnc.symbols {
      DisassembleInst(Load4, U16(fnc.symbols[name].offset));
    } else if name in data.globalSymbols {
      DisassembleInst(Load4Global, U16(data.globalSymbols[name].offset));
    }
  }

  /** Unary operators other than negation, and the expression forms not matched, always fail. */
  lemma UnsupportedForms(data: ProgramData, fnc: FuncMeta, x: Expr, toF32: real -> bv32)
    ensures ExprCode(data, fnc, UnaryOp(OtherUnary, x), toF32) == Failure(UnsupportedUnaryOperator)
    ensures ExprCode(data, fnc, OtherExpr, toF32) == Failure(UnsupportedExpression)
  {
  }

  // ---------------------------------------------------------------------------------
  // Statements
  // ---------------------------------------------------------------------------------

  /** The expression a statement evaluates. */
  function StmtExpr(s: Statement): Expr {
    match s
    case Assignment(_, rhs) => rhs
    case Return(value) => value
  }

  /** True when the statement is an assignment to a name that is not a global, which binds a new stack slot. */
  predicate AllocatesLocal(globals: set<string>, s: Statement) {
    s.Assignment? && s.target !in globals
  }

  /** Number of statements of the list that bind a new stack slot. */
  function LocalAllocations(globals: set<string>, stmts: seq<Statement>): nat
    decreases |stmts|
  {
    if stmts == [] then 0
    else (if AllocatesLocal(globals, stmts[0]) then 1 else 0) + LocalAllocations(globals, stmts[1..])
  }

  /** Names the statement list binds as locals. */
  function LocalTargets(globals: set<string>, stmts: seq<Statement>): set<string> {
    set s | s in stmts && AllocatesLocal(globals, s) :: s.target
  }

  /** Local slots are 4-byte aligned stack offsets below the next free one, non-static and of type `f32`. */
  predicate LocalsWellFormed(symbols: map<string, SymbolMeta>, stackOffset: nat) {
    stackOffset % 4 == 0 &&
    forall n :: n in symbols ==>
      symbols[n].offset % 4 == 0 && symbols[n].offset < stackOffset &&
      !symbols[n].isStatic && symbols[n].typeKind == F32
  }

  /**
   * An assignment to a global stores the value with one `Mov4Global` to the global's slot and
   * binds nothing; any other assignment emits no store, binds the target (replacing an earlier
   * binding) to the current stack offset as a non-static `f32`, and moves the offset by 4.
   */
  lemma AssignmentLowering(data: ProgramData, st: FnState, target: string, rhs: Expr, toF32: real -> bv32)
    requires Disassemble(st.code).Some?
    requires ExprCode(data, st.meta, rhs, toF32).Success?
    ensures StmtCode(data, st, Assignment(target, rhs), toF32).Success?
    ensures var c := ExprCode(data, st.meta, rhs, toF32).value;
      var next := StmtCode(data, st, Assignment(target, rhs), toF32).value;
      Disassemble(c).Some? &&
      next.hasReturn == st.hasReturn && next.meta.address == st.meta.address &&
      if target in data.globalSymbols then
        next.meta == st.meta && next.stackOffset == st.stackOffset &&
        Disassemble(next.code) ==
          Some(Disassemble(st.code).value + Disassemble(c).value + [Op(Mov4Global, U16(data.globalSymbols[target].offset))])
      else
        next.code == st.code + c && next.stackOffset == st.stackOffset + 4 &&
        next.meta.symbols.Keys == st.meta.symbols.Keys + {target} &&
        next.meta.symbols[target] == SymbolMeta(st.stackOffset, false, F32) &&
        forall n :: n in st.meta.symbols && n != target ==> next.meta.symbols[n] == st.meta.symbols[n]
  {
    var c := ExprCode(data, st.meta, rhs, toF32).value;
    ExprCodeDecodes(data, st.meta, rhs, toF32);
    if target in data.globalSymbols {
      var offset := data.globalSymbols[target].offset;
      DisassembleInst(Mov4Global, U16(offset));
      DisassembleAppend3(st.code, c, [WithData(Mov4Global, U16(offset))]);
    }
  }

  /**
   * A return evaluates its value, then emits `Ret` whose immediate is the stack offset reached
   * so far, and marks the function as returning; bindings and the offset are unchanged.
   */
  lemma ReturnLowering(data: ProgramData, st: FnState, value: Expr, toF32: real -> bv32)
    requires Disassemble(st.code).Some?
    requires ExprCode(data, st.meta, value, toF32).Success?
    ensures StmtCode(data, st, Return(value), toF32).Success?
    ensures var c := ExprCode(data, st.meta, value, toF32).value;
      var next := StmtCode(data, st, Return(value), toF32).value;
      Disassemble(c).Some? &&
      next.hasReturn && next.meta == st.meta && next.stackOffset == st.stackOffset &&
      Disassemble(next.code) == Some(Disassemble(st.code).value + Disassemble(c).value + [Op(Ret, U16(st.stackOffset))])
  {
    var c := ExprCode(data, st.meta, value, toF32).value;
    ExprCodeDecodes(data, st.meta, value, toF32);
    DisassembleInst(Ret, U16(st.stackOffset));
    DisassembleAppend3(st.code, c, [WithData(Ret, U16(st.stackOffset))]);
  }

  /** A statement fails exactly when its expression does, with the expression's error. */
  lemma StmtCodeFailure(data: ProgramData, st: FnState, s: Statement, toF32: real -> bv32)
    ensures StmtCode(data, st, s, toF32).Failure? <==> ExprCode(data, st.meta, StmtExpr(s), toF32).Failure?
    ensures StmtCode(data, st, s, toF32).Failure? ==>
      StmtCode(data, st, s, toF32).error == ExprCode(data, st.meta, StmtExpr(s), toF32).error
  {
  }

  /** What one statement does to the entry address, the stack offset and the return flag. */
  lemma StmtFrame(data: ProgramData, st: FnState, s: Statement, toF32: real -> bv32)
    requires StmtCode(data, st, s, toF32).Success?
    ensures var next := StmtCode(data, st, s, toF32).value;
      next.meta.address == st.meta.address &&
      next.stackOffset == st.stackOffset + (if AllocatesLocal(data.globalSymbols.Keys, s) then 4 else 0) &&
      next.hasReturn == (st.hasReturn || s.Return?)
  {
  }

  /** One statement binds exactly the target of an allocating assignment, and keeps the locals well formed. */
  lemma StmtLocals(data: ProgramData, st: FnState, s: Statement, toF32: real -> bv32)
    requires StmtCode(data, st, s, toF32).Success?
    ensures var next := StmtCode(data, st, s, toF32).value;
      next.meta.symbols.Keys == st.meta.symbols.Keys + (if AllocatesLocal(data.globalSymbols.Keys, s) then {s.target} else {}) &&
      (LocalsWellFormed(st.meta.symbols, st.stackOffset) ==> LocalsWellFormed(next.meta.symbols, next.stackOffset))
  {
    var next := StmtCode(data, st, s, toF32).value;
    if AllocatesLocal(data.globalSymbols.Keys, s) {
      assert next.meta.symbols == st.meta.symbols[s.target := LocalSymbol(st.stackOffset)];
      assert next.stackOffset == st.stackOffset + 4;
    } else {
      assert next.meta == st.meta && next.stackOffset == st.stackOffset;
    }
  }

  /** One statement only appends, keeps the stream decodable, and calls only functions already in the table. */
  lemma StmtCodeAppends(data: ProgramData, st: FnState, s: Statement, toF32: real -> bv32)
    requires StmtCode(data, st, s, toF32).Success?
    ensures var next := StmtCode(data, st, s, toF32).value;
      st.code <= next.code &&
      (s.Return? ==> |next.code| > |st.code|) &&
      (Disassemble(st.code).Some? ==> Disassemble(next.code).Some?) &&
      CalleesOf(StmtExpr(s)) <= data.functions.Keys
  {
    var c := ExprCode(data, st.meta, StmtExpr(s), toF32).value;
    ExprCodeSucceedsIff(data, st.meta, StmtExpr(s), toF32);
    ExprCodeDecodes(data, st.meta, StmtExpr(s), toF32);
    if Disassemble(st.code).Some? {
      match s
      case Assignment(target, rhs) =>
        AssignmentLowering(data, st, target, rhs, toF32);
        if target !in data.globalSymbols {
          DisassembleAppend(st.code, c);
        }
      case Return(value) =>
        ReturnLowering(data, st, value, toF32);
    }
  }

  /** A non-empty list contains a return exactly when its head is one or its tail contains one. */
  lemma ContainsReturnCons(stmts: seq<Statement>)
    requires stmts != []
    ensures ContainsReturn(stmts) <==> stmts[0].Return? || ContainsReturn(stmts[1..])
  {
    if ContainsReturn(stmts[1..]) {
      var i :| 0 <= i < |stmts[1..]| && stmts[1..][i].Return?;
      assert stmts[i + 1].Return?;
    }
    if ContainsReturn(stmts) && !stmts[0].Return? {
      var i :| 0 <= i < |stmts| && stmts[i].Return?;
      assert stmts[1..][i - 1].Return?;
    }
  }

  /** The local targets of a non-empty list: the head's, if it allocates, and the tail's. */
  lemma LocalTargetsCons(globals: set<string>, stmts: seq<Statement>)
    requires stmts != []
    ensures LocalTargets(globals, stmts) ==
      (if AllocatesLocal(globals, stmts[0]) then {stmts[0].target} else {}) + LocalTargets(globals, stmts[1..])
  {
    assert forall s :: s in stmts <==> s == stmts[0] || s in stmts[1..];
  }

  /**
   * What a statement list does to the generator's bookkeeping: the entry address is kept,
   * every allocating assignment takes one 4-byte slot, the function counts as returning
   * exactly when a statement is a return, and the locals are the targets of the allocating
   * assignments and stay well formed.
   */
  lemma {:induction false} StmtsFrame(data: ProgramData, st: FnState, stmts: seq<Statement>, toF32: real -> bv32)
    requires StmtsCode(data, st, stmts, toF32).Success?
    ensures var last := StmtsCode(data, st, stmts, toF32).value;
      last.meta.address == st.meta.address &&
      last.stackOffset == st.stackOffset + 4 * LocalAllocations(data.globalSymbols.Keys, stmts) &&
      last.hasReturn == (st.hasReturn || ContainsReturn(stmts)) &&
      last.meta.symbols.Keys == st.meta.symbols.Keys + LocalTargets(data.globalSymbols.Keys, stmts) &&
      (LocalsWellFormed(st.meta.symbols, st.stackOffset) ==> LocalsWellFormed(last.meta.symbols, last.stackOffset))
    decreases |stmts|
  {
    if stmts == [] {
      assert LocalTargets(data.globalSymbols.Keys, stmts) == {};
    } else {
      var next := StmtCode(data, st, stmts[0], toF32).value;
      StmtFrame(data, st, stmts[0], toF32);
      StmtLocals(data, st, stmts[0], toF32);
      StmtsFrame(data, next, stmts[1..], toF32);
      ContainsReturnCons(stmts);
      LocalTargetsCons(data.globalSymbols.Keys, stmts);
    }
  }

  /**
   * A statement list only appends to the code (and grows it when it holds a return), keeps it
   * decodable, and calls only functions already in the table.
   */
  lemma {:induction false} StmtsAppends(data: ProgramData, st: FnState, stmts: seq<Statement>, toF32: real -> bv32)
    requires StmtsCode(data, st, stmts, toF32).Success?
    ensures var last := StmtsCode(data, st, stmts, toF32).value;
      st.code <= last.code &&
      (ContainsReturn(stmts) ==> |last.code| > |st.code|) &&
      (Disassemble(st.code).Some? ==> Disassemble(last.code).Some?) &&
      forall i :: 0 <= i < |stmts| ==> CalleesOf(StmtExpr(stmts[i])) <= data.functions.Keys
    decreases |stmts|
  {
    if stmts != [] {
      var next := StmtCode(data, st, stmts[0], toF32).value;
      StmtCodeAppends(data, st, stmts[0], toF32);
      StmtsAppends(data, next, stmts[1..], toF32);
      ContainsReturnCons(stmts);
      forall i | 0 <= i < |stmts|
        ensures CalleesOf(StmtExpr(stmts[i])) <= data.functions.Keys
      {
        if i > 0 {
          assert stmts[i] == stmts[1..][i - 1];
        }
      }
    }
  }

  /** Lowering a concatenation lowers the first part and continues from the state it leaves. */
  lemma {:induction false} StmtsCodeConcat(data: ProgramData, st: FnState, a: seq<Statement>, b: seq<Statement>, toF32: real -> bv32)
    ensures StmtsCode(data, st, a + b, toF32) ==
      match StmtsCode(data, st, a, toF32)
      case Failure(err) => Failure(err)
      case Success(mid) => StmtsCode(data, mid, b, toF32)
    decreases |a|
  {
    if a == [] {
      assert a + b == b;
    } else {
      assert (a + b)[0] == a[0];
      assert (a + b)[1..] == a[1..] + b;
      match StmtCode(data, st, a[0], toF32)
      case Failure(_) =>
      case Success(next) => StmtsCodeConcat(data, next, a[1..], b, toF32);
    }
  }

  /** The number of allocating assignments of a concatenation is the sum over its parts. */
  lemma {:induction false} LocalAllocationsConcat(globals: set<string>, a: seq<Statement>, b: seq<Statement>)
    ensures LocalAllocations(globals, a + b) == LocalAllocations(globals, a) + LocalAllocations(globals, b)
    decreases |a|
  {
    if a == [] {
      assert a + b == b;
    } else {
      assert (a + b)[0] == a[0];
      assert (a + b)[1..] == a[1..] + b;
      LocalAllocationsConcat(globals, a[1..], b);
    }
  }

  /**
   * Stack slots are numbered from 0 in every function: an assignment to a non-global name
   * binds it to 4 times the number of allocating assignments before it.
   */
  lemma LocalSlot(data: ProgramData, code: seq<MemoryCell>, stmts: seq<Statement>, x: string, rhs: Expr, toF32: real -> bv32)
    requires x !in data.globalSymbols
    requires StmtsCode(data, EntryState(code), stmts + [Assignment(x, rhs)], toF32).Success?
    ensures x in StmtsCode(data, EntryState(code), stmts + [Assignment(x, rhs)], toF32).value.meta.symbols
    ensures StmtsCode(data, EntryState(code), stmts + [Assignment(x, rhs)], toF32).value.meta.symbols[x]
         == SymbolMeta(4 * LocalAllocations(data.globalSymbols.Keys, stmts), false, F32)
  {
    StmtsCodeConcat(data, EntryState(code), stmts, [Assignment(x, rhs)], toF32);
    var mid := StmtsCode(data, EntryState(code), stmts, toF32).value;
    StmtsFrame(data, EntryState(code), stmts, toF32);
    assert [Assignment(x, rhs)][1..] == [];
  }

  // ---------------------------------------------------------------------------------
  // Functions
  // ---------------------------------------------------------------------------------

  /** The two cells that close a function without a return: `Void`, then `Ret` with the frame size. */
  function ImplicitReturn(frame: nat): seq<MemoryCell> {
    [PlainInst(Void), WithData(Ret, U16(frame))]
  }

  /** The implicit return decodes to a push of the void value and a `Ret`. */
  lemma ImplicitReturnDecodes(frame: nat)
    ensures Disassemble(ImplicitReturn(frame)) == Some([Op(Void, 0), Op(Ret, U16(frame))])
  {
    PlainInstRoundTrip(Void);
    DisassembleInst(Void, 0);
    DisassembleInst(Ret, U16(frame));
    assert ImplicitReturn(frame) == [PlainInst(Void)] + [WithData(Ret, U16(frame))];
    DisassembleAppend([PlainInst(Void)], [WithData(Ret, U16(frame))]);
    assert [Op(Void, 0)] + [Op(Ret, U16(frame))] == [Op(Void, 0), Op(Ret, U16(frame))];
  }

  /**
   * Lowering one function: its entry address is the code length when it starts, its locals are
   * the targets of its allocating assignments in a frame of 4 bytes per allocation, the
   * implicit `Void; Ret frame` closes it exactly when no statement is a return, and the only
   * table change is its own entry, made after its body.
   */
  lemma FunctionFrame(img: ProgramImage, f: Function, toF32: real -> bv32)
    requires FunctionCode(img, f, toF32).Success?
    ensures var out := FunctionCode(img, f, toF32).value;
      var g := img.data.globalSymbols.Keys;
      f.name in out.data.functions &&
      var meta := out.data.functions[f.name];
      var frame := 4 * LocalAllocations(g, f.statements);
      out.data == img.data.(functions := img.data.functions[f.name := meta]) &&
      meta.address == |img.code| &&
      meta.symbols.Keys == LocalTargets(g, f.statements) &&
      LocalsWellFormed(meta.symbols, frame) &&
      (!ContainsReturn(f.statements) <==>
         out.code == StmtsCode(img.data, EntryState(img.code), f.statements, toF32).value.code + ImplicitReturn(frame))
  {
    var entry := EntryState(img.code);
    var last := StmtsCode(img.data, entry, f.statements, toF32).value;
    StmtsFrame(img.data, entry, f.statements, toF32);
    assert LocalsWellFormed(entry.meta.symbols, entry.stackOffset);
  }

  /**
   * Lowering one function appends at least one cell and only appends, keeps the code
   * decodable, and every call in it is to a function already in the table, so never to
   * itself unless an earlier function has its name.
   */
  lemma FunctionAppends(img: ProgramImage, f: Function, toF32: real -> bv32)
    requires FunctionCode(img, f, toF32).Success?
    ensures var out := FunctionCode(img, f, toF32).value;
      img.code <= out.code && |out.code| > |img.code| &&
      (Disassemble(img.code).Some? ==> Disassemble(out.code).Some?) &&
      forall i :: 0 <= i < |f.statements| ==> CalleesOf(StmtExpr(f.statements[i])) <= img.data.functions.Keys
  {
    var entry := EntryState(img.code);
    var last := StmtsCode(img.data, entry, f.statements, toF32).value;
    StmtsAppends(img.data, entry, f.statements, toF32);
    StmtsFrame(img.data, entry, f.statements, toF32);
    var out := FunctionCode(img, f, toF32).value;
    if last.hasReturn {
      assert out.code == last.code;
    } else {
      assert out.code == last.code + ImplicitReturn(last.stackOffset);
      if Disassemble(last.code).Some? {
        ImplicitReturnDecodes(last.stackOffset);
        DisassembleAppend(last.code, ImplicitReturn(last.stackOffset));
      }
    }
  }

  /** The functions of a non-empty list: the head's and the tail's names. */
  lemma FunctionNamesCons(fns: seq<Function>)
    requires fns != []
    ensures FunctionNames(fns) == {fns[0].name} + FunctionNames(fns[1..])
  {
    assert forall f :: f in fns <==> f == fns[0] || f in fns[1..];
  }

  /**
   * Lowering a function list only appends to the code and keeps it decodable, leaves the
   * globals and section sizes alone, adds exactly the functions' names to the table and keeps
   * the entries of every other name.
   */
  lemma {:induction false} FunctionsFrame(img: ProgramImage, fns: seq<Function>, toF32: real -> bv32)
    requires FunctionsCode(img, fns, toF32).Success?
    ensures var out := FunctionsCode(img, fns, toF32).value;
      img.code <= out.code &&
      (Disassemble(img.code).Some? ==> Disassemble(out.code).Some?) &&
      out.data.globalSymbols == img.data.globalSymbols &&
      out.data.staticSectionSize == img.data.staticSectionSize &&
      out.data.minStackSize == img.data.minStackSize &&
      out.data.functions.Keys == img.data.functions.Keys + FunctionNames(fns) &&
      forall n :: n in img.data.functions && n !in FunctionNames(fns) ==> out.data.functions[n] == img.data.functions[n]
    decreases |fns|
  {
    if fns == [] {
      assert FunctionNames(fns) == {};
    } else {
      var next := FunctionCode(img, fns[0], toF32).value;
      FunctionFrame(img, fns[0], toF32);
      FunctionAppends(img, fns[0], toF32);
      FunctionsFrame(next, fns[1..], toF32);
      FunctionNamesCons(fns);
    }
  }

  /** Lowering a concatenation of function lists lowers the first and continues from its image. */
  lemma {:induction false} FunctionsCodeConcat(img: ProgramImage, a: seq<Function>, b: seq<Function>, toF32: real -> bv32)
    ensures FunctionsCode(img, a + b, toF32) ==
      match FunctionsCode(img, a, toF32)
      case Failure(err) => Failure(err)
      case Success(mid) => FunctionsCode(mid, b, toF32)
    decreases |a|
  {
    if a == [] {
      assert a + b == b;
    } else {
      assert (a + b)[0] == a[0];
      assert (a + b)[1..] == a[1..] + b;
      match FunctionCode(img, a[0], toF32)
      case Failure(_) =>
      case Success(next) => FunctionsCodeConcat(next, a[1..], b, toF32);
    }
  }

  /** With distinct names, the name of function k is not among the names after it. */
  lemma DistinctNotLater(fns: seq<Function>, k: nat)
    requires DistinctFunctions(fns) && k < |fns|
    ensures fns[k].name !in FunctionNames(fns[k + 1..])
  {
    forall f | f in fns[k + 1..] ensures f.name != fns[k].name {
      var j :| 0 <= j < |fns[k + 1..]| && fns[k + 1..][j] == f;
      assert fns[k + 1 + j] == f;
    }
  }

  /** Lowering a function list is lowering the functions before k, then function k, then the rest. */
  lemma FunctionsCodeAt(img: ProgramImage, fns: seq<Function>, k: nat, toF32: real -> bv32)
    requires k < |fns|
    requires FunctionsCode(img, fns, toF32).Success?
    ensures FunctionsCode(img, fns[..k], toF32).Success?
    ensures FunctionCode(FunctionsCode(img, fns[..k], toF32).value, fns[k], toF32).Success?
    ensures FunctionsCode(img, fns, toF32) ==
      FunctionsCode(FunctionCode(FunctionsCode(img, fns[..k], toF32).value, fns[k], toF32).value, fns[k + 1..], toF32)
  {
    assert fns == fns[..k] + fns[k..];
    FunctionsCodeConcat(img, fns[..k], fns[k..], toF32);
    var rest := fns[k..];
    assert rest[0] == fns[k] && rest[1..] == fns[k + 1..];
  }

  /**
   * With distinct function names, function k's final entry address is the length of the code
   * of the functions before it, that code is a prefix of the final code (nothing later changes
   * it), and function k calls only functions that were in the table before it or are among
   * those earlier functions: in particular never itself or a later function.
   */
  lemma FunctionAddresses(img: ProgramImage, fns: seq<Function>, k: nat, toF32: real -> bv32)
    requires DistinctFunctions(fns) && k < |fns|
    requires FunctionsCode(img, fns, toF32).Success?
    ensures FunctionsCode(img, fns[..k], toF32).Success?
    ensures var out := FunctionsCode(img, fns, toF32).value;
      var pre := FunctionsCode(img, fns[..k], toF32).value;
      fns[k].name in out.data.functions &&
      out.data.functions[fns[k].name].address == |pre.code| &&
      pre.code <= out.code &&
      forall i :: 0 <= i < |fns[k].statements| ==>
        CalleesOf(StmtExpr(fns[k].statements[i])) <= img.data.functions.Keys + FunctionNames(fns[..k])
  {
    FunctionsCodeAt(img, fns, k, toF32);
    var pre := FunctionsCode(img, fns[..k], toF32).value;
    FunctionsFrame(img, fns[..k], toF32);
    var mid := FunctionCode(pre, fns[k], toF32).value;
    FunctionFrame(pre, fns[k], toF32);
    FunctionAppends(pre, fns[k], toF32);
    FunctionsFrame(mid, fns[k + 1..], toF32);
    DistinctNotLater(fns, k);
  }

  /** With distinct names, functions occupy the code in their order: earlier ones start strictly earlier. */
  lemma AddressesIncrease(img: ProgramImage, fns: seq<Function>, k: nat, l: nat, toF32: real -> bv32)
    requires DistinctFunctions(fns) && k < l < |fns|
    requires FunctionsCode(img, fns, toF32).Success?
    ensures var table := FunctionsCode(img, fns, toF32).value.data.functions;
      fns[k].name in table && fns[l].name in table &&
      table[fns[k].name].address < table[fns[l].name].address
  {
    FunctionAddresses(img, fns, k, toF32);
    FunctionAddresses(img, fns, l, toF32);
    var prefix := fns[..l];
    assert prefix[..k] == fns[..k] && prefix[k] == fns[k] && prefix[k + 1..] == fns[k + 1..l];
    FunctionsCodeAt(img, prefix, k, toF32);
    var preK := FunctionsCode(img, fns[..k], toF32).value;
    var mid := FunctionCode(preK, fns[k], toF32).value;
    FunctionAppends(preK, fns[k], toF32);
    FunctionsFrame(mid, fns[k + 1..l], toF32);
  }

  // ---------------------------------------------------------------------------------
  // The whole program
  // ---------------------------------------------------------------------------------

  /** True when no parameter after index i has the name of parameter i. */
  predicate LastOccurrence(ps: seq<Param>, i: nat)
    requires i < |ps|
  {
    forall j :: i < j < |ps| ==> ps[j].name != ps[i].name
  }

  /**
   * Parameter i gets the 4 bytes at offset + 4i as a static global of its declared type, unless
   * a later parameter reuses its name (the last one wins); names that are not parameters keep
   * their entries.
   */
  lemma {:induction false} AllocateGlobalsLayout(globals: map<string, SymbolMeta>, offset: nat, ps: seq<Param>)
    ensures forall i :: 0 <= i < |ps| && LastOccurrence(ps, i) ==>
      ps[i].name in AllocateGlobals(globals, offset, ps).0 &&
      AllocateGlobals(globals, offset, ps).0[ps[i].name] == SymbolMeta(offset + 4 * i, true, ps[i].typeKind)
    ensures forall n :: n in globals && n !in ParamNames(ps) ==> AllocateGlobals(globals, offset, ps).0[n] == globals[n]
    decreases |ps|
  {
    if ps != [] {
      var p := ps[0];
      var g := globals[p.name := SymbolMeta(offset, true, p.typeKind)];
      AllocateGlobalsLayout(g, offset + 4, ps[1..]);
      assert ParamNames(ps) == {p.name} + ParamNames(ps[1..]) by {
        assert forall q :: q in ps <==> q == p || q in ps[1..];
      }
      forall i | 0 <= i < |ps| && LastOccurrence(ps, i)
        ensures ps[i].name in AllocateGlobals(globals, offset, ps).0
        ensures AllocateGlobals(globals, offset, ps).0[ps[i].name] == SymbolMeta(offset + 4 * i, true, ps[i].typeKind)
      {
        if i == 0 {
          assert p.name !in ParamNames(ps[1..]) by {
            forall q | q in ps[1..] ensures q.name != p.name {
              var j :| 0 <= j < |ps[1..]| && ps[1..][j] == q;
              assert ps[j + 1] == q;
            }
          }
        } else {
          assert ps[1..][i - 1] == ps[i];
          assert LastOccurrence(ps[1..], i - 1) by {
            forall j | i - 1 < j < |ps[1..]| ensures ps[1..][j].name != ps[1..][i - 1].name {
              assert ps[1..][j] == ps[j + 1];
            }
          }
        }
      }
    }
  }

  /** Distinct names across both parameter lists: each is the last of its name, and no in-parameter is an out-parameter. */
  lemma DistinctParamsSplit(ins: seq<Param>, outs: seq<Param>)
    requires DistinctParams(ins + outs)
    ensures forall i :: 0 <= i < |ins| ==> LastOccurrence(ins, i) && ins[i].name !in ParamNames(outs)
    ensures forall j :: 0 <= j < |outs| ==> LastOccurrence(outs, j)
  {
    var all := ins + outs;
    forall i | 0 <= i < |ins| ensures LastOccurrence(ins, i) && ins[i].name !in ParamNames(outs) {
      assert ins[i] == all[i];
      forall j | i < j < |ins| ensures ins[j].name != ins[i].name {
        assert ins[j] == all[j];
      }
      forall q | q in outs ensures q.name != ins[i].name {
        var j :| 0 <= j < |outs| && outs[j] == q;
        assert outs[j] == all[|ins| + j];
      }
    }
    forall j | 0 <= j < |outs| ensures LastOccurrence(outs, j) {
      forall l | j < l < |outs| ensures outs[l].name != outs[j].name {
        assert outs[l] == all[|ins| + l] && outs[j] == all[|ins| + j];
      }
    }
  }

  /**
   * With distinct parameter names, in-parameter i lives at offset 4i and out-parameter j at
   * 4(n + j), n being the number of in-parameters, each static with its declared type, and
   * the globals are exactly the parameters.
   */
  lemma StaticLayoutOffsets(ast: Program)
    requires DistinctParams(ast.inParameters + ast.outParameters)
    ensures var (globals, size) := StaticLayout(ast);
      var (ins, outs) := (ast.inParameters, ast.outParameters);
      (forall i :: 0 <= i < |ins| ==>
         ins[i].name in globals && globals[ins[i].name] == SymbolMeta(4 * i, true, ins[i].typeKind)) &&
      (forall j :: 0 <= j < |outs| ==>
         outs[j].name in globals && globals[outs[j].name] == SymbolMeta(4 * (|ins| + j), true, outs[j].typeKind)) &&
      globals.Keys == ParamNames(ins) + ParamNames(outs) &&
      size == 4 * (|ins| + |outs|)
  {
    var (ins, outs) := (ast.inParameters, ast.outParameters);
    var (inGlobals, inEnd) := AllocateGlobals(map[], 0, ins);
    AllocateGlobalsLayout(map[], 0, ins);
    AllocateGlobalsLayout(inGlobals, inEnd, outs);
    DistinctParamsSplit(ins, outs);
  }

  /**
   * The generated program carries that layout: its globals are the parameters at those
   * offsets, its static section is 4 bytes per parameter and its minimum stack size is the
   * static section plus the 1024-byte margin.
   */
  lemma GlobalLayout(ast: Program, toF32: real -> bv32)
    requires DistinctParams(ast.inParameters + ast.outParameters)
    requires CodegenSpec(ast, toF32).Success?
    ensures var data := CodegenSpec(ast, toF32).value.data;
      var (ins, outs) := (ast.inParameters, ast.outParameters);
      (forall i :: 0 <= i < |ins| ==>
         ins[i].name in data.globalSymbols && data.globalSymbols[ins[i].name] == SymbolMeta(4 * i, true, ins[i].typeKind)) &&
      (forall j :: 0 <= j < |outs| ==>
         outs[j].name in data.globalSymbols &&
         data.globalSymbols[outs[j].name] == SymbolMeta(4 * (|ins| + j), true, outs[j].typeKind)) &&
      data.globalSymbols.Keys == ParamNames(ins) + ParamNames(outs) &&
      data.staticSectionSize == 4 * (|ins| + |outs|) &&
      data.minStackSize == data.staticSectionSize + 1024
  {
    StaticLayoutOffsets(ast);
    FunctionsFrame(GlobalsImage(StaticLayout(ast).0), ast.functions, toF32);
  }

  /**
   * A generated program decodes as a whole into instructions, and its function table holds
   * exactly the program's functions.
   */
  lemma ProgramDecodes(ast: Program, toF32: real -> bv32)
    requires CodegenSpec(ast, toF32).Success?
    ensures Disassemble(CodegenSpec(ast, toF32).value.code).Some?
    ensures CodegenSpec(ast, toF32).value.data.functions.Keys == FunctionNames(ast.functions)
  {
    var start := GlobalsImage(StaticLayout(ast).0);
    assert Disassemble(start.code) == Some([]);
    FunctionsFrame(start, ast.functions, toF32);
  }

  /**
   * With distinct function names: the first function starts at cell 0, every function starts
   * inside the code, and each calls only functions defined before it, never itself.
   */
  lemma ProgramCalls(ast: Program, k: nat, toF32: real -> bv32)
    requires DistinctFunctions(ast.functions) && k < |ast.functions|
    requires CodegenSpec(ast, toF32).Success?
    ensures var img := CodegenSpec(ast, toF32).value;
      var f := ast.functions[k];
      f.name in img.data.functions &&
      (k == 0 ==> img.data.functions[f.name].address == 0) &&
      img.data.functions[f.name].address < |img.code| &&
      f.name !in FunctionNames(ast.functions[..k]) &&
      forall i :: 0 <= i < |f.statements| ==> CalleesOf(StmtExpr(f.statements[i])) <= FunctionNames(ast.functions[..k])
  {
    var fns := ast.functions;
    var start := GlobalsImage(StaticLayout(ast).0);
    FunctionAddresses(start, fns, k, toF32);
    FunctionsCodeAt(start, fns, k, toF32);
    var pre := FunctionsCode(start, fns[..k], toF32).value;
    var mid := FunctionCode(pre, fns[k], toF32).value;
    FunctionAppends(pre, fns[k], toF32);
    FunctionsFrame(mid, fns[k + 1..], toF32);
    if k == 0 {
      assert fns[..k] == [];
    }
    assert fns[k].name !in FunctionNames(fns[..k]) by {
      forall f | f in fns[..k] ensures f.name != fns[k].name {
        var j :| 0 <= j < k && fns[..k][j] == f;
        assert fns[j] == f;
      }
    }
  }

  // ---------------------------------------------------------------------------------
  // Worked examples
  // ---------------------------------------------------------------------------------

  /** `in a: f32, in b: f32; fn main() { return a - b; }` */
  function DifferenceProgram(): Program {
    Program([Param("a", F32), Param("b", F32)], [],
            [Function("main", [Return(BinaryOp(BinaryOperator.Sub, Symbol("a"), Symbol("b")))])])
  }

  /** The globals of the difference program: `a` at 0 and `b` at 4, in an 8-byte static section. */
  lemma DifferenceLayout()
    ensures StaticLayout(DifferenceProgram()) == (map["a" := SymbolMeta(0, true, F32), "b" := SymbolMeta(4, true, F32)], 8)
  {
  }

  /** `a - b` with no locals loads both globals and subtracts. */
  lemma DifferenceExpr(data: ProgramData, fnc: FuncMeta, toF32: real -> bv32)
    requires data.globalSymbols == map["a" := SymbolMeta(0, true, F32), "b" := SymbolMeta(4, true, F32)]
    requires fnc.symbols == map[]
    ensures var e := BinaryOp(BinaryOperator.Sub, Symbol("a"), Symbol("b"));
      ExprCode(data, fnc, e, toF32).Success? &&
      Disassemble(ExprCode(data, fnc, e, toF32).value) == Some([Op(Load4Global, 0), Op(Load4Global, 4), Op(SubF32, 0)])
  {
    SymbolLowering(data, fnc, "a", toF32);
    SymbolLowering(data, fnc, "b", toF32);
    BinaryLowering(data, fnc, BinaryOperator.Sub, Symbol("a"), Symbol("b"), toF32);
    assert U16(0) == 0 && U16(4) == 4;
    assert [Op(Load4Global, 0)] + [Op(Load4Global, 4)] + [Op(SubF32, 0)] == [Op(Load4Global, 0), Op(Load4Global, 4), Op(SubF32, 0)];
  }

  /** The body of `main` is that expression followed by `Ret` with a frame of 0 bytes. */
  lemma DifferenceBody(data: ProgramData, toF32: real -> bv32)
    requires data.globalSymbols == map["a" := SymbolMeta(0, true, F32), "b" := SymbolMeta(4, true, F32)]
    ensures var e := BinaryOp(BinaryOperator.Sub, Symbol("a"), Symbol("b"));
      StmtsCode(data, EntryState([]), [Return(e)], toF32).Success? &&
      var st := StmtsCode(data, EntryState([]), [Return(e)], toF32).value;
      st.hasReturn &&
      Disassemble(st.code) == Some([Op(Load4Global, 0), Op(Load4Global, 4), Op(SubF32, 0), Op(Ret, 0)])
  {
    var e := BinaryOp(BinaryOperator.Sub, Symbol("a"), Symbol("b"));
    var entry := EntryState([]);
    DifferenceExpr(data, entry.meta, toF32);
    assert Disassemble([]) == Some([]);
    ReturnLowering(data, entry, e, toF32);
    var st := StmtCode(data, entry, Return(e), toF32).value;
    assert StmtsCode(data, entry, [Return(e)], toF32) == Success(st);
    assert U16(0) == 0;
    var ops := [Op(Load4Global, 0), Op(Load4Global, 4), Op(SubF32, 0)];
    assert [] + ops + [Op(Ret, 0)] == [Op(Load4Global, 0), Op(Load4Global, 4), Op(SubF32, 0), Op(Ret, 0)];
  }

  /** The whole difference program: that body at address 0, an 8-byte static section and a 1032-byte stack. */
  lemma DifferenceProgramCode(toF32: real -> bv32)
    ensures CodegenSpec(DifferenceProgram(), toF32).Success?
    ensures var img := CodegenSpec(DifferenceProgram(), toF32).value;
      Disassemble(img.code) == Some([Op(Load4Global, 0), Op(Load4Global, 4), Op(SubF32, 0), Op(Ret, 0)]) &&
      "main" in img.data.functions && img.data.functions["main"].address == 0 &&
      img.data.staticSectionSize == 8 && img.data.minStackSize == 1032
  {
    var ast := DifferenceProgram();
    DifferenceLayout();
    var start := GlobalsImage(StaticLayout(ast).0);
    DifferenceBody(start.data, toF32);
    var e := BinaryOp(BinaryOperator.Sub, Symbol("a"), Symbol("b"));
    var st := StmtsCode(start.data, EntryState([]), [Return(e)], toF32).value;
    var f := ast.functions[0];
    assert f.statements == [Return(e)];
    assert FunctionCode(start, f, toF32) == Success(ProgramImage(st.code, start.data.(functions := map["main" := st.meta])));
    assert ast.functions[1..] == [];
  }

  /** The frame size 8 fits an immediate unchanged. */
  lemma U16Eight()
    ensures U16(8) == 8
  {
  }

  /** `fn f() { x = 1.0; x = x; }`: a local assigned twice, and no return. */
  function RebindFunction(): Function {
    Function("f", [Assignment("x", Literal(DecimalLiteral(1.0))), Assignment("x", Symbol("x"))])
  }

  /** After the first assignment `x` is the local at offset 0 and the code is one push of 1.0. */
  lemma RebindFirst(data: ProgramData, toF32: real -> bv32)
    requires data.globalSymbols == map[]
    ensures var st := StmtCode(data, EntryState([]), RebindFunction().statements[0], toF32);
      st.Success? && st.value.meta.symbols == map["x" := SymbolMeta(0, false, F32)] &&
      st.value.stackOffset == 4 && !st.value.hasReturn && st.value.meta.address == 0 &&
      Disassemble(st.value.code) == Some([PushF32(toF32(1.0))])
  {
    LiteralLowering(data, EntryState([]).meta, DecimalLiteral(1.0), toF32);
    assert [] + [PlainInst(ConstF32), Raw(toF32(1.0))] == [PlainInst(ConstF32), Raw(toF32(1.0))];
  }

  /** The second assignment loads slot 0 and rebinds `x` to a new slot at offset 4. */
  lemma RebindSecond(data: ProgramData, st: FnState, toF32: real -> bv32)
    requires data.globalSymbols == map[]
    requires st.meta.symbols == map["x" := SymbolMeta(0, false, F32)] && st.stackOffset == 4
    requires Disassemble(st.code) == Some([PushF32(toF32(1.0))])
    ensures var next := StmtCode(data, st, RebindFunction().statements[1], toF32);
      next.Success? && next.value.meta.symbols == map["x" := SymbolMeta(4, false, F32)] &&
      next.value.stackOffset == 8 && next.value.hasReturn == st.hasReturn && next.value.meta.address == st.meta.address &&
      Disassemble(next.value.code) == Some([PushF32(toF32(1.0)), Op(Load4, 0)])
  {
    SymbolLowering(data, st.meta, "x", toF32);
    AssignmentLowering(data, st, "x", Symbol("x"), toF32);
    var c := ExprCode(data, st.meta, Symbol("x"), toF32).value;
    assert U16(0) == 0;
    assert Disassemble(c) == Some([Op(Load4, 0)]);
    DisassembleAppend(st.code, c);
    assert [PushF32(toF32(1.0))] + [Op(Load4, 0)] == [PushF32(toF32(1.0)), Op(Load4, 0)];
  }

  /**
   * Lowering `f`: every assignment to a non-global name takes a new slot, so `x` ends at offset
   * 4 in an 8-byte frame, and the missing return is supplied as `Void; Ret 8`.
   */
  lemma RebindFunctionCode(toF32: real -> bv32)
    ensures FunctionCode(GlobalsImage(map[]), RebindFunction(), toF32).Success?
    ensures var img := FunctionCode(GlobalsImage(map[]), RebindFunction(), toF32).value;
      Disassemble(img.code) == Some([PushF32(toF32(1.0)), Op(Load4, 0), Op(Void, 0), Op(Ret, 8)]) &&
      img.data.functions == map["f" := FuncMeta(0, map["x" := SymbolMeta(4, false, F32)])]
  {
    var start := GlobalsImage(map[]);
    var stmts := RebindFunction().statements;
    RebindFirst(start.data, toF32);
    var st1 := StmtCode(start.data, EntryState([]), stmts[0], toF32).value;
    RebindSecond(start.data, st1, toF32);
    var st2 := StmtCode(start.data, st1, stmts[1], toF32).value;
    assert stmts[1..][1..] == [];
    assert StmtsCode(start.data, EntryState([]), stmts, toF32) == Success(st2);
    var img := FunctionCode(start, RebindFunction(), toF32).value;
    assert img.code == st2.code + ImplicitReturn(8);
    assert img.data.functions == map["f" := st2.meta];
    ImplicitReturnDecodes(8);
    DisassembleAppend(st2.code, ImplicitReturn(8));
    U16Eight();
    assert [PushF32(toF32(1.0)), Op(Load4, 0)] + [Op(Void, 0), Op(Ret, 8)]
        == [PushF32(toF32(1.0)), Op(Load4, 0), Op(Void, 0), Op(Ret, 8)];
  }
}
