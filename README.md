# shader-thing code generator, modelled in Dafny

This project models the bytecode code generator of the shader-thing shading language
(`src/shadelang/compiler.rs`). The generator takes a constant-folded program and builds a
`VMProgram`. The program has in- and out-parameters and a list of functions. The
`VMProgram` holds a vector of 32-bit memory cells and the program's tables:

- in-parameters and then out-parameters get 4-byte slots of a static section, in order, as
  globals;
- each function's statements are lowered in order. An expression's code is appended in
  post-order. An assignment to a global stores the value with `Mov4Global`. An assignment to
  any other name binds that name to the next 4-byte stack slot and emits no store. A return
  emits `Ret` with the current stack offset. A function with no return gets `Void; Ret`;
- a function enters the function table, at the address where its code starts, only after its
  body is lowered;
- the static-section size is recorded, and the minimum stack size is that size plus 1024;
- an instruction cell holds the opcode's discriminant in bits 0-15 and a 16-bit immediate in
  bits 16-31. A float literal is a `ConstF32` cell followed by one raw cell with the value's
  bits.

Modules:

- `Wrappers` (`wrappers.dfy`): `Option`, `Result`, `Outcome`.
- `Ast` (`ast.dfy`): the slice of the syntax tree the generator matches on.
- `Bytecode` (`bytecode.dfy`): opcodes, memory cells, `get_inst`, and a disassembler
  `Disassemble` that reads a cell stream back as instructions.
- `Symbols` (`symbols.dfy`): `SymbolMeta`, `FuncMeta`, `ProgramData` and the errors that abort
  generation.
- `Lowering` (`lowering.dfy`): the generator as functions on values. These are the
  specifications.
- `Compiler` (`compiler.dfy`): the generator as the source runs it. The class `VMProgram` has
  `code` and `data` fields that the methods update in place. The loops and the recursive
  `generate_expr` are methods, each proved to compute its `Lowering` function.
- `LoweringFacts` (`lowering_facts.dfy`): the properties. They are proved on the `Lowering`
  functions, against reference definitions (`Supported`, `SymbolsOf`, `CalleesOf`,
  `WordCount`, `LocalAllocations`) and against the disassembled stream.

The conversion of a literal's value to `f32` bits is a function parameter, `toF32`.
A panic of the source (`unwrap` of a missing function, the `panic!` for an unknown symbol,
`unimplemented!`) becomes a `Failure` with a `CodegenError`. Generation stops there.

## Model

| member | source | states |
|---|---|---|
| Bytecode.Tag | src/shadelang/compiler.rs:160-184 | the `#[repr(u16)]` discriminant of every opcode is below 18 |
| Bytecode.OpCodeOf | src/shadelang/compiler.rs:160-184 | a tag names an opcode exactly when it is below 18, and then that opcode's discriminant is the tag |
| Bytecode.OpCodeOfTag | src/shadelang/compiler.rs:160-184 | distinct opcodes have distinct discriminants: reading an opcode's tag gives that opcode back |
| Bytecode.PackSplit | src/shadelang/compiler.rs:256-266 | a low and a high half-word packed with `\|` and `<< 16` come back unchanged through `& 0xFFFF` and `>> 16` |
| Bytecode.WithDataLayout | src/shadelang/compiler.rs:256-260 | `with_data` puts the tag in bits 0-15 and the immediate in bits 16-31 |
| Bytecode.WithDataRoundTrip | src/shadelang/compiler.rs:256-267 | `get_inst(with_data(op, d)) == (op, d)` |
| Bytecode.PlainInstRoundTrip | src/shadelang/compiler.rs:250-267 | `plain_inst(op)` is `with_data(op, 0)`, and `get_inst` of it is `(op, 0)` |
| Bytecode.GetInstInverse | src/shadelang/compiler.rs:256-267 | every cell whose tag is an opcode is the `with_data` encoding of what `get_inst` reads from it |
| Bytecode.DisassembleAppend | src/shadelang/compiler.rs:118-124 | reading a stream back is compositional: a decodable prefix reads the same with anything after it |
| Bytecode.DisassembleInst | src/shadelang/compiler.rs:256-267 | a single `with_data` cell of a non-`ConstF32` opcode reads as that one instruction |
| Bytecode.DisassemblePush | src/shadelang/compiler.rs:118-124 | a `ConstF32` cell followed by one raw cell reads as one float push of the raw cell's bits |
| Lowering.AllocateGlobals | src/shadelang/compiler.rs:17-41 | allocating parameters from an offset ends 4 bytes per parameter later and binds exactly the parameters' names |
| Compiler.VMProgram.constructor | src/shadelang/compiler.rs:276-282 | a new program has no code and empty tables with sizes 0 |
| Compiler.GenerateExpr | src/shadelang/compiler.rs:96-158 | appends exactly the cells of `ExprCode`, or fails with its error; the tables are unchanged |
| Compiler.GenerateStatement | src/shadelang/compiler.rs:49-76 | lowers one statement in place: the new code, bindings, stack offset and return flag are `StmtCode`'s, or its error |
| Compiler.GenerateFunction | src/shadelang/compiler.rs:43-88 | lowers one function in place, with the statement loop's invariant; the new program is `FunctionCode`'s, or its error |
| Compiler.AllocateParams | src/shadelang/compiler.rs:17-41 | the parameter loop leaves the code alone and sets the globals and the next offset to `AllocateGlobals`'s |
| Compiler.Codegen | src/shadelang/compiler.rs:13-94 | whole-program generation succeeds exactly when `CodegenSpec` does, and then returns a fresh program whose code and tables are `CodegenSpec`'s |
| LoweringFacts.ExprCodeSucceedsIff | src/shadelang/compiler.rs:96-158 | an expression lowers exactly when its form is supported and all its symbols and callees are bound |
| LoweringFacts.ExprCodeErrorCause | src/shadelang/compiler.rs:111-156 | a failure names its cause: a symbol of the expression bound nowhere, a callee not in the table, or an unsupported form |
| LoweringFacts.ExprCodeLength | src/shadelang/compiler.rs:96-158 | a lowered expression takes `WordCount` cells: 1 per load, call or operator, 2 per literal, 3 more per negation |
| LoweringFacts.ExprCodeDecodes | src/shadelang/compiler.rs:96-158 | the code of every lowered expression reads back as a well-formed instruction sequence |
| LoweringFacts.NegationTailDecodes | src/shadelang/compiler.rs:144-149 | the three cells after a negated operand read as a push of the bits of -1.0 and one `MulF32` |
| LoweringFacts.BinaryLowering | src/shadelang/compiler.rs:98-109 | a binary operation reads as left operand, right operand, then the operator's float opcode (`AddF32`/`SubF32`/`MulF32`/`DivF32`) |
| LoweringFacts.NegationLowering | src/shadelang/compiler.rs:141-150 | negation reads as operand, push -1.0, `MulF32`, and is 3 cells longer than its operand |
| LoweringFacts.LiteralLowering | src/shadelang/compiler.rs:118-126 | a literal lowers exactly when it is decimal, to two cells that read as one push of its bits; any other literal fails |
| LoweringFacts.CallLowering | src/shadelang/compiler.rs:111-116 | a call lowers exactly when the callee is in the table, to one `Call` with its address, whatever the arguments; else it fails naming the callee |
| LoweringFacts.SymbolLowering | src/shadelang/compiler.rs:127-139 | a symbol is a `Load4` of its local slot when it is a local, else a `Load4Global` of its global slot, and fails naming it when it is neither |
| LoweringFacts.UnsupportedForms | src/shadelang/compiler.rs:151-156 | a non-negation unary operator and every unmatched expression form fail |
| LoweringFacts.AssignmentLowering | src/shadelang/compiler.rs:50-67 | assigning to a global appends one `Mov4Global` with the global's offset and binds nothing; any other target gets no store, is bound to the current stack offset as a non-static `f32` with other bindings kept, and the offset moves by 4 |
| LoweringFacts.ReturnLowering | src/shadelang/compiler.rs:69-75 | a return appends its value's code and `Ret` with the current stack offset, and marks the function as returning |
| LoweringFacts.StmtCodeFailure | src/shadelang/compiler.rs:51-70 | a statement fails exactly when its expression does, with the same error |
| LoweringFacts.StmtFrame | src/shadelang/compiler.rs:49-76 | one statement keeps the entry address, moves the stack offset by 4 exactly when it allocates, and sets the return flag exactly for a return |
| LoweringFacts.StmtLocals | src/shadelang/compiler.rs:57-66 | one statement binds exactly the target of an allocating assignment, and keeps locals aligned, below the stack offset, non-static `f32` |
| LoweringFacts.StmtCodeAppends | src/shadelang/compiler.rs:49-76 | one statement only appends (at least one cell for a return), keeps the code decodable and calls only functions in the table |
| LoweringFacts.StmtsFrame | src/shadelang/compiler.rs:46-77 | over a statement list the stack offset grows by 4 per allocating assignment, the return flag is set exactly when some statement is a return, and the locals are exactly the allocated targets, aligned, below the frame, non-static `f32` |
| LoweringFacts.StmtsAppends | src/shadelang/compiler.rs:48-77 | over a statement list the code is only appended to and stays decodable, and every call is to a function already in the table |
| LoweringFacts.StmtsCodeConcat | src/shadelang/compiler.rs:48-77 | lowering a concatenation of statement lists lowers the first and continues from the state it leaves |
| LoweringFacts.LocalSlot | src/shadelang/compiler.rs:46-66 | slots start at 0 in every function: an assignment to a non-global name binds it to 4 times the number of allocating assignments before it |
| LoweringFacts.ImplicitReturnDecodes | src/shadelang/compiler.rs:78-83 | the implicit return reads as `Void` then `Ret` with the frame size |
| LoweringFacts.FunctionFrame | src/shadelang/compiler.rs:43-88 | a function's entry address is the code length when it starts; its locals fill a frame of 4 bytes per allocation; `Void; Ret frame` is appended exactly when it has no return; only its own table entry changes |
| LoweringFacts.FunctionAppends | src/shadelang/compiler.rs:43-88 | a function appends at least one cell and only appends, keeps the code decodable, and calls only functions entered before it, so never itself |
| LoweringFacts.FunctionsFrame | src/shadelang/compiler.rs:43-89 | the function loop only appends to the code, keeps globals and sizes, adds exactly the functions' names to the table and keeps every other entry |
| LoweringFacts.FunctionsCodeConcat | src/shadelang/compiler.rs:43-89 | lowering a concatenation of function lists lowers the first and continues from its image |
| LoweringFacts.FunctionsCodeAt | src/shadelang/compiler.rs:43-89 | lowering a function list is the functions before k, then function k, then the rest |
| LoweringFacts.FunctionAddresses | src/shadelang/compiler.rs:43-88 | with distinct names, function k's final address is the length of the earlier functions' code; that code is a prefix of the final code; function k calls only earlier functions |
| LoweringFacts.AddressesIncrease | src/shadelang/compiler.rs:43-89 | with distinct names, earlier functions start at strictly smaller addresses |
| LoweringFacts.AllocateGlobalsLayout | src/shadelang/compiler.rs:17-41 | parameter i gets offset (start + 4i), static, with its declared type, unless a later parameter reuses its name (the last wins); other names keep their entries |
| LoweringFacts.StaticLayoutOffsets | src/shadelang/compiler.rs:13-41 | with distinct names, in-parameter i is at 4i and out-parameter j at 4(n + j); the globals are exactly the parameters; the section is 4(n + m) bytes |
| LoweringFacts.GlobalLayout | src/shadelang/compiler.rs:13-92 | a generated program carries that layout, its static-section size is 4(n + m), and its minimum stack size is that plus 1024 |
| LoweringFacts.ProgramDecodes | src/shadelang/compiler.rs:13-94 | a generated program's code reads back as a whole as instructions, and its function table holds exactly the program's functions |
| LoweringFacts.ProgramCalls | src/shadelang/compiler.rs:43-89 | with distinct names, the first function starts at 0, every function starts inside the code, and each calls only functions defined before it, never itself |
| LoweringFacts.DifferenceExpr | src/shadelang/compiler.rs:98-136 | `a - b` over two globals reads as `Load4Global 0; Load4Global 4; SubF32` |
| LoweringFacts.DifferenceBody | src/shadelang/compiler.rs:69-75 | `return a - b` adds `Ret 0` to that |
| LoweringFacts.DifferenceProgramCode | src/shadelang/compiler.rs:13-94 | the program `in a, b; fn main() { return a - b; }` compiles to those four instructions at address 0, with an 8-byte static section and a 1032-byte minimum stack |
| LoweringFacts.RebindFirst | src/shadelang/compiler.rs:57-66 | `x = 1.0` binds `x` to slot 0 and emits one float push |
| LoweringFacts.RebindSecond | src/shadelang/compiler.rs:57-66 | a second `x = x` loads slot 0 and then rebinds `x` to a new slot at 4 |
| LoweringFacts.RebindFunctionCode | src/shadelang/compiler.rs:43-88 | `fn f() { x = 1.0; x = x; }` reads as `push 1.0; Load4 0; Void; Ret 8`, and `f` enters the table at address 0 with `x` at offset 4 |

## Left out

- `compile` and constant folding (`src/shadelang/compiler.rs:3`, `7-11`): the folding module
  is not part of this model. `Codegen` models `codegen` directly, and its input is taken as
  already folded.
- `COUNTER` (`src/shadelang/compiler.rs:5`): global mutable state that nothing uses.
- The `Debug` impl of `MemoryCell` (`src/shadelang/compiler.rs:234-243`): formatting only.
- `src/shadelang/builtins/functions/basics.rs`: float arithmetic behind a procedural macro.
  The generator never consults it.
- Float values: `f as f32` and its `transmute` to `u32` become the parameter `toF32`. IEEE-754
  rounding is not modelled. The bits of `-1.0` are the constant `0xBF80_0000`.
- `get_inst` on a tag above 17 is an unchecked `transmute` and undefined behaviour in the
  source. `GetInst` returns `None` there. The round trip is stated only for cells built by
  `with_data` and `plain_inst`.
- `usize` overflow of offsets and addresses is not modelled: they are unbounded `nat`. Their
  truncation to a 16-bit immediate by `as u16` is modelled (`U16`, modulo 65536).
- The parameter `ast` of `generate_expr` is never read in the source and is dropped.
- Source spans and the front end's identifier wrappers are dropped. Expression, literal and
  unary-operator variants that the generator does not lower are collapsed into `OtherExpr`,
  `OtherLiteral` and `OtherUnary`. The AST module is not part of this model.
- `HashMap` is modelled as a Dafny `map`, so its iteration order and hashing do not
  appear. Nothing in the generator depends on them.
- After a panic the source's program object is gone. Accordingly the methods promise nothing
  about `code` once they report a failure.
- A local is allocated on every assignment to a non-global name, including a name that is
  already a local (see `RebindFunctionCode`). A description of the language that says a local
  is allocated only the first time its name is assigned disagrees with
  `src/shadelang/compiler.rs:57-66`. The model follows the code.
- `GlobalLayout`, `StaticLayoutOffsets`, `FunctionAddresses`, `AddressesIncrease` and
  `ProgramCalls` assume distinct parameter or function names. Without them a later
  declaration silently wins: `AllocateGlobalsLayout` covers parameters, and a function is
  re-entered under its name.
