/**
 * The instruction-word encoding: an opcode tag in bits 0-15 and a 16-bit immediate in
 * bits 16-31 of one 32-bit memory cell, plus untagged raw cells carrying operand data.
 */
module Bytecode {
  import opened Wrappers

  /** The opcode vocabulary, in declaration order (its discriminants are 0..17). */
  datatype OpCode =
    | AddI32 | SubI32 | MulI32 | DivI32
    | AddF32 | SubF32 | MulF32 | DivF32
    | ConstF32 | Void | Mov4 | Load4 | Mov4Global | Load4Global
    | Ret | Call | Jmp | JmpIf

  /** Number of opcodes; tags at or above this value name no opcode. */
  const OpCodeCount: bv16 := 18

  /** The `#[repr(u16)]` discriminant of an opcode. */
  function Tag(op: OpCode): (t: bv16)
    ensures t < OpCodeCount
  {
    match op
    case AddI32 => 0
    case SubI32 => 1
    case MulI32 => 2
    case DivI32 => 3
    case AddF32 => 4
    case SubF32 => 5
    case MulF32 => 6
    case DivF32 => 7
    case ConstF32 => 8
    case Void => 9
    case Mov4 => 10
    case Load4 => 11
    case Mov4Global => 12
    case Load4Global => 13
    case Ret => 14
    case Call => 15
    case Jmp => 16
    case JmpIf => 17
  }

  /** Checked reading of a tag: fails exactly for tags that name no opcode. */
  function OpCodeOf(t: bv16): (r: Option<OpCode>)
    ensures r.Some? <==> t < OpCodeCount
    ensures r.Some? ==> Tag(r.value) == t
  {
    if t == 0 then Some(AddI32)
    else if t == 1 then Some(SubI32)
    else if t == 2 then Some(MulI32)
    else if t == 3 then Some(DivI32)
    else if t == 4 then Some(AddF32)
    else if t == 5 then Some(SubF32)
    else if t == 6 then Some(MulF32)
    else if t == 7 then Some(DivF32)
    else if t == 8 then Some(ConstF32)
    else if t == 9 then Some(Void)
    else if t == 10 then Some(Mov4)
    else if t == 11 then Some(Load4)
    else if t == 12 then Some(Mov4Global)
    else if t == 13 then Some(Load4Global)
    else if t == 14 then Some(Ret)
    else if t == 15 then Some(Call)
    else if t == 16 then Some(Jmp)
    else if t == 17 then Some(JmpIf)
    else None
  }

  /** Distinct opcodes have distinct tags, so reading a tag gives its opcode back. */
  lemma OpCodeOfTag(op: OpCode)
    ensures OpCodeOf(Tag(op)) == Some(op)
  {
  }

  /** Truncation of an offset or address by `as u16`. */
  function U16(n: nat): bv16 {
    (n % 0x1_0000) as bv16
  }

  /** One cell of the instruction stream. */
  datatype MemoryCell = MemoryCell(data: bv32)

  /** An untagged cell holding operand data. */
  function Raw(data: bv32): MemoryCell {
    MemoryCell(data)
  }

  /** Splits a cell into its opcode and immediate; `None` when the low half names no opcode. */
  function GetInst(cell: MemoryCell): Option<(OpCode, bv16)> {
    var low := (cell.data & 0xFFFF) as bv16;
    var high := (cell.data >> 16) as bv16;
    match OpCodeOf(low)
    case None => None
    case Some(op) => Some((op, high))
  }

  /** An instruction with the given immediate: tag in bits 0-15, immediate in bits 16-31. */
  function WithData(op: OpCode, imm: bv16): MemoryCell {
    MemoryCell((Tag(op) as bv32) | ((imm as bv32) << 16))
  }

  /** An instruction whose immediate is zero. */
  function PlainInst(op: OpCode): MemoryCell {
    MemoryCell(Tag(op) as bv32)
  }

  /** Packing two halves and splitting them again gives both halves back. */
  lemma PackSplit(low: bv16, high: bv16)
    ensures ((low as bv32) | ((high as bv32) << 16)) & 0xFFFF == low as bv32
    ensures ((low as bv32) | ((high as bv32) << 16)) >> 16 == high as bv32
    ensures ((((low as bv32) | ((high as bv32) << 16)) & 0xFFFF) as bv16) == low
    ensures ((((low as bv32) | ((high as bv32) << 16)) >> 16) as bv16) == high
  {
    NarrowWiden(low);
    NarrowWiden(high);
  }

  /** Widening a half-word and narrowing it again is the identity. */
  lemma NarrowWiden(h: bv16)
    ensures (h as bv32) as bv16 == h
  {
  }

  /** The tag sits in bits 0-15 and the immediate in bits 16-31. */
  lemma WithDataLayout(op: OpCode, imm: bv16)
    ensures WithData(op, imm).data & 0xFFFF == Tag(op) as bv32
    ensures WithData(op, imm).data >> 16 == imm as bv32
  {
    PackSplit(Tag(op), imm);
  }

  /** Decoding an instruction gives back its opcode and immediate. */
  lemma WithDataRoundTrip(op: OpCode, imm: bv16)
    ensures GetInst(WithData(op, imm)) == Some((op, imm))
  {
    PackSplit(Tag(op), imm);
    OpCodeOfTag(op);
  }

  /** A plain instruction is the instruction with immediate zero. */
  lemma PlainInstRoundTrip(op: OpCode)
    ensures PlainInst(op) == WithData(op, 0)
    ensures GetInst(PlainInst(op)) == Some((op, 0))
  {
    WithDataRoundTrip(op, 0);
  }

  /** Every cell that decodes is the encoding of what it decodes to. */
  lemma GetInstInverse(cell: MemoryCell)
    requires GetInst(cell).Some?
    ensures WithData(GetInst(cell).value.0, GetInst(cell).value.1) == cell
  {
    var w := cell.data;
    assert w == (w & 0xFFFF) | ((w >> 16) << 16);
  }

  /** A decoded instruction; a float push owns the raw cell that follows its opcode cell. */
  datatype Instruction = Op(op: OpCode, imm: bv16) | PushF32(bits: bv32)

  /**
   * Reads the instruction at the head of a non-empty stream with the number of cells it
   * occupies: the cell after a `ConstF32` is that push's raw operand. `None` when the tag
   * names no opcode or a `ConstF32` has no trailing cell. The immediate of a `ConstF32`
   * cell is not used.
   */
  function DecodeHead(code: seq<MemoryCell>): (r: Option<(Instruction, nat)>)
    requires code != []
    ensures r.Some? ==> 1 <= r.value.1 <= |code|
  {
    match GetInst(code[0])
    case None => None
    case Some((op, imm)) =>
      if op != ConstF32 then Some((Op(op, imm), 1))
      else if |code| < 2 then None
      else Some((PushF32(code[1].data), 2))
  }

  /** Reads a whole instruction stream, instruction by instruction, as its consumer must. */
  function Disassemble(code: seq<MemoryCell>): Option<seq<Instruction>>
    decreases |code|
  {
    if code == [] then Some([])
    else
      var (inst, width) :- DecodeHead(code);
      var rest :- Disassemble(code[width..]);
      Some([inst] + rest)
  }

  /** Appending cells does not change how a complete head instruction reads. */
  lemma DecodeHeadAppend(a: seq<MemoryCell>, b: seq<MemoryCell>)
    requires a != [] && DecodeHead(a).Some?
    ensures DecodeHead(a + b) == DecodeHead(a)
  {
    assert (a + b)[0] == a[0];
    if |a| >= 2 {
      assert (a + b)[1] == a[1];
    }
  }

  /** Decoding distributes over concatenation once the first part decodes by itself. */
  lemma {:induction false} DisassembleAppend(a: seq<MemoryCell>, b: seq<MemoryCell>)
    requires Disassemble(a).Some?
    ensures Disassemble(a + b) ==
      if Disassemble(b).Some? then Some(Disassemble(a).value + Disassemble(b).value) else None
    decreases |a|
  {
    if a == [] {
      assert a + b == b;
      if Disassemble(b).Some? {
        assert Disassemble(a).value + Disassemble(b).value == Disassemble(b).value;
      }
    } else {
      DecodeHeadAppend(a, b);
      var width := DecodeHead(a).value.1;
      assert (a + b)[width..] == a[width..] + b;
      DisassembleAppend(a[width..], b);
      if Disassemble(b).Some? {
        AppendAssoc([DecodeHead(a).value.0], Disassemble(a[width..]).value, Disassemble(b).value);
      }
    }
  }

  /** A single instruction cell decodes to that instruction. */
  lemma DisassembleInst(op: OpCode, imm: bv16)
    requires op != ConstF32
    ensures Disassemble([WithData(op, imm)]) == Some([Op(op, imm)])
  {
    var code := [WithData(op, imm)];
    WithDataRoundTrip(op, imm);
    assert GetInst(code[0]) == Some((op, imm));
    assert code[1..] == [];
    assert Disassemble(code[1..]) == Some([]);
    assert Disassemble(code).Some?;
    assert Disassemble(code).value == [Op(op, imm)] + [];
    assert [Op(op, imm)] + [] == [Op(op, imm)];
  }

  /** A `ConstF32` cell followed by one raw cell decodes to one float push. */
  lemma DisassemblePush(bits: bv32)
    ensures Disassemble([PlainInst(ConstF32), Raw(bits)]) == Some([PushF32(bits)])
  {
    var code := [PlainInst(ConstF32), Raw(bits)];
    PlainInstRoundTrip(ConstF32);
    assert GetInst(code[0]) == Some((ConstF32, 0));
    assert code[2..] == [];
    assert Disassemble(code[2..]) == Some([]);
    assert Disassemble(code).Some?;
    assert Disassemble(code).value == [PushF32(bits)] + [];
    assert [PushF32(bits)] + [] == [PushF32(bits)];
  }
}
