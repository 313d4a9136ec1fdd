/** The integer rows of the instruction table that the back end uses (`core/machine_code.h:1062-1083,
    1153-1165, 1187-1205` and the rows of the named mnemonics), and which instruction the bytes of each
    row stand for. */
module InstructionTable {
  import opened Wrappers
  import opened Bytes
  import opened Encoder

  /** `Alu` covers ADD, OR, AND, SUB, XOR and CMP by their digits 0, 1, 4, 5, 6 and 7. */
  datatype Mnemonic =
    | Alu(digit: nat) | Mov | Test | Lea | Movzx | Movsx | Movsxd
    | Not | Neg | Mul | Imul | Div | Idiv
    | Push | Pop | Call | Jmp | Jcc(code: nat) | Setcc(code: nat) | Ret | Cqo | Int3

  /** The variants, named by their operands. */
  datatype Form =
    | RmR(size: Size) | RRm(size: Size) | RmImm(size: Size) | Rm(size: Size)
    | RImm64 | Rel8 | Rel32 | NoArg | Narrow(size: Size, from: Size)

  function FullImmediate(size: Size): nat {
    match size case S8 => 1 case S16 => 2 case _ => 4
  }

  /** The opcode of an 8-bit form or the one after it. */
  function Sized(opcode: Byte, size: Size): Byte
    requires opcode < 255
  {
    if size == S8 then opcode else opcode + 1
  }

  predicate AluDigit(d: nat) {
    d == 0 || d == 1 || (4 <= d <= 7)
  }

  /** The digits of the one-operand group F6/F7. */
  function UnaryDigit(m: Mnemonic): Option<nat> {
    match m
    case Not => Some(2)
    case Neg => Some(3)
    case Mul => Some(4)
    case Imul => Some(5)
    case Div => Some(6)
    case Idiv => Some(7)
    case _ => None
  }

  function RegRm(opcode: Byte, size: Size): Option<Row> {
    Some(Row(false, opcode, RegAndRm, size, 0, false))
  }

  function RowOf(m: Mnemonic, f: Form): Option<Row> {
    match (m, f)
    case (Alu(d), RmR(s)) => if AluDigit(d) then RegRm(Sized(8 * d, s), s) else None
    case (Alu(d), RRm(s)) => if AluDigit(d) then RegRm(Sized(8 * d + 2, s), s) else None
    case (Alu(d), RmImm(s)) =>
      if AluDigit(d) then Some(Row(false, Sized(0x80, s), RmOnly(d), s, FullImmediate(s), false)) else None
    case (Mov, RmR(s)) => RegRm(Sized(0x88, s), s)
    case (Mov, RRm(s)) => RegRm(Sized(0x8A, s), s)
    case (Mov, RmImm(s)) => Some(Row(false, Sized(0xC6, s), RmOnly(0), s, FullImmediate(s), false))
    case (Mov, RImm64) => Some(Row(false, 0xB8, InOpcode, S64, 8, false))
    case (Test, RmR(s)) => RegRm(Sized(0x84, s), s)
    case (Test, RmImm(s)) => Some(Row(false, Sized(0xF6, s), RmOnly(0), s, FullImmediate(s), false))
    case (Lea, RRm(s)) => if s != S8 then RegRm(0x8D, s) else None
    case (Imul, RRm(s)) => if s != S8 then Some(Row(true, 0xAF, RegAndRm, s, 0, false)) else None
    case (Movzx, Narrow(s, from)) => NarrowRow(0xB6, s, from)
    case (Movsx, Narrow(s, from)) => NarrowRow(0xBE, s, from)
    case (Movsxd, Narrow(S64, S32)) => RegRm(0x63, S64)
    case (Push, Rm(S64)) => Some(Row(false, 0xFF, RmOnly(6), S64, 0, true))
    case (Pop, Rm(S64)) => Some(Row(false, 0x8F, RmOnly(0), S64, 0, true))
    case (Call, Rm(S64)) => Some(Row(false, 0xFF, RmOnly(2), S64, 0, true))
    case (Jmp, Rm(S64)) => Some(Row(false, 0xFF, RmOnly(4), S64, 0, true))
    case (Call, Rel32) => Some(Row(false, 0xE8, NoOperand, S32, 4, false))
    case (Jmp, Rel8) => Some(Row(false, 0xEB, NoOperand, S32, 1, false))
    case (Jmp, Rel32) => Some(Row(false, 0xE9, NoOperand, S32, 4, false))
    case (Jcc(c), Rel8) => if c < 16 then Some(Row(false, 0x70 + c, NoOperand, S32, 1, false)) else None
    case (Jcc(c), Rel32) => if c < 16 then Some(Row(true, 0x80 + c, NoOperand, S32, 4, false)) else None
    case (Setcc(c), Rm(S8)) => if c < 16 then Some(Row(true, 0x90 + c, RmOnly(0), S8, 0, false)) else None
    case (Ret, NoArg) => Some(Row(false, 0xC3, NoOperand, S32, 0, false))
    case (Cqo, NoArg) => Some(Row(false, 0x99, NoOperand, S64, 0, false))
    case (Int3, NoArg) => Some(Row(false, 0xCC, NoOperand, S32, 0, false))
    case (_, Rm(s)) =>
      if UnaryDigit(m).Some? then Some(Row(false, Sized(0xF6, s), RmOnly(UnaryDigit(m).value), s, 0, false)) else None
    case _ => None
  }

  /** The 16-bit destination of a byte is left out: it is written like the 32-bit one. */
  function NarrowRow(opcode: Byte, s: Size, from: Size): Option<Row>
    requires opcode < 255
  {
    if (s == S32 || s == S64) && (from == S8 || from == S16) then Some(Row(true, Sized(opcode, from), RegAndRm, s, 0, false))
    else None
  }

  // ---- reading the table backwards ---------------------------------------------------------------

  function SizeOf(f: Fields): Size {
    if f.wide then S64 else if f.operand16 then S16 else S32
  }

  /** A byte form where the opcode is even, a full-size one where it is odd. */
  function SizeBy(low: bool, f: Fields): Size {
    if low then S8 else SizeOf(f)
  }

  function UnaryOf(digit: nat): Option<Mnemonic> {
    if digit == 2 then Some(Not) else if digit == 3 then Some(Neg) else if digit == 4 then Some(Mul)
    else if digit == 5 then Some(Imul) else if digit == 6 then Some(Div) else if digit == 7 then Some(Idiv) else None
  }

  /** What the processor takes the fields for. */
  function Lookup(f: Fields): Option<(Mnemonic, Form)> {
    if f.escape then LookupEscaped(f)
    else if f.opcode < 0x40 then
      var low := f.opcode % 2 == 0;
      if f.opcode % 8 < 2 then Some((Alu(f.opcode / 8), RmR(SizeBy(low, f))))
      else if f.opcode % 8 < 4 then Some((Alu(f.opcode / 8), RRm(SizeBy(low, f))))
      else None
    else if f.opcode == 0x63 then Some((Movsxd, Narrow(S64, S32)))
    else if 0x70 <= f.opcode <= 0x7F then Some((Jcc(f.opcode - 0x70), Rel8))
    else if f.opcode == 0x80 || f.opcode == 0x81 then Some((Alu(f.reg), RmImm(SizeBy(f.opcode == 0x80, f))))
    else if f.opcode == 0x84 || f.opcode == 0x85 then Some((Test, RmR(SizeBy(f.opcode == 0x84, f))))
    else if f.opcode == 0x88 || f.opcode == 0x89 then Some((Mov, RmR(SizeBy(f.opcode == 0x88, f))))
    else if f.opcode == 0x8A || f.opcode == 0x8B then Some((Mov, RRm(SizeBy(f.opcode == 0x8A, f))))
    else if f.opcode == 0x8D then Some((Lea, RRm(SizeOf(f))))
    else if f.opcode == 0x8F then Some((Pop, Rm(S64)))
    else if f.opcode == 0x99 then Some((Cqo, NoArg))
    else if f.opcode == 0xB8 then Some((Mov, RImm64))
    else if f.opcode == 0xC3 then Some((Ret, NoArg))
    else if f.opcode == 0xC6 || f.opcode == 0xC7 then Some((Mov, RmImm(SizeBy(f.opcode == 0xC6, f))))
    else if f.opcode == 0xCC then Some((Int3, NoArg))
    else if f.opcode == 0xE8 then Some((Call, Rel32))
    else if f.opcode == 0xE9 then Some((Jmp, Rel32))
    else if f.opcode == 0xEB then Some((Jmp, Rel8))
    else if f.opcode == 0xF6 || f.opcode == 0xF7 then
      if f.reg == 0 then Some((Test, RmImm(SizeBy(f.opcode == 0xF6, f))))
      else if UnaryOf(f.reg).None? then None
      else Some((UnaryOf(f.reg).value, Rm(SizeBy(f.opcode == 0xF6, f))))
    else if f.opcode == 0xFF then
      if f.reg == 2 then Some((Call, Rm(S64))) else if f.reg == 4 then Some((Jmp, Rm(S64)))
      else if f.reg == 6 then Some((Push, Rm(S64))) else None
    else None
  }

  function LookupEscaped(f: Fields): Option<(Mnemonic, Form)> {
    if 0x80 <= f.opcode <= 0x8F then Some((Jcc(f.opcode - 0x80), Rel32))
    else if 0x90 <= f.opcode <= 0x9F then Some((Setcc(f.opcode - 0x90), Rm(S8)))
    else if f.opcode == 0xAF then Some((Imul, RRm(SizeOf(f))))
    else if f.opcode == 0xB6 || f.opcode == 0xB7 then Some((Movzx, Narrow(SizeOf(f), if f.opcode == 0xB6 then S8 else S16)))
    else if f.opcode == 0xBE || f.opcode == 0xBF then Some((Movsx, Narrow(SizeOf(f), if f.opcode == 0xBE then S8 else S16)))
    else None
  }

  /** Every row agrees with the processor's opcode map. */
  lemma TableIsGood(m: Mnemonic, f: Form)
    requires RowOf(m, f).Some?
    ensures GoodRow(RowOf(m, f).value)
  {
    hide GoodRow;
    match f
    case RmR(_) => RegRmIsGood(m, f);
    case RRm(_) => RegRmIsGood(m, f);
    case Narrow(_, _) => RegRmIsGood(m, f);
    case RmImm(_) => DigitIsGood(m, f);
    case Rm(_) => DigitIsGood(m, f);
    case _ => OtherIsGood(m, f);
  }

  lemma RegRmIsGood(m: Mnemonic, f: Form)
    requires (f.RmR? || f.RRm? || f.Narrow?) && RowOf(m, f).Some?
    ensures GoodRow(RowOf(m, f).value)
  {
    var row := RowOf(m, f).value;
    if !row.escape && row.opcode < 0x40 {
      LowOpcodes(row);
    }
  }

  /** The two-operand arithmetic opcodes. */
  lemma LowOpcodes(row: Row)
    requires !row.escape && row.opcode < 0x40 && row.opcode % 8 < 4 && row.layout.RegAndRm? && row.immediate == 0
    ensures row.opcode != ESCAPE ==> GoodRow(row)
  {
  }

  lemma DigitIsGood(m: Mnemonic, f: Form)
    requires (f.RmImm? || f.Rm?) && RowOf(m, f).Some?
    ensures GoodRow(RowOf(m, f).value)
  {
  }

  lemma OtherIsGood(m: Mnemonic, f: Form)
    requires (f.RImm64? || f.Rel8? || f.Rel32? || f.NoArg?) && RowOf(m, f).Some?
    ensures GoodRow(RowOf(m, f).value)
  {
  }

  /** No two rows share their bytes: the fields of an instruction tell its mnemonic and form. */
  lemma TableIsUnambiguous(m: Mnemonic, f: Form, i: Instruction)
    requires RowOf(m, f) == Some(i.row)
    ensures Lookup(FieldsOf(i)) == Some((m, f))
  {
    match f
    case RmR(_) => RegRmIsUnambiguous(m, f, i);
    case RRm(_) => RegRmIsUnambiguous(m, f, i);
    case Narrow(_, _) => RegRmIsUnambiguous(m, f, i);
    case _ =>
  }

  lemma RegRmIsUnambiguous(m: Mnemonic, f: Form, i: Instruction)
    requires RowOf(m, f) == Some(i.row) && (f.RmR? || f.RRm? || f.Narrow?)
    ensures Lookup(FieldsOf(i)) == Some((m, f))
  {
  }

  /** An instruction of the table, written and read back: the same mnemonic, form, registers, address
      and immediate, and nothing of what follows is touched. */
  lemma WrittenIsRead(m: Mnemonic, f: Form, i: Instruction, rest: seq<Byte>)
    requires RowOf(m, f) == Some(i.row) && InDomain(i)
    ensures Decode(Encode(i) + rest).Some?
    ensures var (fields, after) := Decode(Encode(i) + rest).value;
            && after == rest && Lookup(fields) == Some((m, f)) && fields.imm == i.imm
            && (i.row.layout.UsesModrm() ==> fields.rm == Some(i.rm))
            && (i.row.layout.RegAndRm? || i.row.layout.InOpcode? ==> fields.reg == i.reg)
  {
    hide Decode, Encode, InDomain, RowOf, Lookup;
    InstructionRoundTrip(i, rest);
    TableIsUnambiguous(m, f, i);
  }

  // ---- what the domain shuts out -----------------------------------------------------------------

  /** `mov rax, [rbx + 200]` is written with an 8-bit displacement and reads `[rbx - 56]`. */
  lemma LongDisplacementGoesWrong()
    ensures var i := Instruction(RowOf(Mov, RRm(S64)).value, 0, At(3, 200), 0);
            Encode(i) == [0x48, 0x8B, 0x43, 0xC8] && Decode(Encode(i)).Some?
            && Decode(Encode(i)).value.0.rm == Some(At(3, -56))
  {
    var i := Instruction(RowOf(Mov, RRm(S64)).value, 0, At(3, 200), 0);
    assert Little(200, 1) == [0xC8];
    assert Encode(i) == [0x48, 0x8B, 0x43, 0xC8];
    var s: seq<Byte> := [0x48, 0x8B, 0x43, 0xC8];
    assert s[1..] == [0x8B, 0x43, 0xC8] && s[1..][1..] == [0x43, 0xC8] && s[1..][1..][1..] == [0xC8];
    var d: seq<Byte> := [0xC8];
    assert d[..1] == [0xC8] && Signed(d[..1]) == -56;
    assert DecodeDisp(1, d) == Some((-56, []));
    assert DecodeAddress([0x43, 0xC8], false, false, false) == Some((0, At(3, -56), []));
  }

  /** `mov spl, al` is written without a REX prefix and moves to ah. */
  lemma HighByteGoesWrong()
    ensures var i := Instruction(RowOf(Mov, RmR(S8)).value, 0, Direct(4), 0);
            Formed(i) && !BytesNamed(i) && Encode(i) == [0x88, 0xC4] && Decode(Encode(i)).Some?
            && Decode(Encode(i)).value.0.rm == Some(Direct(16))
  {
    var i := Instruction(RowOf(Mov, RmR(S8)).value, 0, Direct(4), 0);
    TableIsGood(Mov, RmR(S8));
    assert Encode(i) == [0x88, 0xC4];
    var s: seq<Byte> := [0x88, 0xC4];
    assert s[1..] == [0xC4];
    assert DecodeAddress([0xC4], false, false, false) == Some((0, Direct(4), []));
  }
}
