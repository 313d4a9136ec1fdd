/** A processor that fetches bytes: it decodes at the instruction pointer, looks the bytes up in the
    opcode map and performs what it finds.  Every instruction of `Machine` has a row of the table
    (`backends/x86_64.c:341-375, 415-503, 664-738, 1551-1599, 1880-2109, 2371-2374`) and does as bytes
    what it does there. */
module ByteMachine {
  import opened Wrappers
  import opened Words
  import opened Machine
  import Bytes
  import opened Encoder
  import opened InstructionTable
  import Jumps
  import Syntax

  type Byte = Bytes.Byte

  // ---- instructions as rows ----------------------------------------------------------------------

  function Code(r: Register): nat {
    match r case Rax => 0 case Rcx => 1 case Rdx => 2
  }

  function RegisterOf(n: nat): Option<Register> {
    if n == 0 then Some(Rax) else if n == 1 then Some(Rcx) else if n == 2 then Some(Rdx) else None
  }

  function Name(i: Instr): (Mnemonic, Form) {
    match i
    case LoadSlot(_, _) => (Mov, RRm(S64))
    case StoreSlot(_, _) => (Mov, RmR(S64))
    case LoadImm(_, w) => (Mov, if w <= Syntax.MAX_IMMEDIATE then RmImm(S64) else RImm64)
    case StoreImm(_, _) => (Mov, RmImm(S64))
    case AddRR(_, _) => (Alu(0), RmR(S64))
    case SubRR(_, _) => (Alu(5), RmR(S64))
    case MulR(_, signed) => (if signed then Imul else Mnemonic.Mul, Rm(S64))
    case NegR(_) => (Neg, Rm(S64))
    case XorRR(_, _) => (Alu(6), RRm(S64))
    case CmpRR(_, _) => (Alu(7), RmR(S64))
    case TestR(_) => (Test, RmR(S64))
    case _ => (Jmp, Rel32)
  }

  function InFrame(slot: nat): Place {
    At(RBP, 0 - slot)
  }

  function Held(r: Register): Place {
    Direct(Code(r))
  }

  /** Register field, address and immediate. */
  function OperandsOf(i: Instr): (nat, Place, int) {
    match i
    case LoadSlot(to, slot) => (Code(to), InFrame(slot), 0)
    case StoreSlot(slot, from) => (Code(from), InFrame(slot), 0)
    case LoadImm(to, w) => if w <= Syntax.MAX_IMMEDIATE then (0, Held(to), w) else (Code(to), Direct(0), Words.Signed(w))
    case StoreImm(slot, w) => (0, InFrame(slot), w)
    case AddRR(to, from) => (Code(from), Held(to), 0)
    case SubRR(to, from) => (Code(from), Held(to), 0)
    case MulR(factor, _) => (0, Held(factor), 0)
    case NegR(to) => (0, Held(to), 0)
    case XorRR(to, from) => (Code(to), Held(from), 0)
    case CmpRR(left, right) => (Code(right), Held(left), 0)
    case TestR(left) => (Code(left), Held(left), 0)
    case _ => (0, Direct(0), 0)
  }

  function Encoded(i: Instr): Instruction {
    var (m, f) := Name(i);
    var (reg, rm, imm) := OperandsOf(i);
    Instruction(match RowOf(m, f) case Some(row) => row case None => Row(false, 0, NoOperand, S32, 0, false), reg, rm, imm)
  }

  const FRAME_LIMIT: nat := 0x7FFF_FFFF

  /** A word of the frame, below the saved registers. */
  predicate WholeSlot(slot: nat, reach: nat) {
    slot % 8 == 0 && 8 <= slot <= reach
  }

  /** Slots are whole words apart and within reach of a 32-bit displacement, and stored immediates have at
      most 28 bits. */
  predicate Fitting(i: Instr, reach: nat) {
    match i
    case LoadSlot(_, slot) => WholeSlot(slot, reach)
    case StoreSlot(slot, _) => WholeSlot(slot, reach)
    case StoreImm(slot, w) => WholeSlot(slot, reach) && w <= Syntax.MAX_IMMEDIATE
    case _ => true
  }

  // ---- what decoded fields mean ------------------------------------------------------------------

  datatype Action = Does(instr: Instr) | JumpBy(distance: int) | JumpByIf(cond: Condition, distance: int)

  function SlotOf(rm: Option<Place>): Option<nat> {
    if rm.Some? && rm.value.At? && rm.value.base == RBP && rm.value.disp <= 0 then Some(0 - rm.value.disp) else None
  }

  function HeldBy(rm: Option<Place>): Option<Register> {
    if rm.Some? && rm.value.Direct? then RegisterOf(rm.value.reg) else None
  }

  function ConditionFor(code: nat): Condition {
    if code == 0 then O else if code == 1 then NO else if code == 2 then B else if code == 3 then AE
    else if code == 4 then E else if code == 5 then NE else if code == 6 then BE else if code == 7 then A
    else if code == 8 then S else if code == 9 then NS else if code == 10 then PE else if code == 11 then PO
    else if code == 12 then L else if code == 13 then GE else if code == 14 then LE else G
  }

  /** The effect of an instruction on 64-bit registers and frame slots (Intel SDM Vol. 2); `None` for
      what the generated code does not contain. */
  function Meaning(m: Mnemonic, f: Form, x: Fields): Option<Action> {
    var reg, rm, slot := RegisterOf(x.reg), HeldBy(x.rm), SlotOf(x.rm);
    match (m, f)
    case (Mov, RRm(S64)) => if reg.Some? && slot.Some? then Some(Does(LoadSlot(reg.value, slot.value))) else None
    case (Mov, RmR(S64)) => if reg.Some? && slot.Some? then Some(Does(StoreSlot(slot.value, reg.value))) else None
    case (Mov, RmImm(S64)) =>
      if rm.Some? then Some(Does(LoadImm(rm.value, Wrap(x.imm))))
      else if slot.Some? then Some(Does(StoreImm(slot.value, Wrap(x.imm)))) else None
    case (Mov, RImm64) => if reg.Some? then Some(Does(LoadImm(reg.value, Wrap(x.imm)))) else None
    case (Alu(d), RmR(S64)) =>
      if reg.None? || rm.None? then None
      else if d == 0 then Some(Does(AddRR(rm.value, reg.value)))
      else if d == 5 then Some(Does(SubRR(rm.value, reg.value)))
      else if d == 7 then Some(Does(CmpRR(rm.value, reg.value))) else None
    case (Alu(d), RRm(S64)) =>
      if reg.Some? && rm.Some? && d == 6 then Some(Does(XorRR(reg.value, rm.value))) else None
    case (Test, RmR(S64)) => if reg.Some? && rm == reg then Some(Does(TestR(reg.value))) else None
    case (Mul, Rm(S64)) => if rm.Some? then Some(Does(MulR(rm.value, false))) else None
    case (Imul, Rm(S64)) => if rm.Some? then Some(Does(MulR(rm.value, true))) else None
    case (Neg, Rm(S64)) => if rm.Some? then Some(Does(NegR(rm.value))) else None
    case (Jmp, Rel8) => Some(JumpBy(x.imm))
    case (Jmp, Rel32) => Some(JumpBy(x.imm))
    case (Jcc(c), Rel32) => Some(JumpByIf(ConditionFor(c), x.imm))
    case _ => None
  }

  /** The instruction pointer and everything else. */
  datatype Core = Core(ip: int, cpu: Cpu)

  function Apply(a: Action, next: int, cpu: Cpu): Core {
    match a
    case Does(i) => Core(next, Perform(i, cpu))
    case JumpBy(d) => Core(next + d, cpu)
    case JumpByIf(cond, d) => Core(if cpu.flags.Some? && Holds(cond, cpu.flags.value) then next + d else next, cpu)
  }

  /** Fetch, decode, perform; `None` for bytes that are not an instruction of the model. */
  function Step(bytes: seq<Byte>, c: Core): Option<Core> {
    if !(0 <= c.ip < |bytes|) then None else
    var d := Decode(bytes[c.ip..]);
    if d.None? then None else
    var name := Lookup(d.value.0);
    if name.None? then None else
    var a := Meaning(name.value.0, name.value.1, d.value.0);
    if a.None? then None else Some(Apply(a.value, |bytes| - |d.value.1|, c.cpu))
  }

  function Run(bytes: seq<Byte>, c: Core, n: nat): Option<Core>
    decreases n
  {
    if n == 0 then Some(c) else
    var next := Step(bytes, c);
    if next.None? then None else Run(bytes, next.value, n - 1)
  }

  lemma {:induction false} RunAdd(bytes: seq<Byte>, c: Core, m: nat, n: nat)
    requires Run(bytes, c, m).Some?
    ensures Run(bytes, c, m + n) == Run(bytes, Run(bytes, c, m).value, n)
    decreases m
  {
    hide Step;
    if m > 0 {
      RunAdd(bytes, Step(bytes, c).value, m - 1, n);
    }
  }

  // ---- one instruction ---------------------------------------------------------------------------

  lemma RowExists(i: Instr)
    requires !i.Leaves()
    ensures RowOf(Name(i).0, Name(i).1) == Some(Encoded(i).row)
  {
  }

  /** Every instruction the back end writes is one that encoding and decoding preserve. */
  lemma EncodedInDomain(i: Instr)
    requires !i.Leaves() && Fitting(i, FRAME_LIMIT)
    ensures InDomain(Encoded(i)) && Writable(Encoded(i))
  {
    RowExists(i);
    TableIsGood(Name(i).0, Name(i).1);
    hide GoodRow;
    EncodedFits(i);
  }

  lemma EncodedFits(i: Instr)
    requires !i.Leaves() && Fitting(i, FRAME_LIMIT)
    ensures var e := Encoded(i);
            && e.reg < 8 && (e.row.layout.UsesModrm() ==> PlaceOk(e.rm) && Encodable(e.rm))
            && (e.row.size == S64 || i.JumpNext?)
            && (if e.row.immediate > 0 then Bytes.Fits(e.imm, e.row.immediate) else e.imm == 0)
            && Writable(e)
  {
    Halves();
  }

  lemma Halves()
    ensures Bytes.Half(4) == 0x8000_0000 && Bytes.Half(8) == 0x8000_0000_0000_0000
  {
    assert Bytes.Half(1) == 128 && Bytes.Half(2) == 0x8000 && Bytes.Half(3) == 0x80_0000;
    assert Bytes.Half(5) == 0x80_0000_0000 && Bytes.Half(6) == 0x8000_0000_0000 && Bytes.Half(7) == 0x80_0000_0000_0000;
  }

  /** The processor takes it for what it is: the immediate is extended to the word it stands for. */
  lemma EncodedMeans(i: Instr)
    requires !i.Leaves() && Fitting(i, FRAME_LIMIT)
    ensures Meaning(Name(i).0, Name(i).1, FieldsOf(Encoded(i))) == Some(if i.JumpNext? then JumpBy(0) else Does(i))
  {
    RowExists(i);
    hide RowOf;
    if i.LoadImm? {
      SignedWraps(i.imm);
    }
  }

  lemma SignedWraps(w: Word)
    ensures Wrap(Words.Signed(w)) == w
  {
  }

  function Written(i: Instr): seq<Byte>
    requires !i.Leaves() && Fitting(i, FRAME_LIMIT)
  {
    EncodedInDomain(i);
    Encode(Encoded(i))
  }

  /** Where the bytes of an instruction stand, the processor does what the instruction does. */
  lemma StepWritten(bytes: seq<Byte>, ip: nat, i: Instr, cpu: Cpu)
    requires !i.Leaves() && Fitting(i, FRAME_LIMIT)
    requires ip + |Written(i)| <= |bytes| && bytes[ip..ip + |Written(i)|] == Written(i)
    ensures Step(bytes, Core(ip, cpu)) == Some(Core(ip + |Written(i)|, Perform(i, cpu)))
  {
    hide Encode, Decode, FieldsOf, Lookup, Meaning, Name, Encoded, InDomain, RowOf, Fitting;
    EncodedInDomain(i);
    var e := Encoded(i);
    var rest := bytes[ip + |Encode(e)|..];
    assert bytes[ip..] == Encode(e) + rest;
    InstructionRoundTrip(e, rest);
    RowExists(i);
    TableIsUnambiguous(Name(i).0, Name(i).1, e);
    EncodedMeans(i);
    SomeBytes(e);
  }

  // ---- straight code -----------------------------------------------------------------------------

  predicate Plain(code: seq<Instr>) {
    forall i :: i in code ==> !i.Leaves() && Fitting(i, FRAME_LIMIT)
  }

  function WrittenAll(code: seq<Instr>): seq<Byte>
    requires Plain(code)
  {
    if code == [] then [] else Written(code[0]) + WrittenAll(code[1..])
  }

  /** The bytes of straight code do what the code does. */
  lemma {:induction false} RunWritten(bytes: seq<Byte>, ip: nat, code: seq<Instr>, cpu: Cpu)
    requires Plain(code)
    requires ip + |WrittenAll(code)| <= |bytes| && bytes[ip..ip + |WrittenAll(code)|] == WrittenAll(code)
    ensures Run(bytes, Core(ip, cpu), |code|) == Some(Core(ip + |WrittenAll(code)|, PerformAll(code, cpu)))
    decreases |code|
  {
    hide Step, Perform, Written, Fitting;
    if code != [] {
      var head, tail := Written(code[0]), WrittenAll(code[1..]);
      var all := WrittenAll(code);
      assert bytes[ip..ip + |head|] == bytes[ip..ip + |all|][..|head|] == head;
      assert bytes[ip + |head|..ip + |head| + |tail|] == bytes[ip..ip + |all|][|head|..] == tail;
      StepWritten(bytes, ip, code[0], cpu);
      RunWritten(bytes, ip + |head|, code[1..], Perform(code[0], cpu));
    }
  }

  // ---- jumps -------------------------------------------------------------------------------------

  /** A jump goes where its field points. */
  lemma StepJump(bytes: seq<Byte>, site: nat, cpu: Cpu, target: int)
    requires site + 1 < |bytes| && (bytes[site] == Jumps.JMP_REL8 || bytes[site] == Jumps.JMP_REL32)
    requires Jumps.Destination(bytes, site) == Some(target)
    ensures Step(bytes, Core(site, cpu)) == Some(Core(target, cpu))
  {
    var s := bytes[site..];
    var n := if s[0] == Jumps.JMP_REL8 then 1 else 4;
    JumpDecoded(s, n);
    assert s[1..][..n] == bytes[site + 1..site + 1 + n];
    hide Decode, DecodeImmediate;
  }

  lemma JumpDecoded(s: seq<Byte>, n: nat)
    requires |s| > n && ((s[0] == Jumps.JMP_REL8 && n == 1) || (s[0] == Jumps.JMP_REL32 && n == 4))
    ensures Decode(s) == Some((Fields(false, false, false, s[0], 0, None, Bytes.Signed(s[1..][..n])), s[1..][n..]))
  {
    hide DecodeAddress, Bytes.Signed;
  }

  /** A conditional jump goes there when its condition holds, and otherwise to the code behind it. */
  lemma StepJumpIf(bytes: seq<Byte>, site: nat, cpu: Cpu, cond: Condition, target: int)
    requires site + 1 < |bytes| && bytes[site] == Jumps.ESCAPE && bytes[site + 1] == 0x80 + Jumps.ConditionCode(cond)
    requires Jumps.Destination(bytes, site) == Some(target)
    ensures var taken := cpu.flags.Some? && Holds(cond, cpu.flags.value);
            Step(bytes, Core(site, cpu)) == Some(Core(if taken then target else site + 6, cpu))
  {
    var s := bytes[site..];
    JumpIfDecoded(s);
    assert s[2..][..4] == bytes[site + 2..site + 6];
    SameCondition(cond);
    hide Decode, DecodeImmediate, Holds;
  }

  lemma JumpIfDecoded(s: seq<Byte>)
    requires |s| >= 6 && s[0] == Jumps.ESCAPE && 0x80 <= s[1] <= 0x8F
    ensures Decode(s) == Some((Fields(false, false, true, s[1], 0, None, Bytes.Signed(s[2..][..4])), s[2..][4..]))
  {
    hide DecodeAddress, Bytes.Signed;
    assert s[1..][1..] == s[2..];
  }

  lemma SameCondition(cond: Condition)
    ensures forall flags :: Holds(ConditionFor(Jumps.ConditionCode(cond)), flags) <==> Holds(cond, flags)
  {
  }
}
