/** The intermediate code (`backends/ir.h:6-146`) and the machine that interprets it
    (`src/eval.c:521-848`), one operation at a time. */
module Ir {
  import opened Wrappers
  import opened Words

  /** Tag and payload of the packed 32-bit operand. */
  datatype Operand = Imm(payload: nat) | Reg(payload: nat) | Local(payload: nat) | Literal(payload: nat)

  datatype Op =
    | Store(to: Operand, src: Operand)
    | Load(dst: nat, src: Operand)
    | CastTo(dst: nat, src: Operand)
    | Compute(op: ArithOp, ty: Ty, dst: nat, a: Operand, b: Operand)
    | Compare(cmp: CompareOp, dst: nat, a: Operand, b: Operand)
    | Combine(conjunction: bool, dst: nat, a: Operand, b: Operand)
    | Test(ty: Ty, dst: nat, a: Operand)
    | Negate(dst: nat, a: Operand)
    | Branch(target: nat)
    | BranchCond(cond: Operand, thenBlock: nat, elseBlock: nat)
    | Ret
  {
    predicate IsBranch() { Branch? || BranchCond? }
  }

  /** A basic block: its operations and its successor in the layout chain (0 is the end). */
  datatype Block = Block(ops: seq<Op>, next: nat)

  type Blocks = map<nat, Block>

  const NO_BLOCK := Block([], 0)

  function At(blocks: Blocks, b: nat): Block {
    if b in blocks then blocks[b] else NO_BLOCK
  }

  /** A finished function: the block table and the table of wide literals. */
  datatype Code = Code(blocks: Blocks, literals: seq<Word>)

  datatype Frame = Frame(locals: seq<Word>, regs: seq<Word>)

  function Payload(n: nat): Word {
    Wrap(n)
  }

  /** The value of an operand (`ll_eval_get_value`). */
  function Value(code: Code, f: Frame, o: Operand): Word {
    match o
    case Imm(n) => Payload(n)
    case Reg(r) => Read(f.regs, r)
    case Local(x) => Read(f.locals, x)
    case Literal(i) => Read(code.literals, i)
  }

  /** What comparisons read instead: the register with the operand's payload, whatever its tag. */
  function RawValue(f: Frame, o: Operand): Word {
    Read(f.regs, o.payload)
  }

  function SetReg(f: Frame, r: nat, w: Word): Frame {
    f.(regs := Write(f.regs, r, w))
  }

  /** A straight-line operation; `None` is a divide fault. */
  function Exec(code: Code, op: Op, f: Frame): Option<Frame> {
    match op
    case Store(to, src) =>
      var w := Value(code, f, src);
      (match to
       case Local(x) => Some(f.(locals := Write(f.locals, x, w)))
       case _ => Some(SetReg(f, to.payload, w)))
    case Load(dst, src) => Some(SetReg(f, dst, Value(code, f, src)))
    case CastTo(dst, src) => Some(SetReg(f, dst, Value(code, f, src)))
    case Compute(op, ty, dst, a, b) =>
      var v := Arith(op, ty, Value(code, f, a), Value(code, f, b));
      if v.None? then None else Some(SetReg(f, dst, v.value))
    case Compare(cmp, dst, a, b) =>
      Some(SetReg(f, dst, BoolWord(Ordered(cmp, RawValue(f, a), RawValue(f, b)))))
    case Combine(conjunction, dst, a, b) =>
      Some(SetReg(f, dst, Logical(conjunction, Value(code, f, a), Value(code, f, b))))
    case Test(ty, dst, a) => Some(SetReg(f, dst, Tested(ty, Value(code, f, a))))
    case Negate(dst, a) => Some(SetReg(f, dst, Negated(Value(code, f, a))))
    case _ => Some(f)
  }

  /** Where the interpreter stands. */
  datatype Config =
    | Running(block: nat, pc: nat, frame: Frame)
    | Halted(frame: Frame)
    | Faulted

  function Enter(b: nat, f: Frame): Config {
    if b == 0 then Halted(f) else Running(b, 0, f)
  }

  /** Executing `op` at position `pc` of block `b`. */
  function Execute(code: Code, b: nat, pc: nat, op: Op, f: Frame): Config {
    match op
    case Branch(target) => Enter(target, f)
    case BranchCond(cond, t, e) => Enter(if Value(code, f, cond) != 0 then t else e, f)
    case _ =>
      var g := Exec(code, op, f);
      if g.None? then Faulted else Running(b, pc + 1, g.value)
  }

  /** One operation, or the fall from the end of a block to its layout successor. */
  function Step(code: Code, c: Config): Config {
    if !c.Running? then c else
    var blk := At(code.blocks, c.block);
    if c.pc >= |blk.ops| then Enter(blk.next, c.frame) else Execute(code, c.block, c.pc, blk.ops[c.pc], c.frame)
  }

  function Steps(code: Code, c: Config, n: nat): Config
    decreases n
  {
    if n == 0 then c else Steps(code, Step(code, c), n - 1)
  }

  lemma {:induction false} StepsAdd(code: Code, c: Config, m: nat, n: nat)
    ensures Steps(code, c, m + n) == Steps(code, Steps(code, c, m), n)
    decreases m
  {
    if m != 0 {
      StepsAdd(code, Step(code, c), m - 1, n);
    }
  }

  lemma {:induction false} Stopped(code: Code, c: Config, n: nat)
    requires !c.Running?
    ensures Steps(code, c, n) == c
  {
    if n != 0 {
      Stopped(code, c, n - 1);
    }
  }

  /** A run that stops, stops the same way however much longer it is watched. */
  lemma StopsOnce(code: Code, c: Config, m: nat, n: nat)
    requires !Steps(code, c, m).Running? && m <= n
    ensures Steps(code, c, n) == Steps(code, c, m)
  {
    StepsAdd(code, c, m, n - m);
    Stopped(code, Steps(code, c, m), n - m);
  }
}
