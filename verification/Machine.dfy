/** The x86-64 instructions that integer code uses, on word-sized frame slots below `rbp`
    (`backends/x86_64.c:415-503, 664-767`).  Jumps name blocks; `Jumps` resolves them to bytes. */
module Machine {
  import opened Wrappers
  import opened Words

  datatype Register = Rax | Rcx | Rdx

  /** The conditions of Jcc and SETcc. */
  datatype Condition = O | NO | B | AE | C | E | NE | BE | A | S | NS | PE | PO | L | GE | LE | G

  datatype Flags = Flags(zf: bool, sf: bool, cf: bool, of: bool, pf: bool)

  datatype Instr =
    | LoadSlot(to: Register, slot: nat)
    | StoreSlot(slot: nat, from: Register)
    | LoadImm(to: Register, imm: Word)
    | StoreImm(slot: nat, imm: Word)
    | AddRR(to: Register, from: Register)
    | SubRR(to: Register, from: Register)
    | MulR(factor: Register, signed: bool)
    | NegR(to: Register)
    | XorRR(to: Register, from: Register)
    | CmpRR(left: Register, right: Register)
    | TestR(left: Register)
    | Jump(target: nat)
    | JumpIf(cond: Condition, target: nat)
    | JumpNext
  {
    predicate Leaves() { Jump? || JumpIf? }
  }

  /** Registers, flags and the slots at `rbp - offset`.  `None` are flags no later code may read. */
  datatype Cpu = Cpu(rax: Word, rcx: Word, rdx: Word, flags: Option<Flags>, slots: map<nat, Word>)
  {
    function Get(r: Register): Word {
      match r case Rax => rax case Rcx => rcx case Rdx => rdx
    }

    function Set(r: Register, w: Word): (c: Cpu)
      ensures c.Get(r) == w && c.slots == slots && c.flags == flags
      ensures forall q :: q != r ==> c.Get(q) == Get(q)
    {
      match r case Rax => this.(rax := w) case Rcx => this.(rcx := w) case Rdx => this.(rdx := w)
    }

    function Slot(offset: nat): Word {
      if offset in slots then slots[offset] else 0
    }
  }

  /** The flags after subtracting `b` from `a`: Intel SDM Vol. 2A, CMP. */
  function Compared(a: Word, b: Word): Flags {
    var difference := Signed(a) - Signed(b);
    Flags(a == b, Wrap(a - b) >= SIGN_BIT, a < b, difference < -SIGN_BIT || difference >= SIGN_BIT, Parity(Wrap(a - b) % 256))
  }

  predicate Parity(byte: nat)
    decreases byte
  {
    byte == 0 || ((byte % 2 == 0) == Parity(byte / 2))
  }

  /** The flags after TEST of a word with itself. */
  function TestedFlags(a: Word): Flags {
    Flags(a == 0, a >= SIGN_BIT, false, false, Parity(a % 256))
  }

  predicate Holds(c: Condition, f: Flags) {
    match c
    case O => f.of
    case NO => !f.of
    case B => f.cf
    case AE => !f.cf
    case C => f.cf
    case E => f.zf
    case NE => !f.zf
    case BE => f.cf || f.zf
    case A => !f.cf && !f.zf
    case S => f.sf
    case NS => !f.sf
    case PE => f.pf
    case PO => !f.pf
    case L => f.sf != f.of
    case GE => f.sf == f.of
    case LE => f.zf || f.sf != f.of
    case G => !f.zf && f.sf == f.of
  }

  /** `oc_x86_64_get_inverse_compare`. */
  function Inverse(c: Condition): (r: Condition)
    ensures forall f :: Holds(r, f) <==> !Holds(c, f)
  {
    match c
    case O => NO
    case NO => O
    case A => BE
    case AE => B
    case B => AE
    case BE => A
    case C => AE
    case E => NE
    case NE => E
    case S => NS
    case NS => S
    case PE => PO
    case PO => PE
    case G => LE
    case GE => L
    case L => GE
    case LE => G
  }

  /** The jump the back end chooses for a comparison, whatever the type of its operands. */
  function ConditionOf(cmp: CompareOp): Condition {
    match cmp
    case Eq => E
    case Neq => NE
    case Gte => GE
    case Gt => G
    case Lte => LE
    case Lt => L
  }

  /** After a CMP the chosen jump decides the signed order. */
  lemma JumpsDecideSignedOrder(cmp: CompareOp, a: Word, b: Word)
    ensures Holds(ConditionOf(cmp), Compared(a, b)) <==> Ordered(cmp, Signed(a), Signed(b))
  {
    var d := Signed(a) - Signed(b);
    assert Wrap(a - b) == if a >= b then a - b else a - b + WORD_SIZE;
    assert (Wrap(a - b) >= SIGN_BIT) == (if d < -SIGN_BIT then false else if d >= SIGN_BIT then true else d < 0);
  }

  function Perform(i: Instr, c: Cpu): Cpu {
    match i
    case LoadSlot(to, slot) => c.Set(to, c.Slot(slot))
    case StoreSlot(slot, from) => c.(slots := c.slots[slot := c.Get(from)])
    case LoadImm(to, imm) => c.Set(to, imm)
    case StoreImm(slot, imm) => c.(slots := c.slots[slot := imm])
    case AddRR(to, from) => c.Set(to, Wrap(c.Get(to) + c.Get(from))).(flags := None)
    case SubRR(to, from) => c.Set(to, Wrap(c.Get(to) - c.Get(from))).(flags := None)
    case MulR(factor, signed) =>
      c.Set(Rdx, HighHalf(signed, c.rax, c.Get(factor))).Set(Rax, Wrap(c.rax * c.Get(factor))).(flags := None)
    case NegR(to) => c.Set(to, Negated(c.Get(to))).(flags := None)
    case XorRR(to, from) => c.Set(to, if to == from then 0 else XorWord(c.Get(to), c.Get(from))).(flags := None)
    case CmpRR(left, right) => c.(flags := Some(Compared(c.Get(left), c.Get(right))))
    case TestR(left) => c.(flags := Some(TestedFlags(c.Get(left))))
    case _ => c
  }

  /** The high half of the product, which nothing reads and in which IMUL and MUL differ. */
  function HighHalf(signed: bool, a: Word, b: Word): Word {
    if signed then Wrap(Signed(a) * Signed(b) / WORD_SIZE) else Wrap(a * b / WORD_SIZE)
  }

  function XorWord(a: Word, b: Word): Word {
    Wrap(BitOr(a, b) - BitAnd(a, b))
  }

  /** Where control goes from here and with what: the code of one block, then its layout successor. */
  function RunCode(code: seq<Instr>, next: nat, c: Cpu): (nat, Cpu) {
    if code == [] then (next, c)
    else
      var i := code[0];
      if i.Jump? then (i.target, c)
      else if i.JumpIf? then
        (if c.flags.Some? && Holds(i.cond, c.flags.value) then (i.target, c) else RunCode(code[1..], next, c))
      else RunCode(code[1..], next, Perform(i, c))
  }

  function PerformAll(code: seq<Instr>, c: Cpu): Cpu {
    if code == [] then c else PerformAll(code[1..], Perform(code[0], c))
  }

  predicate Straight(code: seq<Instr>) {
    forall i :: 0 <= i < |code| ==> !code[i].Leaves()
  }

  lemma {:induction false} RunStraight(code: seq<Instr>, rest: seq<Instr>, next: nat, c: Cpu)
    requires Straight(code)
    ensures RunCode(code + rest, next, c) == RunCode(rest, next, PerformAll(code, c))
    decreases |code|
  {
    if code == [] {
      assert code + rest == rest;
    } else {
      assert (code + rest)[1..] == code[1..] + rest;
      RunStraight(code[1..], rest, next, Perform(code[0], c));
    }
  }

  /** The code of the blocks of a function and their layout successors. */
  datatype Program = Program(code: map<nat, seq<Instr>>, next: map<nat, nat>)

  /** `n` blocks of the program from the start of block `b`; block 0 is the epilogue. */
  function RunBlocks(p: Program, b: nat, c: Cpu, n: nat): (nat, Cpu)
    decreases n
  {
    if n == 0 || b !in p.code || b !in p.next then (b, c)
    else
      var (b', c') := RunCode(p.code[b], p.next[b], c);
      RunBlocks(p, b', c', n - 1)
  }
}
