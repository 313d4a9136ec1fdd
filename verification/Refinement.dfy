/** The slot code does what the interpreted operations do.  A register that aliases a local is sound
    as long as the local is not stored to before the register is read, and a comparison as long as
    it is read by the very next operation; `CheckOps` tracks both, and `PlainLowering` shows that
    lowering keeps to them. */
module Refinement {
  import opened Wrappers
  import opened Words
  import opened Ir
  import opened Machine
  import opened Backend
  import opened Syntax
  import Align

  /** What is known about a register that has been defined and not yet read. */
  datatype Kind = AliasOf(local: nat) | Temporary | Comparison(cmp: CompareOp)

  type Pending = map<nat, Kind>

  predicate NoComparison(env: Pending) {
    forall r :: r in env ==> !env[r].Comparison?
  }

  predicate NoAlias(env: Pending, x: nat) {
    forall r :: r in env ==> env[r] != AliasOf(x)
  }

  /** Reading an operand as a number: a register is read once. */
  function Consume(env: Pending, o: Operand): Option<Pending> {
    match o
    case Imm(_) => Some(env)
    case Literal(_) => Some(env)
    case Local(_) => None
    case Reg(r) => if r in env && !env[r].Comparison? then Some(env - {r}) else None
  }

  function ConsumePair(env: Pending, a: Operand, b: Operand): Option<Pending> {
    var left := Consume(env, a);
    if left.None? then None else Consume(left.value, b)
  }

  /** Defining a register while no comparison waits in the flags. */
  function Define(env: Option<Pending>, dst: nat, kind: Kind): Option<Pending> {
    if env.None? || !NoComparison(env.value) then None else Some(env.value[dst := kind])
  }

  predicate Fresh(env: Pending, dst: nat, registers: nat) {
    dst !in env && dst < registers
  }

  /** One operation of a block, for a function with the given numbers of locals and registers;
      `None` when the operation is outside the refinement. */
  function CheckOp(env: Pending, op: Op, locals: nat, registers: nat): Option<Pending> {
    match op
    case Load(dst, src) =>
      if !Fresh(env, dst, registers) then None
      else if src.Local? then (if src.payload < locals then Define(Some(env), dst, AliasOf(src.payload)) else None)
      else if src.Reg? then None
      else Define(Some(env), dst, Temporary)
    case Store(to, src) =>
      var rest := Consume(env, src);
      if !to.Local? || to.payload >= locals || (src.Imm? && src.payload > MAX_IMMEDIATE) || rest.None? || !NoComparison(rest.value) || !NoAlias(rest.value, to.payload)
      then None else rest
    case Compute(arith, _, dst, a, b) =>
      if !Fresh(env, dst, registers) || arith == Div || arith == Mod then None
      else Define(ConsumePair(env, a, b), dst, Temporary)
    case Negate(dst, a) => if !Fresh(env, dst, registers) then None else Define(Consume(env, a), dst, Temporary)
    case Compare(cmp, dst, a, b) =>
      if !Fresh(env, dst, registers) || !a.Reg? || !b.Reg? then None
      else Define(ConsumePair(env, a, b), dst, Comparison(cmp))
    case Branch(_) => if NoComparison(env) then Some(env) else None
    case BranchCond(cond, _, _) =>
      if !cond.Reg? || cond.payload !in env || !NoComparison(env - {cond.payload}) then None else Some(env - {cond.payload})
    case Ret => if NoComparison(env) then Some(env) else None
    case _ => None
  }

  /** A block from its start. */
  function CheckOps(ops: seq<Op>, locals: nat, registers: nat): Option<Pending> {
    if ops == [] then Some(map[])
    else
      var before := CheckOps(ops[..|ops| - 1], locals, registers);
      if before.None? then None else CheckOp(before.value, ops[|ops| - 1], locals, registers)
  }

  lemma {:induction false} CheckPrefix(ops: seq<Op>, i: nat, locals: nat, registers: nat)
    requires i < |ops| && CheckOps(ops, locals, registers).Some?
    ensures CheckOps(ops[..i], locals, registers).Some?
    ensures CheckOps(ops[..i + 1], locals, registers)
            == CheckOp(CheckOps(ops[..i], locals, registers).value, ops[i], locals, registers)
    ensures CheckOps(ops[..i + 1], locals, registers).Some?
    decreases |ops|
  {
    hide CheckOp;
    var init := ops[..|ops| - 1];
    if i == |ops| - 1 {
      assert ops[..i + 1] == ops;
    } else {
      CheckPrefix(init, i, locals, registers);
      assert init[..i] == ops[..i] && init[..i + 1] == ops[..i + 1];
    }
  }

  // ---- the two orders ----------------------------------------------------------------------------

  /** The operation with comparisons in signed order, which is what the back end always emits. */
  function ExecSigned(code: Code, op: Op, f: Frame): Option<Frame> {
    if op.Compare? then
      Some(SetReg(f, op.dst, BoolWord(Ordered(op.cmp, Signed(RawValue(f, op.a)), Signed(RawValue(f, op.b))))))
    else Exec(code, op, f)
  }

  /** The interpreter and the machine order the operands alike. */
  predicate OrdersAgree(op: Op, f: Frame) {
    op.Compare? ==>
      op.cmp == Eq || op.cmp == Neq || (RawValue(f, op.a) < SIGN_BIT) == (RawValue(f, op.b) < SIGN_BIT)
  }

  lemma SameExec(code: Code, op: Op, f: Frame)
    ensures OrdersAgree(op, f) ==> ExecSigned(code, op, f) == Exec(code, op, f)
    ensures op.Compare? && op.dst < |f.regs| && !OrdersAgree(op, f) ==> ExecSigned(code, op, f) != Exec(code, op, f)
  {
    if op.Compare? {
      UnsignedOrderIsSignedOrder(op.cmp, RawValue(f, op.a), RawValue(f, op.b));
      if op.dst < |f.regs| && !OrdersAgree(op, f) {
        assert ExecSigned(code, op, f).value.regs[op.dst] != Exec(code, op, f).value.regs[op.dst];
      }
    }
  }

  // ---- the relation ------------------------------------------------------------------------------

  /** The register's value is where the allocation says it is. */
  predicate Holding(kind: Kind, r: nat, a: Alloc, f: Frame, c: Cpu, locals: nat) {
    && r in a.homes && !a.homes[r].usedUp
    && match kind
       case AliasOf(x) =>
         x < locals && a.homes[r].place == OnStack(LocalOffset(x)) && Read(f.regs, r) == Read(f.locals, x)
       case Temporary =>
         a.homes[r].place.OnStack? && 8 * locals < a.homes[r].place.offset <= a.used
         && c.Slot(a.homes[r].place.offset) == Read(f.regs, r)
       case Comparison(cmp) =>
         a.homes[r].place == InFlags(ConditionOf(cmp)) && c.flags.Some?
         && (Holds(ConditionOf(cmp), c.flags.value) <==> Read(f.regs, r) != 0)
  }

  /** The frame has room, the locals are in their slots and every pending register holds. */
  ghost predicate Rel(env: Pending, a: Alloc, f: Frame, c: Cpu, locals: nat, registers: nat) {
    && |f.locals| == locals && registers <= |f.regs|
    && Roomy(a, locals)
    && InSlots(f.locals, c)
    && (forall r :: r in env ==> r < registers && Holding(env[r], r, a, f, c, locals))
  }

  predicate Roomy(a: Alloc, locals: nat) {
    a.used % 8 == 0 && 8 * locals <= a.used
  }

  predicate InSlots(locals: seq<Word>, c: Cpu) {
    forall x: nat :: x < |locals| ==> c.Slot(LocalOffset(x)) == locals[x]
  }

  lemma NewSlot(a: Alloc)
    requires a.used % 8 == 0
    ensures TempOffset(a) == a.used + 8 && TempOffset(a) % 8 == 0
  {
    Align.AlignedStays(a.used + 8, 8);
  }

  /** Reading an operand into a machine register. */
  lemma OperandLoaded(env: Pending, a: Alloc, code: Code, to: Register, o: Operand, f: Frame, c: Cpu, locals: nat, registers: nat)
    requires Rel(env, a, f, c, locals, registers) && Consume(env, o).Some?
    ensures LoadOperand(a, code, to, o).Some?
    ensures var e := LoadOperand(a, code, to, o).value;
            var c' := PerformAll(e.code, c);
            && Straight(e.code)
            && c'.Get(to) == Value(code, f, o) && (forall q :: q != to ==> c'.Get(q) == c.Get(q))
            && c'.slots == c.slots && c'.flags == c.flags
            && e.alloc.used == a.used && (forall r :: r !in a.homes ==> r !in e.alloc.homes)
            && Rel(Consume(env, o).value, e.alloc, f, c', locals, registers)
  {
    var e := LoadOperand(a, code, to, o).value;
    assert PerformAll(e.code, c) == Perform(e.code[0], c) by {
      assert e.code[1..] == [];
    }
  }

  lemma {:induction false} PerformAppend(p: seq<Instr>, q: seq<Instr>, c: Cpu)
    ensures PerformAll(p + q, c) == PerformAll(q, PerformAll(p, c))
    decreases |p|
  {
    if p == [] {
      assert p + q == q;
    } else {
      assert (p + q)[1..] == p[1..] + q;
      PerformAppend(p[1..], q, Perform(p[0], c));
    }
  }

  lemma PerformOne(i: Instr, c: Cpu)
    ensures PerformAll([i], c) == Perform(i, c)
  {
    assert [i][1..] == [];
  }

  lemma PairLoaded(env: Pending, a: Alloc, code: Code, l: Operand, r: Operand, f: Frame, c: Cpu, locals: nat, registers: nat)
    requires Rel(env, a, f, c, locals, registers) && ConsumePair(env, l, r).Some?
    ensures LoadPair(a, code, l, r).Some?
    ensures var e := LoadPair(a, code, l, r).value;
            var c' := PerformAll(e.code, c);
            && Straight(e.code)
            && c'.rax == Value(code, f, l) && c'.rcx == Value(code, f, r)
            && c'.slots == c.slots && c'.flags == c.flags
            && Rel(ConsumePair(env, l, r).value, e.alloc, f, c', locals, registers)
  {
    hide Rel, LoadOperand, Consume, Value;
    OperandLoaded(env, a, code, Rax, l, f, c, locals, registers);
    var left := LoadOperand(a, code, Rax, l).value;
    var c1 := PerformAll(left.code, c);
    OperandLoaded(Consume(env, l).value, left.alloc, code, Rcx, r, f, c1, locals, registers);
    var right := LoadOperand(left.alloc, code, Rcx, r).value;
    PerformAppend(left.code, right.code, c);
    var c2 := PerformAll(right.code, c1);
    assert c1.Get(Rax) == c2.Get(Rax) && c2.Get(Rcx) == Value(code, f, r);
  }

  /** Only the slots matter while no comparison is pending. */
  lemma RelIgnoresRegisters(env: Pending, a: Alloc, f: Frame, c: Cpu, d: Cpu, locals: nat, registers: nat)
    requires Rel(env, a, f, c, locals, registers) && NoComparison(env) && d.slots == c.slots
    ensures Rel(env, a, f, d, locals, registers)
  {
    assert forall o :: d.Slot(o) == c.Slot(o);
  }

  /** A result moved to a new slot overwrites nothing that is still needed. */
  lemma ResultMoved(env: Pending, a: Alloc, dst: nat, f: Frame, c: Cpu, locals: nat, registers: nat)
    requires Rel(env, a, f, c, locals, registers) && NoComparison(env) && Fresh(env, dst, registers)
    ensures var m := MoveToNewSlot(a, dst, Rax);
            && Straight(m.code)
            && Rel(env[dst := Temporary], m.alloc, SetReg(f, dst, c.rax), PerformAll(m.code, c), locals, registers)
  {
    NewSlot(a);
    var m := MoveToNewSlot(a, dst, Rax);
    PerformOne(StoreSlot(TempOffset(a), Rax), c);
    var d := PerformAll(m.code, c);
    var g := SetReg(f, dst, c.rax);
    forall x: nat | x < locals
      ensures d.Slot(LocalOffset(x)) == c.Slot(LocalOffset(x))
    {
    }
    var later := env[dst := Temporary];
    forall r | r in later
      ensures r < registers && Holding(later[r], r, m.alloc, g, d, locals)
    {
      assert r != dst ==> Holding(env[r], r, a, f, c, locals);
    }
  }

  // ---- operation by operation --------------------------------------------------------------------

  /** One checked operation that is not a branch: the emitted code takes the machine from the frame
      before the operation to the frame after it. */
  ghost predicate Refined(env: Pending, a: Alloc, code: Code, op: Op, next: nat, f: Frame, c: Cpu, locals: nat, registers: nat) {
    && EmitOp(a, code, op, next).Some? && ExecSigned(code, op, f).Some? && CheckOp(env, op, locals, registers).Some?
    && var e := EmitOp(a, code, op, next).value;
       && Straight(e.code)
       && Rel(CheckOp(env, op, locals, registers).value, e.alloc, ExecSigned(code, op, f).value, PerformAll(e.code, c), locals, registers)
  }

  lemma OpRefined(env: Pending, a: Alloc, code: Code, op: Op, next: nat, f: Frame, c: Cpu, locals: nat, registers: nat)
    requires Rel(env, a, f, c, locals, registers) && CheckOp(env, op, locals, registers).Some? && !op.IsBranch()
    ensures Refined(env, a, code, op, next, f, c, locals, registers)
  {
    hide Rel, Refined;
    match op
    case Load(_, _) => LoadRefined(env, a, code, op, next, f, c, locals, registers);
    case Store(_, _) => StoreRefined(env, a, code, op, next, f, c, locals, registers);
    case Compute(_, _, _, _, _) => ComputeRefined(env, a, code, op, next, f, c, locals, registers);
    case Negate(_, _) => NegateRefined(env, a, code, op, next, f, c, locals, registers);
    case Compare(_, _, _, _) => CompareRefined(env, a, code, op, next, f, c, locals, registers);
    case Ret => RetRefined(env, a, code, op, next, f, c, locals, registers);
  }

  lemma RetRefined(env: Pending, a: Alloc, code: Code, op: Op, next: nat, f: Frame, c: Cpu, locals: nat, registers: nat)
    requires op.Ret? && Rel(env, a, f, c, locals, registers) && CheckOp(env, op, locals, registers).Some?
    ensures Refined(env, a, code, op, next, f, c, locals, registers)
  {
    hide Rel;
    PerformOne(JumpNext, c);
  }

  lemma LoadRefined(env: Pending, a: Alloc, code: Code, op: Op, next: nat, f: Frame, c: Cpu, locals: nat, registers: nat)
    requires op.Load? && Rel(env, a, f, c, locals, registers) && CheckOp(env, op, locals, registers).Some?
    ensures Refined(env, a, code, op, next, f, c, locals, registers)
  {
    if op.src.Local? {
      AliasMade(env, a, op.dst, op.src.payload, f, c, locals, registers);
    } else {
      hide Rel;
      OperandLoaded(env, a, code, Rax, op.src, f, c, locals, registers);
      var l := LoadOperand(a, code, Rax, op.src).value;
      var d := PerformAll(l.code, c);
      ResultMoved(env, l.alloc, op.dst, f, d, locals, registers);
      PerformAppend(l.code, MoveToNewSlot(l.alloc, op.dst, Rax).code, c);
      assert d.Get(Rax) == Value(code, f, op.src);
    }
  }

  /** Taking over the local's slot needs no code. */
  lemma AliasMade(env: Pending, a: Alloc, dst: nat, x: nat, f: Frame, c: Cpu, locals: nat, registers: nat)
    requires Rel(env, a, f, c, locals, registers) && NoComparison(env) && Fresh(env, dst, registers) && x < locals
    ensures Rel(env[dst := AliasOf(x)], a.(homes := a.homes[dst := Home(OnStack(LocalOffset(x)), false)]),
                SetReg(f, dst, Read(f.locals, x)), c, locals, registers)
  {
    var b := a.(homes := a.homes[dst := Home(OnStack(LocalOffset(x)), false)]);
    var g := SetReg(f, dst, Read(f.locals, x));
    var later := env[dst := AliasOf(x)];
    forall r | r in later
      ensures r < registers && Holding(later[r], r, b, g, c, locals)
    {
      assert r != dst ==> Holding(env[r], r, a, f, c, locals);
    }
  }

  /** Storing to a local that no pending register aliases. */
  lemma LocalStored(env: Pending, a: Alloc, x: nat, w: Word, f: Frame, c: Cpu, d: Cpu, locals: nat, registers: nat)
    requires Rel(env, a, f, c, locals, registers) && NoComparison(env) && NoAlias(env, x) && x < locals
    requires d.slots == c.slots[LocalOffset(x) := w]
    ensures Rel(env, a, f.(locals := Write(f.locals, x, w)), d, locals, registers)
  {
    var g := f.(locals := Write(f.locals, x, w));
    forall y: nat | y < locals
      ensures d.Slot(LocalOffset(y)) == g.locals[y]
    {
      assert c.Slot(LocalOffset(y)) == f.locals[y];
    }
    forall r | r in env
      ensures r < registers && Holding(env[r], r, a, g, d, locals)
    {
      assert Holding(env[r], r, a, f, c, locals);
    }
  }

  lemma StoreRefined(env: Pending, a: Alloc, code: Code, op: Op, next: nat, f: Frame, c: Cpu, locals: nat, registers: nat)
    requires op.Store? && Rel(env, a, f, c, locals, registers) && CheckOp(env, op, locals, registers).Some?
    ensures Refined(env, a, code, op, next, f, c, locals, registers)
  {
    hide Rel, NoComparison, NoAlias;
    var x := op.to.payload;
    if op.src.Imm? {
      PerformOne(StoreImm(LocalOffset(x), Payload(op.src.payload)), c);
      LocalStored(env, a, x, Payload(op.src.payload), f, c, Perform(StoreImm(LocalOffset(x), Payload(op.src.payload)), c), locals, registers);
    } else {
      OperandLoaded(env, a, code, Rax, op.src, f, c, locals, registers);
      var l := LoadOperand(a, code, Rax, op.src).value;
      var d := PerformAll(l.code, c);
      var i := StoreSlot(LocalOffset(x), Rax);
      PerformAppend(l.code, [i], c);
      PerformOne(i, d);
      LocalStored(Consume(env, op.src).value, l.alloc, x, d.Get(Rax), f, d, Perform(i, d), locals, registers);
    }
  }

  /** Where the machine finds the value of a register that has a slot. */
  function InSlot(a: Alloc, c: Cpu, r: nat): Word {
    if r in a.homes && a.homes[r].place.OnStack? then c.Slot(a.homes[r].place.offset) else 0
  }

  /** A register that stands for a local outlives a store to that local exactly when the store does
      not change the local: that is what the alias check guards against. */
  lemma AliasOutlivesStore(env: Pending, a: Alloc, code: Code, r: nat, x: nat, o: Operand, next: nat, f: Frame, c: Cpu, locals: nat, registers: nat)
    requires Rel(env, a, f, c, locals, registers) && r in env && env[r] == AliasOf(x) && Consume(env, o).Some?
    ensures var op := Store(Local(x), o); var e := EmitOp(a, code, op, next);
            && e.Some? && Exec(code, op, f).Some?
            && (InSlot(e.value.alloc, PerformAll(e.value.code, c), r) == Read(Exec(code, op, f).value.regs, r)
                <==> Value(code, f, o) == Read(f.locals, x))
  {
    assert Holding(env[r], r, a, f, c, locals);
    if o.Imm? {
      PerformOne(StoreImm(LocalOffset(x), Payload(o.payload)), c);
    } else {
      OperandLoaded(env, a, code, Rax, o, f, c, locals, registers);
      var l := LoadOperand(a, code, Rax, o).value;
      var i := StoreSlot(LocalOffset(x), Rax);
      PerformAppend(l.code, [i], c);
      PerformOne(i, PerformAll(l.code, c));
      hide Rel, PerformAll, Value;
    }
  }

  lemma ComputeRefined(env: Pending, a: Alloc, code: Code, op: Op, next: nat, f: Frame, c: Cpu, locals: nat, registers: nat)
    requires op.Compute? && Rel(env, a, f, c, locals, registers) && CheckOp(env, op, locals, registers).Some?
    ensures Refined(env, a, code, op, next, f, c, locals, registers)
  {
    hide Rel, LoadPair, ConsumePair, Value, MoveToNewSlot, Arith, EmitCompute, Perform;
    var rest := ConsumePair(env, op.a, op.b).value;
    ConsumedFresh(env, op.a, op.b, op.dst, registers);
    var c0 := if op.op == Mul then Perform(XorRR(Rdx, Rdx), c) else c;
    NoFlagsYet(env, op.a, op.b);
    assert c0.slots == c.slots by { Cleared(c); }
    RelIgnoresRegisters(env, a, f, c, c0, locals, registers);
    PairLoaded(env, a, code, op.a, op.b, f, c0, locals, registers);
    var p := LoadPair(a, code, op.a, op.b).value;
    var c1 := PerformAll(p.code, c0);
    var c2 := Perform(ArithInstr(op.op, op.ty), c1);
    ArithComputed(op.op, op.ty, c1);
    RelIgnoresRegisters(rest, p.alloc, f, c1, c2, locals, registers);
    ResultMoved(rest, p.alloc, op.dst, f, c2, locals, registers);
    ComputeCode(a, code, op.op, op.ty, op.dst, op.a, op.b, c, c0);
  }

  function ArithInstr(op: ArithOp, ty: Ty): Instr {
    match op case Add => AddRR(Rax, Rcx) case Sub => SubRR(Rax, Rcx) case _ => MulR(Rcx, ty == I64)
  }

  lemma Cleared(c: Cpu)
    ensures Perform(XorRR(Rdx, Rdx), c).slots == c.slots
  {
  }

  lemma ArithComputed(op: ArithOp, ty: Ty, c: Cpu)
    requires op == Add || op == Sub || op == Mul
    ensures Arith(op, ty, c.rax, c.rcx) == Some(Perform(ArithInstr(op, ty), c).rax)
    ensures Perform(ArithInstr(op, ty), c).slots == c.slots
  {
  }

  lemma ComputeCode(a: Alloc, code: Code, op: ArithOp, ty: Ty, dst: nat, l: Operand, r: Operand, c: Cpu, c0: Cpu)
    requires op == Add || op == Sub || op == Mul
    requires LoadPair(a, code, l, r).Some? && Straight(LoadPair(a, code, l, r).value.code)
    requires c0 == if op == Mul then Perform(XorRR(Rdx, Rdx), c) else c
    ensures EmitCompute(a, code, op, ty, dst, l, r).Some?
    ensures var p := LoadPair(a, code, l, r).value;
            var m := MoveToNewSlot(p.alloc, dst, Rax);
            var e := EmitCompute(a, code, op, ty, dst, l, r).value;
            && Straight(e.code) && e.alloc == m.alloc
            && PerformAll(e.code, c) == PerformAll(m.code, Perform(ArithInstr(op, ty), PerformAll(p.code, c0)))
  {
    hide LoadPair, Perform;
    var p := LoadPair(a, code, l, r).value;
    var m := MoveToNewSlot(p.alloc, dst, Rax);
    var i := ArithInstr(op, ty);
    PerformOne(i, PerformAll(p.code, c0));
    PerformAppend(p.code, [i], c0);
    if op == Mul {
      var x := [XorRR(Rdx, Rdx)];
      PerformOne(x[0], c);
      PerformAppend(x, p.code + [i], c);
      assert x + (p.code + [i]) == x + p.code + [i];
      PerformAppend(x + p.code + [i], m.code, c);
    } else {
      PerformAppend(p.code + [i], m.code, c);
    }
  }

  lemma ConsumedFresh(env: Pending, a: Operand, b: Operand, dst: nat, registers: nat)
    requires ConsumePair(env, a, b).Some? && Fresh(env, dst, registers)
    ensures Fresh(ConsumePair(env, a, b).value, dst, registers)
  {
  }

  /** Numbers are never read from the flags, so no comparison was pending before either. */
  lemma NoFlagsYet(env: Pending, a: Operand, b: Operand)
    requires ConsumePair(env, a, b).Some? && NoComparison(ConsumePair(env, a, b).value)
    ensures NoComparison(env)
  {
    var left := Consume(env, a).value;
    var rest := Consume(left, b).value;
    forall r | r in env
      ensures !env[r].Comparison?
    {
      assert r in left ==> left[r] == env[r];
      assert r in rest ==> rest[r] == env[r];
    }
  }

  lemma NegateRefined(env: Pending, a: Alloc, code: Code, op: Op, next: nat, f: Frame, c: Cpu, locals: nat, registers: nat)
    requires op.Negate? && Rel(env, a, f, c, locals, registers) && CheckOp(env, op, locals, registers).Some?
    ensures Refined(env, a, code, op, next, f, c, locals, registers)
  {
    hide Rel, Value, LoadOperand;
    var rest := Consume(env, op.a).value;
    OperandLoaded(env, a, code, Rax, op.a, f, c, locals, registers);
    var l := LoadOperand(a, code, Rax, op.a).value;
    var c1 := PerformAll(l.code, c);
    var c2 := Perform(NegR(Rax), c1);
    RelIgnoresRegisters(rest, l.alloc, f, c1, c2, locals, registers);
    ResultMoved(rest, l.alloc, op.dst, f, c2, locals, registers);
    PerformOne(NegR(Rax), c1);
    PerformAppend(l.code, [NegR(Rax)], c);
    PerformAppend(l.code + [NegR(Rax)], MoveToNewSlot(l.alloc, op.dst, Rax).code, c);
    assert c2.Get(Rax) == Negated(Value(code, f, op.a));
  }

  lemma CompareRefined(env: Pending, a: Alloc, code: Code, op: Op, next: nat, f: Frame, c: Cpu, locals: nat, registers: nat)
    requires op.Compare? && Rel(env, a, f, c, locals, registers) && CheckOp(env, op, locals, registers).Some?
    ensures Refined(env, a, code, op, next, f, c, locals, registers)
  {
    hide Rel, LoadPair, ConsumePair;
    var rest := ConsumePair(env, op.a, op.b).value;
    ConsumedFresh(env, op.a, op.b, op.dst, registers);
    var place := Home(InFlags(ConditionOf(op.cmp)), false);
    var a0 := a.(homes := a.homes[op.dst := place]);
    PlaceIgnored(env, a, op.dst, place, f, c, locals, registers);
    PairLoaded(env, a0, code, op.a, op.b, f, c, locals, registers);
    var p := LoadPair(a0, code, op.a, op.b).value;
    var c1 := PerformAll(p.code, c);
    var c2 := Perform(CmpRR(Rax, Rcx), c1);
    PerformOne(CmpRR(Rax, Rcx), c1);
    PerformAppend(p.code, [CmpRR(Rax, Rcx)], c);
    RelIgnoresRegisters(rest, p.alloc, f, c1, c2, locals, registers);
    PairKeeps(a0, code, op.a, op.b, op.dst, env);
    var w := BoolWord(Ordered(op.cmp, Signed(RawValue(f, op.a)), Signed(RawValue(f, op.b))));
    JumpsDecideSignedOrder(op.cmp, c1.rax, c1.rcx);
    ComparisonMade(rest, p.alloc, op.dst, op.cmp, w, f, c2, locals, registers);
  }

  lemma PlaceIgnored(env: Pending, a: Alloc, dst: nat, home: Home, f: Frame, c: Cpu, locals: nat, registers: nat)
    requires Rel(env, a, f, c, locals, registers) && dst !in env
    ensures Rel(env, a.(homes := a.homes[dst := home]), f, c, locals, registers)
  {
  }

  /** Reading operands does not move the destination of the comparison. */
  lemma PairKeeps(a: Alloc, code: Code, l: Operand, r: Operand, dst: nat, env: Pending)
    requires dst in a.homes && dst !in env && l.Reg? && r.Reg? && ConsumePair(env, l, r).Some?
    requires LoadPair(a, code, l, r).Some?
    ensures var b := LoadPair(a, code, l, r).value.alloc; dst in b.homes && b.homes[dst] == a.homes[dst]
  {
  }

  lemma ComparisonMade(env: Pending, a: Alloc, dst: nat, cmp: CompareOp, w: Word, f: Frame, c: Cpu, locals: nat, registers: nat)
    requires Rel(env, a, f, c, locals, registers) && NoComparison(env) && Fresh(env, dst, registers)
    requires dst in a.homes && a.homes[dst] == Home(InFlags(ConditionOf(cmp)), false)
    requires c.flags.Some? && (Holds(ConditionOf(cmp), c.flags.value) <==> w != 0)
    ensures Rel(env[dst := Comparison(cmp)], a, SetReg(f, dst, w), c, locals, registers)
  {
    var g := SetReg(f, dst, w);
    var later := env[dst := Comparison(cmp)];
    forall r | r in later
      ensures r < registers && Holding(later[r], r, a, g, c, locals)
    {
      assert r != dst ==> Holding(env[r], r, a, f, c, locals);
    }
  }
}
