/** Lowering as a function on the state of the IR builder (`backends/ir.c:22-41, 294-375, 399-429,
    671-925, 1300-1446`).  `Builder` holds the same steps as methods that update the state. */
module Lowering {
  import opened Wrappers
  import opened Words
  import opened Syntax
  import opened Ir

  /** The builder's state.  `blocks` are the blocks in use; `free` are the recycled references in
      the order they will be handed out, `count` the size of the block table. */
  datatype State = State(
    blocks: Blocks, free: seq<nat>, count: nat, current: nat,
    locals: nat, regs: seq<Ty>, literals: seq<Word>, lastLoad: bool)

  /** Where a `break` goes and the local it stores a carried value in. */
  datatype Target = Target(block: nat, slot: Option<nat>)

  function FreshRef(s: State): nat {
    if s.free == [] then s.count else s.free[0]
  }

  function TakeRef(s: State): State {
    if s.free == [] then s.(count := s.count + 1) else s.(free := s.free[1..])
  }

  function SetBlock(s: State, b: nat, blk: Block): State {
    s.(blocks := s.blocks[b := blk])
  }

  /** `ir_create_block` with `append`: a new empty block laid out right after the current one. */
  function AddBlock(s: State): State {
    var r := FreshRef(s);
    var cur := At(s.blocks, s.current);
    var s1 := SetBlock(TakeRef(s), r, Block([], cur.next));
    SetBlock(s1, s.current, cur.(next := r))
  }

  function MoveTo(s: State, b: nat): State {
    s.(current := b)
  }

  /** A new block after the current one, which becomes the current one. */
  function NextBlock(s: State): State {
    MoveTo(AddBlock(s), FreshRef(s))
  }

  function AppendOp(s: State, op: Op): State {
    var cur := At(s.blocks, s.current);
    SetBlock(s, s.current, cur.(ops := cur.ops + [op])).(lastLoad := op.Load?)
  }

  function NextReg(s: State): nat {
    |s.regs|
  }

  /** Append an operation that defines the next register, of type `ty`. */
  function AppendDst(s: State, ty: Ty, op: Op): State {
    AppendOp(s.(regs := s.regs + [ty]), op)
  }

  /** A new local; its number is the count so far. */
  function AddLocal(s: State): State {
    s.(locals := s.locals + 1)
  }

  type Lowered = (State, Operand)

  function EmitLoad(s: State, ty: Ty, src: Operand): Lowered {
    (AppendDst(s, ty, Load(NextReg(s), src)), Reg(NextReg(s)))
  }

  /** Immediates are loaded before arithmetic and comparisons; no other operand is. */
  function LoadImmediate(s: State, ty: Ty, o: Operand): Lowered {
    if o.Imm? then EmitLoad(s, ty, o) else (s, o)
  }

  function LowerLiteral(s: State, w: Word): Lowered {
    if w <= MAX_IMMEDIATE then (s, Imm(w)) else (s.(literals := s.literals + [w]), Literal(|s.literals|))
  }

  /** A cast takes over the register of a load that came right before it. */
  function LowerCast(s: State, ty: Ty, o: Operand): Lowered {
    if s.lastLoad && o.payload < |s.regs| then (s.(regs := s.regs[o.payload := ty]), o)
    else (AppendDst(s, ty, CastTo(NextReg(s), o)), Reg(NextReg(s)))
  }

  /** The operand an `if` branches on: immediates are loaded, and whatever is not bool is compared
      with the immediate zero. */
  function IfOperand(s: State, o: Operand): Lowered {
    var (s1, o1) := LoadImmediate(s, Bool, o);
    if o.Reg? && o.payload < |s.regs| && s.regs[o.payload] == Bool then (s, o)
    else (AppendDst(s1, Bool, Compare(Neq, NextReg(s1), o1, Imm(0))), Reg(NextReg(s1)))
  }

  function Lower(s: State, ctx: seq<Target>, e: Expr): Lowered
    decreases e, 0
  {
    match e
    case Lit(w, _) => LowerLiteral(s, w)
    case Var(x, ty) => EmitLoad(s, ty, Local(x))
    case Bin(op, ty, l, r) =>
      var (s1, a) := Lower(s, ctx, l);
      var (s2, a') := LoadImmediate(s1, ty, a);
      var (s3, b) := Lower(s2, ctx, r);
      var (s4, b') := LoadImmediate(s3, ty, b);
      (AppendDst(s4, ty, Compute(op, ty, NextReg(s4), a', b')), Reg(NextReg(s4)))
    case Cmp(cmp, l, r) =>
      var (s1, b) := Lower(s, ctx, r);
      var (s2, b') := LoadImmediate(s1, TypeOf(r), b);
      var (s3, a) := Lower(s2, ctx, l);
      var (s4, a') := LoadImmediate(s3, TypeOf(l), a);
      (AppendDst(s4, Bool, Compare(cmp, NextReg(s4), a', b')), Reg(NextReg(s4)))
    case Logic(conjunction, l, r) =>
      var (s1, a) := Lower(s, ctx, l);
      var s2 := AppendDst(s1, TypeOf(l), Test(TypeOf(l), NextReg(s1), a));
      var (s3, b) := Lower(s2, ctx, r);
      var s4 := AppendDst(s3, TypeOf(r), Test(TypeOf(r), NextReg(s3), b));
      (AppendDst(s4, Bool, Combine(conjunction, NextReg(s4), Reg(NextReg(s1)), Reg(NextReg(s3)))), Reg(NextReg(s4)))
    case Neg(operand) =>
      var (s1, a) := Lower(s, ctx, operand);
      (AppendDst(s1, I64, Negate(NextReg(s1), a)), Reg(NextReg(s1)))
    case Cast(ty, operand) =>
      var (s1, a) := Lower(s.(lastLoad := false), ctx, operand);
      LowerCast(s1, ty, a)
    case Assign(x, rhs) =>
      var (s1, v) := Lower(s, ctx, rhs);
      (AppendOp(s1, Store(Local(x), v)), v)
    case OpAssign(op, ty, x, rhs) =>
      var (s1, b) := Lower(s, ctx, rhs);
      var (s2, a) := EmitLoad(s1, ty, Local(x));
      var s3 := AppendDst(s2, ty, Compute(op, ty, NextReg(s2), a, b));
      (AppendOp(s3, Store(Local(x), Reg(NextReg(s2)))), Reg(NextReg(s2)))
    case Do(result, items) =>
      var exit := FreshRef(s);
      var s1 := OpenDo(s);
      var s2 := LowerAll(s1, [Target(exit, Some(s.locals))] + ctx, items);
      EmitLoad(MoveTo(s2, exit), result.ty, Local(s.locals))
    case If(c, body, orelse) =>
      var p := OpenIf(s, orelse.Some?);
      var s1 := BranchIf(Lower(p.state, ctx, c), p);
      var s2 := AppendOp(LowerStmt(MoveTo(s1, p.body), ctx, body), Branch(p.end));
      var s3 := if orelse.None? then s2
                else AppendOp(LowerStmt(MoveTo(s2, p.orelse), ctx, orelse.value), Branch(p.end));
      (MoveTo(s3, p.end), Imm(0))
    case Loop(init, test, update, body, slot) =>
      var s0 := if init.None? then s else LowerStmt(s, ctx, init.value);
      var p := OpenLoop(s0, slot.Some?);
      var ctx' := LoopContext(s0, ctx, p, slot.Some?);
      var s1 := if test.None? then p.state else BranchLoop(Lower(p.state, ctx', test.value), p);
      var s2 := LowerStmt(MoveTo(s1, p.body), ctx', body);
      var s3 := if update.None? then s2 else Lower(s2, ctx', update.value).0;
      CloseLoop(AppendOp(s3, Branch(p.test)), p, s0.locals, slot)
    case Break(level, carried) =>
      var target := if level < |ctx| then ctx[level] else Target(0, None);
      var s1 := if carried.None? then s else LowerCarried(Lower(s, ctx, carried.value), target.slot);
      (LeaveTo(s1, target.block), Imm(0))
  }

  /** The block a `do` leaves to, and the local for its value. */
  function OpenDo(s: State): State {
    AddBlock(AddLocal(s))
  }

  /** The blocks of an `if`; without `else` the else block is also the end. */
  datatype IfParts = IfParts(state: State, body: nat, orelse: nat, end: nat)

  function OpenIf(s: State, hasElse: bool): IfParts {
    var s1 := NextBlock(s);
    var s2 := NextBlock(s1);
    var s3 := if hasElse then NextBlock(s2) else s2;
    IfParts(MoveTo(s3, s.current), s1.current, s2.current, s3.current)
  }

  /** The blocks of a loop: condition, body, where `break` lands, and the end. */
  datatype LoopParts = LoopParts(state: State, test: nat, body: nat, exit: nat, end: nat)

  function OpenLoop(s: State, hasSlot: bool): LoopParts {
    var s1 := NextBlock(s);
    var s2 := NextBlock(s1);
    var s3 := NextBlock(s2);
    var s4 := NextBlock(s3);
    var s5 := MoveTo(s4, s1.current);
    LoopParts(if hasSlot then AddLocal(s5) else s5, s1.current, s2.current, s3.current, s4.current)
  }

  /** The condition of an `if`, ending its block with the two-way branch. */
  function BranchIf(low: Lowered, p: IfParts): State {
    var (s, o) := IfOperand(low.0, low.1);
    AppendOp(s, BranchCond(o, p.body, p.orelse))
  }

  function LoopContext(s: State, ctx: seq<Target>, p: LoopParts, hasSlot: bool): seq<Target> {
    [Target(p.exit, if hasSlot then Some(s.locals) else None)] + ctx
  }

  function CloseLoop(s: State, p: LoopParts, local: nat, slot: Option<Slot>): Lowered {
    if slot.Some? then EmitLoad(MoveTo(s, p.end), slot.value.ty, Local(local)) else (MoveTo(s, p.end), Imm(0))
  }

  function BranchLoop(low: Lowered, p: LoopParts): State {
    AppendOp(low.0, BranchCond(low.1, p.body, p.end))
  }

  function LowerCarried(low: Lowered, slot: Option<nat>): State {
    if slot.Some? then AppendOp(low.0, Store(Local(slot.value), low.1)) else low.0
  }

  /** A jump out, followed by a new block for whatever comes after it. */
  function LeaveTo(s: State, target: nat): State {
    NextBlock(AppendOp(s, Branch(target)))
  }

  function LowerStmt(s: State, ctx: seq<Target>, st: Stmt): State
    decreases st, 0
  {
    match st
    case Compound(items) => LowerAll(s, ctx, items)
    case Decl(_, initial) =>
      var s1 := AddLocal(s);
      if initial.None? then s1 else
      var (s2, v) := Lower(s1, ctx, initial.value);
      AppendOp(s2, Store(Local(s.locals), v))
    case Eval(e) => Lower(s, ctx, e).0
  }

  function LowerAll(s: State, ctx: seq<Target>, items: seq<Stmt>): State
    decreases items, 0
  {
    if items == [] then s else LowerAll(LowerStmt(s, ctx, items[0]), ctx, items[1..])
  }

  /** Lowering both operands of an operation. */
  datatype Pair = Pair(state: State, first: Operand, second: Operand)

  function LowerPair(s: State, ctx: seq<Target>, first: Expr, second: Expr, t1: Ty, t2: Ty): Pair {
    var low1 := Lower(s, ctx, first);
    var a := LoadImmediate(low1.0, t1, low1.1);
    var low2 := Lower(a.0, ctx, second);
    var b := LoadImmediate(low2.0, t2, low2.1);
    Pair(b.0, a.1, b.1)
  }

  /** Literals below 2^28 are operands themselves; the others go to the end of the literal table. */
  lemma LiteralOperand(s: State, w: Word)
    ensures LowerLiteral(s, w).1 == Imm(w) <==> w < 0x1000_0000
    ensures w >= 0x1000_0000 ==> LowerLiteral(s, w) == (s.(literals := s.literals + [w]), Literal(|s.literals|))
    ensures w < 0x1000_0000 ==> LowerLiteral(s, w).0 == s
  {
  }
}
