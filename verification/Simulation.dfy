/** Lowering preserves meaning: whatever a source run does, the run of the generated blocks does
    too, from the place lowering started to the place it ended.  The blocks are those of the
    finished code, in which the blocks of this piece are complete and the others are arbitrary. */
module Simulation {
  import opened Wrappers
  import opened Words
  import opened Syntax
  import opened Ir
  import opened Lowering
  import opened Shape
  import opened LoweringShape
  import Source

  // ---- how the finished code relates to a piece of lowering ----------------------------------

  /** From `s` to `t` lowering worked on the current block of `s` and on new blocks.  All of these
      but the current block of `t` are finished; of every block at least the beginning is final. */
  predicate Agrees(code: Code, s: State, t: State) {
    && (forall x :: x in t.blocks ==> x in code.blocks && t.blocks[x].ops <= code.blocks[x].ops)
    && (forall x :: x in t.blocks && (x !in s.blocks || x == s.current) && x != t.current
          ==> code.blocks[x] == t.blocks[x])
    && t.literals <= code.literals
  }

  /** The frame has room for the registers and locals of the piece. */
  predicate Roomy(t: State, f: Frame) {
    |t.regs| <= |f.regs| && t.locals <= |f.locals|
  }

  /** Registers allocated before the piece keep their values. */
  predicate SameBelow(f: Frame, g: Frame, n: nat) {
    && |f.regs| == |g.regs| && |f.locals| == |g.locals|
    && forall r :: 0 <= r < n && r < |f.regs| ==> f.regs[r] == g.regs[r]
  }

  function Here(s: State, f: Frame): Config {
    Running(s.current, |At(s.blocks, s.current).ops|, f)
  }

  predicate Reaches(code: Code, s: State, f: Frame, t: State, g: Frame, n: nat) {
    Steps(code, Here(s, f), n) == Here(t, g) && SameBelow(f, g, |s.regs|)
  }

  /** What `n` steps of the code do for a source result. */
  predicate Simulates(code: Code, s: State, f: Frame, t: State, o: Operand, ctx: seq<Target>,
                      r: Source.Result, fuel: nat, n: nat, g: Frame) {
    match r
    case Done(Normal, store, w) => Reaches(code, s, f, t, g, n) && g.locals == store && Value(code, g, o) == w
    case Done(Broken(level, carried), store, _) =>
      && level < |ctx|
      && Steps(code, Here(s, f), n) == Enter(ctx[level].block, g)
      && SameBelow(f, g, |s.regs|)
      && g.locals == Source.WriteSlot(store, ctx[level].slot, carried)
    case Fault => Steps(code, Here(s, f), n) == Faulted
    case Timeout => n >= fuel && Steps(code, Here(s, f), n).Running?
  }

  /** Enclosing targets are real blocks. */
  predicate Targets(ctx: seq<Target>) {
    forall i :: 0 <= i < |ctx| ==> ctx[i].block != 0
  }

  // ---- composing runs ------------------------------------------------------------------------

  lemma ReachesTransitive(code: Code, s: State, f: Frame, m: State, g: Frame, t: State, h: Frame, n1: nat, n2: nat)
    requires Reaches(code, s, f, m, g, n1) && Reaches(code, m, g, t, h, n2) && |s.regs| <= |m.regs|
    ensures Reaches(code, s, f, t, h, n1 + n2)
  {
    StepsAdd(code, Here(s, f), n1, n2);
  }

  lemma ReachesThen(code: Code, s: State, f: Frame, m: State, g: Frame, t: State, o: Operand, ctx: seq<Target>,
                    r: Source.Result, fuel: nat, n1: nat, n2: nat, h: Frame)
    requires Reaches(code, s, f, m, g, n1) && |s.regs| <= |m.regs|
    requires Simulates(code, m, g, t, o, ctx, r, fuel, n2, h)
    ensures Simulates(code, s, f, t, o, ctx, r, fuel, n1 + n2, h)
  {
    StepsAdd(code, Here(s, f), n1, n2);
  }

  lemma AgreesWithin(code: Code, s: State, a: State, b: State, t: State)
    requires Extends(s, a) && Extends(a, b) && Extends(b, t) && Agrees(code, s, t)
    ensures Agrees(code, a, b)
  {
    forall x | x in b.blocks
      ensures x in code.blocks && b.blocks[x].ops <= code.blocks[x].ops
      ensures (x !in a.blocks || x == a.current) && x != b.current ==> code.blocks[x] == b.blocks[x]
    {
      assert x in t.blocks;
    }
  }

  /** The next operation appended to the current block is the next one the run executes. */
  lemma OneStep(code: Code, s: State, t: State, op: Op, f: Frame)
    requires s.current in s.blocks && s.current in t.blocks && s.current in code.blocks
    requires t.blocks[s.current].ops == s.blocks[s.current].ops + [op]
    requires t.blocks[s.current].ops <= code.blocks[s.current].ops
    ensures Steps(code, Here(s, f), 1) == Execute(code, s.current, |s.blocks[s.current].ops|, op, f)
  {
    var n := |s.blocks[s.current].ops|;
    assert code.blocks[s.current].ops[n] == t.blocks[s.current].ops[n] == op;
    assert Steps(code, Here(s, f), 1) == Steps(code, Step(code, Here(s, f)), 0);
  }

  /** The fall from the end of a finished block to its layout successor. */
  lemma FallStep(code: Code, s: State, f: Frame)
    requires s.current in s.blocks && s.current in code.blocks
    requires code.blocks[s.current] == s.blocks[s.current]
    ensures Steps(code, Here(s, f), 1) == Enter(s.blocks[s.current].next, f)
  {
    assert Steps(code, Here(s, f), 1) == Steps(code, Step(code, Here(s, f)), 0);
  }

  lemma DefineStep(code: Code, s: State, t: State, ty: Ty, op: Op, f: Frame, w: Word) returns (g: Frame)
    requires Ready(s) && t == AppendDst(s, ty, op) && Agrees(code, s, t) && Roomy(t, f) && !op.IsBranch()
    requires Exec(code, op, f) == Some(SetReg(f, NextReg(s), w))
    ensures Reaches(code, s, f, t, g, 1) && g.locals == f.locals && Roomy(t, g)
    ensures Value(code, g, Reg(NextReg(s))) == w
  {
    AppendDstShape(s, ty, op);
    g := SetReg(f, NextReg(s), w);
    OneStep(code, s, t, op, f);
  }

  lemma StoreStep(code: Code, s: State, t: State, x: nat, o: Operand, f: Frame) returns (g: Frame)
    requires Ready(s) && t == AppendOp(s, Store(Local(x), o)) && Agrees(code, s, t) && Roomy(t, f)
    ensures Reaches(code, s, f, t, g, 1) && g.regs == f.regs
    ensures g.locals == Write(f.locals, x, Value(code, f, o))
  {
    AppendShape(s, Store(Local(x), o));
    g := f.(locals := Write(f.locals, x, Value(code, f, o)));
    OneStep(code, s, t, Store(Local(x), o), f);
  }

  lemma LoadImmediateStep(code: Code, s: State, ty: Ty, o: Operand, f: Frame) returns (n: nat, g: Frame)
    requires Ready(s) && Fits(s, o)
    requires var t := LoadImmediate(s, ty, o).0; Agrees(code, s, t) && Roomy(t, f)
    ensures var (t, o') := LoadImmediate(s, ty, o);
            && Reaches(code, s, f, t, g, n) && g.locals == f.locals && Roomy(t, g)
            && Fits(t, o') && !o'.Imm? && (o'.Literal? ==> o.Literal?)
            && Value(code, g, o') == Value(code, f, o)
  {
    if o.Imm? {
      n := 1;
      g := DefineStep(code, s, LoadImmediate(s, ty, o).0, ty, Load(NextReg(s), o), f, Value(code, f, o));
    } else {
      n, g := 0, f;
    }
  }

  lemma KeepsRoom(code: Code, s: State, f: Frame, m: State, g: Frame, n: nat, t: State)
    requires Reaches(code, s, f, m, g, n) && Roomy(t, f)
    ensures Roomy(t, g)
  {
  }

  lemma OperandReached(code: Code, s: State, f: Frame, m: State, g: Frame, n: nat, o: Operand)
    requires Reaches(code, s, f, m, g, n) && Fits(s, o)
    ensures Value(code, f, o) == Value(code, g, o)
  {
  }

  lemma FitsLater(a: State, b: State, o: Operand)
    requires Extends(a, b) && Fits(a, o)
    ensures Fits(b, o)
  {
  }

  /** A result that does not fall through says nothing of where lowering ended. */
  lemma Elsewhere(code: Code, s: State, f: Frame, t1: State, o1: Operand, t2: State, o2: Operand, ctx: seq<Target>,
                  r: Source.Result, fuel: nat, n: nat, g: Frame)
    requires !r.Falls() && Simulates(code, s, f, t1, o1, ctx, r, fuel, n, g)
    ensures Simulates(code, s, f, t2, o2, ctx, r, fuel, n, g)
  {
  }

  lemma LoadImmediateLocals(s: State, ty: Ty, o: Operand)
    ensures LoadImmediate(s, ty, o).0.locals == s.locals
  {
  }

  /** Two consecutive pieces. */
  lemma SplitCode(code: Code, s: State, m: State, t: State)
    requires Ready(s) && Extends(s, m) && Extends(m, t) && Agrees(code, s, t)
    ensures Ready(m) && Agrees(code, s, m) && Agrees(code, m, t) && |s.regs| <= |m.regs| <= |t.regs| && m.locals <= t.locals
    ensures Extends(s, t)
  {
    ExtendsReflexive(s);
    ExtendsTransitive(s, m, t);
    ExtendsReflexive(t);
    AgreesWithin(code, s, s, m, t);
    AgreesWithin(code, s, m, t, t);
  }

  lemma Split(code: Code, s: State, m: State, t: State, f: Frame)
    requires Ready(s) && Extends(s, m) && Extends(m, t) && Agrees(code, s, t) && Roomy(t, f)
    ensures Ready(m) && Agrees(code, s, m) && Agrees(code, m, t) && Roomy(m, f) && |s.regs| <= |m.regs| <= |t.regs|
    ensures Extends(s, t)
  {
    hide Ready, Extends, Agrees;
    SplitCode(code, s, m, t);
  }

  lemma ComputeStep(code: Code, s: State, op: ArithOp, ty: Ty, a: Operand, b: Operand, t: State, f: Frame) returns (g: Frame)
    requires Ready(s) && t == AppendDst(s, ty, Compute(op, ty, NextReg(s), a, b)) && Agrees(code, s, t) && Roomy(t, f)
    ensures var v := Arith(op, ty, Value(code, f, a), Value(code, f, b));
            if v.None? then Steps(code, Here(s, f), 1) == Faulted
            else Reaches(code, s, f, t, g, 1) && g.locals == f.locals && Roomy(t, g) && Value(code, g, Reg(NextReg(s))) == v.value
  {
    var v := Arith(op, ty, Value(code, f, a), Value(code, f, b));
    if v.Some? {
      g := DefineStep(code, s, t, ty, Compute(op, ty, NextReg(s), a, b), f, v.value);
    } else {
      g := f;
      AppendDstShape(s, ty, Compute(op, ty, NextReg(s), a, b));
      OneStep(code, s, t, Compute(op, ty, NextReg(s), a, b), f);
    }
  }

  lemma CompareStep(code: Code, s: State, cmp: CompareOp, a: Operand, b: Operand, t: State, f: Frame) returns (g: Frame)
    requires Ready(s) && t == AppendDst(s, Bool, Compare(cmp, NextReg(s), a, b)) && Agrees(code, s, t) && Roomy(t, f)
    requires a.Reg? && b.Reg?
    ensures Reaches(code, s, f, t, g, 1) && g.locals == f.locals
    ensures Value(code, g, Reg(NextReg(s))) == BoolWord(Ordered(cmp, Value(code, f, a), Value(code, f, b)))
  {
    var w := BoolWord(Ordered(cmp, Value(code, f, a), Value(code, f, b)));
    g := DefineStep(code, s, t, Bool, Compare(cmp, NextReg(s), a, b), f, w);
  }

  /** A cast either ends the operand's piece, which is then complete as it is, or adds one operation. */
  lemma CastPieces(code: Code, s: State, s0: State, s1: State, ty: Ty, a: Operand, t: State, f: Frame)
    requires Ready(s) && s0 == s.(lastLoad := false) && Extends(s0, s1)
    requires t == LowerCast(s1, ty, a).0 && Agrees(code, s, t) && Roomy(t, f)
    ensures Ready(s0) && Agrees(code, s0, t) && Extends(s1, t)
  {
    CastAfter(s1, ty, a);
  }

  lemma CastAfter(s: State, ty: Ty, o: Operand)
    requires Ready(s)
    ensures Extends(s, LowerCast(s, ty, o).0)
  {
    ExtendsReflexive(s);
    CastExtends(s, s, ty, o);
  }

  lemma SameEnd(code: Code, s: State, s1: State, t: State, f: Frame, g: Frame, n: nat)
    requires Reaches(code, s, f, s1, g, n) && s1.current == t.current && s1.blocks == t.blocks
    ensures Reaches(code, s, f, t, g, n)
  {
  }

  lemma SameStart(code: Code, s: State, s0: State, f: Frame, t: State, o: Operand, ctx: seq<Target>,
                  r: Source.Result, fuel: nat, n: nat, g: Frame)
    requires Simulates(code, s0, f, t, o, ctx, r, fuel, n, g)
    requires s.current == s0.current && s.blocks == s0.blocks && s.regs == s0.regs
    ensures Simulates(code, s, f, t, o, ctx, r, fuel, n, g)
  {
  }

  // ---- the theorem, one construct at a time ----------------------------------------------------

  predicate Entry(code: Code, s: State, t: State, ctx: seq<Target>, f: Frame) {
    Ready(s) && Agrees(code, s, t) && Roomy(t, f) && Targets(ctx)
  }

  lemma SimExpr(code: Code, s: State, ctx: seq<Target>, e: Expr, f: Frame, fuel: nat) returns (n: nat, g: Frame)
    requires Entry(code, s, Lower(s, ctx, e).0, ctx, f)
    requires Supported(e) && Resolve(e, s.locals, SlotsOf(ctx)).Some?
    ensures Simulates(code, s, f, Lower(s, ctx, e).0, Lower(s, ctx, e).1, ctx, Source.Run(e, f.locals, fuel), fuel, n, g)
    decreases fuel, e, 9
  {
    hide Ready, Extends, Agrees, Roomy, SameBelow, Reaches, LowerStmt, LowerAll, AppendDst, AppendOp, OpenIf, OpenLoop, OpenDo, BranchIf, BranchLoop, CloseLoop;
    match e
    case Lit(w, _) => n, g := SimLiteral(code, s, ctx, w, f, fuel);
    case Var(x, ty) =>
      n := 1;
      g := DefineStep(code, s, AppendDst(s, ty, Load(NextReg(s), Local(x))), ty, Load(NextReg(s), Local(x)), f, Read(f.locals, x));
    case Bin(_, _, _, _) => n, g := SimBin(code, s, ctx, e, f, fuel);
    case Cmp(_, _, _) => n, g := SimCmp(code, s, ctx, e, f, fuel);
    case Logic(_, _, _) => n, g := SimLogic(code, s, ctx, e, f, fuel);
    case Neg(_) => n, g := SimNeg(code, s, ctx, e, f, fuel);
    case Cast(_, _) => n, g := SimCast(code, s, ctx, e, f, fuel);
    case Assign(_, _) => n, g := SimAssign(code, s, ctx, e, f, fuel);
    case OpAssign(_, _, _, _) => n, g := SimOpAssign(code, s, ctx, e, f, fuel);
    case Do(_, _) => n, g := SimDo(code, s, ctx, e, f, fuel);
    case If(_, _, _) => n, g := SimIf(code, s, ctx, e, f, fuel);
    case Loop(_, _, _, _, _) => n, g := SimLoop(code, s, ctx, e, f, fuel);
    case Break(_, _) => n, g := SimBreak(code, s, ctx, e, f, fuel);
  }

  lemma SimLiteral(code: Code, s: State, ctx: seq<Target>, w: Word, f: Frame, fuel: nat) returns (n: nat, g: Frame)
    requires Entry(code, s, LowerLiteral(s, w).0, ctx, f)
    ensures Simulates(code, s, f, LowerLiteral(s, w).0, LowerLiteral(s, w).1, ctx, Source.Done(Source.Normal, f.locals, w), fuel, n, g)
  {
    n, g := 0, f;
    var (t, o) := LowerLiteral(s, w);
    if o.Literal? {
      assert t.literals[|s.literals|] == w;
    }
  }

  /** One subexpression inside a longer piece that ends at `t`. */
  lemma SimPart(code: Code, s: State, ctx: seq<Target>, e: Expr, part: Expr, t: State, o: Operand, f: Frame, fuel: nat)
    returns (n: nat, g: Frame)
    requires part < e && Supported(part) && Entry(code, s, t, ctx, f)
    requires Resolve(part, s.locals, SlotsOf(ctx)).Some?
    requires Extends(Lower(s, ctx, part).0, t)
    ensures var (s1, a) := Lower(s, ctx, part);
            var r := Source.Run(part, f.locals, fuel);
            && Ready(s1) && Extends(s, s1) && Agrees(code, s1, t) && GoodOperand(s, s1, a, part)
            && s1.locals == Resolve(part, s.locals, SlotsOf(ctx)).value
            && |s.regs| <= |s1.regs| <= |t.regs|
            && if !r.Falls() then Simulates(code, s, f, t, o, ctx, r, fuel, n, g)
               else && Reaches(code, s, f, s1, g, n) && g.locals == r.store
                    && Roomy(t, g) && Roomy(s1, g) && Value(code, g, a) == r.word
    decreases fuel, e, 1
  {
    hide Ready, Extends, Agrees, Roomy, SameBelow, Reaches, Lower, AppendDst, AppendOp, Source.Run, Resolve, Supported, YieldsLiteral, YieldsBool, Value, GoodOperand;
    var (s1, a) := Lower(s, ctx, part);
    LowerExtends(s, ctx, part);
    Split(code, s, s1, t, f);
    LowerOperand(s, ctx, part);
    LowerLocals(s, ctx, part);
    n, g := SimExpr(code, s, ctx, part, f, fuel);
    var r := Source.Run(part, f.locals, fuel);
    if r.Falls() {
      KeepsRoom(code, s, f, s1, g, n, t);
      KeepsRoom(code, s, f, s1, g, n, s1);
    } else {
      Elsewhere(code, s, f, s1, a, t, o, ctx, r, fuel, n, g);
    }
  }

  /** A subexpression whose operand is loaded if it is an immediate. */
  lemma SimOperand(code: Code, s: State, ctx: seq<Target>, e: Expr, part: Expr, ty: Ty, t: State, o: Operand, f: Frame, fuel: nat)
    returns (n: nat, g: Frame)
    requires part < e && Supported(part) && Entry(code, s, t, ctx, f)
    requires Resolve(part, s.locals, SlotsOf(ctx)).Some?
    requires Extends(LoadImmediate(Lower(s, ctx, part).0, ty, Lower(s, ctx, part).1).0, t)
    ensures var (s2, a) := LoadImmediate(Lower(s, ctx, part).0, ty, Lower(s, ctx, part).1);
            var r := Source.Run(part, f.locals, fuel);
            && Ready(s2) && Extends(s, s2) && Agrees(code, s2, t) && Fits(s2, a)
            && !a.Imm? && (a.Literal? ==> YieldsLiteral(part))
            && s2.locals == Resolve(part, s.locals, SlotsOf(ctx)).value
            && |s.regs| <= |s2.regs| <= |t.regs|
            && if !r.Falls() then Simulates(code, s, f, t, o, ctx, r, fuel, n, g)
               else && Reaches(code, s, f, s2, g, n) && g.locals == r.store
                    && Roomy(t, g) && Roomy(s2, g) && Value(code, g, a) == r.word
    decreases fuel, e, 2
  {
    hide Ready, Extends, Agrees, Roomy, SameBelow, Reaches, Lower, AppendDst, AppendOp, Source.Run, Resolve, Supported, YieldsLiteral, YieldsBool, Value;
    var (s1, a0) := Lower(s, ctx, part);
    var (s2, a) := LoadImmediate(s1, ty, a0);
    LowerExtends(s, ctx, part);
    LoadImmediateShape(s1, ty, a0);
    ExtendsTransitive(s1, s2, t);
    LoadImmediateLocals(s1, ty, a0);
    var n1, g1 := SimPart(code, s, ctx, e, part, t, o, f, fuel);
    ExtendsTransitive(s, s1, s2);
    Split(code, s, s2, t, f);
    var r := Source.Run(part, f.locals, fuel);
    if !r.Falls() {
      n, g := n1, g1;
      LoadImmediateFits(s1, ty, a0);
    } else {
      Split(code, s1, s2, t, g1);
      var n2, g2 := LoadImmediateStep(code, s1, ty, a0, g1);
      ReachesTransitive(code, s, f, s1, g1, s2, g2, n1, n2);
      KeepsRoom(code, s1, g1, s2, g2, n2, t);
      n, g := n1 + n2, g2;
    }
  }

  lemma LoadImmediateFits(s: State, ty: Ty, o: Operand)
    requires Fits(s, o)
    ensures var (t, o') := LoadImmediate(s, ty, o); Fits(t, o') && !o'.Imm? && (o'.Literal? ==> o.Literal?)
  {
  }

  /** Two operands evaluated in order. */
  lemma SimPair(code: Code, s: State, ctx: seq<Target>, e: Expr, first: Expr, second: Expr, t1: Ty, t2: Ty,
                t: State, o: Operand, f: Frame, fuel: nat)
    returns (n: nat, g: Frame)
    requires first < e && second < e && Supported(first) && Supported(second)
    requires Entry(code, s, t, ctx, f)
    requires Resolve(first, s.locals, SlotsOf(ctx)).Some?
    requires Resolve(second, Resolve(first, s.locals, SlotsOf(ctx)).value, SlotsOf(ctx)).Some?
    requires var s2 := LoadImmediate(Lower(s, ctx, first).0, t1, Lower(s, ctx, first).1).0;
             var s4 := LoadImmediate(Lower(s2, ctx, second).0, t2, Lower(s2, ctx, second).1).0;
             Extends(s4, t)
    ensures var (s2, a) := LoadImmediate(Lower(s, ctx, first).0, t1, Lower(s, ctx, first).1);
            var (s4, b) := LoadImmediate(Lower(s2, ctx, second).0, t2, Lower(s2, ctx, second).1);
            var r1 := Source.Run(first, f.locals, fuel);
            if !r1.Falls() then Simulates(code, s, f, t, o, ctx, r1, fuel, n, g) else
            var r2 := Source.Run(second, r1.store, fuel);
            if !r2.Falls() then Simulates(code, s, f, t, o, ctx, r2, fuel, n, g) else
            && Reaches(code, s, f, s4, g, n) && g.locals == r2.store && Ready(s4) && Agrees(code, s4, t) && Roomy(t, g)
            && |s.regs| <= |s4.regs|
            && Value(code, g, a) == r1.word && Value(code, g, b) == r2.word
            && Fits(s4, a) && Fits(s4, b) && !a.Imm? && !b.Imm?
            && (a.Literal? ==> YieldsLiteral(first)) && (b.Literal? ==> YieldsLiteral(second))
    decreases fuel, e, 3
  {
    hide Ready, Extends, Agrees, Roomy, SameBelow, Reaches, Lower, LoadImmediate, AppendDst, AppendOp, Source.Run, Resolve, Supported, YieldsLiteral, YieldsBool, Value, Fits;
    var (s2, a) := LoadImmediate(Lower(s, ctx, first).0, t1, Lower(s, ctx, first).1);
    var (s4, b) := LoadImmediate(Lower(s2, ctx, second).0, t2, Lower(s2, ctx, second).1);
    PairExtends(s, ctx, e, first, second, t1, t2);
    ExtendsTransitive(s2, Lower(s2, ctx, second).0, s4);
    ExtendsTransitive(s2, s4, t);
    var n1, g1 := SimOperand(code, s, ctx, e, first, t1, t, o, f, fuel);
    var r1 := Source.Run(first, f.locals, fuel);
    if !r1.Falls() {
      n, g := n1, g1;
    } else {
      var n2, g2 := SimOperand(code, s2, ctx, e, second, t2, t, o, g1, fuel);
      var r2 := Source.Run(second, r1.store, fuel);
      n, g := n1 + n2, g2;
      if !r2.Falls() {
        ReachesThen(code, s, f, s2, g1, t, o, ctx, r2, fuel, n1, n2, g2);
      } else {
        ReachesTransitive(code, s, f, s2, g1, s4, g2, n1, n2);
        OperandReached(code, s2, g1, s4, g2, n2, a);
        FitsLater(s2, s4, a);
      }
    }
  }

  lemma LowerBinIs(s: State, ctx: seq<Target>, e: Expr)
    requires e.Bin?
    ensures var (s2, a) := LoadImmediate(Lower(s, ctx, e.left).0, e.ty, Lower(s, ctx, e.left).1);
            var (s4, b) := LoadImmediate(Lower(s2, ctx, e.right).0, e.ty, Lower(s2, ctx, e.right).1);
            Lower(s, ctx, e) == (AppendDst(s4, e.ty, Compute(e.op, e.ty, NextReg(s4), a, b)), Reg(NextReg(s4)))
  {
    hide LoadImmediate, AppendDst;
  }

  lemma RunBinIs(e: Expr, s: seq<Word>, fuel: nat)
    requires e.Bin?
    ensures var r1 := Source.Run(e.left, s, fuel);
            if !r1.Falls() then Source.Run(e, s, fuel) == r1 else
            var r2 := Source.Run(e.right, r1.store, fuel);
            if !r2.Falls() then Source.Run(e, s, fuel) == r2 else
            var v := Arith(e.op, e.ty, r1.word, r2.word);
            Source.Run(e, s, fuel) == if v.None? then Source.Fault else Source.Done(Source.Normal, r2.store, v.value)
  {
    hide Arith;
  }

  lemma SimBin(code: Code, s: State, ctx: seq<Target>, e: Expr, f: Frame, fuel: nat) returns (n: nat, g: Frame)
    requires e.Bin? && Entry(code, s, Lower(s, ctx, e).0, ctx, f)
    requires Supported(e) && Resolve(e, s.locals, SlotsOf(ctx)).Some?
    ensures Simulates(code, s, f, Lower(s, ctx, e).0, Lower(s, ctx, e).1, ctx, Source.Run(e, f.locals, fuel), fuel, n, g)
    decreases fuel, e, 8
  {
    hide Lower, Source.Run, Ready, Extends, Agrees, Roomy, SameBelow, Reaches, AppendDst, AppendOp, LoadImmediate, Resolve, Supported,
      YieldsLiteral, YieldsBool, Value, Fits, Arith;
    var (op, ty, l, r) := (e.op, e.ty, e.left, e.right);
    var (t, o) := Lower(s, ctx, e);
    var (s2, a) := LoadImmediate(Lower(s, ctx, l).0, ty, Lower(s, ctx, l).1);
    var (s4, b) := LoadImmediate(Lower(s2, ctx, r).0, ty, Lower(s2, ctx, r).1);
    LowerBinIs(s, ctx, e);
    RunBinIs(e, f.locals, fuel);
    PairExtends(s, ctx, e, l, r, ty, ty);
    AppendDstShape(s4, ty, Compute(op, ty, NextReg(s4), a, b));
    BinParts(e, s.locals, SlotsOf(ctx));
    n, g := SimPair(code, s, ctx, e, l, r, ty, ty, t, o, f, fuel);
    var r1 := Source.Run(l, f.locals, fuel);
    if r1.Falls() && Source.Run(r, r1.store, fuel).Falls() {
      var g2 := ComputeStep(code, s4, op, ty, a, b, t, g);
      var result := Source.Run(e, f.locals, fuel);
      ReachesThen(code, s, f, s4, g, t, o, ctx, result, fuel, n, 1, g2);
      n, g := n + 1, g2;
    }
  }

  lemma OnePart(e: Expr, part: Expr, n: nat, slots: Slots)
    requires Supported(e) && Resolve(e, n, slots).Some?
    requires ((e.Neg? || e.Cast?) && part == e.operand) || ((e.Assign? || e.OpAssign?) && part == e.rhs)
    ensures Supported(part) && Resolve(part, n, slots).Some?
  {
  }

  lemma BinParts(e: Expr, n: nat, slots: Slots)
    requires e.Bin? && Supported(e) && Resolve(e, n, slots).Some?
    ensures Supported(e.left) && Supported(e.right)
    ensures Resolve(e.left, n, slots).Some? && Resolve(e.right, Resolve(e.left, n, slots).value, slots).Some?
  {
  }

  lemma LowerCmpIs(s: State, ctx: seq<Target>, e: Expr)
    requires e.Cmp?
    ensures var (s2, b) := LoadImmediate(Lower(s, ctx, e.right).0, TypeOf(e.right), Lower(s, ctx, e.right).1);
            var (s4, a) := LoadImmediate(Lower(s2, ctx, e.left).0, TypeOf(e.left), Lower(s2, ctx, e.left).1);
            Lower(s, ctx, e) == (AppendDst(s4, Bool, Compare(e.cmp, NextReg(s4), a, b)), Reg(NextReg(s4)))
  {
    hide LoadImmediate, AppendDst, TypeOf;
  }

  lemma RunCmpIs(e: Expr, s: seq<Word>, fuel: nat)
    requires e.Cmp?
    ensures var r1 := Source.Run(e.right, s, fuel);
            if !r1.Falls() then Source.Run(e, s, fuel) == r1 else
            var r2 := Source.Run(e.left, r1.store, fuel);
            if !r2.Falls() then Source.Run(e, s, fuel) == r2 else
            Source.Run(e, s, fuel) == Source.Done(Source.Normal, r2.store, BoolWord(Ordered(e.cmp, r2.word, r1.word)))
  {
    hide Ordered;
  }

  lemma SimCmp(code: Code, s: State, ctx: seq<Target>, e: Expr, f: Frame, fuel: nat) returns (n: nat, g: Frame)
    requires e.Cmp? && Entry(code, s, Lower(s, ctx, e).0, ctx, f)
    requires Supported(e) && Resolve(e, s.locals, SlotsOf(ctx)).Some?
    ensures Simulates(code, s, f, Lower(s, ctx, e).0, Lower(s, ctx, e).1, ctx, Source.Run(e, f.locals, fuel), fuel, n, g)
    decreases fuel, e, 8
  {
    hide Lower, Source.Run, Ready, Extends, Agrees, Roomy, SameBelow, Reaches, AppendDst, AppendOp, LoadImmediate, Resolve, Supported,
      YieldsLiteral, YieldsBool, Value, Fits, TypeOf, Ordered;
    var (cmp, l, r) := (e.cmp, e.left, e.right);
    var (t, o) := Lower(s, ctx, e);
    var (s2, b) := LoadImmediate(Lower(s, ctx, r).0, TypeOf(r), Lower(s, ctx, r).1);
    var (s4, a) := LoadImmediate(Lower(s2, ctx, l).0, TypeOf(l), Lower(s2, ctx, l).1);
    var last := Compare(cmp, NextReg(s4), a, b);
    LowerCmpIs(s, ctx, e);
    RunCmpIs(e, f.locals, fuel);
    PairExtends(s, ctx, e, r, l, TypeOf(r), TypeOf(l));
    AppendDstShape(s4, Bool, last);
    CmpParts(e, s.locals, SlotsOf(ctx));
    n, g := SimPair(code, s, ctx, e, r, l, TypeOf(r), TypeOf(l), t, o, f, fuel);
    var r1 := Source.Run(r, f.locals, fuel);
    if r1.Falls() && Source.Run(l, r1.store, fuel).Falls() {
      InRegister(s4, a);
      InRegister(s4, b);
      var g2 := CompareStep(code, s4, cmp, a, b, t, g);
      var result := Source.Run(e, f.locals, fuel);
      assert Simulates(code, s4, g, t, o, ctx, result, fuel, 1, g2);
      ReachesThen(code, s, f, s4, g, t, o, ctx, result, fuel, n, 1, g2);
      n, g := n + 1, g2;
    }
  }

  lemma InRegister(s: State, o: Operand)
    requires Fits(s, o) && !o.Imm? && !o.Literal?
    ensures o.Reg?
  {
  }

  lemma CmpParts(e: Expr, n: nat, slots: Slots)
    requires e.Cmp? && Supported(e) && Resolve(e, n, slots).Some?
    ensures Supported(e.left) && Supported(e.right) && !YieldsLiteral(e.left) && !YieldsLiteral(e.right)
    ensures Resolve(e.right, n, slots).Some? && Resolve(e.left, Resolve(e.right, n, slots).value, slots).Some?
  {
  }

  lemma SimLogic(code: Code, s: State, ctx: seq<Target>, e: Expr, f: Frame, fuel: nat) returns (n: nat, g: Frame)
    requires e.Logic? && Entry(code, s, Lower(s, ctx, e).0, ctx, f)
    requires Supported(e) && Resolve(e, s.locals, SlotsOf(ctx)).Some?
    ensures Simulates(code, s, f, Lower(s, ctx, e).0, Lower(s, ctx, e).1, ctx, Source.Run(e, f.locals, fuel), fuel, n, g)
    decreases fuel, e, 8
  {
    hide Ready, Extends, Agrees, Roomy, SameBelow, Reaches, AppendDst, AppendOp, Resolve, Supported, Value, Fits, Logical, Tested;
    var (l, r) := (e.left, e.right);
    var (t, o) := Lower(s, ctx, e);
    var (s2, a) := LowerTested(s, ctx, l);
    var (s4, b) := LowerTested(s2, ctx, r);
    var last := Combine(e.conjunction, NextReg(s4), a, b);
    LogicParts(e, s.locals, SlotsOf(ctx));
    TestedShape(s, ctx, l);
    TestedShape(s2, ctx, r);
    AppendDstShape(s4, Bool, last);
    ExtendsTransitive(s2, s4, t);
    var n1, g1 := SimTested(code, s, ctx, e, l, t, o, f, fuel);
    var r1 := Source.Run(l, f.locals, fuel);
    if !r1.Falls() {
      n, g := n1, g1;
    } else {
      var n2, g2 := SimTested(code, s2, ctx, e, r, t, o, g1, fuel);
      var r2 := Source.Run(r, r1.store, fuel);
      if !r2.Falls() {
        ReachesThen(code, s, f, s2, g1, t, o, ctx, r2, fuel, n1, n2, g2);
        n, g := n1 + n2, g2;
      } else {
        OperandReached(code, s2, g1, s4, g2, n2, a);
        ReachesTransitive(code, s, f, s2, g1, s4, g2, n1, n2);
        var g3 := DefineStep(code, s4, t, Bool, last, g2, Logical(e.conjunction, Truth(l, r1.word), Truth(r, r2.word)));
        ReachesTransitive(code, s, f, s4, g2, t, g3, n1 + n2, 1);
        n, g := n1 + n2 + 1, g3;
      }
    }
  }

  function Truth(e: Expr, w: Word): Word {
    Source.Truth(e, w)
  }

  /** A logical operand and its TEST. */
  function LowerTested(s: State, ctx: seq<Target>, part: Expr): Lowered {
    var (s1, a) := Lower(s, ctx, part);
    (AppendDst(s1, TypeOf(part), Test(TypeOf(part), NextReg(s1), a)), Reg(NextReg(s1)))
  }

  lemma LogicParts(e: Expr, n: nat, slots: Slots)
    requires e.Logic? && Supported(e) && Resolve(e, n, slots).Some?
    ensures Supported(e.left) && Supported(e.right)
    ensures Resolve(e.left, n, slots).Some? && Resolve(e.right, Resolve(e.left, n, slots).value, slots).Some?
  {
  }

  lemma TestedShape(s: State, ctx: seq<Target>, part: Expr)
    requires Ready(s)
    ensures var (t, o) := LowerTested(s, ctx, part); Ready(t) && Extends(s, t) && Fits(t, o)
  {
    hide Ready, Extends, AppendDst;
    var (s1, a) := Lower(s, ctx, part);
    LowerExtends(s, ctx, part);
    AppendDstShape(s1, TypeOf(part), Test(TypeOf(part), NextReg(s1), a));
    ExtendsTransitive(s, s1, LowerTested(s, ctx, part).0);
  }

  lemma SimTested(code: Code, s: State, ctx: seq<Target>, e: Expr, part: Expr, t: State, o: Operand, f: Frame, fuel: nat)
    returns (n: nat, g: Frame)
    requires part < e && Supported(part) && Entry(code, s, t, ctx, f)
    requires Resolve(part, s.locals, SlotsOf(ctx)).Some?
    requires Extends(LowerTested(s, ctx, part).0, t)
    ensures var (s2, a) := LowerTested(s, ctx, part);
            var r := Source.Run(part, f.locals, fuel);
            && Agrees(code, s2, t) && s2.locals == Resolve(part, s.locals, SlotsOf(ctx)).value && |s.regs| <= |s2.regs| <= |t.regs|
            && if !r.Falls() then Simulates(code, s, f, t, o, ctx, r, fuel, n, g)
               else Reaches(code, s, f, s2, g, n) && g.locals == r.store && Roomy(t, g) && Value(code, g, a) == Truth(part, r.word)
    decreases fuel, e, 2
  {
    hide Ready, Extends, Agrees, Roomy, SameBelow, Reaches, Lower, AppendDst, Source.Run, Resolve, Supported, Value, GoodOperand, Tested;
    var (s1, a0) := Lower(s, ctx, part);
    var (s2, a) := LowerTested(s, ctx, part);
    var test := Test(TypeOf(part), NextReg(s1), a0);
    LowerExtends(s, ctx, part);
    AppendDstShape(s1, TypeOf(part), test);
    ExtendsTransitive(s1, s2, t);
    n, g := SimPart(code, s, ctx, e, part, t, o, f, fuel);
    var r := Source.Run(part, f.locals, fuel);
    Split(code, s1, s2, t, if r.Falls() then g else f);
    if r.Falls() {
      var g2 := DefineStep(code, s1, s2, TypeOf(part), test, g, Truth(part, r.word));
      ReachesTransitive(code, s, f, s1, g, s2, g2, n, 1);
      KeepsRoom(code, s1, g, s2, g2, 1, t);
      n, g := n + 1, g2;
    }
  }

  lemma SimNeg(code: Code, s: State, ctx: seq<Target>, e: Expr, f: Frame, fuel: nat) returns (n: nat, g: Frame)
    requires e.Neg? && Entry(code, s, Lower(s, ctx, e).0, ctx, f)
    requires Supported(e) && Resolve(e, s.locals, SlotsOf(ctx)).Some?
    ensures Simulates(code, s, f, Lower(s, ctx, e).0, Lower(s, ctx, e).1, ctx, Source.Run(e, f.locals, fuel), fuel, n, g)
    decreases fuel, e, 8
  {
    hide Ready, Extends, Agrees, Roomy, SameBelow, Reaches, AppendDst, AppendOp, LoadImmediate, Resolve, Supported, YieldsLiteral, YieldsBool, Value, Fits, Arith, Logical, Negated, Exec, Steps;
    var (t, o) := Lower(s, ctx, e);
    var (s1, a) := Lower(s, ctx, e.operand);
    AppendedEnd(s, ctx, e.operand, I64, Negate(NextReg(s1), a));
    OnePart(e, e.operand, s.locals, SlotsOf(ctx));
    n, g := SimPart(code, s, ctx, e, e.operand, t, o, f, fuel);
    var r := Source.Run(e.operand, f.locals, fuel);
    if r.Falls() {
      var g2 := NegateStep(code, s1, a, t, g, r.word);
      ReachesTransitive(code, s, f, s1, g, t, g2, n, 1);
      n, g := n + 1, g2;
    }
  }

  lemma NegateStep(code: Code, s: State, a: Operand, t: State, f: Frame, w: Word) returns (g: Frame)
    requires Ready(s) && t == AppendDst(s, I64, Negate(NextReg(s), a)) && Agrees(code, s, t) && Roomy(t, f)
    requires Value(code, f, a) == w
    ensures Reaches(code, s, f, t, g, 1) && g.locals == f.locals && Roomy(t, g)
    ensures Value(code, g, Reg(NextReg(s))) == Negated(w)
  {
    hide Ready, Agrees, AppendDst;
    g := DefineStep(code, s, t, I64, Negate(NextReg(s), a), f, Negated(w));
  }

  lemma AppendedEnd(s: State, ctx: seq<Target>, e: Expr, ty: Ty, op: Op)
    requires Ready(s)
    ensures Extends(Lower(s, ctx, e).0, AppendDst(Lower(s, ctx, e).0, ty, op))
  {
    LowerExtends(s, ctx, e);
    AppendDstShape(Lower(s, ctx, e).0, ty, op);
  }

  lemma LowerCastIs(s: State, ctx: seq<Target>, e: Expr)
    requires e.Cast?
    ensures var (s1, a) := Lower(s.(lastLoad := false), ctx, e.operand);
            && Lower(s, ctx, e) == LowerCast(s1, e.ty, a)
            && (!(s1.lastLoad && a.payload < |s1.regs|) ==>
                  LowerCast(s1, e.ty, a) == (AppendDst(s1, e.ty, CastTo(NextReg(s1), a)), Reg(NextReg(s1))))
            && (s1.lastLoad && a.payload < |s1.regs| ==> LowerCast(s1, e.ty, a) == (s1.(regs := s1.regs[a.payload := e.ty]), a))
  {
    hide AppendDst;
  }

  lemma RunCastIs(e: Expr, s: seq<Word>, fuel: nat)
    requires e.Cast?
    ensures Source.Run(e, s, fuel) == Source.Run(e.operand, s, fuel)
  {
  }

  lemma SimCast(code: Code, s: State, ctx: seq<Target>, e: Expr, f: Frame, fuel: nat) returns (n: nat, g: Frame)
    requires e.Cast? && Entry(code, s, Lower(s, ctx, e).0, ctx, f)
    requires Supported(e) && Resolve(e, s.locals, SlotsOf(ctx)).Some?
    ensures Simulates(code, s, f, Lower(s, ctx, e).0, Lower(s, ctx, e).1, ctx, Source.Run(e, f.locals, fuel), fuel, n, g)
    decreases fuel, e, 8
  {
    hide Ready, Extends, Agrees, Roomy, SameBelow, Reaches, AppendDst, AppendOp, LoadImmediate, Resolve, Supported, YieldsLiteral, YieldsBool, Value, Fits, Arith, Logical, Lower, Source.Run, LowerCast;
    LowerCastIs(s, ctx, e);
    RunCastIs(e, f.locals, fuel);
    var (t, o) := Lower(s, ctx, e);
    var s0 := s.(lastLoad := false);
    var (s1, a) := Lower(s0, ctx, e.operand);
    ForgetLoad(s);
    LowerExtends(s0, ctx, e.operand);
    CastPieces(code, s, s0, s1, e.ty, a, t, f);
    OnePart(e, e.operand, s.locals, SlotsOf(ctx));
    n, g := SimPart(code, s0, ctx, e, e.operand, t, o, f, fuel);
    var r := Source.Run(e.operand, f.locals, fuel);
    if r.Falls() {
      if s1.lastLoad && a.payload < |s1.regs| {
        SameEnd(code, s0, s1, t, f, g, n);
      } else {
        var g2 := DefineStep(code, s1, t, e.ty, CastTo(NextReg(s1), a), g, r.word);
        ReachesTransitive(code, s0, f, s1, g, t, g2, n, 1);
        n, g := n + 1, g2;
      }
    }
    SameStart(code, s, s0, f, t, o, ctx, r, fuel, n, g);
  }

  lemma SimAssign(code: Code, s: State, ctx: seq<Target>, e: Expr, f: Frame, fuel: nat) returns (n: nat, g: Frame)
    requires e.Assign? && Entry(code, s, Lower(s, ctx, e).0, ctx, f)
    requires Supported(e) && Resolve(e, s.locals, SlotsOf(ctx)).Some?
    ensures Simulates(code, s, f, Lower(s, ctx, e).0, Lower(s, ctx, e).1, ctx, Source.Run(e, f.locals, fuel), fuel, n, g)
    decreases fuel, e, 8
  {
    hide Ready, Extends, Agrees, Roomy, SameBelow, Reaches, AppendDst, AppendOp, LoadImmediate, Resolve, Supported, YieldsLiteral, YieldsBool, Value, Fits, Arith, Logical;
    var (t, o) := Lower(s, ctx, e);
    var s1 := Lower(s, ctx, e.rhs).0;
    LowerExtends(s, ctx, e.rhs);
    AppendShape(s1, Store(Local(e.x), o));
    OnePart(e, e.rhs, s.locals, SlotsOf(ctx));
    n, g := SimPart(code, s, ctx, e, e.rhs, t, o, f, fuel);
    var r := Source.Run(e.rhs, f.locals, fuel);
    if r.Falls() {
      var g2 := StoreStep(code, s1, t, e.x, o, g);
      GoodFits(s, s1, o, e.rhs);
      OperandReached(code, s1, g, t, g2, 1, o);
      ReachesTransitive(code, s, f, s1, g, t, g2, n, 1);
      n, g := n + 1, g2;
    }
  }

  lemma GoodFits(s: State, t: State, o: Operand, e: Expr)
    requires GoodOperand(s, t, o, e)
    ensures Fits(t, o)
  {
  }

  lemma SimOpAssign(code: Code, s: State, ctx: seq<Target>, e: Expr, f: Frame, fuel: nat) returns (n: nat, g: Frame)
    requires e.OpAssign? && Entry(code, s, Lower(s, ctx, e).0, ctx, f)
    requires Supported(e) && Resolve(e, s.locals, SlotsOf(ctx)).Some?
    ensures Simulates(code, s, f, Lower(s, ctx, e).0, Lower(s, ctx, e).1, ctx, Source.Run(e, f.locals, fuel), fuel, n, g)
    decreases fuel, e, 8
  {
    hide Ready, Extends, Agrees, Roomy, SameBelow, Reaches, AppendDst, AppendOp, Resolve, Supported, Value, Fits, Arith, GoodOperand;
    var (t, o) := Lower(s, ctx, e);
    var (s1, b) := Lower(s, ctx, e.rhs);
    LowerExtends(s, ctx, e.rhs);
    OpAssignShape(s1, e.op, e.ty, e.x, b);
    OnePart(e, e.rhs, s.locals, SlotsOf(ctx));
    n, g := SimPart(code, s, ctx, e, e.rhs, t, o, f, fuel);
    var r := Source.Run(e.rhs, f.locals, fuel);
    if r.Falls() {
      GoodFits(s, s1, b, e.rhs);
      var n2, g2 := OpAssignSteps(code, s1, e.op, e.ty, e.x, b, g);
      var result := Source.Run(e, f.locals, fuel);
      assert Simulates(code, s1, g, t, o, ctx, result, fuel, n2, g2);
      ReachesThen(code, s, f, s1, g, t, o, ctx, result, fuel, n, n2, g2);
      n, g := n + n2, g2;
    }
  }

  /** The three operations of a compound assignment: load, compute, store. */
  function OpAssignEnd(s1: State, op: ArithOp, ty: Ty, x: nat, b: Operand): State {
    var s2 := AppendDst(s1, ty, Load(NextReg(s1), Local(x)));
    var s3 := AppendDst(s2, ty, Compute(op, ty, NextReg(s2), Reg(NextReg(s1)), b));
    AppendOp(s3, Store(Local(x), Reg(NextReg(s2))))
  }

  lemma OpAssignShape(s1: State, op: ArithOp, ty: Ty, x: nat, b: Operand)
    requires Ready(s1)
    ensures var s2 := AppendDst(s1, ty, Load(NextReg(s1), Local(x)));
            var s3 := AppendDst(s2, ty, Compute(op, ty, NextReg(s2), Reg(NextReg(s1)), b));
            var t := OpAssignEnd(s1, op, ty, x, b);
            Ready(s2) && Ready(s3) && Extends(s1, s2) && Extends(s2, s3) && Extends(s3, t) && Extends(s2, t) && Extends(s1, t)
            && NextReg(s2) == NextReg(s1) + 1
  {
    hide Ready, Extends, AppendDst, AppendOp;
    var s2 := AppendDst(s1, ty, Load(NextReg(s1), Local(x)));
    var s3 := AppendDst(s2, ty, Compute(op, ty, NextReg(s2), Reg(NextReg(s1)), b));
    AppendDstShape(s1, ty, Load(NextReg(s1), Local(x)));
    AppendDstShape(s2, ty, Compute(op, ty, NextReg(s2), Reg(NextReg(s1)), b));
    AppendShape(s3, Store(Local(x), Reg(NextReg(s2))));
    ExtendsTransitive(s2, s3, AppendOp(s3, Store(Local(x), Reg(NextReg(s2)))));
    ExtendsTransitive(s1, s2, AppendOp(s3, Store(Local(x), Reg(NextReg(s2)))));
  }

  lemma LocalValue(code: Code, f: Frame, x: nat)
    ensures Value(code, f, Local(x)) == Read(f.locals, x)
  {
  }

  lemma OpAssignSteps(code: Code, s1: State, op: ArithOp, ty: Ty, x: nat, b: Operand, f: Frame) returns (n: nat, g: Frame)
    requires Ready(s1) && Fits(s1, b)
    requires Agrees(code, s1, OpAssignEnd(s1, op, ty, x, b)) && Roomy(OpAssignEnd(s1, op, ty, x, b), f)
    ensures var t := OpAssignEnd(s1, op, ty, x, b);
            var v := Arith(op, ty, Read(f.locals, x), Value(code, f, b));
            if v.None? then Steps(code, Here(s1, f), n) == Faulted
            else Reaches(code, s1, f, t, g, n) && g.locals == Write(f.locals, x, v.value)
                 && Value(code, g, Reg(NextReg(s1) + 1)) == v.value
  {
    hide Ready, Extends, Agrees, Roomy, SameBelow, Reaches, AppendDst, AppendOp, Value, Fits, Arith;
    var s2 := AppendDst(s1, ty, Load(NextReg(s1), Local(x)));
    var a, o := Reg(NextReg(s1)), Reg(NextReg(s2));
    var s3 := AppendDst(s2, ty, Compute(op, ty, NextReg(s2), a, b));
    var t := OpAssignEnd(s1, op, ty, x, b);
    OpAssignShape(s1, op, ty, x, b);
    Split(code, s1, s2, t, f);
    LocalValue(code, f, x);
    var g1 := DefineStep(code, s1, s2, ty, Load(NextReg(s1), Local(x)), f, Read(f.locals, x));
    OperandReached(code, s1, f, s2, g1, 1, b);
    KeepsRoom(code, s1, f, s2, g1, 1, t);
    Split(code, s2, s3, t, g1);
    var g2 := ComputeStep(code, s2, op, ty, a, b, s3, g1);
    if Arith(op, ty, Value(code, g1, a), Value(code, g1, b)).None? {
      n, g := 2, g2;
      Continue(code, s1, f, s2, g1, 1, 1);
    } else {
      ReachesTransitive(code, s1, f, s2, g1, s3, g2, 1, 1);
      KeepsRoom(code, s2, g1, s3, g2, 1, t);
      var g3 := StoreStep(code, s3, t, x, o, g2);
      ReachesTransitive(code, s1, f, s3, g2, t, g3, 2, 1);
      DefinedFits(s2, ty, Compute(op, ty, NextReg(s2), a, b));
      OperandReached(code, s3, g2, t, g3, 1, o);
      n, g := 3, g3;
    }
  }

  lemma Continue(code: Code, s: State, f: Frame, m: State, g: Frame, n1: nat, n2: nat)
    requires Reaches(code, s, f, m, g, n1)
    ensures Steps(code, Here(s, f), n1 + n2) == Steps(code, Here(m, g), n2)
  {
    StepsAdd(code, Here(s, f), n1, n2);
  }

  lemma DefinedFits(s: State, ty: Ty, op: Op)
    ensures Fits(AppendDst(s, ty, op), Reg(NextReg(s)))
  {
  }

  lemma SimDo(code: Code, s: State, ctx: seq<Target>, e: Expr, f: Frame, fuel: nat) returns (n: nat, g: Frame)
    requires e.Do? && Entry(code, s, Lower(s, ctx, e).0, ctx, f)
    requires Supported(e) && Resolve(e, s.locals, SlotsOf(ctx)).Some?
    ensures Simulates(code, s, f, Lower(s, ctx, e).0, Lower(s, ctx, e).1, ctx, Source.Run(e, f.locals, fuel), fuel, n, g)
    decreases fuel, e, 8
  {
    hide Ready, Extends, Agrees, Roomy, SameBelow, AppendDst, AppendOp, OpenDo, LowerAll, Inserted, Resolve, Supported, Value, Fits;
    var (t, o) := Lower(s, ctx, e);
    var exit := FreshRef(s);
    var s1 := OpenDo(s);
    var ctx' := [Target(exit, Some(s.locals))] + ctx;
    var s2 := LowerAll(s1, ctx', e.items);
    var m := MoveTo(s2, exit);
    var load := Load(NextReg(m), Local(s.locals));
    DoParts(e, s.locals, SlotsOf(ctx));
    OpenDoShape(s);
    DoStart(s, s1, exit, f);
    AllExtend(s1, ctx', e.items);
    DoClosed(s, s1, exit, s2);
    ExtendsReady(s, m);
    AppendDstShape(m, e.result.ty, load);
    DoAgrees(code, s, s1, exit, s2, t, f);
    assert SlotsOf(ctx') == [Some(s.locals)] + SlotsOf(ctx);
    TargetsAdd(ctx, exit, Some(s.locals));
    var r := Source.RunAll(e.items, f.locals, fuel);
    var result := Source.Run(e, f.locals, fuel);
    n, g := SimAll(code, s1, ctx', e.items, f, fuel);
    if r.Done? && (r.flow.Normal? || r.flow.level == 0) {
      if r.flow.Normal? {
        FallStep(code, s2, g);
        StepsAdd(code, Here(s1, f), n, 1);
        n := n + 1;
      }
      assert Steps(code, Here(s, f), n) == Here(m, g);
      RoomKept(s1, f, g, m, t);
      var g2 := DefineStep(code, m, t, e.result.ty, load, g, Read(g.locals, s.locals)) by { LocalValue(code, g, s.locals); }
      assert Reaches(code, s, f, m, g, n);
      ReachesTransitive(code, s, f, m, g, t, g2, n, 1);
      n, g := n + 1, g2;
    } else if r.Done? {
      assert ctx'[r.flow.level] == ctx[r.flow.level - 1];
    }
  }

  lemma DoParts(e: Expr, n: nat, slots: Slots)
    requires e.Do? && Supported(e) && Resolve(e, n, slots).Some?
    ensures e.result.local == n && AllSupported(e.items) && ResolveAll(e.items, n + 1, [Some(n)] + slots).Some?
  {
  }

  lemma TargetsAdd(ctx: seq<Target>, block: nat, slot: Option<nat>)
    requires Targets(ctx) && block != 0
    ensures Targets([Target(block, slot)] + ctx)
  {
  }

  lemma DoStart(s: State, s1: State, exit: nat, f: Frame)
    requires Inserted(AddLocal(s), s1, exit)
    ensures Ready(s1) && Here(s1, f) == Here(s, f) && s1.regs == s.regs && s1.locals == s.locals + 1 && exit != 0
  {
  }

  lemma DoAgrees(code: Code, s: State, s1: State, exit: nat, s2: State, t: State, f: Frame)
    requires Ready(s) && Inserted(AddLocal(s), s1, exit) && Extends(s1, s2) && Extends(MoveTo(s2, exit), t)
    requires Agrees(code, s, t) && Roomy(t, f)
    ensures Agrees(code, s1, s2) && Agrees(code, MoveTo(s2, exit), t) && Roomy(s2, f)
    ensures s2.current in s2.blocks && s2.current in code.blocks && code.blocks[s2.current] == s2.blocks[s2.current]
    ensures s2.blocks[s2.current].next == exit && exit in s2.blocks && s2.blocks[exit].ops == [] && |s.regs| <= |s2.regs|
  {
    assert Untouched(s1, s2, exit);
    assert s2.current != exit;
    forall x | x in s2.blocks
      ensures x in code.blocks && s2.blocks[x].ops <= code.blocks[x].ops
      ensures (x !in s1.blocks || x == s1.current) && x != s2.current ==> code.blocks[x] == s2.blocks[x]
    {
      assert x in t.blocks && (x != exit ==> Untouched(MoveTo(s2, exit), t, x));
    }
    assert Untouched(MoveTo(s2, exit), t, s2.current);
  }

  lemma RoomKept(s: State, f: Frame, g: Frame, m: State, t: State)
    requires SameBelow(f, g, |s.regs|) && Roomy(t, f)
    ensures Roomy(t, g)
  {
  }

  lemma {:induction false} SimAll(code: Code, s: State, ctx: seq<Target>, items: seq<Stmt>, f: Frame, fuel: nat)
    returns (n: nat, g: Frame)
    requires Entry(code, s, LowerAll(s, ctx, items), ctx, f)
    requires AllSupported(items) && ResolveAll(items, s.locals, SlotsOf(ctx)).Some?
    ensures Simulates(code, s, f, LowerAll(s, ctx, items), Imm(0), ctx, Source.RunAll(items, f.locals, fuel), fuel, n, g)
    decreases fuel, items, 9
  {
    hide Ready, Extends, Agrees, Roomy, SameBelow, Reaches, LowerStmt, Resolve, Supported;
    if items == [] {
      n, g := 0, f;
      Nowhere(code, s, f);
    } else {
      var s1 := LowerStmt(s, ctx, items[0]);
      var t := LowerAll(s1, ctx, items[1..]);
      StmtExtends(s, ctx, items[0]);
      AllExtend(s1, ctx, items[1..]);
      Split(code, s, s1, t, f);
      StmtLocals(s, ctx, items[0]);
      var n1, g1 := SimStmt(code, s, ctx, items[0], f, fuel);
      var r := Source.RunStmt(items[0], f.locals, fuel);
      if !r.Falls() {
        n, g := n1, g1;
        Elsewhere(code, s, f, s1, Imm(0), t, Imm(0), ctx, r, fuel, n, g);
      } else {
        KeepsRoom(code, s, f, s1, g1, n1, t);
        var n2, g2 := SimAll(code, s1, ctx, items[1..], g1, fuel);
        ReachesThen(code, s, f, s1, g1, t, Imm(0), ctx, Source.RunAll(items[1..], g1.locals, fuel), fuel, n1, n2, g2);
        n, g := n1 + n2, g2;
      }
    }
  }

  lemma Nowhere(code: Code, s: State, f: Frame)
    ensures Reaches(code, s, f, s, f, 0)
  {
  }

  lemma {:induction false} SimStmt(code: Code, s: State, ctx: seq<Target>, st: Stmt, f: Frame, fuel: nat)
    returns (n: nat, g: Frame)
    requires Entry(code, s, LowerStmt(s, ctx, st), ctx, f)
    requires SupportedStmt(st) && ResolveStmt(st, s.locals, SlotsOf(ctx)).Some?
    ensures Simulates(code, s, f, LowerStmt(s, ctx, st), Imm(0), ctx, Source.RunStmt(st, f.locals, fuel), fuel, n, g)
    decreases fuel, st, 9
  {
    hide Ready, Extends, Agrees, Roomy, SameBelow, Reaches, LowerAll, Lower, AppendOp, Resolve, Supported;
    match st
    case Compound(items) => n, g := SimAll(code, s, ctx, items, f, fuel);
    case Decl(x, initial) => n, g := SimDecl(code, s, ctx, st, f, fuel);
    case Eval(e) => n, g := SimExpr(code, s, ctx, e, f, fuel);
  }

  lemma SimDecl(code: Code, s: State, ctx: seq<Target>, st: Stmt, f: Frame, fuel: nat) returns (n: nat, g: Frame)
    requires st.Decl? && Entry(code, s, LowerStmt(s, ctx, st), ctx, f)
    requires SupportedStmt(st) && ResolveStmt(st, s.locals, SlotsOf(ctx)).Some?
    ensures Simulates(code, s, f, LowerStmt(s, ctx, st), Imm(0), ctx, Source.RunStmt(st, f.locals, fuel), fuel, n, g)
    decreases fuel, st, 8
  {
    hide Extends, Agrees, Roomy, SameBelow, Lower, AppendOp, Resolve, Supported;
    var t := LowerStmt(s, ctx, st);
    var s1 := AddLocal(s);
    if st.initial.None? {
      n, g := 0, f;
      Nowhere(code, s, f);
    } else {
      var (s2, v) := Lower(s1, ctx, st.initial.value);
      DeclPieces(code, s, t);
      LowerExtends(s1, ctx, st.initial.value);
      AppendShape(s2, Store(Local(s.locals), v));
      Split(code, s1, s2, t, f);
      n, g := SimExpr(code, s1, ctx, st.initial.value, f, fuel);
      var r := Source.Run(st.initial.value, f.locals, fuel);
      if r.Falls() {
        KeepsRoom(code, s1, f, s2, g, n, t);
        var g2 := StoreStep(code, s2, t, s.locals, v, g);
        ReachesTransitive(code, s1, f, s2, g, t, g2, n, 1);
        n, g := n + 1, g2;
      } else {
        Elsewhere(code, s1, f, s2, v, t, Imm(0), ctx, r, fuel, n, g);
      }
      SameStart(code, s, s1, f, t, Imm(0), ctx, Source.RunStmt(st, f.locals, fuel), fuel, n, g);
    }
  }

  lemma DeclPieces(code: Code, s: State, t: State)
    requires Ready(s) && Agrees(code, s, t)
    ensures Ready(AddLocal(s)) && Agrees(code, AddLocal(s), t)
  {
  }

  lemma SimIf(code: Code, s: State, ctx: seq<Target>, e: Expr, f: Frame, fuel: nat) returns (n: nat, g: Frame)
    requires e.If? && Entry(code, s, Lower(s, ctx, e).0, ctx, f)
    requires Supported(e) && Resolve(e, s.locals, SlotsOf(ctx)).Some?
    ensures Simulates(code, s, f, Lower(s, ctx, e).0, Lower(s, ctx, e).1, ctx, Source.Run(e, f.locals, fuel), fuel, n, g)
    decreases fuel, e, 8
  {
    hide Ready, Extends, Agrees, Roomy, SameBelow, AppendOp, OpenIf, LowerStmt, Lower, BranchIf, IfOpened, Resolve, Supported, Fits, YieldsBool, LowerArm, Grows;
    var (t, o) := LowerIf(s, ctx, e);
    LowerIfIs(s, ctx, e);
    IfPieces(code, s, ctx, e);
    var IfStages(p, s1, s2, s3) := ArmsOf(s, ctx, e);
    var a := Source.Run(e.cond, f.locals, fuel);
    n, g := SimIfCond(code, s, ctx, e, p, s1, t, f, fuel);
    if a.Falls() && (a.word != 0 || e.orelse.Some?) {
      RoomThere(s2, s3, t, g);
      RoomThere(s3, s3, t, g);
      var m, h;
      if a.word != 0 {
        Landed(code, s, f, MoveTo(s1, p.body), g, n);
        m, h := SimArm(code, MoveTo(s1, p.body), ctx, e, e.body, p.end, t, g, fuel);
        ReachesThen(code, s, f, MoveTo(s1, p.body), g, t, o, ctx, Source.RunStmt(e.body, g.locals, fuel), fuel, n, m, h);
      } else {
        Landed(code, s, f, MoveTo(s2, p.orelse), g, n);
        m, h := SimArm(code, MoveTo(s2, p.orelse), ctx, e, e.orelse.value, p.end, t, g, fuel);
        ReachesThen(code, s, f, MoveTo(s2, p.orelse), g, t, o, ctx, Source.RunStmt(e.orelse.value, g.locals, fuel), fuel, n, m, h);
      }
      n, g := n + m, h;
    }
  }

  lemma Landed(code: Code, s: State, f: Frame, m: State, g: Frame, n: nat)
    requires m.current != 0 && At(m.blocks, m.current).ops == []
    requires Steps(code, Here(s, f), n) == Enter(m.current, g) && SameBelow(f, g, |s.regs|)
    ensures Reaches(code, s, f, m, g, n)
  {
  }

  /** The states lowering an `if` goes through: with the condition, the body and the else branch. */
  datatype IfStages = IfStages(p: IfParts, s1: State, s2: State, s3: State)

  function ArmsOf(s: State, ctx: seq<Target>, e: Expr): IfStages
    requires e.If?
  {
    var p := OpenIf(s, e.orelse.Some?);
    var s1 := BranchIf(Lower(p.state, ctx, e.cond), p);
    var s2 := LowerArm(MoveTo(s1, p.body), ctx, e.body, p.end);
    var s3 := if e.orelse.None? then s2 else LowerArm(MoveTo(s2, p.orelse), ctx, e.orelse.value, p.end);
    IfStages(p, s1, s2, s3)
  }

  /** What the finished code has of the stages of an `if`. */
  predicate IfLaid(code: Code, s: State, ctx: seq<Target>, e: Expr, g: IfStages) {
    && e.If? && IfOpened(s, g.p, e.orelse.Some?) && Ready(g.p.state) && Extends(g.p.state, g.s1) && Agrees(code, g.p.state, g.s1)
    && Ready(MoveTo(g.s1, g.p.body)) && Agrees(code, MoveTo(g.s1, g.p.body), g.s2)
    && (e.orelse.Some? ==> Ready(MoveTo(g.s2, g.p.orelse)) && Agrees(code, MoveTo(g.s2, g.p.orelse), g.s3))
    && |s.regs| <= |g.s1.regs| <= |g.s2.regs|
    && Grows(g.s1, MoveTo(g.s3, g.p.end)) && Grows(g.s2, g.s3) && Grows(g.s3, g.s3)
    && g.p.body != 0 && g.p.orelse != 0 && g.p.end != 0
    && At(g.s1.blocks, g.p.body).ops == [] && (e.orelse.Some? ==> At(g.s2.blocks, g.p.orelse).ops == [])
    && At(g.s3.blocks, g.p.end).ops == []
  }

  predicate ArmsResolved(ctx: seq<Target>, e: Expr, g: IfStages) {
    && e.If? && Supported(e.cond) && YieldsBool(e.cond) && SupportedStmt(e.body) && (e.orelse.Some? ==> SupportedStmt(e.orelse.value))
    && Resolve(e.cond, g.p.state.locals, SlotsOf(ctx)).Some? && ResolveStmt(e.body, g.s1.locals, SlotsOf(ctx)).Some?
    && (e.orelse.Some? ==> ResolveStmt(e.orelse.value, g.s2.locals, SlotsOf(ctx)).Some?)
  }

  lemma IfPieces(code: Code, s: State, ctx: seq<Target>, e: Expr)
    requires e.If? && Ready(s) && Agrees(code, s, LowerIf(s, ctx, e).0)
    requires Supported(e) && Resolve(e, s.locals, SlotsOf(ctx)).Some?
    ensures IfLaid(code, s, ctx, e, ArmsOf(s, ctx, e)) && ArmsResolved(ctx, e, ArmsOf(s, ctx, e))
  {
    hide Ready, Extends, Agrees, Grows, AppendOp, OpenIf, LowerStmt, Lower, BranchIf, IfOpened, Resolve, Supported, Fits, YieldsBool;
    var p := OpenIf(s, e.orelse.Some?);
    var low := Lower(p.state, ctx, e.cond);
    var s1 := BranchIf(low, p);
    var s2 := LowerArm(MoveTo(s1, p.body), ctx, e.body, p.end);
    var s3 := if e.orelse.None? then s2 else LowerArm(MoveTo(s2, p.orelse), ctx, e.orelse.value, p.end);
    CheckedIf(e, s.locals, SlotsOf(ctx));
    OpenIfShape(s, e.orelse.Some?);
    IfStart(s, p, e.orelse.Some?);
    LowerExtends(p.state, ctx, e.cond);
    LowerOperand(p.state, ctx, e.cond);
    LowerLocals(p.state, ctx, e.cond);
    BranchIfPlain(p.state, low.0, low.1, e.cond, p);
    BranchIfExtends(p.state, low, p);
    IfReady(s, p, e.orelse.Some?, s1);
    ArmExtends(MoveTo(s1, p.body), ctx, e.body, p.end, e);
    ArmLocals(MoveTo(s1, p.body), ctx, e.body, p.end);
    if e.orelse.Some? {
      ReadyAt(MoveTo(s1, p.body), s2, p.orelse);
      ArmExtends(MoveTo(s2, p.orelse), ctx, e.orelse.value, p.end, e);
    }
    IfAgrees(code, s, p, e.orelse.Some?, s1, s2, s3, MoveTo(s3, p.end));
    GrowsTransitive(s1, s2, s3);
    GrowsMoved(s1, s3, p.end);
    GrowsReflexive(s3);
    KeysGrow(p.state, s1);
    KeysGrow(s1, s2);
  }

  lemma GrowsReflexive(s: State)
    ensures Grows(s, s)
  {
  }

  lemma ArmLocals(s: State, ctx: seq<Target>, st: Stmt, end: nat)
    requires ResolveStmt(st, s.locals, SlotsOf(ctx)).Some?
    ensures LowerArm(s, ctx, st, end).locals == ResolveStmt(st, s.locals, SlotsOf(ctx)).value
  {
    StmtLocals(s, ctx, st);
  }

  /** The condition and the two-way branch. */
  lemma SimIfCond(code: Code, s: State, ctx: seq<Target>, e: Expr, p: IfParts, s1: State, t: State, f: Frame, fuel: nat)
    returns (n: nat, g: Frame)
    requires e.If? && Ready(s) && IfOpened(s, p, e.orelse.Some?) && s1 == BranchIf(Lower(p.state, ctx, e.cond), p)
    requires Extends(p.state, s1) && Agrees(code, p.state, s1) && Roomy(t, f) && Targets(ctx) && Grows(s1, t)
    requires Supported(e.cond) && YieldsBool(e.cond) && Resolve(e.cond, p.state.locals, SlotsOf(ctx)).Some?
    requires t.current == p.end && At(t.blocks, p.end).ops == []
    ensures var a := Source.Run(e.cond, f.locals, fuel);
            if !a.Falls() then Simulates(code, s, f, t, Imm(0), ctx, a, fuel, n, g) else
            && Steps(code, Here(s, f), n) == Enter(if a.word != 0 then p.body else p.orelse, g)
            && SameBelow(f, g, |s.regs|) && g.locals == a.store && Roomy(t, g)
            && (a.word == 0 && e.orelse.None? ==> Reaches(code, s, f, t, g, n))
    decreases fuel, e, 1
  {
    hide Ready, Extends, Agrees, Roomy, SameBelow, AppendOp, LowerStmt, Lower, BranchIf, IfOpened, Resolve, Supported, Value, Fits, YieldsBool, Grows;
    var low := Lower(p.state, ctx, e.cond);
    IfStart(s, p, e.orelse.Some?);
    LowerExtends(p.state, ctx, e.cond);
    LowerOperand(p.state, ctx, e.cond);
    BranchIfPlain(p.state, low.0, low.1, e.cond, p);
    AppendShape(low.0, BranchCond(low.1, p.body, p.orelse));
    RoomEarlier(s1, t, f);
    Split(code, p.state, low.0, s1, f);
    n, g := SimExpr(code, p.state, ctx, e.cond, f, fuel);
    var a := Source.Run(e.cond, f.locals, fuel);
    StartsEqual(s, p, e.orelse.Some?, f);
    if !a.Falls() {
      Elsewhere(code, p.state, f, low.0, low.1, t, Imm(0), ctx, a, fuel, n, g);
      SameBegin(code, s, p.state, f, t, Imm(0), ctx, a, fuel, n, g);
    } else {
      KeepsRoom(code, p.state, f, low.0, g, n, t);
      BranchStep(code, low.0, low.1, p.body, p.orelse, g);
      Continue(code, p.state, f, low.0, g, n, 1);
      ReachesSame(code, p.state, f, low.0, g, n);
      n := n + 1;
      if a.word == 0 && e.orelse.None? {
        Landed(code, s, f, t, g, n);
      }
    }
  }

  lemma RoomEarlier(s: State, t: State, f: Frame)
    requires Grows(s, t) && Roomy(t, f)
    ensures Roomy(s, f)
  {
  }

  lemma StartsEqual(s: State, p: IfParts, hasElse: bool, f: Frame)
    requires IfOpened(s, p, hasElse)
    ensures Here(p.state, f) == Here(s, f) && (hasElse || p.orelse == p.end)
  {
  }

  lemma SameBegin(code: Code, s: State, s0: State, f: Frame, t: State, o: Operand, ctx: seq<Target>,
                  r: Source.Result, fuel: nat, n: nat, g: Frame)
    requires Simulates(code, s0, f, t, o, ctx, r, fuel, n, g)
    requires Here(s, f) == Here(s0, f) && s.regs == s0.regs
    ensures Simulates(code, s, f, t, o, ctx, r, fuel, n, g)
  {
  }

  function LowerArm(s: State, ctx: seq<Target>, st: Stmt, end: nat): State {
    AppendOp(LowerStmt(s, ctx, st), Branch(end))
  }

  function LowerIf(s: State, ctx: seq<Target>, e: Expr): Lowered
    requires e.If?
  {
    var p := OpenIf(s, e.orelse.Some?);
    var s1 := BranchIf(Lower(p.state, ctx, e.cond), p);
    var s2 := LowerArm(MoveTo(s1, p.body), ctx, e.body, p.end);
    var s3 := if e.orelse.None? then s2 else LowerArm(MoveTo(s2, p.orelse), ctx, e.orelse.value, p.end);
    (MoveTo(s3, p.end), Imm(0))
  }

  lemma LowerIfIs(s: State, ctx: seq<Target>, e: Expr)
    requires e.If?
    ensures Lower(s, ctx, e) == LowerIf(s, ctx, e)
  {
    hide AppendOp, OpenIf, LowerStmt, BranchIf;
  }

  lemma CheckedIf(e: Expr, n: nat, slots: Slots)
    requires e.If? && Supported(e) && Resolve(e, n, slots).Some?
    ensures YieldsBool(e.cond) && Supported(e.cond) && SupportedStmt(e.body) && (e.orelse.Some? ==> SupportedStmt(e.orelse.value))
    ensures Resolve(e.cond, n, slots).Some? && ResolveStmt(e.body, Resolve(e.cond, n, slots).value, slots).Some?
    ensures e.orelse.Some? ==>
              ResolveStmt(e.orelse.value, ResolveStmt(e.body, Resolve(e.cond, n, slots).value, slots).value, slots).Some?
  {
  }

  lemma IfStart(s: State, p: IfParts, hasElse: bool)
    requires IfOpened(s, p, hasElse)
    ensures Ready(p.state) && p.state.regs == s.regs && p.state.locals == s.locals
    ensures p.body != 0 && p.orelse != 0 && p.end != 0
  {
  }

  /** A bool register is branched on as it is. */
  lemma BranchIfPlain(s: State, low: State, o: Operand, c: Expr, p: IfParts)
    requires GoodOperand(s, low, o, c) && YieldsBool(c)
    ensures BranchIf((low, o), p) == AppendOp(low, BranchCond(o, p.body, p.orelse))
    ensures BranchIf((low, o), p).locals == low.locals && |BranchIf((low, o), p).regs| == |low.regs|
  {
  }

  lemma BranchStep(code: Code, s: State, o: Operand, yes: nat, no: nat, f: Frame)
    requires Ready(s) && Agrees(code, s, AppendOp(s, BranchCond(o, yes, no)))
    ensures Steps(code, Here(s, f), 1) == Enter(if Value(code, f, o) != 0 then yes else no, f)
  {
    AppendShape(s, BranchCond(o, yes, no));
    OneStep(code, s, AppendOp(s, BranchCond(o, yes, no)), BranchCond(o, yes, no), f);
  }

  /** A piece inside another one, when what it finished stays finished. */
  lemma AgreesPart(code: Code, s: State, a: State, b: State, t: State)
    requires Agrees(code, s, t) && Grows(b, t)
    requires forall x :: x in b.blocks && (x !in a.blocks || x == a.current) && x != b.current
               ==> Untouched(b, t, x) && x != t.current && (x !in s.blocks || x == s.current)
    ensures Agrees(code, a, b)
  {
    forall x | x in b.blocks
      ensures x in code.blocks && b.blocks[x].ops <= code.blocks[x].ops
      ensures (x !in a.blocks || x == a.current) && x != b.current ==> code.blocks[x] == b.blocks[x]
    {
      assert x in t.blocks;
    }
  }

  lemma GrowsTransitive(a: State, b: State, c: State)
    requires Grows(a, b) && Grows(b, c)
    ensures Grows(a, c)
  {
    forall x | x in a.blocks
      ensures a.blocks[x].ops <= c.blocks[x].ops
    {
      assert x in b.blocks;
    }
  }

  /** Later pieces leave alone everything but the blocks they work on. */
  lemma LeftAlone(s1: State, b1: nat, s2: State, b2: nat, s3: State)
    requires Extends(MoveTo(s1, b1), s2) && Extends(MoveTo(s2, b2), s3)
    ensures Grows(s1, s2) && Grows(s2, s3) && Grows(s1, s3)
    ensures forall x :: x in s1.blocks && x != b1 ==> Untouched(s1, s2, x)
    ensures forall x :: x in s2.blocks && x != b2 ==> Untouched(s2, s3, x)
    ensures forall x :: x in s1.blocks && x != b1 && x != b2 ==> Untouched(s1, s3, x)
  {
    GrowsTransitive(s1, s2, s3);
    forall x | x in s1.blocks && x != b1
      ensures Untouched(s1, s2, x)
    {
      assert Untouched(MoveTo(s1, b1), s2, x);
    }
    forall x | x in s2.blocks && x != b2
      ensures Untouched(s2, s3, x)
    {
      assert Untouched(MoveTo(s2, b2), s3, x);
    }
  }

  /** The parts of an `if` are new. */
  predicate PartsNew(s: State, p: IfParts) {
    && {p.body, p.orelse, p.end} !! s.blocks.Keys && p.body != p.orelse && p.body != p.end
    && p.state.blocks.Keys == s.blocks.Keys + {p.body, p.orelse, p.end}
    && p.state.current == s.current && s.current in s.blocks
  }

  lemma CondAgrees(code: Code, s: State, p: IfParts, s1: State, t: State)
    requires PartsNew(s, p) && Extends(p.state, s1) && Agrees(code, s, t) && Grows(s1, t) && t.current == p.end
    requires forall x :: x in s1.blocks && x != p.body && x != p.orelse && x != p.end ==> Untouched(s1, t, x)
    ensures Agrees(code, p.state, s1)
  {
    hide Agrees;
    AgreesPart(code, s, p.state, s1, t);
  }

  lemma BodyAgrees(code: Code, s: State, p: IfParts, s1: State, s2: State, t: State)
    requires PartsNew(s, p) && p.state.blocks.Keys <= s1.blocks.Keys
    requires Extends(MoveTo(s1, p.body), s2) && Agrees(code, s, t) && Grows(s2, t) && t.current == p.end
    requires forall x :: x in s2.blocks && x != p.orelse && x != p.end ==> Untouched(s2, t, x)
    ensures Agrees(code, MoveTo(s1, p.body), s2)
  {
    hide Agrees;
    AgreesPart(code, s, MoveTo(s1, p.body), s2, t);
  }

  lemma ElseAgrees(code: Code, s: State, p: IfParts, s2: State, s3: State, t: State)
    requires PartsNew(s, p) && p.state.blocks.Keys <= s2.blocks.Keys && p.orelse != p.end
    requires Extends(MoveTo(s2, p.orelse), s3) && Agrees(code, s, t) && t == MoveTo(s3, p.end)
    ensures Agrees(code, MoveTo(s2, p.orelse), s3)
  {
    hide Agrees;
    AgreesPart(code, s, MoveTo(s2, p.orelse), s3, t);
  }

  predicate EmptyIn(s: State, b: nat) {
    b in s.blocks && s.blocks[b].ops == []
  }

  lemma IfMarks(s: State, p: IfParts, hasElse: bool, s1: State)
    requires IfOpened(s, p, hasElse) && Extends(p.state, s1)
    ensures PartsNew(s, p) && (p.orelse == p.end <==> !hasElse)
    ensures EmptyIn(s1, p.body) && EmptyIn(s1, p.orelse) && EmptyIn(s1, p.end)
    ensures Grows(p.state, s1) && p.state.regs == s.regs && Ready(MoveTo(s1, p.body))
  {
    assert Untouched(p.state, s1, p.end) && Untouched(p.state, s1, p.body) && Untouched(p.state, s1, p.orelse);
  }

  lemma PartsApart(s: State, p: IfParts)
    requires PartsNew(s, p)
    ensures p.orelse != p.body && p.end != p.body
  {
  }

  lemma KeysGrow(a: State, b: State)
    requires Grows(a, b)
    ensures a.blocks.Keys <= b.blocks.Keys && |a.regs| <= |b.regs|
  {
  }

  lemma GrowsMoved(a: State, b: State, x: nat)
    requires Grows(a, b)
    ensures Grows(a, MoveTo(b, x))
  {
  }

  lemma IfAgrees(code: Code, s: State, p: IfParts, hasElse: bool, s1: State, s2: State, s3: State, t: State)
    requires Ready(s) && IfOpened(s, p, hasElse)
    requires Extends(p.state, s1) && Extends(MoveTo(s1, p.body), s2)
    requires if hasElse then Extends(MoveTo(s2, p.orelse), s3) else s3 == s2
    requires t == MoveTo(s3, p.end) && Agrees(code, s, t)
    ensures Agrees(code, p.state, s1) && Agrees(code, MoveTo(s1, p.body), s2)
    ensures hasElse ==> Agrees(code, MoveTo(s2, p.orelse), s3)
    ensures Grows(p.state, s1) && Grows(s1, s2) && Grows(s2, s3)
    ensures At(s1.blocks, p.body).ops == [] && (hasElse ==> At(s2.blocks, p.orelse).ops == []) && At(s3.blocks, p.end).ops == []
  {
    hide Agrees, Ready, Extends, Grows, IfOpened, PartsNew;
    IfMarks(s, p, hasElse, s1);
    var n3 := if hasElse then p.orelse else s2.current;
    if !hasElse {
      ExtendsReady(MoveTo(s1, p.body), s2);
      ExtendsReflexive(s2);
    }
    LeftAlone(s1, p.body, s2, n3, s3);
    KeysGrow(p.state, s1);
    KeysGrow(s1, s2);
    GrowsMoved(s1, s3, p.end);
    GrowsMoved(s2, s3, p.end);
    PartsApart(s, p);
    assert Untouched(s1, s2, p.orelse) && Untouched(s1, s2, p.end);
    assert hasElse ==> Untouched(s2, s3, p.end);
    CondAgrees(code, s, p, s1, t) by {
      forall x | x in s1.blocks && x != p.body && x != p.orelse && x != p.end
        ensures Untouched(s1, t, x)
      {
        assert Untouched(s1, s2, x);
      }
    }
    BodyAgrees(code, s, p, s1, s2, t) by {
      forall x | x in s2.blocks && x != p.orelse && x != p.end
        ensures Untouched(s2, t, x)
      {
        assert hasElse ==> Untouched(s2, s3, x);
      }
    }
    if hasElse {
      ElseAgrees(code, s, p, s2, s3, t);
    }
  }

  lemma RoomThere(a: State, b: State, t: State, f: Frame)
    requires Grows(a, b) && Roomy(t, f) && b.regs == t.regs && b.locals == t.locals
    ensures Roomy(a, f)
  {
  }

  /** One arm of an `if`: its statement and the jump to the end. */
  lemma SimArm(code: Code, s: State, ctx: seq<Target>, e: Expr, st: Stmt, end: nat, t: State, f: Frame, fuel: nat)
    returns (n: nat, g: Frame)
    requires st < e && Entry(code, s, LowerArm(s, ctx, st, end), ctx, f)
    requires SupportedStmt(st) && ResolveStmt(st, s.locals, SlotsOf(ctx)).Some?
    requires t.current == end != 0 && At(t.blocks, end).ops == []
    ensures Simulates(code, s, f, t, Imm(0), ctx, Source.RunStmt(st, f.locals, fuel), fuel, n, g)
    decreases fuel, e, 7
  {
    hide Ready, Extends, Agrees, Roomy, SameBelow, AppendOp, LowerStmt, Resolve, Supported;
    var s1 := LowerStmt(s, ctx, st);
    var t1 := LowerArm(s, ctx, st, end);
    StmtExtends(s, ctx, st);
    AppendShape(s1, Branch(end));
    Split(code, s, s1, t1, f);
    n, g := SimStmt(code, s, ctx, st, f, fuel);
    var r := Source.RunStmt(st, f.locals, fuel);
    if r.Falls() {
      JumpStep(code, s1, end, g);
      Continue(code, s, f, s1, g, n, 1);
      n := n + 1;
    } else {
      Elsewhere(code, s, f, s1, Imm(0), t, Imm(0), ctx, r, fuel, n, g);
    }
  }

  lemma JumpStep(code: Code, s: State, target: nat, f: Frame)
    requires Ready(s) && Agrees(code, s, AppendOp(s, Branch(target)))
    ensures Steps(code, Here(s, f), 1) == Enter(target, f)
  {
    AppendShape(s, Branch(target));
    OneStep(code, s, AppendOp(s, Branch(target)), Branch(target), f);
  }

  lemma SimLoop(code: Code, s: State, ctx: seq<Target>, e: Expr, f: Frame, fuel: nat) returns (n: nat, g: Frame)
    requires e.Loop? && Entry(code, s, Lower(s, ctx, e).0, ctx, f)
    requires Supported(e) && Resolve(e, s.locals, SlotsOf(ctx)).Some?
    ensures Simulates(code, s, f, Lower(s, ctx, e).0, Lower(s, ctx, e).1, ctx, Source.Run(e, f.locals, fuel), fuel, n, g)
    decreases fuel, e, 8
  {
    hide Ready, Extends, Agrees, Roomy, SameBelow, AppendOp, OpenLoop, LowerStmt, Lower, BranchLoop, CloseLoop, LoopOpened, Resolve, Supported, Fits, Grows, LoopCode;
    var t, o := LowerLoop(s, ctx, e).0, LowerLoop(s, ctx, e).1;
    LowerLoopIs(s, ctx, e);
    LoopPieces(code, s, ctx, e);
    var stages := StagesOf(s, ctx, e);
    var s0, p, ctx', s1, s2, s3 := stages.s0, stages.p, stages.ctx, stages.s1, stages.s2, stages.s3;
    var m := MoveTo(AppendOp(s3, Branch(p.test)), p.end);
    var result := Source.Run(e, f.locals, fuel);
    ExtendsTransitive(s0, m, t);
    Split(code, s, s0, t, f);
    Split(code, s0, m, t, f);
    var n0, g0 := 0, f;
    if e.init.Some? {
      n0, g0 := SimStmt(code, s, ctx, e.init.value, f, fuel);
      if !Source.RunStmt(e.init.value, f.locals, fuel).Falls() {
        n, g := n0, g0;
        Elsewhere(code, s, f, s0, Imm(0), t, o, ctx, result, fuel, n, g);
        return;
      }
    } else {
      Nowhere(code, s, f);
    }
    assert Reaches(code, s, f, s0, g0, n0);
    KeepsRoom(code, s, f, s0, g0, n0, m);
    KeepsRoom(code, s, f, s0, g0, n0, t);
    RoomEarlier(s3, m, g0);
    KeysGrow(s3, m);
    LoopEntered(code, s0, p, g0);
    ReachesTransitive(code, s, f, s0, g0, p.state, g0, n0, 1);
    var r := Source.Iterate(e, g0.locals, fuel);
    var n1, g1 := SimIterate(code, ctx', e, p, s1, s2, s3, g0, fuel);
    n, g := SimLoopExit(code, s, f, s0, p, g0, m, t, o, ctx, ctx', e, r, fuel, n0 + 1, n1, g1);
  }

  /** The states lowering a loop goes through: before the loop, then with its condition, its body and
      its update lowered, for the blocks `p` and the targets `ctx` inside. */
  datatype LoopStages = LoopStages(s0: State, p: LoopParts, ctx: seq<Target>, s1: State, s2: State, s3: State)
  {
    /** The jump back to the condition. */
    function Back(): State { AppendOp(s3, Branch(p.test)) }

    function AtEnd(): State { MoveTo(Back(), p.end) }
  }

  function StagesOf(s: State, ctx: seq<Target>, e: Expr): LoopStages
    requires e.Loop?
  {
    var s0 := if e.init.None? then s else LowerStmt(s, ctx, e.init.value);
    var p := OpenLoop(s0, e.slot.Some?);
    var ctx' := LoopContext(s0, ctx, p, e.slot.Some?);
    var s1 := if e.test.None? then p.state else BranchLoop(Lower(p.state, ctx', e.test.value), p);
    var s2 := LowerStmt(MoveTo(s1, p.body), ctx', e.body);
    var s3 := if e.update.None? then s2 else Lower(s2, ctx', e.update.value).0;
    LoopStages(s0, p, ctx', s1, s2, s3)
  }

  function LowerLoop(s: State, ctx: seq<Target>, e: Expr): Lowered
    requires e.Loop?
  {
    var g := StagesOf(s, ctx, e);
    CloseLoop(g.Back(), g.p, g.s0.locals, e.slot)
  }

  lemma LowerLoopIs(s: State, ctx: seq<Target>, e: Expr)
    requires e.Loop?
    ensures Lower(s, ctx, e) == LowerLoop(s, ctx, e)
  {
    hide AppendOp, OpenLoop, LowerStmt, BranchLoop, CloseLoop, LoopContext;
  }

  /** The blocks of a loop and the pieces lowered into them, in the finished code. */
  predicate LoopPlaced(code: Code, p: LoopParts, s1: State, s2: State, s3: State) {
    && p.state.current == p.test && p.test != 0 && p.body != 0 && p.exit != 0 && p.end != 0
    && EmptyIn(p.state, p.test) && EmptyIn(s1, p.body) && EmptyIn(s3, p.end) && p.end != s3.current
    && Ready(p.state) && Ready(MoveTo(s1, p.body)) && Ready(s2) && Ready(s3)
    && Agrees(code, p.state, s1) && Agrees(code, MoveTo(s1, p.body), s2) && Agrees(code, s2, s3)
    && Agrees(code, s3, AppendOp(s3, Branch(p.test)))
    && p.exit in code.blocks && code.blocks[p.exit] == Block([], p.end)
    && Grows(p.state, s1) && Grows(s1, s2) && Grows(s2, s3)
  }

  /** What the finished code has of a loop whose blocks are those of `p`. */
  predicate LoopCode(code: Code, ctx: seq<Target>, e: Expr, p: LoopParts, s1: State, s2: State, s3: State) {
    && e.Loop? && Targets(ctx)
    && (e.test.Some? ==> Supported(e.test.value) && Resolve(e.test.value, p.state.locals, SlotsOf(ctx)).Some?)
    && SupportedStmt(e.body) && ResolveStmt(e.body, s1.locals, SlotsOf(ctx)).Some?
    && (e.update.Some? ==> Supported(e.update.value) && Resolve(e.update.value, s2.locals, SlotsOf(ctx)).Some?)
    && s1 == (if e.test.None? then p.state else BranchLoop(Lower(p.state, ctx, e.test.value), p))
    && s2 == LowerStmt(MoveTo(s1, p.body), ctx, e.body)
    && s3 == (if e.update.None? then s2 else Lower(s2, ctx, e.update.value).0)
    && (e.test.None? ==> p.test in code.blocks && code.blocks[p.test] == Block([], p.body))
    && LoopPlaced(code, p, s1, s2, s3)
  }

  lemma ReachesLater(code: Code, s: State, f: Frame, m: State, g: Frame, t: State, o: Operand, ctx: seq<Target>,
                     r: Source.Result, less: nat, fuel: nat, n1: nat, n2: nat, h: Frame)
    requires Reaches(code, s, f, m, g, n1) && |s.regs| <= |m.regs| && less + n1 >= fuel
    requires Simulates(code, m, g, t, o, ctx, r, less, n2, h)
    ensures Simulates(code, s, f, t, o, ctx, r, fuel, n1 + n2, h)
  {
    StepsAdd(code, Here(s, f), n1, n2);
  }

  function Less(fuel: nat): nat {
    if fuel == 0 then 0 else fuel - 1
  }

  /** From the condition block of a loop until the loop is left. */
  lemma {:induction false} SimIterate(code: Code, ctx: seq<Target>, e: Expr, p: LoopParts, s1: State, s2: State, s3: State,
                                      f: Frame, fuel: nat)
    returns (n: nat, g: Frame)
    requires e.Loop? && LoopCode(code, ctx, e, p, s1, s2, s3) && Roomy(s3, f)
    ensures Simulates(code, p.state, f, MoveTo(AppendOp(s3, Branch(p.test)), p.end), Imm(0), ctx,
                      Source.Iterate(e, f.locals, fuel), Less(fuel), n, g)
    decreases fuel, e, 6
  {
    hide Ready, Agrees, Roomy, SameBelow, LowerStmt, Lower, AppendOp, BranchLoop, Resolve, Supported, Grows, LoopCode;
    var m := MoveTo(AppendOp(s3, Branch(p.test)), p.end);
    if fuel == 0 {
      n, g := 0, f;
    } else {
      n, g := SimLoopTest(code, ctx, e, p, s1, s2, s3, f, fuel - 1);
      var a := if e.test.Some? then Source.Run(e.test.value, f.locals, fuel - 1) else Source.Done(Source.Normal, f.locals, 1);
      if a.Falls() && a.word != 0 {
        var b := MoveTo(s1, p.body);
        LoopSizes(code, ctx, e, p, s1, s2, s3);
        var n2, g2 := SimLoopBody(code, ctx, e, p, s1, s2, s3, g, fuel - 1);
        var rb := Source.RunStmt(e.body, g.locals, fuel - 1);
        var rc := if rb.Falls() && e.update.Some? then Source.Run(e.update.value, rb.store, fuel - 1) else rb;
        if !rc.Falls() {
          ReachesThen(code, p.state, f, b, g, m, Imm(0), ctx, rc, fuel - 1, n, n2, g2);
          n, g := n + n2, g2;
        } else {
          ReachesTransitive(code, p.state, f, b, g, p.state, g2, n, n2);
          KeepsRoom(code, p.state, f, p.state, g2, n + n2, s3);
          var n3, g3 := SimIterate(code, ctx, e, p, s1, s2, s3, g2, fuel - 1);
          ReachesLater(code, p.state, f, p.state, g2, m, Imm(0), ctx, Source.Iterate(e, g2.locals, fuel - 1),
                       Less(fuel - 1), fuel - 1, n + n2, n3, g3);
          n, g := n + n2 + n3, g3;
        }
      }
    }
  }

  lemma LoopSizes(code: Code, ctx: seq<Target>, e: Expr, p: LoopParts, s1: State, s2: State, s3: State)
    requires LoopCode(code, ctx, e, p, s1, s2, s3)
    ensures |p.state.regs| <= |s1.regs| <= |s2.regs| <= |s3.regs|
    ensures p.state.locals <= s1.locals <= s2.locals <= s3.locals
  {
  }

  /** The condition of a loop: it enters the body or the end. */
  lemma SimLoopTest(code: Code, ctx: seq<Target>, e: Expr, p: LoopParts, s1: State, s2: State, s3: State, f: Frame, fuel: nat)
    returns (n: nat, g: Frame)
    requires e.Loop? && LoopCode(code, ctx, e, p, s1, s2, s3) && Roomy(s3, f)
    ensures var a := if e.test.Some? then Source.Run(e.test.value, f.locals, fuel) else Source.Done(Source.Normal, f.locals, 1);
            var m := MoveTo(AppendOp(s3, Branch(p.test)), p.end);
            if !a.Falls() then Simulates(code, p.state, f, m, Imm(0), ctx, a, fuel, n, g) else
            && Reaches(code, p.state, f, if a.word != 0 then MoveTo(s1, p.body) else m, g, n)
            && g.locals == a.store && Roomy(s3, g) && n >= 1
    decreases fuel, e, 5
  {
    hide Ready, Agrees, Roomy, SameBelow, LowerStmt, Lower, AppendOp, Resolve, Supported, Grows, Value;
    var m := MoveTo(AppendOp(s3, Branch(p.test)), p.end);
    EmptyAfter(s3, Branch(p.test), p.end);
    if e.test.None? {
      n, g := 1, f;
      assert Steps(code, Here(p.state, f), 1) == Steps(code, Step(code, Here(p.state, f)), 0);
      Nowhere(code, p.state, f);
      ReachesSame(code, p.state, f, p.state, f, 0);
      Landed(code, p.state, f, MoveTo(s1, p.body), f, 1);
    } else {
      var low := Lower(p.state, ctx, e.test.value);
      LowerExtends(p.state, ctx, e.test.value);
      AppendShape(low.0, BranchCond(low.1, p.body, p.end));
      RoomEarlier(s1, s3, f) by { GrowsTransitive(s1, s2, s3); }
      Split(code, p.state, low.0, s1, f);
      n, g := SimExpr(code, p.state, ctx, e.test.value, f, fuel);
      var a := Source.Run(e.test.value, f.locals, fuel);
      if !a.Falls() {
        Elsewhere(code, p.state, f, low.0, low.1, m, Imm(0), ctx, a, fuel, n, g);
      } else {
        KeepsRoom(code, p.state, f, low.0, g, n, s3);
        BranchStep(code, low.0, low.1, p.body, p.end, g);
        Continue(code, p.state, f, low.0, g, n, 1);
        ReachesSame(code, p.state, f, low.0, g, n);
        n := n + 1;
        Landed(code, p.state, f, if a.word != 0 then MoveTo(s1, p.body) else m, g, n);
      }
    }
  }

  lemma EmptyAfter(s: State, op: Op, b: nat)
    requires EmptyIn(s, b) && b != s.current
    ensures EmptyIn(AppendOp(s, op), b)
  {
  }

  /** The body and the update of a loop, and the jump back. */
  lemma SimLoopBody(code: Code, ctx: seq<Target>, e: Expr, p: LoopParts, s1: State, s2: State, s3: State, f: Frame, fuel: nat)
    returns (n: nat, g: Frame)
    requires e.Loop? && LoopCode(code, ctx, e, p, s1, s2, s3) && Roomy(s3, f)
    ensures var b := MoveTo(s1, p.body);
            var m := MoveTo(AppendOp(s3, Branch(p.test)), p.end);
            var rb := Source.RunStmt(e.body, f.locals, fuel);
            var rc := if rb.Falls() && e.update.Some? then Source.Run(e.update.value, rb.store, fuel) else rb;
            if !rc.Falls() then Simulates(code, b, f, m, Imm(0), ctx, rc, fuel, n, g)
            else Reaches(code, b, f, p.state, g, n) && g.locals == rc.store && n >= 1
    decreases fuel, e, 5
  {
    hide Ready, Agrees, Roomy, SameBelow, LowerStmt, Lower, AppendOp, BranchLoop, Resolve, Supported, Grows;
    var b := MoveTo(s1, p.body);
    var m := MoveTo(AppendOp(s3, Branch(p.test)), p.end);
    KeysGrow(s1, s2);
    KeysGrow(s2, s3);
    RoomEarlier(s2, s3, f);
    n, g := SimStmt(code, b, ctx, e.body, f, fuel);
    var rb := Source.RunStmt(e.body, f.locals, fuel);
    if !rb.Falls() {
      Elsewhere(code, b, f, s2, Imm(0), m, Imm(0), ctx, rb, fuel, n, g);
    } else {
      if e.update.Some? {
        KeepsRoom(code, b, f, s2, g, n, s3);
        var n2, g2 := SimExpr(code, s2, ctx, e.update.value, g, fuel);
        var rc := Source.Run(e.update.value, rb.store, fuel);
        if !rc.Falls() {
          Elsewhere(code, s2, g, s3, Lower(s2, ctx, e.update.value).1, m, Imm(0), ctx, rc, fuel, n2, g2);
          ReachesThen(code, b, f, s2, g, m, Imm(0), ctx, rc, fuel, n, n2, g2);
          n, g := n + n2, g2;
          return;
        }
        ReachesTransitive(code, b, f, s2, g, s3, g2, n, n2);
        n, g := n + n2, g2;
      }
      JumpStep(code, s3, p.test, g);
      Continue(code, b, f, s3, g, n, 1);
      ReachesSame(code, b, f, s3, g, n);
      n := n + 1;
      Landed(code, b, f, p.state, g, n);
    }
  }

  lemma LoopEntered(code: Code, s0: State, p: LoopParts, f: Frame)
    requires s0.current in s0.blocks && s0.current in code.blocks
    requires code.blocks[s0.current] == Block(s0.blocks[s0.current].ops, p.test)
    requires p.test != 0 && p.state.current == p.test && EmptyIn(p.state, p.test)
    ensures Reaches(code, s0, f, p.state, f, 1)
  {
    assert Steps(code, Here(s0, f), 1) == Steps(code, Step(code, Here(s0, f)), 0);
  }

  lemma SimLoopExit(code: Code, s: State, f: Frame, s0: State, p: LoopParts, g0: Frame, m: State, t: State, o: Operand,
                    ctx: seq<Target>, ctx': seq<Target>, e: Expr, r: Source.Result, fuel: nat, n0: nat, n1: nat, g1: Frame)
    returns (n: nat, g: Frame)
    requires e.Loop? && Reaches(code, s, f, p.state, g0, n0) && n0 >= 1 && |s.regs| <= |p.state.regs| <= |m.regs|
    requires Simulates(code, p.state, g0, m, Imm(0), ctx', r, Less(fuel), n1, g1)
    requires ctx' == [Target(p.exit, SlotLocal(e.slot))] + ctx && (e.slot.Some? ==> e.slot.value.local == s0.locals)
    requires p.exit in code.blocks && code.blocks[p.exit] == Block([], p.end) && p.exit != 0 && p.end != 0
    requires m.current == p.end && EmptyIn(m, p.end) && Ready(m) && Roomy(t, g0)
    requires (t, o) == FinishLoop(m, s0.locals, e.slot) && Agrees(code, m, t)
    ensures Simulates(code, s, f, t, o, ctx, Source.WithResult(Source.Absorb(r, SlotLocal(e.slot)), e.slot), fuel, n, g)
  {
    hide Ready, Agrees, Roomy, AppendDst;
    ReachesLater(code, s, f, p.state, g0, m, Imm(0), ctx', r, Less(fuel), fuel, n0, n1, g1);
    n, g := n0 + n1, g1;
    if r.Done? && (r.flow.Normal? || r.flow.level == 0) {
      if r.flow.Broken? {
        StepsAdd(code, Here(s, f), n, 1);
        assert Steps(code, Running(p.exit, 0, g), 1) == Steps(code, Step(code, Running(p.exit, 0, g)), 0);
        n := n + 1;
      }
      assert Reaches(code, s, f, m, g, n);
      KeepsRoom(code, s, f, m, g, n, t) by { RoomBack(code, s, f, p.state, g0, n0, t); }
      if e.slot.Some? {
        LocalValue(code, g, s0.locals);
        var g2 := DefineStep(code, m, t, e.slot.value.ty, Load(NextReg(m), Local(s0.locals)), g, Read(g.locals, s0.locals));
        ReachesTransitive(code, s, f, m, g, t, g2, n, 1);
        n, g := n + 1, g2;
      }
    } else if r.Done? {
      assert ctx'[r.flow.level] == ctx[r.flow.level - 1];
    }
  }

  lemma RoomBack(code: Code, s: State, f: Frame, m: State, g: Frame, n: nat, t: State)
    requires Reaches(code, s, f, m, g, n) && Roomy(t, g)
    ensures Roomy(t, f)
  {
  }

  lemma CheckedLoop(e: Expr, n: nat, slots: Slots)
    requires e.Loop? && Supported(e) && Resolve(e, n, slots).Some?
    ensures (e.init.Some? ==> SupportedStmt(e.init.value)) && (e.test.Some? ==> Supported(e.test.value))
    ensures SupportedStmt(e.body) && (e.update.Some? ==> Supported(e.update.value))
    ensures var n0 := if e.init.None? then Some(n) else ResolveStmt(e.init.value, n, slots);
            var inner := [SlotLocal(e.slot)] + slots;
            && n0.Some? && (e.slot.Some? ==> e.slot.value.local == n0.value)
            && var n1 := if e.slot.Some? then n0.value + 1 else n0.value;
               var n2 := if e.test.None? then Some(n1) else Resolve(e.test.value, n1, inner);
            && n2.Some?
            && var n3 := ResolveStmt(e.body, n2.value, inner);
            && n3.Some?
            && (e.update.Some? ==> Resolve(e.update.value, n3.value, inner).Some?)
  {
  }

  /** The parts of a loop are new. */
  predicate LoopNew(s0: State, p: LoopParts) {
    && {p.test, p.body, p.exit, p.end} !! s0.blocks.Keys && 0 !in {p.test, p.body, p.exit, p.end}
    && p.test != p.body && p.test != p.exit && p.test != p.end && p.body != p.exit && p.body != p.end && p.exit != p.end
    && p.state.blocks.Keys == s0.blocks.Keys + {p.test, p.body, p.exit, p.end}
    && p.state.current == p.test && s0.current in s0.blocks
  }

  lemma LoopMarks(s0: State, p: LoopParts)
    requires Ready(s0) && LoopOpened(s0, p, p.state.locals)
    ensures Ready(p.state) && LoopNew(s0, p) && p.state.regs == s0.regs
    ensures p.state.blocks[p.test] == Block([], p.body) && p.state.blocks[p.body] == Block([], p.exit)
    ensures p.state.blocks[p.exit] == Block([], p.end) && EmptyIn(p.state, p.end)
    ensures p.state.blocks[s0.current] == s0.blocks[s0.current].(next := p.test)
    ensures Grows(s0, p.state) || p.state.locals < s0.locals
  {
    var l := [p.test, p.body, p.exit, p.end];
    assert l[0] != l[1] && l[0] != l[2] && l[0] != l[3] && l[1] != l[2] && l[1] != l[3] && l[2] != l[3];
    forall x | x in s0.blocks
      ensures s0.blocks[x].ops <= p.state.blocks[x].ops
    {
      assert x != s0.current ==> Untouched(s0, p.state, x);
    }
  }

  /** The code of a loop, from the code of the piece it is lowered in. */
  lemma LoopAgrees(code: Code, s0: State, p: LoopParts, s1: State, s4: State)
    requires Ready(s0) && LoopOpened(s0, p, p.state.locals)
    requires Extends(p.state, s1) && Extends(MoveTo(s1, p.body), s4) && Agrees(code, s0, MoveTo(s4, p.end))
    ensures Agrees(code, p.state, s1) && Agrees(code, MoveTo(s1, p.body), s4)
    ensures s0.current in code.blocks && code.blocks[s0.current] == p.state.blocks[s0.current]
    ensures p.exit in code.blocks && code.blocks[p.exit] == Block([], p.end)
    ensures s1 == p.state ==> p.test in code.blocks && code.blocks[p.test] == Block([], p.body)
    ensures EmptyIn(s1, p.body) && EmptyIn(s4, p.end) && p.end != s4.current && Ready(MoveTo(s1, p.body))
  {
    hide Agrees, Ready, Extends, Grows, LoopOpened;
    LoopMarks(s0, p);
    var t := MoveTo(s4, p.end);
    ExtendsReady(p.state, s1);
    LoopKeys(p.state, s1);
    ReadyAt(p.state, s1, p.body);
    ExtendsReflexive(p.state);
    LeftAlone(p.state, p.test, s1, p.body, s4);
    assert MoveTo(p.state, p.test) == p.state;
    assert Untouched(p.state, s1, p.body) && Untouched(p.state, s1, p.end) && Untouched(p.state, s1, p.exit);
    assert Untouched(s1, s4, p.end) && Untouched(s1, s4, p.exit);
    assert Untouched(p.state, s1, s0.current) && Untouched(s1, s4, s0.current);
    EndsElsewhere(MoveTo(s1, p.body), s4, p.end);
    GrowsMoved(s1, s4, p.end);
    GrowsReflexive(s4);
    GrowsMoved(s4, s4, p.end);
    TestAgrees(code, s0, p, s1, s4);
    RestAgrees(code, s0, p, s1, s4);
    ExactlyThere(code, s0, t, s0.current);
    ExactlyThere(code, s0, t, p.exit);
    if s1 == p.state {
      ExactlyThere(code, s0, t, p.test);
      assert Untouched(s1, s4, p.test);
    }
  }

  lemma LoopKeys(a: State, b: State)
    requires Extends(a, b)
    ensures Grows(a, b) && a.blocks.Keys <= b.blocks.Keys
  {
  }

  lemma EndsElsewhere(a: State, b: State, x: nat)
    requires Extends(a, b) && x in a.blocks && x != a.current
    ensures b.current != x
  {
  }

  lemma ExactlyThere(code: Code, s: State, t: State, x: nat)
    requires Agrees(code, s, t) && x in t.blocks && (x !in s.blocks || x == s.current) && x != t.current
    ensures x in code.blocks && code.blocks[x] == t.blocks[x]
  {
  }

  lemma TestAgrees(code: Code, s0: State, p: LoopParts, s1: State, s4: State)
    requires LoopNew(s0, p) && p.state.blocks.Keys <= s1.blocks.Keys && Grows(s1, MoveTo(s4, p.end))
    requires Agrees(code, s0, MoveTo(s4, p.end))
    requires forall x :: x in s1.blocks && x != p.body ==> Untouched(s1, s4, x)
    ensures Agrees(code, p.state, s1)
  {
    hide Agrees, Grows;
    AgreesPart(code, s0, p.state, s1, MoveTo(s4, p.end));
  }

  lemma RestAgrees(code: Code, s0: State, p: LoopParts, s1: State, s4: State)
    requires LoopNew(s0, p) && p.state.blocks.Keys <= s1.blocks.Keys && Grows(s4, MoveTo(s4, p.end))
    requires Agrees(code, s0, MoveTo(s4, p.end)) && p.end != s4.current && s1.blocks.Keys <= s4.blocks.Keys
    ensures Agrees(code, MoveTo(s1, p.body), s4)
  {
    hide Agrees, Grows;
    AgreesPart(code, s0, MoveTo(s1, p.body), s4, MoveTo(s4, p.end));
  }

  lemma BodySplit(code: Code, b: State, s2: State, s3: State, s4: State)
    requires Ready(b) && Extends(b, s2) && Extends(s2, s3) && Extends(s3, s4) && Agrees(code, b, s4)
    ensures Ready(s2) && Ready(s3) && Agrees(code, b, s2) && Agrees(code, s2, s3) && Agrees(code, s3, s4)
    ensures Grows(s2, s3)
  {
    ExtendsTransitive(s2, s3, s4);
    SplitCode(code, b, s2, s4);
    SplitCode(code, s2, s3, s4);
  }

  lemma EmptyBefore(s: State, op: Op, b: nat)
    requires Ready(s) && EmptyIn(AppendOp(s, op), b)
    ensures EmptyIn(s, b) && b != s.current
  {
  }

  lemma BranchLoopLocals(low: Lowered, p: LoopParts)
    ensures BranchLoop(low, p).locals == low.0.locals
  {
  }

  /** Each stage extends the one before. */
  predicate Staged(s: State, g: LoopStages) {
    && Ready(g.s0) && Extends(s, g.s0) && LoopOpened(g.s0, g.p, g.p.state.locals) && Extends(g.p.state, g.s1)
    && Ready(MoveTo(g.s1, g.p.body)) && Extends(MoveTo(g.s1, g.p.body), g.s2) && Ready(g.s2)
    && Extends(g.s2, g.s3) && Ready(g.s3)
    && Extends(g.s3, g.Back()) && Extends(MoveTo(g.s1, g.p.body), g.Back())
    && Extends(g.s0, g.AtEnd()) && Ready(g.AtEnd())
  }

  /** Each part of the loop is supported and resolved where it is lowered. */
  predicate StagesResolved(s: State, ctx: seq<Target>, e: Expr, g: LoopStages) {
    && e.Loop?
    && g.ctx == [Target(g.p.exit, SlotLocal(e.slot))] + ctx && (e.slot.Some? ==> e.slot.value.local == g.s0.locals)
    && (e.init.Some? ==> SupportedStmt(e.init.value) && ResolveStmt(e.init.value, s.locals, SlotsOf(ctx)).Some?)
    && (e.test.Some? ==> Supported(e.test.value) && Resolve(e.test.value, g.p.state.locals, SlotsOf(g.ctx)).Some?)
    && SupportedStmt(e.body) && ResolveStmt(e.body, g.s1.locals, SlotsOf(g.ctx)).Some?
    && (e.update.Some? ==> Supported(e.update.value) && Resolve(e.update.value, g.s2.locals, SlotsOf(g.ctx)).Some?)
  }

  lemma LoopStates(s: State, ctx: seq<Target>, e: Expr)
    requires e.Loop? && Ready(s)
    requires Supported(e) && Resolve(e, s.locals, SlotsOf(ctx)).Some?
    ensures Staged(s, StagesOf(s, ctx, e)) && StagesResolved(s, ctx, e, StagesOf(s, ctx, e))
    ensures var g := StagesOf(s, ctx, e);
            && LowerLoop(s, ctx, e) == FinishLoop(g.AtEnd(), g.s0.locals, e.slot)
            && Extends(g.AtEnd(), LowerLoop(s, ctx, e).0)
  {
    hide Ready, Extends, Grows, AppendOp, OpenLoop, LowerStmt, Lower, BranchLoop, LoopOpened, Resolve, Supported, AppendDst;
    CheckedLoop(e, s.locals, SlotsOf(ctx));
    var s0 := if e.init.None? then s else LowerStmt(s, ctx, e.init.value);
    ExtendsReflexive(s);
    if e.init.Some? {
      StmtExtends(s, ctx, e.init.value);
      StmtLocals(s, ctx, e.init.value);
    }
    var p := OpenLoop(s0, e.slot.Some?);
    OpenLoopShape(s0, e.slot.Some?);
    OpenLoopLocals(s0, e.slot.Some?);
    LoopReady(s0, p);
    var ctx' := LoopContext(s0, ctx, p, e.slot.Some?);
    assert SlotsOf(ctx') == [SlotLocal(e.slot)] + SlotsOf(ctx);
    ExtendsReflexive(p.state);
    if e.test.Some? {
      LowerExtends(p.state, ctx', e.test.value);
      LowerLocals(p.state, ctx', e.test.value);
      BranchLoopExtends(p.state, Lower(p.state, ctx', e.test.value), p);
      BranchLoopLocals(Lower(p.state, ctx', e.test.value), p);
    }
    var s1 := if e.test.None? then p.state else BranchLoop(Lower(p.state, ctx', e.test.value), p);
    var b := MoveTo(s1, p.body);
    ReadyAt(p.state, s1, p.body);
    StmtExtends(b, ctx', e.body);
    StmtLocals(b, ctx', e.body);
    var s2 := LowerStmt(b, ctx', e.body);
    ExtendsReflexive(s2);
    if e.update.Some? {
      LowerExtends(s2, ctx', e.update.value);
    }
    var s3 := if e.update.None? then s2 else Lower(s2, ctx', e.update.value).0;
    ExtendsTransitive(b, s2, s3);
    LoopFinished(s0, p, s1, s3, s0.locals, e.slot);
  }

  lemma LoopFinished(s0: State, p: LoopParts, s1: State, s3: State, local: nat, slot: Option<Slot>)
    requires Ready(s0) && p.state.locals >= s0.locals && LoopOpened(s0, p, p.state.locals)
    requires Extends(p.state, s1) && Ready(MoveTo(s1, p.body)) && Extends(MoveTo(s1, p.body), s3) && Ready(s3)
    ensures var s4 := AppendOp(s3, Branch(p.test)); var m := MoveTo(s4, p.end);
            && Extends(s3, s4) && Extends(MoveTo(s1, p.body), s4) && Extends(s0, m) && Ready(m)
            && CloseLoop(s4, p, local, slot) == FinishLoop(m, local, slot) && Extends(m, FinishLoop(m, local, slot).0)
  {
    hide Ready, Extends, AppendOp, AppendDst, LoopOpened;
    var s4 := AppendOp(s3, Branch(p.test));
    var m := MoveTo(s4, p.end);
    AppendShape(s3, Branch(p.test));
    ExtendsTransitive(MoveTo(s1, p.body), s3, s4);
    LoopClosed(s0, p, s1, s4);
    ExtendsReady(s0, m);
    ExtendsReflexive(m);
    CloseLoopExtends(m, s4, p, local, slot);
  }

  lemma LoopSized(s0: State, p: LoopParts, s1: State, s2: State, s3: State)
    requires LoopOpened(s0, p, p.state.locals) && Extends(p.state, s1) && Extends(MoveTo(s1, p.body), s2) && Grows(s2, s3)
    ensures Grows(p.state, s1) && Grows(s1, s2) && |s0.regs| <= |p.state.regs| <= |s3.regs|
  {
  }

  /** What the finished code has of the stages of a loop. */
  lemma StagesPlaced(code: Code, s: State, g: LoopStages, t: State)
    requires Ready(s) && Staged(s, g) && Extends(g.AtEnd(), t) && Agrees(code, s, t)
    ensures LoopPlaced(code, g.p, g.s1, g.s2, g.s3) && StagesLaid(code, g) && Agrees(code, s, g.s0) && Agrees(code, g.AtEnd(), t)
    ensures g.s1 == g.p.state ==> g.p.test in code.blocks && code.blocks[g.p.test] == Block([], g.p.body)
  {
    hide Ready, Extends, Agrees, Grows, AppendOp, LoopOpened;
    var s0, p, s1, s2, s3 := g.s0, g.p, g.s1, g.s2, g.s3;
    var s4 := AppendOp(s3, Branch(p.test));
    var m := MoveTo(s4, p.end);
    ExtendsTransitive(s0, m, t);
    SplitCode(code, s, s0, t);
    SplitCode(code, s0, m, t);
    LoopMarks(s0, p);
    LoopAgrees(code, s0, p, s1, s4);
    BodySplit(code, MoveTo(s1, p.body), s2, s3, s4);
    LoopSized(s0, p, s1, s2, s3);
    EmptyBefore(s3, Branch(p.test), p.end);
    AppendShape(s3, Branch(p.test));
    LoopKeys(s3, s4);
    GrowsMoved(s3, s4, p.end);
  }

  lemma LoopPieces(code: Code, s: State, ctx: seq<Target>, e: Expr)
    requires e.Loop? && Ready(s) && Agrees(code, s, LowerLoop(s, ctx, e).0) && Targets(ctx)
    requires Supported(e) && Resolve(e, s.locals, SlotsOf(ctx)).Some?
    ensures Staged(s, StagesOf(s, ctx, e)) && StagesResolved(s, ctx, e, StagesOf(s, ctx, e))
    ensures var g := StagesOf(s, ctx, e);
            && LowerLoop(s, ctx, e) == FinishLoop(g.AtEnd(), g.s0.locals, e.slot)
            && Extends(g.AtEnd(), LowerLoop(s, ctx, e).0)
    ensures var g := StagesOf(s, ctx, e);
            LoopCode(code, g.ctx, e, g.p, g.s1, g.s2, g.s3) && StagesLaid(code, g)
  {
    hide Ready, Extends, Agrees, Grows, AppendOp, OpenLoop, LowerStmt, Lower, BranchLoop, LoopOpened, Resolve, Supported, FinishLoop, CloseLoop,
      LowerLoop, LoopPlaced, Staged, StagesLaid;
    LoopStates(s, ctx, e);
    var g := StagesOf(s, ctx, e);
    StagesPlaced(code, s, g, LowerLoop(s, ctx, e).0);
    ExitNotZero(code, g);
    TargetsAdd(ctx, g.p.exit, SlotLocal(e.slot));
  }

  lemma ExitNotZero(code: Code, g: LoopStages)
    requires LoopPlaced(code, g.p, g.s1, g.s2, g.s3)
    ensures g.p.exit != 0
  {
  }

  /** Where the finished code has the blocks around the body of a loop. */
  predicate StagesLaid(code: Code, g: LoopStages) {
    && EmptyIn(g.AtEnd(), g.p.end)
    && g.s0.current in g.s0.blocks && g.s0.current in code.blocks
    && code.blocks[g.s0.current] == Block(g.s0.blocks[g.s0.current].ops, g.p.test)
    && g.p.test != 0 && g.p.exit != 0 && g.p.end != 0 && g.p.exit in code.blocks && code.blocks[g.p.exit] == Block([], g.p.end)
    && g.p.state.current == g.p.test && EmptyIn(g.p.state, g.p.test) && |g.s0.regs| <= |g.p.state.regs| <= |g.s3.regs|
    && Grows(g.s3, g.AtEnd())
  }

  function FinishLoop(m: State, local: nat, slot: Option<Slot>): Lowered {
    if slot.Some? then EmitLoad(m, slot.value.ty, Local(local)) else (m, Imm(0))
  }

  lemma SimBreak(code: Code, s: State, ctx: seq<Target>, e: Expr, f: Frame, fuel: nat) returns (n: nat, g: Frame)
    requires e.Break? && Entry(code, s, Lower(s, ctx, e).0, ctx, f)
    requires Supported(e) && Resolve(e, s.locals, SlotsOf(ctx)).Some?
    ensures Simulates(code, s, f, Lower(s, ctx, e).0, Lower(s, ctx, e).1, ctx, Source.Run(e, f.locals, fuel), fuel, n, g)
    decreases fuel, e, 8
  {
    hide Ready, Extends, Agrees, Roomy, SameBelow, AppendDst, AppendOp, LeaveTo, Resolve, Supported, Value, Fits;
    var (t, o) := Lower(s, ctx, e);
    BreakParts(e, s.locals, SlotsOf(ctx));
    var target := ctx[e.level];
    if e.carried.None? {
      n, g := 1, f;
      LeaveStep(code, s, target.block, f);
    } else {
      var (s1, v) := Lower(s, ctx, e.carried.value);
      var s2 := LowerCarried((s1, v), target.slot);
      LowerExtends(s, ctx, e.carried.value);
      CarriedAfter(s1, v, target.slot.value);
      LeaveToShape(s2, target.block);
      ExtendsTransitive(s1, s2, t);
      n, g := SimPart(code, s, ctx, e, e.carried.value, t, o, f, fuel);
      var r := Source.Run(e.carried.value, f.locals, fuel);
      if r.Falls() {
        Split(code, s1, s2, t, g);
        var g2 := StoreStep(code, s1, s2, target.slot.value, v, g);
        ReachesTransitive(code, s, f, s1, g, s2, g2, n, 1);
        LeaveStep(code, s2, target.block, g2);
        Continue(code, s, f, s2, g2, n + 1, 1);
        ReachesSame(code, s, f, s2, g2, n + 1);
        n, g := n + 2, g2;
      }
    }
  }

  lemma ReachesSame(code: Code, s: State, f: Frame, m: State, g: Frame, n: nat)
    requires Reaches(code, s, f, m, g, n)
    ensures SameBelow(f, g, |s.regs|)
  {
  }

  lemma CarriedAfter(s: State, v: Operand, local: nat)
    requires Ready(s)
    ensures Ready(LowerCarried((s, v), Some(local))) && Extends(s, LowerCarried((s, v), Some(local)))
  {
    AppendShape(s, Store(Local(local), v));
  }

  lemma LeaveStep(code: Code, s: State, target: nat, f: Frame)
    requires Ready(s) && Agrees(code, s, LeaveTo(s, target))
    ensures Steps(code, Here(s, f), 1) == Enter(target, f) && SameBelow(f, f, |s.regs|)
  {
    LeaveToShape(s, target);
    OneStep(code, s, LeaveTo(s, target), Branch(target), f);
  }

  lemma BreakParts(e: Expr, n: nat, slots: Slots)
    requires e.Break? && Supported(e) && Resolve(e, n, slots).Some?
    ensures e.level < |slots|
    ensures e.carried.Some? ==> slots[e.level].Some? && Supported(e.carried.value) && Resolve(e.carried.value, n, slots).Some?
  {
  }
}
