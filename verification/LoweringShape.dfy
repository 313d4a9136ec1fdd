/** Every lowering extends its state (`Shape`), counts locals as resolution does, and returns an
    operand of the expected kind. */
module LoweringShape {
  import opened Wrappers
  import opened Words
  import opened Syntax
  import opened Ir
  import opened Lowering
  import opened Shape

  function SlotsOf(ctx: seq<Target>): (r: Slots)
    ensures |r| == |ctx|
    ensures forall i :: 0 <= i < |ctx| ==> r[i] == ctx[i].slot
  {
    if ctx == [] then [] else [ctx[0].slot] + SlotsOf(ctx[1..])
  }

  // ---- extension ---------------------------------------------------------------------------

  lemma {:induction false} LowerExtends(s: State, ctx: seq<Target>, e: Expr)
    requires Ready(s)
    ensures Ready(Lower(s, ctx, e).0) && Extends(s, Lower(s, ctx, e).0)
    decreases e, 2
  {
    hide Ready, Extends, AppendOp, AppendDst, LeaveTo, LowerStmt, LowerAll, OpenIf, OpenLoop, OpenDo, BranchIf, BranchLoop, CloseLoop;
    match e
    case Lit(_, _) => LiteralExtends(s, e.word);
    case Var(x, ty) => AppendDstShape(s, ty, Load(NextReg(s), Local(x)));
    case Bin(op, ty, l, r) => PairExtends(s, ctx, e, l, r, ty, ty);
    case Cmp(cmp, l, r) => PairExtends(s, ctx, e, r, l, TypeOf(r), TypeOf(l));
    case Logic(_, l, r) =>
      LowerExtends(s, ctx, l);
      var s1 := Lower(s, ctx, l).0;
      var s2 := AppendDst(s1, TypeOf(l), Test(TypeOf(l), NextReg(s1), Lower(s, ctx, l).1));
      AppendDstShape(s1, TypeOf(l), Test(TypeOf(l), NextReg(s1), Lower(s, ctx, l).1));
      LowerExtends(s2, ctx, r);
      var s3 := Lower(s2, ctx, r).0;
      AppendDstShape(s3, TypeOf(r), Test(TypeOf(r), NextReg(s3), Lower(s2, ctx, r).1));
      var s4 := AppendDst(s3, TypeOf(r), Test(TypeOf(r), NextReg(s3), Lower(s2, ctx, r).1));
      AppendDstShape(s4, Bool, Combine(e.conjunction, NextReg(s4), Reg(NextReg(s1)), Reg(NextReg(s3))));
      ExtendsTransitive(s, s1, s2);
      ExtendsTransitive(s, s2, s3);
      ExtendsTransitive(s, s3, s4);
      ExtendsTransitive(s, s4, Lower(s, ctx, e).0);
    case Neg(a) =>
      LowerExtends(s, ctx, a);
      var (s1, o) := Lower(s, ctx, a);
      AppendDstShape(s1, I64, Negate(NextReg(s1), o));
      ExtendsTransitive(s, s1, Lower(s, ctx, e).0);
    case Cast(ty, a) =>
      ForgetLoad(s);
      LowerExtends(s.(lastLoad := false), ctx, a);
      var (s1, o) := Lower(s.(lastLoad := false), ctx, a);
      ExtendsTransitive(s, s.(lastLoad := false), s1);
      CastExtends(s, s1, ty, o);
    case Assign(x, rhs) =>
      LowerExtends(s, ctx, rhs);
      var (s1, o) := Lower(s, ctx, rhs);
      AppendShape(s1, Store(Local(x), o));
      ExtendsTransitive(s, s1, Lower(s, ctx, e).0);
    case OpAssign(op, ty, x, rhs) =>
      LowerExtends(s, ctx, rhs);
      var (s1, b) := Lower(s, ctx, rhs);
      AppendDstShape(s1, ty, Load(NextReg(s1), Local(x)));
      var (s2, a) := EmitLoad(s1, ty, Local(x));
      AppendDstShape(s2, ty, Compute(op, ty, NextReg(s2), a, b));
      var s3 := AppendDst(s2, ty, Compute(op, ty, NextReg(s2), a, b));
      AppendShape(s3, Store(Local(x), Reg(NextReg(s2))));
      ExtendsTransitive(s, s1, s2);
      ExtendsTransitive(s, s2, s3);
      ExtendsTransitive(s, s3, Lower(s, ctx, e).0);
    case Do(_, _) => DoExtends(s, ctx, e);
    case If(_, _, _) => IfExtends(s, ctx, e);
    case Loop(_, _, _, _, _) => LoopExtends(s, ctx, e);
    case Break(level, carried) =>
      var target := if level < |ctx| then ctx[level] else Target(0, None);
      if carried.Some? {
        LowerExtends(s, ctx, carried.value);
        var low := Lower(s, ctx, carried.value);
        CarriedExtends(s, low, target.slot);
        LeaveToShape(LowerCarried(low, target.slot), target.block);
        ExtendsTransitive(s, LowerCarried(low, target.slot), Lower(s, ctx, e).0);
      } else {
        LeaveToShape(s, target.block);
      }
  }

  lemma ExtendsReflexive(s: State)
    requires Ready(s)
    ensures Extends(s, s)
  {
  }

  lemma ForgetLoad(s: State)
    requires Ready(s)
    ensures Ready(s.(lastLoad := false)) && Extends(s, s.(lastLoad := false))
  {
  }

  lemma ExtendsReady(a: State, b: State)
    requires Extends(a, b)
    ensures Ready(b)
  {
  }

  lemma LiteralExtends(s: State, w: Word)
    requires Ready(s)
    ensures Ready(LowerLiteral(s, w).0) && Extends(s, LowerLiteral(s, w).0)
  {
  }

  lemma CastExtends(a: State, s: State, ty: Ty, o: Operand)
    requires Ready(a) && Extends(a, s)
    ensures Ready(LowerCast(s, ty, o).0) && Extends(a, LowerCast(s, ty, o).0)
  {
    AppendDstShape(s, ty, CastTo(NextReg(s), o));
    ExtendsTransitive(a, s, AppendDst(s, ty, CastTo(NextReg(s), o)));
  }

  lemma CarriedExtends(s: State, low: Lowered, slot: Option<nat>)
    requires Ready(s) && Extends(s, low.0)
    ensures Ready(LowerCarried(low, slot)) && Extends(s, LowerCarried(low, slot))
  {
    if slot.Some? {
      AppendShape(low.0, Store(Local(slot.value), low.1));
      ExtendsTransitive(s, low.0, LowerCarried(low, slot));
    }
  }

  /** Two operands, each loaded if immediate, then one operation that defines a register. */
  lemma PairExtends(s: State, ctx: seq<Target>, e: Expr, first: Expr, second: Expr, t1: Ty, t2: Ty)
    requires Ready(s) && first < e && second < e
    ensures var s1 := Lower(s, ctx, first).0;
            var s2 := LoadImmediate(s1, t1, Lower(s, ctx, first).1).0;
            var s3 := Lower(s2, ctx, second).0;
            var s4 := LoadImmediate(s3, t2, Lower(s2, ctx, second).1).0;
            && Extends(s, s1) && Extends(s1, s2) && Extends(s2, s3) && Extends(s3, s4) && Extends(s, s4)
            && forall ty, op :: Ready(AppendDst(s4, ty, op)) && Extends(s, AppendDst(s4, ty, op))
    decreases e, 0
  {
    LowerExtends(s, ctx, first);
    var (s1, a) := Lower(s, ctx, first);
    LoadImmediateShape(s1, t1, a);
    var s2 := LoadImmediate(s1, t1, a).0;
    LowerExtends(s2, ctx, second);
    var (s3, b) := Lower(s2, ctx, second);
    LoadImmediateShape(s3, t2, b);
    var s4 := LoadImmediate(s3, t2, b).0;
    ExtendsTransitive(s, s1, s2);
    ExtendsTransitive(s, s2, s3);
    ExtendsTransitive(s, s3, s4);
    forall ty, op
      ensures Ready(AppendDst(s4, ty, op)) && Extends(s, AppendDst(s4, ty, op))
    {
      AppendDstShape(s4, ty, op);
      ExtendsTransitive(s, s4, AppendDst(s4, ty, op));
    }
  }

  lemma DoExtends(s: State, ctx: seq<Target>, e: Expr)
    requires Ready(s) && e.Do?
    ensures Ready(Lower(s, ctx, e).0) && Extends(s, Lower(s, ctx, e).0)
    decreases e, 1
  {
    var exit := FreshRef(s);
    var s1 := OpenDo(s);
    OpenDoShape(s);
    var ctx' := [Target(exit, Some(s.locals))] + ctx;
    AllExtend(s1, ctx', e.items);
    var s2 := LowerAll(s1, ctx', e.items);
    DoClosed(s, s1, exit, s2);
    AppendDstShape(MoveTo(s2, exit), e.result.ty, Load(NextReg(s2), Local(s.locals)));
    ExtendsTransitive(s, MoveTo(s2, exit), Lower(s, ctx, e).0);
  }

  lemma DoClosed(s: State, s1: State, exit: nat, s2: State)
    requires Ready(s) && Inserted(AddLocal(s), s1, exit) && Extends(s1, s2)
    ensures Extends(s, MoveTo(s2, exit))
  {
    assert Untouched(s1, s2, exit);
    forall x | x in s.blocks
      ensures s.blocks[x].ops <= s2.blocks[x].ops && (x != s.current ==> Untouched(s, s2, x))
    {
      assert x in s1.blocks;
    }
  }

  lemma IfOperandExtends(s: State, o: Operand)
    requires Ready(s)
    ensures Extends(s, IfOperand(s, o).0)
  {
    LoadImmediateShape(s, Bool, o);
    var (s1, o1) := LoadImmediate(s, Bool, o);
    AppendDstShape(s1, Bool, Compare(Neq, NextReg(s1), o1, Imm(0)));
    ExtendsTransitive(s, s1, AppendDst(s1, Bool, Compare(Neq, NextReg(s1), o1, Imm(0))));
  }

  lemma AppendAfter(a: State, b: State, op: Op)
    requires Ready(a) && Extends(a, b)
    ensures Extends(a, AppendOp(b, op))
  {
    AppendShape(b, op);
    ExtendsTransitive(a, b, AppendOp(b, op));
  }

  lemma ReadyAt(a: State, s: State, b: nat)
    requires Ready(a) && Extends(a, s) && b in a.blocks
    ensures Ready(MoveTo(s, b))
  {
  }

  lemma BranchIfExtends(a: State, low: Lowered, p: IfParts)
    requires Ready(a) && Extends(a, low.0)
    ensures Extends(a, BranchIf(low, p))
  {
    IfOperandExtends(low.0, low.1);
    var (s, o) := IfOperand(low.0, low.1);
    ExtendsTransitive(a, low.0, s);
    AppendAfter(a, s, BranchCond(o, p.body, p.orelse));
  }

  lemma IfReady(s: State, p: IfParts, hasElse: bool, s1: State)
    requires IfOpened(s, p, hasElse) && Extends(p.state, s1)
    ensures Ready(p.state) && p.orelse in s1.blocks && Ready(MoveTo(s1, p.body))
  {
  }

  lemma LoopReady(s: State, p: LoopParts)
    requires LoopOpened(s, p, p.state.locals)
    ensures Ready(p.state) && p.body in p.state.blocks && p.end in p.state.blocks
  {
  }

  lemma ArmExtends(s: State, ctx: seq<Target>, st: Stmt, end: nat, e: Expr)
    requires Ready(s) && st < e
    ensures Extends(s, AppendOp(LowerStmt(s, ctx, st), Branch(end)))
    decreases e, 0
  {
    StmtExtends(s, ctx, st);
    AppendAfter(s, LowerStmt(s, ctx, st), Branch(end));
  }

  lemma LowerIfEnds(s: State, ctx: seq<Target>, e: Expr)
    requires e.If?
    ensures var p := OpenIf(s, e.orelse.Some?);
            var s1 := BranchIf(Lower(p.state, ctx, e.cond), p);
            var s2 := AppendOp(LowerStmt(MoveTo(s1, p.body), ctx, e.body), Branch(p.end));
            var s3 := if e.orelse.None? then s2
                      else AppendOp(LowerStmt(MoveTo(s2, p.orelse), ctx, e.orelse.value), Branch(p.end));
            Lower(s, ctx, e) == (MoveTo(s3, p.end), Imm(0))
  {
    hide AppendOp, OpenIf, LowerStmt, BranchIf;
  }

  lemma IfExtends(s: State, ctx: seq<Target>, e: Expr)
    requires Ready(s) && e.If?
    ensures Ready(Lower(s, ctx, e).0) && Extends(s, Lower(s, ctx, e).0)
    decreases e, 1
  {
    hide Ready, Extends, IfOpened, LoopOpened, AppendOp, LowerStmt, OpenIf, OpenLoop, BranchIf, BranchLoop, CloseLoop, Lower;
    LowerIfEnds(s, ctx, e);
    var p := OpenIf(s, e.orelse.Some?);
    OpenIfShape(s, e.orelse.Some?);
    LowerExtends(p.state, ctx, e.cond);
    BranchIfExtends(p.state, Lower(p.state, ctx, e.cond), p);
    var s1 := BranchIf(Lower(p.state, ctx, e.cond), p);
    assert Ready(MoveTo(s1, p.body)) by { IfReady(s, p, e.orelse.Some?, s1); }
    ArmExtends(MoveTo(s1, p.body), ctx, e.body, p.end, e);
    var s2 := AppendOp(LowerStmt(MoveTo(s1, p.body), ctx, e.body), Branch(p.end));
    if e.orelse.None? {
      IfClosed(s, p, false, s1, s2, MoveTo(s2, p.orelse));
    } else {
      assert Ready(MoveTo(s2, p.orelse)) by {
        IfReady(s, p, true, s1);
        ReadyAt(MoveTo(s1, p.body), s2, p.orelse);
      }
      ArmExtends(MoveTo(s2, p.orelse), ctx, e.orelse.value, p.end, e);
      IfClosed(s, p, true, s1, s2, AppendOp(LowerStmt(MoveTo(s2, p.orelse), ctx, e.orelse.value), Branch(p.end)));
    }
    ExtendsReady(s, Lower(s, ctx, e).0);
  }

  lemma IfClosed(s: State, p: IfParts, hasElse: bool, c: State, s4: State, s5: State)
    requires Ready(s) && IfOpened(s, p, hasElse)
    requires Extends(p.state, c) && Extends(MoveTo(c, p.body), s4)
    requires if hasElse then Extends(MoveTo(s4, p.orelse), s5) else s5 == MoveTo(s4, p.orelse)
    ensures Extends(s, MoveTo(s5, p.end))
  {
    hide IfOpened, Ready;
    ArmsEnd(s, p, hasElse, c, s4, s5);
    forall x | x in s.blocks
      ensures x in s5.blocks && s.blocks[x].ops <= s5.blocks[x].ops && (x != s.current ==> Untouched(s, s5, x))
    {
      ArmsKeep(s, p, hasElse, c, s4, s5, x);
    }
    assert Grows(s, MoveTo(s5, p.end));
  }

  lemma ArmsEnd(s: State, p: IfParts, hasElse: bool, c: State, s4: State, s5: State)
    requires Ready(s) && IfOpened(s, p, hasElse)
    requires Extends(p.state, c) && Extends(MoveTo(c, p.body), s4)
    requires if hasElse then Extends(MoveTo(s4, p.orelse), s5) else s5 == MoveTo(s4, p.orelse)
    ensures p.end !in s.blocks && p.end in s5.blocks && s5.blocks[p.end].next == s.blocks[s.current].next && Ready(MoveTo(s5, p.end))
    ensures |s.regs| <= |s5.regs| && s.literals <= s5.literals && s.locals <= s5.locals && s.current in s.blocks
  {
    assert Untouched(p.state, c, p.end) && Untouched(c, s4, p.end) && Untouched(s4, s5, p.end);
  }

  lemma ArmsKeep(s: State, p: IfParts, hasElse: bool, c: State, s4: State, s5: State, x: nat)
    requires IfOpened(s, p, hasElse) && x in s.blocks
    requires Extends(p.state, c) && Extends(MoveTo(c, p.body), s4)
    requires if hasElse then Extends(MoveTo(s4, p.orelse), s5) else s5 == MoveTo(s4, p.orelse)
    ensures x in s5.blocks && s.blocks[x].ops <= s5.blocks[x].ops && (x != s.current ==> Untouched(s, s5, x))
  {
    hide Ready;
    assert x in p.state.blocks && x in c.blocks && Untouched(c, s4, x) && Untouched(s4, s5, x);
  }

  lemma BranchLoopExtends(a: State, low: Lowered, p: LoopParts)
    requires Ready(a) && Extends(a, low.0)
    ensures Extends(a, BranchLoop(low, p))
  {
    AppendAfter(a, low.0, BranchCond(low.1, p.body, p.end));
  }

  lemma CloseLoopExtends(a: State, s: State, p: LoopParts, local: nat, slot: Option<Slot>)
    requires Ready(a) && Extends(a, MoveTo(s, p.end))
    ensures Extends(a, CloseLoop(s, p, local, slot).0)
  {
    if slot.Some? {
      var t := MoveTo(s, p.end);
      AppendDstShape(t, slot.value.ty, Load(NextReg(t), Local(local)));
      ExtendsTransitive(a, t, CloseLoop(s, p, local, slot).0);
    }
  }

  lemma LowerLoopEnds(s: State, ctx: seq<Target>, e: Expr)
    requires e.Loop?
    ensures var s0 := if e.init.None? then s else LowerStmt(s, ctx, e.init.value);
            var p := OpenLoop(s0, e.slot.Some?);
            var ctx' := LoopContext(s0, ctx, p, e.slot.Some?);
            var s1 := if e.test.None? then p.state else BranchLoop(Lower(p.state, ctx', e.test.value), p);
            var s2 := LowerStmt(MoveTo(s1, p.body), ctx', e.body);
            var s3 := if e.update.None? then s2 else Lower(s2, ctx', e.update.value).0;
            Lower(s, ctx, e) == CloseLoop(AppendOp(s3, Branch(p.test)), p, s0.locals, e.slot)
  {
    hide AppendOp, OpenLoop, LowerStmt, BranchLoop, CloseLoop, LoopContext;
  }

  lemma LoopExtends(s: State, ctx: seq<Target>, e: Expr)
    requires Ready(s) && e.Loop?
    ensures Ready(Lower(s, ctx, e).0) && Extends(s, Lower(s, ctx, e).0)
    decreases e, 1
  {
    hide Ready, Extends, IfOpened, LoopOpened, AppendOp, LowerStmt, OpenIf, OpenLoop, BranchIf, BranchLoop, CloseLoop, Lower, LoopContext;
    LowerLoopEnds(s, ctx, e);
    var s0 := if e.init.None? then s else LowerStmt(s, ctx, e.init.value);
    if e.init.Some? {
      StmtExtends(s, ctx, e.init.value);
    }
    var p := OpenLoop(s0, e.slot.Some?);
    OpenLoopShape(s0, e.slot.Some?);
    var ctx' := LoopContext(s0, ctx, p, e.slot.Some?);
    ExtendsReflexive(s);
    LoopReady(s0, p);
    ExtendsReflexive(p.state);
    if e.test.Some? {
      LowerExtends(p.state, ctx', e.test.value);
      BranchLoopExtends(p.state, Lower(p.state, ctx', e.test.value), p);
    }
    var s1 := if e.test.None? then p.state else BranchLoop(Lower(p.state, ctx', e.test.value), p);
    var b := MoveTo(s1, p.body);
    ReadyAt(p.state, s1, p.body);
    StmtExtends(b, ctx', e.body);
    var s2 := LowerStmt(b, ctx', e.body);
    if e.update.Some? {
      LowerExtends(s2, ctx', e.update.value);
      ExtendsTransitive(b, s2, Lower(s2, ctx', e.update.value).0);
    }
    var s3 := if e.update.None? then s2 else Lower(s2, ctx', e.update.value).0;
    AppendAfter(b, s3, Branch(p.test));
    LoopClosed(s0, p, s1, AppendOp(s3, Branch(p.test)));
    ExtendsTransitive(s, s0, MoveTo(AppendOp(s3, Branch(p.test)), p.end));
    CloseLoopExtends(s, AppendOp(s3, Branch(p.test)), p, s0.locals, e.slot);
  }

  lemma LoopClosed(s: State, p: LoopParts, s1: State, s4: State)
    requires Ready(s) && p.state.locals >= s.locals && LoopOpened(s, p, p.state.locals)
    requires Extends(p.state, s1) && Extends(MoveTo(s1, p.body), s4)
    ensures Extends(s, MoveTo(s4, p.end))
  {
    assert p.end != p.test && p.end != p.body by {
      var l := [p.test, p.body, p.exit, p.end];
      assert l[0] != l[3] && l[1] != l[3];
    }
    assert Untouched(p.state, s1, p.end) && Untouched(s1, s4, p.end);
    forall x | x in s.blocks
      ensures s.blocks[x].ops <= s4.blocks[x].ops && (x != s.current ==> Untouched(s, s4, x))
    {
      assert x in p.state.blocks && Untouched(p.state, s1, x) && Untouched(s1, s4, x);
    }
  }

  lemma {:induction false} StmtExtends(s: State, ctx: seq<Target>, st: Stmt)
    requires Ready(s)
    ensures Ready(LowerStmt(s, ctx, st)) && Extends(s, LowerStmt(s, ctx, st))
    decreases st, 0
  {
    match st
    case Compound(items) => AllExtend(s, ctx, items);
    case Decl(_, initial) =>
      var s1 := AddLocal(s);
      if initial.Some? {
        LowerExtends(s1, ctx, initial.value);
        var (s2, v) := Lower(s1, ctx, initial.value);
        AppendAfter(s1, s2, Store(Local(s.locals), v));
        ExtendsTransitive(s, s1, LowerStmt(s, ctx, st));
      }
    case Eval(e) => LowerExtends(s, ctx, e);
  }

  lemma {:induction false} AllExtend(s: State, ctx: seq<Target>, items: seq<Stmt>)
    requires Ready(s)
    ensures Ready(LowerAll(s, ctx, items)) && Extends(s, LowerAll(s, ctx, items))
    decreases items, 0
  {
    if items != [] {
      StmtExtends(s, ctx, items[0]);
      var s1 := LowerStmt(s, ctx, items[0]);
      AllExtend(s1, ctx, items[1..]);
      ExtendsTransitive(s, s1, LowerAll(s1, ctx, items[1..]));
    }
  }

  // ---- operands ----------------------------------------------------------------------------

  predicate Fits(s: State, o: Operand) {
    match o
    case Imm(n) => n <= MAX_IMMEDIATE
    case Reg(r) => r < |s.regs|
    case Literal(i) => i < |s.literals|
    case Local(_) => false
  }

  predicate BoolRegister(s: State, o: Operand) {
    o.Reg? && o.payload < |s.regs| && s.regs[o.payload] == Bool
  }

  /** The last operation appended is the load that defines the operand. */
  predicate JustLoaded(s: State, o: Operand) {
    var ops := At(s.blocks, s.current).ops;
    o.Reg? && ops != [] && ops[|ops| - 1].Load? && ops[|ops| - 1].dst == o.payload
  }

  predicate GoodOperand(s: State, t: State, o: Operand, e: Expr) {
    && Fits(t, o)
    && (o.Literal? <==> YieldsLiteral(e))
    && (YieldsBool(e) ==> BoolRegister(t, o))
    && (!s.lastLoad && t.lastLoad ==> JustLoaded(t, o))
  }

  lemma DefinedRegister(s: State, ty: Ty, op: Op)
    requires op.Load? ==> op.dst == NextReg(s)
    ensures var t := AppendDst(s, ty, op); var o := Reg(NextReg(s));
            Fits(t, o) && (ty == Bool ==> BoolRegister(t, o)) && (t.lastLoad ==> JustLoaded(t, o))
  {
  }

  lemma CastOperand(s: State, ty: Ty, o: Operand)
    requires Fits(s, o) && (s.lastLoad ==> JustLoaded(s, o))
    ensures var (t, o') := LowerCast(s, ty, o);
            Fits(t, o') && o'.Reg? && (ty == Bool ==> BoolRegister(t, o')) && (t.lastLoad ==> JustLoaded(t, o'))
  {
  }

  lemma StoredOperand(s: State, o: Operand, op: Op)
    requires Fits(s, o) && op.Store?
    ensures var t := AppendOp(s, op);
            Fits(t, o) && (BoolRegister(s, o) ==> BoolRegister(t, o)) && !t.lastLoad
  {
  }

  lemma BranchedOperand(s: State, target: nat)
    ensures !AppendOp(s, Branch(target)).lastLoad && !LeaveTo(s, target).lastLoad
  {
  }

  /** What comes back is an immediate of at most 28 bits, a register in use or a wide literal; a
      bool expression comes back in a bool register; and a cast that takes over the register of the
      last operation takes over the one a load has just defined. */
  lemma {:induction false} LowerOperand(s: State, ctx: seq<Target>, e: Expr)
    ensures GoodOperand(s, Lower(s, ctx, e).0, Lower(s, ctx, e).1, e)
    decreases e
  {
    hide LowerStmt, LowerAll, OpenIf, OpenLoop, OpenDo, BranchIf, BranchLoop, LoadImmediate, AppendDst, AppendOp, LeaveTo, LowerCast, JustLoaded;
    match e
    case Lit(_, _) =>
    case Var(x, ty) => DefinedRegister(s, ty, Load(NextReg(s), Local(x)));
    case Bin(op, ty, l, r) =>
      var (s1, a) := Lower(s, ctx, l);
      var (s2, a') := LoadImmediate(s1, ty, a);
      var (s3, b) := Lower(s2, ctx, r);
      var (s4, b') := LoadImmediate(s3, ty, b);
      DefinedRegister(s4, ty, Compute(op, ty, NextReg(s4), a', b'));
    case Cmp(cmp, l, r) =>
      var (s1, b) := Lower(s, ctx, r);
      var (s2, b') := LoadImmediate(s1, TypeOf(r), b);
      var (s3, a) := Lower(s2, ctx, l);
      var (s4, a') := LoadImmediate(s3, TypeOf(l), a);
      DefinedRegister(s4, Bool, Compare(cmp, NextReg(s4), a', b'));
    case Logic(conjunction, l, r) =>
      var (s1, a) := Lower(s, ctx, l);
      var s2 := AppendDst(s1, TypeOf(l), Test(TypeOf(l), NextReg(s1), a));
      var (s3, b) := Lower(s2, ctx, r);
      var s4 := AppendDst(s3, TypeOf(r), Test(TypeOf(r), NextReg(s3), b));
      DefinedRegister(s4, Bool, Combine(conjunction, NextReg(s4), Reg(NextReg(s1)), Reg(NextReg(s3))));
    case Neg(a) =>
      var (s1, o) := Lower(s, ctx, a);
      DefinedRegister(s1, I64, Negate(NextReg(s1), o));
    case Cast(ty, operand) =>
      LowerOperand(s.(lastLoad := false), ctx, operand);
      var (s1, a) := Lower(s.(lastLoad := false), ctx, operand);
      CastOperand(s1, ty, a);
    case Assign(x, rhs) =>
      LowerOperand(s, ctx, rhs);
      var (s1, v) := Lower(s, ctx, rhs);
      StoredOperand(s1, v, Store(Local(x), v));
    case OpAssign(op, ty, x, rhs) =>
      var (s1, b) := Lower(s, ctx, rhs);
      var (s2, a) := EmitLoad(s1, ty, Local(x));
      DefinedRegister(s2, ty, Compute(op, ty, NextReg(s2), a, b));
      StoredOperand(AppendDst(s2, ty, Compute(op, ty, NextReg(s2), a, b)), Reg(NextReg(s2)), Store(Local(x), Reg(NextReg(s2))));
    case Do(result, items) =>
      var s2 := LowerAll(OpenDo(s), [Target(FreshRef(s), Some(s.locals))] + ctx, items);
      DefinedRegister(MoveTo(s2, FreshRef(s)), result.ty, Load(NextReg(s2), Local(s.locals)));
    case If(_, body, orelse) =>
      var p := OpenIf(s, orelse.Some?);
      var s1 := BranchIf(Lower(p.state, ctx, e.cond), p);
      BranchedOperand(LowerStmt(MoveTo(s1, p.body), ctx, body), p.end);
      var s2 := AppendOp(LowerStmt(MoveTo(s1, p.body), ctx, body), Branch(p.end));
      if orelse.Some? {
        BranchedOperand(LowerStmt(MoveTo(s2, p.orelse), ctx, orelse.value), p.end);
      }
    case Loop(init, test, update, body, slot) =>
      var s0 := if init.None? then s else LowerStmt(s, ctx, init.value);
      var p := OpenLoop(s0, slot.Some?);
      var ctx' := LoopContext(s0, ctx, p, slot.Some?);
      var s1 := if test.None? then p.state else BranchLoop(Lower(p.state, ctx', test.value), p);
      var s2 := LowerStmt(MoveTo(s1, p.body), ctx', body);
      var s3 := if update.None? then s2 else Lower(s2, ctx', update.value).0;
      BranchedOperand(s3, p.test);
      if slot.Some? {
        var s4 := MoveTo(AppendOp(s3, Branch(p.test)), p.end);
        DefinedRegister(s4, slot.value.ty, Load(NextReg(s4), Local(s0.locals)));
      }
    case Break(level, carried) =>
      var target := if level < |ctx| then ctx[level] else Target(0, None);
      BranchedOperand(if carried.None? then s else LowerCarried(Lower(s, ctx, carried.value), target.slot), target.block);
  }

  // ---- locals ------------------------------------------------------------------------------

  /** Lowering numbers locals as resolution did. */
  lemma {:induction false} LowerLocals(s: State, ctx: seq<Target>, e: Expr)
    requires Resolve(e, s.locals, SlotsOf(ctx)).Some?
    ensures Lower(s, ctx, e).0.locals == Resolve(e, s.locals, SlotsOf(ctx)).value
    decreases e, 1
  {
    hide AddBlock, OpenIf, OpenLoop, BranchIf, BranchLoop, LowerStmt, CloseLoop, LowerCarried, LeaveTo;
    match e
    case Lit(_, _) =>
    case Var(_, _) =>
    case Bin(_, ty, l, r) =>
      LowerLocals(s, ctx, l);
      LowerLocals(LoadImmediate(Lower(s, ctx, l).0, ty, Lower(s, ctx, l).1).0, ctx, r);
    case Cmp(_, l, r) =>
      LowerLocals(s, ctx, r);
      LowerLocals(LoadImmediate(Lower(s, ctx, r).0, TypeOf(r), Lower(s, ctx, r).1).0, ctx, l);
    case Logic(_, l, r) =>
      LowerLocals(s, ctx, l);
      var s1 := Lower(s, ctx, l).0;
      LowerLocals(AppendDst(s1, TypeOf(l), Test(TypeOf(l), NextReg(s1), Lower(s, ctx, l).1)), ctx, r);
    case Neg(a) => LowerLocals(s, ctx, a);
    case Cast(_, a) => LowerLocals(s.(lastLoad := false), ctx, a);
    case Assign(_, rhs) => LowerLocals(s, ctx, rhs);
    case OpAssign(_, _, _, rhs) => LowerLocals(s, ctx, rhs);
    case Do(result, items) =>
      AddBlockLocals(AddLocal(s));
      AllLocals(OpenDo(s), [Target(FreshRef(s), Some(s.locals))] + ctx, items);
    case If(_, _, _) => IfLocals(s, ctx, e);
    case Loop(_, _, _, _, _) => LoopLocals(s, ctx, e);
    case Break(_, _) => BreakLocals(s, ctx, e);
  }

  lemma {:induction false} IfLocals(s: State, ctx: seq<Target>, e: Expr)
    requires e.If? && Resolve(e, s.locals, SlotsOf(ctx)).Some?
    ensures Lower(s, ctx, e).0.locals == Resolve(e, s.locals, SlotsOf(ctx)).value
    decreases e, 0
  {
    hide AddBlock, OpenIf;
    var p := OpenIf(s, e.orelse.Some?);
    OpenIfLocals(s, e.orelse.Some?);
    LowerLocals(p.state, ctx, e.cond);
    var s1 := BranchIf(Lower(p.state, ctx, e.cond), p);
    StmtLocals(MoveTo(s1, p.body), ctx, e.body);
    if e.orelse.Some? {
      StmtLocals(MoveTo(AppendOp(LowerStmt(MoveTo(s1, p.body), ctx, e.body), Branch(p.end)), p.orelse), ctx, e.orelse.value);
    }
  }

  lemma {:induction false} LoopLocals(s: State, ctx: seq<Target>, e: Expr)
    requires e.Loop? && Resolve(e, s.locals, SlotsOf(ctx)).Some?
    ensures Lower(s, ctx, e).0.locals == Resolve(e, s.locals, SlotsOf(ctx)).value
    decreases e, 0
  {
    hide AddBlock, OpenLoop;
    if e.init.Some? {
      StmtLocals(s, ctx, e.init.value);
    }
    var s0 := if e.init.None? then s else LowerStmt(s, ctx, e.init.value);
    var p := OpenLoop(s0, e.slot.Some?);
    OpenLoopLocals(s0, e.slot.Some?);
    var ctx' := LoopContext(s0, ctx, p, e.slot.Some?);
    assert SlotsOf(ctx') == [SlotLocal(e.slot)] + SlotsOf(ctx);
    if e.test.Some? {
      LowerLocals(p.state, ctx', e.test.value);
    }
    var s1 := if e.test.None? then p.state else BranchLoop(Lower(p.state, ctx', e.test.value), p);
    StmtLocals(MoveTo(s1, p.body), ctx', e.body);
    if e.update.Some? {
      LowerLocals(LowerStmt(MoveTo(s1, p.body), ctx', e.body), ctx', e.update.value);
    }
  }

  lemma {:induction false} BreakLocals(s: State, ctx: seq<Target>, e: Expr)
    requires e.Break? && Resolve(e, s.locals, SlotsOf(ctx)).Some?
    ensures Lower(s, ctx, e).0.locals == Resolve(e, s.locals, SlotsOf(ctx)).value
    decreases e, 0
  {
    hide AddBlock;
    var target := ctx[e.level];
    if e.carried.Some? {
      LowerLocals(s, ctx, e.carried.value);
      AddBlockLocals(AppendOp(LowerCarried(Lower(s, ctx, e.carried.value), target.slot), Branch(target.block)));
    } else {
      AddBlockLocals(AppendOp(s, Branch(target.block)));
    }
  }

  lemma AddBlockLocals(s: State)
    ensures AddBlock(s).locals == s.locals
  {
  }

  lemma OpenIfLocals(s: State, hasElse: bool)
    ensures OpenIf(s, hasElse).state.locals == s.locals
  {
    hide AddBlock;
    AddBlockLocals(s);
    AddBlockLocals(NextBlock(s));
    AddBlockLocals(NextBlock(NextBlock(s)));
  }

  lemma OpenLoopLocals(s: State, hasSlot: bool)
    ensures OpenLoop(s, hasSlot).state.locals == if hasSlot then s.locals + 1 else s.locals
  {
    hide AddBlock;
    AddBlockLocals(s);
    AddBlockLocals(NextBlock(s));
    AddBlockLocals(NextBlock(NextBlock(s)));
    AddBlockLocals(NextBlock(NextBlock(NextBlock(s))));
  }

  lemma {:induction false} StmtLocals(s: State, ctx: seq<Target>, st: Stmt)
    requires ResolveStmt(st, s.locals, SlotsOf(ctx)).Some?
    ensures LowerStmt(s, ctx, st).locals == ResolveStmt(st, s.locals, SlotsOf(ctx)).value
    decreases st, 0
  {
    match st
    case Compound(items) => AllLocals(s, ctx, items);
    case Decl(_, initial) =>
      if initial.Some? {
        LowerLocals(AddLocal(s), ctx, initial.value);
      }
    case Eval(e) => LowerLocals(s, ctx, e);
  }

  lemma {:induction false} AllLocals(s: State, ctx: seq<Target>, items: seq<Stmt>)
    requires ResolveAll(items, s.locals, SlotsOf(ctx)).Some?
    ensures LowerAll(s, ctx, items).locals == ResolveAll(items, s.locals, SlotsOf(ctx)).value
    decreases items, 0
  {
    if items != [] {
      StmtLocals(s, ctx, items[0]);
      AllLocals(LowerStmt(s, ctx, items[0]), ctx, items[1..]);
    }
  }
}
