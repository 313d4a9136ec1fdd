/** Branches stay home: every branch of a function goes to a block of the same function. */
module Landing {
  import opened Wrappers
  import opened Words
  import opened Syntax
  import opened Ir
  import opened Lowering
  import opened Shape
  import opened LoweringShape
  import opened Correctness
  import opened Layout

  /** `op` branches only to blocks of `home`. */
  predicate OpLands(op: Op, home: set<nat>) {
    && (op.Branch? ==> op.target in home)
    && (op.BranchCond? ==> op.thenBlock in home && op.elseBlock in home)
  }

  predicate OpsLand(ops: seq<Op>, home: set<nat>) {
    forall i :: 0 <= i < |ops| ==> OpLands(ops[i], home)
  }

  /** The blocks in use other than `base` branch only among themselves. */
  predicate Lands(base: set<nat>, s: State) {
    && base <= s.blocks.Keys && s.current !in base && Ready(s)
    && forall x :: x in s.blocks && x !in base ==> OpsLand(s.blocks[x].ops, s.blocks.Keys - base)
  }

  /** The targets a `break` may use are blocks of the function. */
  predicate TargetsHome(base: set<nat>, s: State, ctx: seq<Target>) {
    forall i :: 0 <= i < |ctx| ==> ctx[i].block in s.blocks && ctx[i].block !in base
  }

  predicate Home(base: set<nat>, s: State, b: nat) {
    b in s.blocks && b !in base
  }

  lemma TargetsStay(base: set<nat>, s: State, t: State, ctx: seq<Target>)
    requires TargetsHome(base, s, ctx) && s.blocks.Keys <= t.blocks.Keys
    ensures TargetsHome(base, t, ctx)
  {
  }

  lemma OpsStay(ops: seq<Op>, home: set<nat>, wider: set<nat>)
    requires OpsLand(ops, home) && home <= wider
    ensures OpsLand(ops, wider)
  {
  }

  lemma OpLanding(base: set<nat>, s: State, op: Op)
    requires Lands(base, s) && OpLands(op, s.blocks.Keys - base)
    ensures Lands(base, AppendOp(s, op)) && AppendOp(s, op).blocks.Keys == s.blocks.Keys
  {
    AppendShape(s, op);
    assert AppendOp(s, op).blocks.Keys == s.blocks.Keys;
  }

  lemma DstLanding(base: set<nat>, s: State, ty: Ty, op: Op)
    requires Lands(base, s) && !op.IsBranch()
    ensures Lands(base, AppendDst(s, ty, op)) && AppendDst(s, ty, op).blocks.Keys == s.blocks.Keys
  {
    OpLanding(base, s.(regs := s.regs + [ty]), op);
  }

  lemma ImmediateLanding(base: set<nat>, s: State, ty: Ty, o: Operand)
    requires Lands(base, s)
    ensures Lands(base, LoadImmediate(s, ty, o).0) && LoadImmediate(s, ty, o).0.blocks.Keys == s.blocks.Keys
  {
    DstLanding(base, s, ty, Load(NextReg(s), o));
  }

  /** Opening new, empty blocks. */
  lemma OpenLanding(base: set<nat>, s: State, t: State)
    requires Lands(base, s) && Ready(t) && s.blocks.Keys <= t.blocks.Keys && t.current !in base
    requires forall x :: x in t.blocks ==> if x in s.blocks then t.blocks[x].ops == s.blocks[x].ops else t.blocks[x].ops == []
    ensures Lands(base, t)
  {
    forall x | x in t.blocks && x !in base
      ensures OpsLand(t.blocks[x].ops, t.blocks.Keys - base)
    {
      if x in s.blocks {
        OpsStay(s.blocks[x].ops, s.blocks.Keys - base, t.blocks.Keys - base);
      }
    }
  }

  lemma MoveLanding(base: set<nat>, s: State, b: nat)
    requires Lands(base, s) && Home(base, s, b)
    ensures Lands(base, MoveTo(s, b))
  {
  }

  ghost predicate Landed(base: set<nat>, s: State, t: State) {
    Lands(base, t) && s.blocks.Keys <= t.blocks.Keys
  }

  // ---- the induction ---------------------------------------------------------------------------

  /** `n` and `slots` are those of any successful resolution: they say that each `break` has a
      target in `ctx`. */
  lemma {:induction false} LowerLands(base: set<nat>, s: State, ctx: seq<Target>, e: Expr, n: nat, slots: Slots)
    requires Lands(base, s) && TargetsHome(base, s, ctx) && |slots| == |ctx| && Resolve(e, n, slots).Some?
    ensures Landed(base, s, Lower(s, ctx, e).0)
    decreases e, 2
  {
    hide Lands, TargetsHome, AppendOp, AppendDst, LoadImmediate, LowerCast, LeaveTo, LowerStmt, LowerAll;
    match e
    case Lit(w, _) => LiteralLanding(base, s, w);
    case Var(x, ty) => DstLanding(base, s, ty, Load(NextReg(s), Local(x)));
    case Bin(op, ty, l, r) =>
      PairLands(base, s, ctx, e, l, r, ty, ty, n, slots);
      var s2 := LoadImmediate(Lower(s, ctx, l).0, ty, Lower(s, ctx, l).1).0;
      var s4 := LoadImmediate(Lower(s2, ctx, r).0, ty, Lower(s2, ctx, r).1).0;
      DstLanding(base, s4, ty, Compute(op, ty, NextReg(s4), LoadImmediate(Lower(s, ctx, l).0, ty, Lower(s, ctx, l).1).1,
                                       LoadImmediate(Lower(s2, ctx, r).0, ty, Lower(s2, ctx, r).1).1));
    case Cmp(cmp, l, r) =>
      PairLands(base, s, ctx, e, r, l, TypeOf(r), TypeOf(l), n, slots);
      var s2 := LoadImmediate(Lower(s, ctx, r).0, TypeOf(r), Lower(s, ctx, r).1).0;
      var s4 := LoadImmediate(Lower(s2, ctx, l).0, TypeOf(l), Lower(s2, ctx, l).1).0;
      DstLanding(base, s4, Bool, Compare(cmp, NextReg(s4), LoadImmediate(Lower(s2, ctx, l).0, TypeOf(l), Lower(s2, ctx, l).1).1,
                                         LoadImmediate(Lower(s, ctx, r).0, TypeOf(r), Lower(s, ctx, r).1).1));
    case Logic(conjunction, l, r) =>
      LowerLands(base, s, ctx, l, n, slots);
      var (s1, a) := Lower(s, ctx, l);
      var s2 := AppendDst(s1, TypeOf(l), Test(TypeOf(l), NextReg(s1), a));
      DstLanding(base, s1, TypeOf(l), Test(TypeOf(l), NextReg(s1), a));
      TargetsStay(base, s, s2, ctx);
      LowerLands(base, s2, ctx, r, Resolve(l, n, slots).value, slots);
      var (s3, b) := Lower(s2, ctx, r);
      DstLanding(base, s3, TypeOf(r), Test(TypeOf(r), NextReg(s3), b));
      var s4 := AppendDst(s3, TypeOf(r), Test(TypeOf(r), NextReg(s3), b));
      DstLanding(base, s4, Bool, Combine(conjunction, NextReg(s4), Reg(NextReg(s1)), Reg(NextReg(s3))));
    case Neg(a) =>
      LowerLands(base, s, ctx, a, n, slots);
      var (s1, o) := Lower(s, ctx, a);
      DstLanding(base, s1, I64, Negate(NextReg(s1), o));
    case Cast(ty, a) =>
      ForgetLanding(base, s, ctx);
      LowerLands(base, s.(lastLoad := false), ctx, a, n, slots);
      var (s1, o) := Lower(s.(lastLoad := false), ctx, a);
      CastLanding(base, s1, ty, o);
    case Assign(x, rhs) =>
      LowerLands(base, s, ctx, rhs, n, slots);
      var (s1, o) := Lower(s, ctx, rhs);
      OpLanding(base, s1, Store(Local(x), o));
    case OpAssign(op, ty, x, rhs) =>
      LowerLands(base, s, ctx, rhs, n, slots);
      var (s1, b) := Lower(s, ctx, rhs);
      DstLanding(base, s1, ty, Load(NextReg(s1), Local(x)));
      var (s2, a) := EmitLoad(s1, ty, Local(x));
      DstLanding(base, s2, ty, Compute(op, ty, NextReg(s2), a, b));
      var s3 := AppendDst(s2, ty, Compute(op, ty, NextReg(s2), a, b));
      OpLanding(base, s3, Store(Local(x), Reg(NextReg(s2))));
    case Do(_, _) => DoLands(base, s, ctx, e, n, slots);
    case If(_, _, _) => IfLands(base, s, ctx, e, n, slots);
    case Loop(_, _, _, _, _) => LoopLands(base, s, ctx, e, n, slots);
    case Break(level, carried) =>
      if carried.Some? {
        LowerLands(base, s, ctx, carried.value, n, slots);
        var low := Lower(s, ctx, carried.value);
        CarriedLanding(base, low, ctx[level].slot);
        TargetsStay(base, s, LowerCarried(low, ctx[level].slot), ctx);
        LeaveLanding(base, LowerCarried(low, ctx[level].slot), ctx, level);
      } else {
        LeaveLanding(base, s, ctx, level);
      }
  }

  lemma LiteralLanding(base: set<nat>, s: State, w: Word)
    requires Lands(base, s)
    ensures Landed(base, s, LowerLiteral(s, w).0)
  {
  }

  lemma ForgetLanding(base: set<nat>, s: State, ctx: seq<Target>)
    requires Lands(base, s) && TargetsHome(base, s, ctx)
    ensures Lands(base, s.(lastLoad := false)) && TargetsHome(base, s.(lastLoad := false), ctx)
  {
  }

  lemma CastLanding(base: set<nat>, s: State, ty: Ty, o: Operand)
    requires Lands(base, s)
    ensures Landed(base, s, LowerCast(s, ty, o).0)
  {
    hide AppendDst;
    DstLanding(base, s, ty, CastTo(NextReg(s), o));
  }

  lemma CarriedLanding(base: set<nat>, low: Lowered, slot: Option<nat>)
    requires Lands(base, low.0)
    ensures Landed(base, low.0, LowerCarried(low, slot))
  {
    hide AppendOp;
    if slot.Some? {
      OpLanding(base, low.0, Store(Local(slot.value), low.1));
    }
  }

  lemma LeaveLanding(base: set<nat>, s: State, ctx: seq<Target>, level: nat)
    requires Lands(base, s) && TargetsHome(base, s, ctx) && level < |ctx|
    ensures Landed(base, s, LeaveTo(s, ctx[level].block))
  {
    hide AppendOp, Lands, Ready;
    OpLanding(base, s, Branch(ctx[level].block)) by { TargetHome(base, s, ctx, level); }
    var s1 := AppendOp(s, Branch(ctx[level].block));
    NextLanding(base, s1);
  }

  lemma TargetHome(base: set<nat>, s: State, ctx: seq<Target>, level: nat)
    requires TargetsHome(base, s, ctx) && level < |ctx|
    ensures OpLands(Branch(ctx[level].block), s.blocks.Keys - base)
  {
  }

  lemma NextLanding(base: set<nat>, s: State)
    requires Lands(base, s)
    ensures Landed(base, s, NextBlock(s))
  {
    var t := NextBlockShape(s);
    forall x | x in t.blocks
      ensures if x in s.blocks then t.blocks[x].ops == s.blocks[x].ops else t.blocks[x].ops == []
    {
      assert x in s.blocks && x != s.current ==> Untouched(s, MoveTo(t, s.current), x);
    }
    OpenLanding(base, s, t);
  }

  lemma PairLands(base: set<nat>, s: State, ctx: seq<Target>, e: Expr, first: Expr, second: Expr, t1: Ty, t2: Ty, n: nat, slots: Slots)
    requires Lands(base, s) && TargetsHome(base, s, ctx) && |slots| == |ctx|
    requires first < e && second < e
    requires Resolve(first, n, slots).Some? && Resolve(second, Resolve(first, n, slots).value, slots).Some?
    ensures var s2 := LoadImmediate(Lower(s, ctx, first).0, t1, Lower(s, ctx, first).1).0;
            Landed(base, s, LoadImmediate(Lower(s2, ctx, second).0, t2, Lower(s2, ctx, second).1).0)
    decreases e, 0
  {
    hide Lands, TargetsHome, LoadImmediate, Lower;
    LowerLands(base, s, ctx, first, n, slots);
    var (s1, a) := Lower(s, ctx, first);
    ImmediateLanding(base, s1, t1, a);
    var s2 := LoadImmediate(s1, t1, a).0;
    TargetsStay(base, s, s2, ctx);
    LowerLands(base, s2, ctx, second, Resolve(first, n, slots).value, slots);
    var (s3, b) := Lower(s2, ctx, second);
    ImmediateLanding(base, s3, t2, b);
  }

  lemma DoLands(base: set<nat>, s: State, ctx: seq<Target>, e: Expr, n: nat, slots: Slots)
    requires e.Do? && Lands(base, s) && TargetsHome(base, s, ctx) && |slots| == |ctx| && Resolve(e, n, slots).Some?
    ensures Landed(base, s, Lower(s, ctx, e).0)
    decreases e, 1
  {
    hide Lands, TargetsHome, AppendOp, AppendDst, LowerAll, OpenDo;
    var exit := FreshRef(s);
    var s1 := OpenDo(s);
    var ctx' := [Target(exit, Some(s.locals))] + ctx;
    OpenDoLanding(base, s, ctx);
    AllLand(base, s1, ctx', e.items, n + 1, [Some(n)] + slots);
    var s2 := LowerAll(s1, ctx', e.items);
    MoveLanding(base, s2, exit);
    DstLanding(base, MoveTo(s2, exit), e.result.ty, Load(NextReg(s2), Local(s.locals)));
  }

  lemma OpenDoLanding(base: set<nat>, s: State, ctx: seq<Target>)
    requires Lands(base, s) && TargetsHome(base, s, ctx)
    ensures Landed(base, s, OpenDo(s)) && Home(base, OpenDo(s), FreshRef(s))
    ensures TargetsHome(base, OpenDo(s), [Target(FreshRef(s), Some(s.locals))] + ctx)
  {
    OpenDoShape(s);
    var t := OpenDo(s);
    forall x | x in t.blocks
      ensures if x in s.blocks then t.blocks[x].ops == s.blocks[x].ops else t.blocks[x].ops == []
    {
      assert x in s.blocks && x != s.current ==> Untouched(AddLocal(s), t, x);
    }
    OpenLanding(base, s, t);
  }

  lemma ArmLands(base: set<nat>, s: State, ctx: seq<Target>, st: Stmt, end: nat, e: Expr, n: nat, slots: Slots)
    requires Lands(base, s) && TargetsHome(base, s, ctx) && |slots| == |ctx| && ResolveStmt(st, n, slots).Some?
    requires Home(base, s, end) && st < e
    ensures Landed(base, s, AppendOp(LowerStmt(s, ctx, st), Branch(end)))
    decreases e, 0
  {
    hide Lands, TargetsHome, AppendOp, LowerStmt;
    StmtLands(base, s, ctx, st, n, slots);
    OpLanding(base, LowerStmt(s, ctx, st), Branch(end));
  }

  lemma IfLands(base: set<nat>, s: State, ctx: seq<Target>, e: Expr, n: nat, slots: Slots)
    requires e.If? && Lands(base, s) && TargetsHome(base, s, ctx) && |slots| == |ctx| && Resolve(e, n, slots).Some?
    ensures Landed(base, s, Lower(s, ctx, e).0)
    decreases e, 1
  {
    hide Lands, TargetsHome, AppendOp, LowerStmt, OpenIf, BranchIf;
    var hasElse := e.orelse.Some?;
    var p := OpenIf(s, hasElse);
    OpenIfLanding(base, s, hasElse, p);
    TargetsStay(base, s, p.state, ctx);
    LowerLands(base, p.state, ctx, e.cond, n, slots);
    var low := Lower(p.state, ctx, e.cond);
    BranchIfLanding(base, low, p);
    var s1 := BranchIf(low, p);
    var n1 := Resolve(e.cond, n, slots).value;
    MoveLanding(base, s1, p.body);
    var b1 := MoveTo(s1, p.body);
    TargetsStay(base, s, b1, ctx);
    ArmLands(base, b1, ctx, e.body, p.end, e, n1, slots);
    var s2 := AppendOp(LowerStmt(b1, ctx, e.body), Branch(p.end));
    if hasElse {
      MoveLanding(base, s2, p.orelse);
      var b2 := MoveTo(s2, p.orelse);
      TargetsStay(base, s, b2, ctx);
      ArmLands(base, b2, ctx, e.orelse.value, p.end, e, ResolveStmt(e.body, n1, slots).value, slots);
      MoveLanding(base, AppendOp(LowerStmt(b2, ctx, e.orelse.value), Branch(p.end)), p.end);
    } else {
      MoveLanding(base, s2, p.end);
    }
  }

  lemma OpenIfLanding(base: set<nat>, s: State, hasElse: bool, p: IfParts)
    requires Lands(base, s) && p == OpenIf(s, hasElse)
    ensures Landed(base, s, p.state)
    ensures Home(base, p.state, p.body) && Home(base, p.state, p.orelse) && Home(base, p.state, p.end)
  {
    hide OpenIf;
    OpenIfShape(s, hasElse);
    var t := p.state;
    forall x | x in t.blocks
      ensures if x in s.blocks then t.blocks[x].ops == s.blocks[x].ops else t.blocks[x].ops == []
    {
      assert x in s.blocks && x != s.current ==> Untouched(s, t, x);
    }
    OpenLanding(base, s, t);
  }

  lemma BranchIfLanding(base: set<nat>, low: Lowered, p: IfParts)
    requires Lands(base, low.0) && Home(base, low.0, p.body) && Home(base, low.0, p.orelse)
    ensures Landed(base, low.0, BranchIf(low, p))
  {
    hide Lands, AppendOp, AppendDst, LoadImmediate;
    ImmediateLanding(base, low.0, Bool, low.1);
    var (s1, o1) := LoadImmediate(low.0, Bool, low.1);
    DstLanding(base, s1, Bool, Compare(Neq, NextReg(s1), o1, Imm(0)));
    var (t, o) := IfOperand(low.0, low.1);
    OpLanding(base, t, BranchCond(o, p.body, p.orelse));
  }

  lemma LoopLands(base: set<nat>, s: State, ctx: seq<Target>, e: Expr, n: nat, slots: Slots)
    requires e.Loop? && Lands(base, s) && TargetsHome(base, s, ctx) && |slots| == |ctx| && Resolve(e, n, slots).Some?
    ensures Landed(base, s, Lower(s, ctx, e).0)
    decreases e, 1
  {
    hide Lands, TargetsHome, AppendOp, LowerStmt, OpenLoop, BranchLoop, CloseLoop;
    var s0 := if e.init.None? then s else LowerStmt(s, ctx, e.init.value);
    if e.init.Some? {
      StmtLands(base, s, ctx, e.init.value, n, slots);
    }
    var hasSlot := e.slot.Some?;
    var n0 := if e.init.None? then n else ResolveStmt(e.init.value, n, slots).value;
    var inner := [SlotLocal(e.slot)] + slots;
    var n1 := if hasSlot then n0 + 1 else n0;
    var p := OpenLoop(s0, hasSlot);
    OpenLoopLanding(base, s0, hasSlot, p);
    var ctx' := LoopContext(s0, ctx, p, hasSlot);
    TargetsStay(base, s, p.state, ctx);
    LoopTargets(base, s0, ctx, p, hasSlot);
    if e.test.Some? {
      LowerLands(base, p.state, ctx', e.test.value, n1, inner);
      TestLanding(base, Lower(p.state, ctx', e.test.value), p);
    }
    var s1 := if e.test.None? then p.state else BranchLoop(Lower(p.state, ctx', e.test.value), p);
    var n2 := if e.test.None? then n1 else Resolve(e.test.value, n1, inner).value;
    MoveLanding(base, s1, p.body);
    var b := MoveTo(s1, p.body);
    TargetsStay(base, p.state, b, ctx');
    StmtLands(base, b, ctx', e.body, n2, inner);
    var s2 := LowerStmt(b, ctx', e.body);
    if e.update.Some? {
      TargetsStay(base, p.state, s2, ctx');
      LowerLands(base, s2, ctx', e.update.value, ResolveStmt(e.body, n2, inner).value, inner);
    }
    var s3 := if e.update.None? then s2 else Lower(s2, ctx', e.update.value).0;
    OpLanding(base, s3, Branch(p.test));
    var s4 := AppendOp(s3, Branch(p.test));
    MoveLanding(base, s4, p.end);
    CloseLanding(base, s4, p, s0.locals, e.slot);
  }

  lemma OpenLoopLanding(base: set<nat>, s: State, hasSlot: bool, p: LoopParts)
    requires Lands(base, s) && p == OpenLoop(s, hasSlot)
    ensures Landed(base, s, p.state)
    ensures Home(base, p.state, p.test) && Home(base, p.state, p.body) && Home(base, p.state, p.exit) && Home(base, p.state, p.end)
  {
    hide OpenLoop;
    OpenLoopShape(s, hasSlot);
    var t := p.state;
    forall x | x in t.blocks
      ensures if x in s.blocks then t.blocks[x].ops == s.blocks[x].ops else t.blocks[x].ops == []
    {
      assert x in s.blocks && x != s.current ==> Untouched(s, t, x);
    }
    OpenLanding(base, s, t);
  }

  lemma LoopTargets(base: set<nat>, s: State, ctx: seq<Target>, p: LoopParts, hasSlot: bool)
    requires TargetsHome(base, p.state, ctx) && Home(base, p.state, p.exit)
    ensures TargetsHome(base, p.state, LoopContext(s, ctx, p, hasSlot))
    ensures |LoopContext(s, ctx, p, hasSlot)| == |ctx| + 1
  {
  }

  lemma TestLanding(base: set<nat>, low: Lowered, p: LoopParts)
    requires Lands(base, low.0) && Home(base, low.0, p.body) && Home(base, low.0, p.end)
    ensures Landed(base, low.0, BranchLoop(low, p))
  {
    hide Lands, AppendOp;
    OpLanding(base, low.0, BranchCond(low.1, p.body, p.end));
  }

  lemma CloseLanding(base: set<nat>, s: State, p: LoopParts, local: nat, slot: Option<Slot>)
    requires Lands(base, MoveTo(s, p.end))
    ensures Landed(base, s, CloseLoop(s, p, local, slot).0)
  {
    hide Lands, AppendDst;
    if slot.Some? {
      DstLanding(base, MoveTo(s, p.end), slot.value.ty, Load(NextReg(s), Local(local)));
    }
  }

  lemma {:induction false} StmtLands(base: set<nat>, s: State, ctx: seq<Target>, st: Stmt, n: nat, slots: Slots)
    requires Lands(base, s) && TargetsHome(base, s, ctx) && |slots| == |ctx| && ResolveStmt(st, n, slots).Some?
    ensures Landed(base, s, LowerStmt(s, ctx, st))
    decreases st, 0
  {
    hide Lands, TargetsHome, AppendOp, LowerAll, Lower;
    match st
    case Compound(items) => AllLand(base, s, ctx, items, n, slots);
    case Decl(_, initial) =>
      var s1 := AddLocal(s);
      LocalLanding(base, s, ctx);
      if initial.Some? {
        LowerLands(base, s1, ctx, initial.value, n + 1, slots);
        var (s2, v) := Lower(s1, ctx, initial.value);
        OpLanding(base, s2, Store(Local(s.locals), v));
      }
    case Eval(e) => LowerLands(base, s, ctx, e, n, slots);
  }

  lemma LocalLanding(base: set<nat>, s: State, ctx: seq<Target>)
    requires Lands(base, s) && TargetsHome(base, s, ctx)
    ensures Lands(base, AddLocal(s)) && TargetsHome(base, AddLocal(s), ctx)
  {
  }

  lemma {:induction false} AllLand(base: set<nat>, s: State, ctx: seq<Target>, items: seq<Stmt>, n: nat, slots: Slots)
    requires Lands(base, s) && TargetsHome(base, s, ctx) && |slots| == |ctx| && ResolveAll(items, n, slots).Some?
    ensures Landed(base, s, LowerAll(s, ctx, items))
    decreases items, 0
  {
    hide Lands, TargetsHome, LowerStmt;
    if items != [] {
      StmtLands(base, s, ctx, items[0], n, slots);
      var s1 := LowerStmt(s, ctx, items[0]);
      TargetsStay(base, s, s1, ctx);
      AllLand(base, s1, ctx, items[1..], ResolveStmt(items[0], n, slots).value, slots);
    }
  }

  /** In a finished function every branch goes to a block of its layout chain. */
  lemma FunctionLands(s: State, body: Stmt) returns (path: seq<nat>)
    requires AtEntry(s) && ResolveStmt(body, s.locals, []).Some?
    ensures var t := LowerBody(s, body);
            && Chain(t.blocks, s.current, path)
            && (forall x :: x in path <==> x == s.current || (x in t.blocks && x !in s.blocks))
            && (forall x :: x in path ==> Closed(t.blocks[x]) && OpsLand(t.blocks[x].ops, Members(path)))
  {
    hide Ready, LowerStmt, Closed;
    var base := s.blocks.Keys - {s.current};
    var t := LowerBody(s, body);
    path := FunctionLayout(s, body);
    StmtLands(base, s, [], body, s.locals, []);
    OpLanding(base, LowerStmt(s, [], body), Ret);
    assert s.current in t.blocks;
    assert t.blocks.Keys - base == Members(path);
  }

  /** The same for an expression evaluated at compile time. */
  lemma ExpressionLands(s: State, e: Expr) returns (path: seq<nat>)
    requires AtEntry(s) && Resolve(e, s.locals, []).Some?
    ensures var t := Lower(s, [], e).0;
            && Chain(t.blocks, s.current, path)
            && (forall x :: x in path <==> x == s.current || (x in t.blocks && x !in s.blocks))
            && (forall x :: x in path ==> Closed(t.blocks[x]) && OpsLand(t.blocks[x].ops, Members(path)))
  {
    hide Ready, Lower, Closed;
    var base := s.blocks.Keys - {s.current};
    var t := Lower(s, [], e).0;
    path := ExpressionLayout(s, e);
    LowerLands(base, s, [], e, s.locals, []);
    assert s.current in t.blocks;
    assert t.blocks.Keys - base == Members(path);
  }

  function Members(path: seq<nat>): set<nat> {
    set x | x in path
  }

  // ---- isolation -------------------------------------------------------------------------------

  /** Control never leaves `home`, except to stop. */
  predicate Contained(blocks: Blocks, home: set<nat>) {
    forall x :: x in home ==>
      x in blocks && OpsLand(blocks[x].ops, home) && (blocks[x].next == 0 || blocks[x].next in home)
  }

  predicate SameOn(a: Blocks, b: Blocks, home: set<nat>) {
    forall x :: x in home ==> x in a && x in b && a[x] == b[x]
  }

  predicate Inside(c: Config, home: set<nat>) {
    c.Running? ==> c.block in home
  }

  lemma StepInside(code: Code, home: set<nat>, c: Config)
    requires Contained(code.blocks, home) && Inside(c, home)
    ensures Inside(Step(code, c), home)
  {
    if c.Running? {
      assert c.block in code.blocks;
    }
  }

  /** A run inside a contained set of blocks does not depend on any other block. */
  lemma {:induction false} SameRun(a: Code, b: Code, home: set<nat>, c: Config, n: nat)
    requires Contained(a.blocks, home) && SameOn(a.blocks, b.blocks, home) && a.literals == b.literals
    requires Inside(c, home)
    ensures Steps(a, c, n) == Steps(b, c, n)
    decreases n
  {
    hide Contained;
    if n != 0 {
      StepInside(a, home, c);
      assert Step(a, c) == Step(b, c);
      SameRun(a, b, home, Step(a, c), n - 1);
    }
  }

  lemma ChainContained(blocks: Blocks, first: nat, path: seq<nat>)
    requires Chain(blocks, first, path) && forall x :: x in path ==> OpsLand(blocks[x].ops, Members(path))
    ensures Contained(blocks, Members(path)) && first in Members(path)
  {
    assert path[0] in path;
    forall x | x in Members(path)
      ensures x in blocks && OpsLand(blocks[x].ops, Members(path)) && (blocks[x].next == 0 || blocks[x].next in Members(path))
    {
      var i :| 0 <= i < |path| && path[i] == x;
      if i + 1 < |path| {
        assert path[i + 1] in path;
      }
    }
  }
}
