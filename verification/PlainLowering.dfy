/** Lowering keeps to what the back end relies on: with assignments in statement position, every
    register is read at most once, before its local is stored to again, and every comparison is
    read by the operation right after it. */
module PlainLowering {
  import opened Wrappers
  import opened Words
  import opened Syntax
  import opened Ir
  import opened Lowering
  import opened Shape
  import opened LoweringShape
  import opened Correctness
  import opened Layout
  import opened Landing
  import opened Refinement
  import opened GeneratedRuns

  // ---- the programs --------------------------------------------------------------------------------

  /** 64-bit integer expressions that assign nothing. */
  predicate Number(e: Expr) {
    match e
    case Lit(_, _) => true
    case Var(_, ty) => ty != Bool
    case Bin(op, ty, l, r) => ty != Bool && op != Div && op != Mod && Number(l) && Number(r)
    case Neg(a) => Number(a)
    case _ => false
  }

  /** A comparison of two numbers. */
  predicate Condition(e: Expr) {
    e.Cmp? && Number(e.left) && Number(e.right) && !YieldsLiteral(e.left) && !YieldsLiteral(e.right)
  }

  /** A loop may also test a number that is not a literal. */
  predicate LoopTest(e: Expr) {
    Condition(e) || (Number(e) && !e.Lit?)
  }

  /** What may stand as a statement. */
  predicate Action(e: Expr) {
    match e
    case Assign(_, rhs) => Number(rhs)
    case OpAssign(op, ty, _, rhs) => ty != Bool && op != Div && op != Mod && Number(rhs)
    case If(c, body, orelse) => Condition(c) && Plain(body) && (orelse.Some? ==> Plain(orelse.value))
    case Loop(init, test, update, body, slot) =>
      && (init.Some? ==> Plain(init.value)) && (test.Some? ==> LoopTest(test.value))
      && Plain(body) && (update.Some? ==> Action(update.value)) && slot.None?
    case Break(_, carried) => carried.None?
    case _ => false
  }

  predicate Plain(st: Stmt) {
    match st
    case Compound(items) => AllPlain(items)
    case Decl(_, initial) => initial.Some? ==> Number(initial.value)
    case Eval(e) => Action(e)
  }

  predicate AllPlain(items: seq<Stmt>) {
    items == [] || (Plain(items[0]) && AllPlain(items[1..]))
  }

  lemma {:induction false} NumberSupported(e: Expr)
    requires Number(e)
    ensures Supported(e)
    ensures YieldsLiteral(e) ==> e.Lit?
  {
    match e
    case Lit(_, _) =>
    case Var(_, _) =>
    case Bin(_, _, l, r) => NumberSupported(l); NumberSupported(r);
    case Neg(a) => NumberSupported(a);
  }

  lemma {:induction false} ActionSupported(e: Expr)
    requires Action(e)
    ensures Supported(e)
    decreases e, 1
  {
    match e
    case Assign(_, rhs) => NumberSupported(rhs);
    case OpAssign(_, _, _, rhs) => NumberSupported(rhs);
    case If(c, body, orelse) =>
      NumberSupported(c.left);
      NumberSupported(c.right);
      PlainSupported(body);
      if orelse.Some? {
        PlainSupported(orelse.value);
      }
    case Loop(init, test, update, body, _) =>
      if init.Some? {
        PlainSupported(init.value);
      }
      if test.Some? {
        if Condition(test.value) {
          NumberSupported(test.value.left);
          NumberSupported(test.value.right);
        } else {
          NumberSupported(test.value);
        }
      }
      PlainSupported(body);
      if update.Some? {
        ActionSupported(update.value);
      }
    case Break(_, _) =>
  }

  lemma {:induction false} PlainSupported(st: Stmt)
    requires Plain(st)
    ensures SupportedStmt(st)
    decreases st, 0
  {
    match st
    case Compound(items) => AllPlainSupported(items);
    case Decl(_, initial) =>
      if initial.Some? {
        NumberSupported(initial.value);
      }
    case Eval(e) => ActionSupported(e);
  }

  lemma {:induction false} AllPlainSupported(items: seq<Stmt>)
    requires AllPlain(items)
    ensures AllSupported(items)
    decreases items, 0
  {
    if items != [] {
      PlainSupported(items[0]);
      AllPlainSupported(items[1..]);
    }
  }

  // ---- checking as blocks grow ---------------------------------------------------------------------

  lemma CheckAppend(ops: seq<Op>, op: Op, locals: nat, registers: nat)
    requires CheckOps(ops, locals, registers).Some?
    ensures CheckOps(ops + [op], locals, registers) == CheckOp(CheckOps(ops, locals, registers).value, op, locals, registers)
  {
    hide CheckOp;
    assert (ops + [op])[..|ops|] == ops;
  }

  lemma CheckOpWider(env: Pending, op: Op, locals: nat, registers: nat, locals': nat, registers': nat)
    requires CheckOp(env, op, locals, registers).Some? && locals <= locals' && registers <= registers'
    ensures CheckOp(env, op, locals', registers') == CheckOp(env, op, locals, registers)
  {
  }

  lemma {:induction false} CheckWider(ops: seq<Op>, locals: nat, registers: nat, locals': nat, registers': nat)
    requires CheckOps(ops, locals, registers).Some? && locals <= locals' && registers <= registers'
    ensures CheckOps(ops, locals', registers') == CheckOps(ops, locals, registers)
    decreases |ops|
  {
    hide CheckOp;
    if ops != [] {
      var init := ops[..|ops| - 1];
      CheckWider(init, locals, registers, locals', registers');
      CheckOpWider(CheckOps(init, locals, registers).value, ops[|ops| - 1], locals, registers, locals', registers');
    }
  }

  /** The current block is checked so far, with `env` pending and no comparison among it. */
  ghost predicate Pend(s: State, env: Pending) {
    && Ready(s)
    && CheckOps(s.blocks[s.current].ops, s.locals, |s.regs|) == Some(env)
    && NoComparison(env)
    && forall r :: r in env ==> r < |s.regs|
  }

  /** `t` is `s` with more operations in the current block. */
  predicate SameBlock(s: State, t: State) {
    t.current == s.current && t.blocks.Keys == s.blocks.Keys && t.locals == s.locals && |s.regs| <= |t.regs|
  }

  /** All registers of `env` are below `n`. */
  predicate Below(env: Pending, n: nat) {
    forall r :: r in env ==> r < n
  }

  /** The operand is a constant, or a register that joined the pending ones. */
  predicate Produced(env: Pending, later: Pending, base: nat, o: Operand) {
    match o
    case Imm(n) => later == env && n <= MAX_IMMEDIATE
    case Literal(_) => later == env
    case Reg(r) => base <= r && r in later && later == env[r := later[r]]
    case Local(_) => false
  }

  /** An operation that consumes down to `rest` and defines the next register. */
  lemma DstChecked(s: State, env: Pending, ty: Ty, op: Op, rest: Pending, kind: Kind)
    requires Pend(s, env) && NoComparison(rest) && Below(rest, |s.regs|) && !kind.Comparison?
    requires CheckOp(env, op, s.locals, |s.regs| + 1) == Some(rest[NextReg(s) := kind])
    ensures var t := AppendDst(s, ty, op);
            SameBlock(s, t) && Pend(t, rest[NextReg(s) := kind]) && |t.regs| == |s.regs| + 1
  {
    hide CheckOp, CheckOps;
    AppendDstShape(s, ty, op);
    var ops := s.blocks[s.current].ops;
    CheckWider(ops, s.locals, |s.regs|, s.locals, |s.regs| + 1);
    CheckAppend(ops, op, s.locals, |s.regs| + 1);
  }

  /** An operation that only consumes. */
  lemma OpChecked(s: State, env: Pending, op: Op, rest: Pending)
    requires Pend(s, env) && NoComparison(rest) && Below(rest, |s.regs|)
    requires CheckOp(env, op, s.locals, |s.regs|) == Some(rest)
    ensures var t := AppendOp(s, op);
            SameBlock(s, t) && Pend(t, rest)
  {
    hide CheckOp, CheckOps;
    AppendShape(s, op);
    CheckAppend(s.blocks[s.current].ops, op, s.locals, |s.regs|);
  }

  lemma LoadChecked(s: State, env: Pending, ty: Ty, src: Operand) returns (later: Pending)
    requires Pend(s, env) && (src.Local? ==> src.payload < s.locals) && !src.Reg?
    ensures var (t, o) := EmitLoad(s, ty, src);
            && SameBlock(s, t) && Pend(t, later) && Produced(env, later, |s.regs|, o) && o.Reg? && |t.regs| == |s.regs| + 1
            && later == env[NextReg(s) := if src.Local? then AliasOf(src.payload) else Temporary]
  {
    var kind := if src.Local? then AliasOf(src.payload) else Temporary;
    later := env[NextReg(s) := kind];
    DstChecked(s, env, ty, Load(NextReg(s), src), env, kind);
  }

  lemma ImmediateChecked(s: State, env: Pending, n: nat, later: Pending, ty: Ty, o: Operand) returns (last: Pending)
    requires Pend(s, later) && Produced(env, later, n, o) && n <= |s.regs| && Below(env, n)
    ensures var (t, o') := LoadImmediate(s, ty, o);
            && SameBlock(s, t) && Pend(t, last) && Produced(env, last, n, o') && !o'.Imm? && (o'.Literal? <==> o.Literal?)
  {
    last := later;
    if o.Imm? {
      last := LoadChecked(s, later, ty, o);
    }
  }

  /** Two operands produced one after the other are both still there to be consumed. */
  lemma PairConsumed(env: Pending, n0: nat, mid: Pending, a: Operand, n1: nat, last: Pending, b: Operand)
    requires Below(env, n0) && Produced(env, mid, n0, a) && Below(mid, n1) && Produced(mid, last, n1, b) && n0 <= n1
    requires NoComparison(last)
    ensures ConsumePair(last, a, b) == Some(env)
  {
    if a.Reg? {
      var left := last - {a.payload};
      assert Consume(last, a) == Some(left);
      if b.Reg? {
        assert left - {b.payload} == env;
      } else {
        assert left == env;
      }
    } else if b.Reg? {
      assert last - {b.payload} == env;
    }
  }

  lemma OneConsumed(env: Pending, n: nat, later: Pending, o: Operand)
    requires Below(env, n) && Produced(env, later, n, o) && NoComparison(later)
    ensures Consume(later, o) == Some(env)
  {
    if o.Reg? {
      assert later - {o.payload} == env;
    }
  }

  lemma {:induction false} NumberResolves(e: Expr, n: nat, slots: Slots)
    requires Number(e) && Resolve(e, n, slots).Some?
    ensures Resolve(e, n, slots) == Some(n)
  {
    match e
    case Lit(_, _) =>
    case Var(_, _) =>
    case Bin(_, _, l, r) => NumberResolves(l, n, slots); NumberResolves(r, n, slots);
    case Neg(a) => NumberResolves(a, n, slots);
  }

  lemma PendFacts(s: State, env: Pending)
    requires Pend(s, env)
    ensures Ready(s) && NoComparison(env) && Below(env, |s.regs|)
  {
  }

  /** Evaluating a number leaves one more pending register and everything else as it was. */
  lemma {:induction false} NumberChecked(s: State, env: Pending, ctx: seq<Target>, e: Expr, slots: Slots) returns (later: Pending)
    requires Pend(s, env) && Number(e) && Resolve(e, s.locals, slots).Some?
    ensures var (t, o) := Lower(s, ctx, e);
            && SameBlock(s, t) && Pend(t, later) && Produced(env, later, |s.regs|, o)
            && (o.Imm? || o.Literal? ==> e.Lit?) && (o.Literal? ==> YieldsLiteral(e))
    decreases e, 1
  {
    hide Pend, AppendDst, AppendOp, CheckOp;
    PendFacts(s, env);
    match e
    case Lit(w, _) =>
      later := env;
      LiteralChecked(s, env, w);
    case Var(x, ty) =>
      later := LoadChecked(s, env, ty, Local(x));
    case Bin(op, ty, l, r) =>
      var last := PairChecked(s, env, ctx, e, l, r, ty, ty, slots);
      var Pair(s4, a, b) := LowerPair(s, ctx, l, r, ty, ty);
      PendFacts(s4, last);
      later := env[NextReg(s4) := Temporary];
      ComputeOp(last, env, op, ty, NextReg(s4), a, b, s4.locals);
      DstChecked(s4, last, ty, Compute(op, ty, NextReg(s4), a, b), env, Temporary);
    case Neg(operand) =>
      var mid := NumberChecked(s, env, ctx, operand, slots);
      var (s1, a) := Lower(s, ctx, operand);
      PendFacts(s1, mid);
      OneConsumed(env, |s.regs|, mid, a);
      later := env[NextReg(s1) := Temporary];
      NegateOp(mid, env, NextReg(s1), a, s1.locals);
      DstChecked(s1, mid, I64, Negate(NextReg(s1), a), env, Temporary);
  }

  lemma ComputeOp(last: Pending, env: Pending, op: ArithOp, ty: Ty, dst: nat, a: Operand, b: Operand, locals: nat)
    requires ConsumePair(last, a, b) == Some(env) && NoComparison(env) && dst !in last && op != Div && op != Mod
    ensures CheckOp(last, Compute(op, ty, dst, a, b), locals, dst + 1) == Some(env[dst := Temporary])
  {
  }

  lemma NegateOp(last: Pending, env: Pending, dst: nat, a: Operand, locals: nat)
    requires Consume(last, a) == Some(env) && NoComparison(env) && dst !in last
    ensures CheckOp(last, Negate(dst, a), locals, dst + 1) == Some(env[dst := Temporary])
  {
  }

  lemma CompareOpChecked(last: Pending, env: Pending, cmp: CompareOp, dst: nat, a: Operand, b: Operand, locals: nat)
    requires ConsumePair(last, a, b) == Some(env) && NoComparison(env) && dst !in last && a.Reg? && b.Reg?
    ensures CheckOp(last, Compare(cmp, dst, a, b), locals, dst + 1) == Some(env[dst := Comparison(cmp)])
  {
  }

  lemma LiteralChecked(s: State, env: Pending, w: Word)
    requires Pend(s, env)
    ensures var (t, o) := LowerLiteral(s, w);
            SameBlock(s, t) && Pend(t, env) && Produced(env, env, |s.regs|, o)
  {
  }

  /** A register, or a literal that lowering left in the literal table. */
  predicate Readable(o: Operand, e: Expr) {
    o.Reg? || (o.Literal? && YieldsLiteral(e))
  }

  lemma PairChecked(s: State, env: Pending, ctx: seq<Target>, e: Expr, first: Expr, second: Expr, t1: Ty, t2: Ty, slots: Slots)
    returns (last: Pending)
    requires Pend(s, env) && first < e && second < e && Number(first) && Number(second)
    requires Resolve(first, s.locals, slots).Some? && Resolve(second, Resolve(first, s.locals, slots).value, slots).Some?
    ensures SameBlock(s, LowerPair(s, ctx, first, second, t1, t2).state) && Pend(LowerPair(s, ctx, first, second, t1, t2).state, last)
    ensures ConsumePair(last, LowerPair(s, ctx, first, second, t1, t2).first, LowerPair(s, ctx, first, second, t1, t2).second) == Some(env)
    ensures Readable(LowerPair(s, ctx, first, second, t1, t2).first, first)
    ensures Readable(LowerPair(s, ctx, first, second, t1, t2).second, second)
    decreases e, 0
  {
    hide Pend, AppendDst, LoadImmediate, Lower, CheckOp, Consume;
    PendFacts(s, env);
    var mid0 := NumberChecked(s, env, ctx, first, slots);
    var (s1, a0) := Lower(s, ctx, first);
    var mid := ImmediateChecked(s1, env, |s.regs|, mid0, t1, a0);
    var (s2, a) := LoadImmediate(s1, t1, a0);
    PendFacts(s2, mid);
    NumberResolves(first, s.locals, slots);
    var last0 := NumberChecked(s2, mid, ctx, second, slots);
    var (s3, b0) := Lower(s2, ctx, second);
    last := ImmediateChecked(s3, mid, |s2.regs|, last0, t2, b0);
    var (s4, b) := LoadImmediate(s3, t2, b0);
    PendFacts(s4, last);
    PairConsumed(env, |s.regs|, mid, a, |s2.regs|, last, b);
  }

  // ---- conditions ----------------------------------------------------------------------------------

  lemma ConsumeEitherOrder(env: Pending, a: Operand, b: Operand)
    requires ConsumePair(env, a, b).Some? && a.Reg? && b.Reg?
    ensures ConsumePair(env, b, a) == ConsumePair(env, a, b)
  {
    assert env - {a.payload} - {b.payload} == env - {b.payload} - {a.payload};
  }

  /** A comparison is the last operation and waits in the flags. */
  ghost predicate Tests(s: State, t: State, o: Operand) {
    && SameBlock(s, t) && Ready(t) && o.Reg? && o.payload < |t.regs|
    && exists kind: Kind :: CheckOps(t.blocks[t.current].ops, t.locals, |t.regs|) == Some(map[o.payload := kind])
  }

  lemma ConditionChecked(s: State, ctx: seq<Target>, e: Expr, slots: Slots)
    requires Pend(s, map[]) && Condition(e) && Resolve(e, s.locals, slots).Some?
    ensures var (t, o) := Lower(s, ctx, e); Tests(s, t, o) && BoolRegister(t, o)
  {
    hide Pend, AppendDst, CheckOp, CheckOps, ConsumePair;
    var last := PairChecked(s, map[], ctx, e, e.right, e.left, TypeOf(e.right), TypeOf(e.left), slots);
    var Pair(s4, b, a) := LowerPair(s, ctx, e.right, e.left, TypeOf(e.right), TypeOf(e.left));
    PendFacts(s4, last);
    ConsumeEitherOrder(last, b, a);
    CompareOpChecked(last, map[], e.cmp, NextReg(s4), a, b, s4.locals);
    ComparisonAppended(s4, last, e.cmp, a, b);
    assert (map[])[NextReg(s4) := Comparison(e.cmp)] == map[NextReg(s4) := Comparison(e.cmp)];
  }

  lemma ComparisonAppended(s: State, env: Pending, cmp: CompareOp, a: Operand, b: Operand)
    requires Pend(s, env) && CheckOp(env, Compare(cmp, NextReg(s), a, b), s.locals, |s.regs| + 1).Some?
    ensures var t := AppendDst(s, Bool, Compare(cmp, NextReg(s), a, b));
            && SameBlock(s, t) && Ready(t) && BoolRegister(t, Reg(NextReg(s))) && |t.regs| == |s.regs| + 1
            && CheckOps(t.blocks[t.current].ops, t.locals, |t.regs|)
               == CheckOp(env, Compare(cmp, NextReg(s), a, b), s.locals, |s.regs| + 1)
  {
    hide CheckOp, CheckOps;
    var op := Compare(cmp, NextReg(s), a, b);
    AppendDstShape(s, Bool, op);
    var ops := s.blocks[s.current].ops;
    CheckWider(ops, s.locals, |s.regs|, s.locals, |s.regs| + 1);
    CheckAppend(ops, op, s.locals, |s.regs| + 1);
  }

  /** The two-way branch reads the comparison right away. */
  lemma BranchChecked(s: State, t: State, o: Operand, body: nat, other: nat)
    requires Tests(s, t, o)
    ensures var u := AppendOp(t, BranchCond(o, body, other)); SameBlock(s, u) && Pend(u, map[])
  {
    hide CheckOps;
    var kind: Kind :| CheckOps(t.blocks[t.current].ops, t.locals, |t.regs|) == Some(map[o.payload := kind]);
    AppendShape(t, BranchCond(o, body, other));
    CheckAppend(t.blocks[t.current].ops, BranchCond(o, body, other), t.locals, |t.regs|);
    assert (map[o.payload := kind]) - {o.payload} == map[];
  }

  lemma LoopTestChecked(s: State, ctx: seq<Target>, e: Expr, slots: Slots)
    requires Pend(s, map[]) && LoopTest(e) && Resolve(e, s.locals, slots).Some?
    ensures var (t, o) := Lower(s, ctx, e); Tests(s, t, o)
  {
    hide Lower, CheckOps;
    if Condition(e) {
      ConditionChecked(s, ctx, e, slots);
    } else {
      var later := NumberChecked(s, map[], ctx, e, slots);
      var (t, o) := Lower(s, ctx, e);
      assert later == map[o.payload := later[o.payload]];
    }
  }

  // ---- statements ----------------------------------------------------------------------------------

  /** Every block outside `base` is checked. */
  ghost predicate Neat(base: set<nat>, s: State) {
    && s.current !in base
    && forall x :: x in s.blocks && x !in base ==> CheckOps(s.blocks[x].ops, s.locals, |s.regs|).Some?
  }

  /** Between statements nothing is pending. */
  ghost predicate Settled(base: set<nat>, s: State) {
    Neat(base, s) && Pend(s, map[])
  }

  lemma NeatStays(base: set<nat>, s: State, t: State, env: Pending)
    requires Ready(s) && Neat(base, s) && SameBlock(s, t) && Extends(s, t)
    requires CheckOps(t.blocks[t.current].ops, t.locals, |t.regs|) == Some(env)
    ensures Neat(base, t)
  {
    hide CheckOps;
    forall x | x in t.blocks && x !in base
      ensures CheckOps(t.blocks[x].ops, t.locals, |t.regs|).Some?
    {
      if x != s.current {
        assert Untouched(s, t, x);
        CheckWider(s.blocks[x].ops, s.locals, |s.regs|, t.locals, |t.regs|);
      }
    }
  }

  lemma MoveSettled(base: set<nat>, s: State, b: nat)
    requires Settled(base, s) && b in s.blocks && b !in base && s.blocks[b].ops == []
    ensures Settled(base, MoveTo(s, b))
  {
  }

  lemma LocalSettled(base: set<nat>, s: State)
    requires Settled(base, s)
    ensures Settled(base, AddLocal(s))
  {
    hide CheckOps;
    forall x | x in s.blocks && (x !in base || x == s.current)
      ensures CheckOps(s.blocks[x].ops, s.locals + 1, |s.regs|) == CheckOps(s.blocks[x].ops, s.locals, |s.regs|)
    {
      CheckWider(s.blocks[x].ops, s.locals, |s.regs|, s.locals + 1, |s.regs|);
    }
  }

  lemma OpSettled(base: set<nat>, s: State, env: Pending, op: Op)
    requires Neat(base, s) && Pend(s, env) && CheckOp(env, op, s.locals, |s.regs|) == Some(map[])
    ensures Settled(base, AppendOp(s, op))
  {
    hide CheckOps, CheckOp, AppendOp;
    OpChecked(s, env, op, map[]);
    AppendShape(s, op);
    NeatStays(base, s, AppendOp(s, op), map[]);
  }

  /** Opening new, empty blocks. */
  lemma OpenSettled(base: set<nat>, s: State, t: State)
    requires Settled(base, s) && Ready(t) && s.blocks.Keys <= t.blocks.Keys && t.current !in base
    requires t.locals == s.locals && t.regs == s.regs
    requires t.current == s.current || t.current !in s.blocks
    requires forall x :: x in t.blocks ==> if x in s.blocks then t.blocks[x].ops == s.blocks[x].ops else t.blocks[x].ops == []
    ensures Settled(base, t)
  {
  }

  /** A number evaluated in statement position, and what is left to do with it. */
  lemma NumberNeat(base: set<nat>, s: State, ctx: seq<Target>, e: Expr, slots: Slots) returns (env: Pending)
    requires Settled(base, s) && Number(e) && Resolve(e, s.locals, slots).Some?
    ensures var (t, o) := Lower(s, ctx, e);
            Neat(base, t) && SameBlock(s, t) && Pend(t, env) && Produced(map[], env, |s.regs|, o)
  {
    hide Lower, CheckOps;
    env := NumberChecked(s, map[], ctx, e, slots);
    LowerExtends(s, ctx, e);
    NeatStays(base, s, Lower(s, ctx, e).0, env);
  }

  lemma StoreSettled(base: set<nat>, s: State, n: nat, env: Pending, x: nat, o: Operand)
    requires Neat(base, s) && Pend(s, env) && Produced(map[], env, n, o) && x < s.locals
    ensures Settled(base, AppendOp(s, Store(Local(x), o)))
  {
    hide CheckOps, AppendOp;
    OneConsumed(map[], 0, env, o);
    OpSettled(base, s, env, Store(Local(x), o));
  }

  lemma OpAssignSettled(base: set<nat>, s: State, ctx: seq<Target>, e: Expr, slots: Slots)
    requires e.OpAssign? && Action(e) && Settled(base, s) && Resolve(e, s.locals, slots).Some?
    ensures Settled(base, Lower(s, ctx, e).0)
  {
    hide Settled, Neat, CheckOps, CheckOp, AppendOp, AppendDst, Pend;
    assert Pend(s, map[]) by { SettledFacts(base, s); }
    var env := NumberNeat(base, s, ctx, e.rhs, slots);
    var (s1, b) := Lower(s, ctx, e.rhs);
    var mid := LoadChecked(s1, env, e.ty, Local(e.x));
    var (s2, a) := EmitLoad(s1, e.ty, Local(e.x));
    PendFacts(s1, env);
    PendFacts(s2, mid);
    PairConsumed(map[], |s.regs|, env, b, |s1.regs|, mid, a);
    OtherOrder(mid, b, a);
    var dst := NextReg(s2);
    var last := map[dst := Temporary];
    assert (map[])[dst := Temporary] == last;
    ComputeOp(mid, map[], e.op, e.ty, dst, a, b, s2.locals);
    DstChecked(s2, mid, e.ty, Compute(e.op, e.ty, dst, a, b), map[], Temporary);
    var s3 := AppendDst(s2, e.ty, Compute(e.op, e.ty, dst, a, b));
    StaysNeat(base, s1, s2, mid, e.ty, Load(NextReg(s1), Local(e.x)));
    StaysNeat(base, s2, s3, last, e.ty, Compute(e.op, e.ty, dst, a, b));
    StoreSettled(base, s3, 0, last, e.x, Reg(dst));
  }

  lemma SettledFacts(base: set<nat>, s: State)
    requires Settled(base, s)
    ensures Pend(s, map[]) && Neat(base, s) && Ready(s)
  {
  }

  lemma OtherOrder(env: Pending, a: Operand, b: Operand)
    requires ConsumePair(env, a, b).Some?
    ensures ConsumePair(env, b, a) == ConsumePair(env, a, b)
  {
    if a.Reg? && b.Reg? {
      ConsumeEitherOrder(env, a, b);
    }
  }

  lemma StaysNeat(base: set<nat>, s: State, t: State, env: Pending, ty: Ty, op: Op)
    requires Ready(s) && Neat(base, s) && t == AppendDst(s, ty, op) && Pend(t, env)
    ensures Neat(base, t)
  {
    hide CheckOps;
    AppendDstShape(s, ty, op);
    NeatStays(base, s, t, env);
  }

  lemma {:induction false} ActionSettled(base: set<nat>, s: State, ctx: seq<Target>, e: Expr)
    requires Settled(base, s) && Action(e) && base <= s.blocks.Keys && Resolve(e, s.locals, SlotsOf(ctx)).Some?
    ensures Settled(base, Lower(s, ctx, e).0) && s.blocks.Keys <= Lower(s, ctx, e).0.blocks.Keys
    decreases e, 2
  {
    hide Settled, Neat, Pend, AppendOp, AppendDst, LeaveTo, LowerStmt, Extends;
    SettledFacts(base, s);
    LowerExtends(s, ctx, e);
    Kept(s, Lower(s, ctx, e).0);
    match e
    case Assign(x, rhs) =>
      var env := NumberNeat(base, s, ctx, rhs, SlotsOf(ctx));
      var (s1, o) := Lower(s, ctx, rhs);
      StoreSettled(base, s1, |s.regs|, env, x, o);
    case OpAssign(_, _, _, _) => OpAssignSettled(base, s, ctx, e, SlotsOf(ctx));
    case If(_, _, _) => IfSettled(base, s, ctx, e);
    case Loop(_, _, _, _, _) => LoopSettled(base, s, ctx, e);
    case Break(level, _) => LeaveSettled(base, s, ctx[level].block);
  }

  lemma Kept(s: State, t: State)
    requires Extends(s, t)
    ensures s.blocks.Keys <= t.blocks.Keys
  {
  }

  lemma LeaveSettled(base: set<nat>, s: State, target: nat)
    requires Settled(base, s) && base <= s.blocks.Keys
    ensures Settled(base, LeaveTo(s, target))
  {
    hide CheckOps;
    OpSettled(base, s, map[], Branch(target));
    var s1 := AppendOp(s, Branch(target));
    var t := NextBlockShape(s1);
    forall x | x in t.blocks
      ensures if x in s1.blocks then t.blocks[x].ops == s1.blocks[x].ops else t.blocks[x].ops == []
    {
      assert x in s1.blocks && x != s1.current ==> Untouched(s1, MoveTo(t, s1.current), x);
    }
    OpenSettled(base, s1, t);
  }

  lemma ArmSettled(base: set<nat>, s: State, ctx: seq<Target>, st: Stmt, end: nat, e: Expr)
    requires Settled(base, s) && Plain(st) && base <= s.blocks.Keys && st < e
    requires ResolveStmt(st, s.locals, SlotsOf(ctx)).Some?
    ensures Settled(base, AppendOp(LowerStmt(s, ctx, st), Branch(end)))
    decreases e, 0
  {
    hide Settled, AppendOp, LowerStmt, CheckOps, Pend, Neat;
    StmtSettled(base, s, ctx, st);
    SettledFacts(base, LowerStmt(s, ctx, st));
    OpSettled(base, LowerStmt(s, ctx, st), map[], Branch(end));
  }

  lemma IfSettled(base: set<nat>, s: State, ctx: seq<Target>, e: Expr)
    requires Settled(base, s) && e.If? && Action(e) && base <= s.blocks.Keys && Resolve(e, s.locals, SlotsOf(ctx)).Some?
    ensures Settled(base, Lower(s, ctx, e).0)
    decreases e, 1
  {
    hide Settled, Neat, Pend, AppendOp, AppendDst, LowerStmt, Extends, Ready, OpenIf, IfOpened, BranchIf, CheckOps;
    SettledFacts(base, s);
    var hasElse := e.orelse.Some?;
    var p := OpenIf(s, hasElse);
    OpenIfShape(s, hasElse);
    IfOpenSettled(base, s, p, hasElse);
    OpenIfLocals(s, hasElse);
    SettledFacts(base, p.state);
    var low := Lower(p.state, ctx, e.cond);
    var s1 := BranchIf(low, p);
    LowerExtends(p.state, ctx, e.cond);
    BranchIfExtends(p.state, low, p);
    BranchIfSettled(base, p, ctx, e.cond, SlotsOf(ctx));
    LowerLocals(p.state, ctx, e.cond);
    IfArmEmpty(base, s, p, hasElse, s1);
    MoveSettled(base, s1, p.body);
    var b1 := MoveTo(s1, p.body);
    SettledFacts(base, b1);
    ArmSettled(base, b1, ctx, e.body, p.end, e);
    ArmExtends(b1, ctx, e.body, p.end, e);
    var s2 := AppendOp(LowerStmt(b1, ctx, e.body), Branch(p.end));
    ArmLocals(b1, ctx, e.body, p.end);
    if hasElse {
      IfElseEmpty(base, s, p, s1, s2);
      MoveSettled(base, s2, p.orelse);
      var b2 := MoveTo(s2, p.orelse);
      SettledFacts(base, b2);
      ArmSettled(base, b2, ctx, e.orelse.value, p.end, e);
      ArmExtends(b2, ctx, e.orelse.value, p.end, e);
      var s3 := AppendOp(LowerStmt(b2, ctx, e.orelse.value), Branch(p.end));
      IfEndEmpty(base, s, p, true, s1, s2, s3);
      MoveSettled(base, s3, p.end);
    } else {
      IfEndEmpty(base, s, p, false, s1, s2, s2);
      MoveSettled(base, s2, p.end);
    }
  }

  lemma ArmLocals(s: State, ctx: seq<Target>, st: Stmt, end: nat)
    requires ResolveStmt(st, s.locals, SlotsOf(ctx)).Some?
    ensures AppendOp(LowerStmt(s, ctx, st), Branch(end)).locals == ResolveStmt(st, s.locals, SlotsOf(ctx)).value
  {
    hide LowerStmt;
    StmtLocals(s, ctx, st);
  }

  lemma IfOpenSettled(base: set<nat>, s: State, p: IfParts, hasElse: bool)
    requires Settled(base, s) && IfOpened(s, p, hasElse)
    ensures Settled(base, p.state) && s.blocks.Keys <= p.state.blocks.Keys
  {
    var t := p.state;
    forall x | x in t.blocks
      ensures if x in s.blocks then t.blocks[x].ops == s.blocks[x].ops else t.blocks[x].ops == []
    {
      assert x in s.blocks && x != s.current ==> Untouched(s, t, x);
    }
    OpenSettled(base, s, t);
  }

  lemma BranchIfSettled(base: set<nat>, p: IfParts, ctx: seq<Target>, c: Expr, slots: Slots)
    requires Settled(base, p.state) && Condition(c) && Resolve(c, p.state.locals, slots).Some?
    ensures var s1 := BranchIf(Lower(p.state, ctx, c), p);
            Settled(base, s1) && s1.locals == p.state.locals == Lower(p.state, ctx, c).0.locals
  {
    hide Lower, AppendOp, CheckOps, LoadImmediate, AppendDst;
    ConditionChecked(p.state, ctx, c, slots);
    var (t, o) := Lower(p.state, ctx, c);
    BranchChecked(p.state, t, o, p.body, p.orelse);
    LowerExtends(p.state, ctx, c);
    AppendAfter(p.state, t, BranchCond(o, p.body, p.orelse));
    NeatStays(base, p.state, AppendOp(t, BranchCond(o, p.body, p.orelse)), map[]);
  }

  lemma IfArmEmpty(base: set<nat>, s: State, p: IfParts, hasElse: bool, s1: State)
    requires Ready(s) && base <= s.blocks.Keys && IfOpened(s, p, hasElse) && Extends(p.state, s1)
    ensures p.body in s1.blocks && p.body !in base && s1.blocks[p.body].ops == []
    ensures base <= s1.blocks.Keys
  {
    assert Untouched(p.state, s1, p.body);
  }

  lemma IfElseEmpty(base: set<nat>, s: State, p: IfParts, s1: State, s2: State)
    requires Ready(s) && base <= s.blocks.Keys && IfOpened(s, p, true) && Extends(p.state, s1) && Extends(MoveTo(s1, p.body), s2)
    ensures p.orelse in s2.blocks && p.orelse !in base && s2.blocks[p.orelse].ops == []
    ensures base <= s2.blocks.Keys
  {
    assert Untouched(p.state, s1, p.orelse) && Untouched(MoveTo(s1, p.body), s2, p.orelse);
  }

  lemma IfEndEmpty(base: set<nat>, s: State, p: IfParts, hasElse: bool, s1: State, s2: State, s3: State)
    requires Ready(s) && base <= s.blocks.Keys && IfOpened(s, p, hasElse)
    requires Extends(p.state, s1) && Extends(MoveTo(s1, p.body), s2)
    requires if hasElse then Extends(MoveTo(s2, p.orelse), s3) else s3 == s2
    ensures p.end in s3.blocks && p.end !in base && s3.blocks[p.end].ops == []
  {
    IfEndKept(s, p, hasElse, s1, s2, s3);
    assert p.end !in s.blocks;
  }

  lemma LoopSettled(base: set<nat>, s: State, ctx: seq<Target>, e: Expr)
    requires Settled(base, s) && e.Loop? && Action(e) && base <= s.blocks.Keys && Resolve(e, s.locals, SlotsOf(ctx)).Some?
    ensures Settled(base, Lower(s, ctx, e).0)
    decreases e, 1
  {
    hide Settled, Neat, Pend, AppendOp, AppendDst, LowerStmt, Extends, Ready, OpenLoop, LoopOpened, BranchLoop, CheckOps;
    SettledFacts(base, s);
    var s0 := if e.init.None? then s else LowerStmt(s, ctx, e.init.value);
    if e.init.Some? {
      StmtSettled(base, s, ctx, e.init.value);
      StmtLocals(s, ctx, e.init.value);
    }
    SettledFacts(base, s0);
    var p := OpenLoop(s0, false);
    OpenLoopShape(s0, false);
    OpenLoopLocals(s0, false);
    LoopOpenSettled(base, s0, p);
    LoopReady(s0, p);
    var ctx' := LoopContext(s0, ctx, p, false);
    assert SlotsOf(ctx') == [None] + SlotsOf(ctx);
    ExtendsReflexive(p.state);
    var s1 := if e.test.None? then p.state else BranchLoop(Lower(p.state, ctx', e.test.value), p);
    if e.test.Some? {
      LowerExtends(p.state, ctx', e.test.value);
      BranchLoopExtends(p.state, Lower(p.state, ctx', e.test.value), p);
      BranchLoopSettled(base, p, ctx', e.test.value);
    }
    LoopBodyEmpty(base, s0, p, s1);
    MoveSettled(base, s1, p.body);
    var b := MoveTo(s1, p.body);
    SettledFacts(base, b);
    StmtSettled(base, b, ctx', e.body);
    StmtLocals(b, ctx', e.body);
    StmtExtends(b, ctx', e.body);
    var s2 := LowerStmt(b, ctx', e.body);
    var s3 := if e.update.None? then s2 else Lower(s2, ctx', e.update.value).0;
    SettledFacts(base, s2);
    if e.update.Some? {
      Kept(b, s2);
      ActionSettled(base, s2, ctx', e.update.value);
      LowerExtends(s2, ctx', e.update.value);
      ExtendsTransitive(b, s2, s3);
    }
    SettledFacts(base, s3);
    OpSettled(base, s3, map[], Branch(p.test)) by { BranchNothing(p.test, s3.locals, |s3.regs|); }
    AppendAfter(b, s3, Branch(p.test));
    var s4 := AppendOp(s3, Branch(p.test));
    LoopEndEmpty(base, s0, p, s1, s4);
    MoveSettled(base, s4, p.end);
  }

  lemma BranchNothing(target: nat, locals: nat, registers: nat)
    ensures CheckOp(map[], Branch(target), locals, registers) == Some(map[])
  {
  }

  lemma LoopOpenSettled(base: set<nat>, s: State, p: LoopParts)
    requires Settled(base, s) && base <= s.blocks.Keys && LoopOpened(s, p, s.locals)
    ensures Settled(base, p.state) && s.blocks.Keys <= p.state.blocks.Keys
  {
    LoopPartsDiffer(p);
    var t := p.state;
    forall x | x in t.blocks
      ensures if x in s.blocks then t.blocks[x].ops == s.blocks[x].ops else t.blocks[x].ops == []
    {
      assert x in s.blocks && x != s.current ==> Untouched(s, t, x);
    }
    OpenSettled(base, s, t);
  }

  lemma BranchLoopSettled(base: set<nat>, p: LoopParts, ctx: seq<Target>, c: Expr)
    requires Settled(base, p.state) && LoopTest(c) && Resolve(c, p.state.locals, SlotsOf(ctx)).Some?
    ensures var s1 := BranchLoop(Lower(p.state, ctx, c), p);
            Settled(base, s1) && s1.locals == Resolve(c, p.state.locals, SlotsOf(ctx)).value
  {
    hide Lower, AppendOp, CheckOps;
    LoopTestChecked(p.state, ctx, c, SlotsOf(ctx));
    var (t, o) := Lower(p.state, ctx, c);
    BranchChecked(p.state, t, o, p.body, p.end);
    LowerExtends(p.state, ctx, c);
    AppendAfter(p.state, t, BranchCond(o, p.body, p.end));
    NeatStays(base, p.state, AppendOp(t, BranchCond(o, p.body, p.end)), map[]);
    LowerLocals(p.state, ctx, c);
  }

  lemma LoopBodyEmpty(base: set<nat>, s: State, p: LoopParts, s1: State)
    requires Ready(s) && base <= s.blocks.Keys && LoopOpened(s, p, p.state.locals) && Extends(p.state, s1)
    ensures p.body in s1.blocks && p.body !in base && s1.blocks[p.body].ops == []
    ensures base <= s1.blocks.Keys
  {
    LoopPartsDiffer(p);
    assert Untouched(p.state, s1, p.body);
  }

  lemma LoopEndEmpty(base: set<nat>, s: State, p: LoopParts, s1: State, s4: State)
    requires Ready(s) && base <= s.blocks.Keys && LoopOpened(s, p, p.state.locals)
    requires Extends(p.state, s1) && Extends(MoveTo(s1, p.body), s4)
    ensures p.end in s4.blocks && p.end !in base && s4.blocks[p.end].ops == []
  {
    LoopTailKept(s, p, s1, s4);
    assert p.end !in s.blocks;
  }

  lemma {:induction false} StmtSettled(base: set<nat>, s: State, ctx: seq<Target>, st: Stmt)
    requires Settled(base, s) && Plain(st) && base <= s.blocks.Keys && ResolveStmt(st, s.locals, SlotsOf(ctx)).Some?
    ensures Settled(base, LowerStmt(s, ctx, st)) && s.blocks.Keys <= LowerStmt(s, ctx, st).blocks.Keys
    decreases st, 0
  {
    hide Settled, Neat, Pend, AppendOp, AppendDst, Lower, Extends, CheckOps;
    SettledFacts(base, s);
    StmtExtends(s, ctx, st);
    Kept(s, LowerStmt(s, ctx, st));
    match st
    case Compound(items) => AllSettled(base, s, ctx, items);
    case Decl(x, initial) =>
      LocalSettled(base, s);
      var s1 := AddLocal(s);
      if initial.Some? {
        var env := NumberNeat(base, s1, ctx, initial.value, SlotsOf(ctx));
        var (s2, v) := Lower(s1, ctx, initial.value);
        StoreSettled(base, s2, |s1.regs|, env, s.locals, v);
      }
    case Eval(e) => ActionSettled(base, s, ctx, e);
  }

  lemma {:induction false} AllSettled(base: set<nat>, s: State, ctx: seq<Target>, items: seq<Stmt>)
    requires Settled(base, s) && AllPlain(items) && base <= s.blocks.Keys && ResolveAll(items, s.locals, SlotsOf(ctx)).Some?
    ensures Settled(base, LowerAll(s, ctx, items))
    decreases items, 0
  {
    hide Settled, LowerStmt, Plain;
    if items != [] {
      StmtSettled(base, s, ctx, items[0]);
      StmtLocals(s, ctx, items[0]);
      AllSettled(base, LowerStmt(s, ctx, items[0]), ctx, items[1..]);
    }
  }

  // ---- functions -----------------------------------------------------------------------------------

  /** Every block of a lowered plain function passes the back end's check. */
  lemma PlainFunctionChecked(s: State, body: Stmt) returns (path: seq<nat>)
    requires AtEntry(s) && Plain(body) && ResolveStmt(body, s.locals, []).Some?
    ensures var t := LowerBody(s, body);
            Chain(t.blocks, s.current, path) && Checked(t.blocks, Members(path), t.locals, |t.regs|)
  {
    hide LowerStmt, Settled, Neat, Pend, CheckOps, Closed, OpsLand;
    var base := s.blocks.Keys - {s.current};
    EntrySettled(s, base);
    StmtSettled(base, s, [], body);
    var s1 := LowerStmt(s, [], body);
    SettledFacts(base, s1);
    OpSettled(base, s1, map[], Ret) by { RetNothing(s1.locals, |s1.regs|); }
    var t := LowerBody(s, body);
    path := FunctionLands(s, body);
    ChainContained(t.blocks, s.current, path);
    forall b | b in Members(path)
      ensures b != 0 && b in t.blocks && Closed(t.blocks[b]) && CheckOps(t.blocks[b].ops, t.locals, |t.regs|).Some?
    {
      BlockNeat(base, t, b);
    }
  }

  lemma RetNothing(locals: nat, registers: nat)
    ensures CheckOp(map[], Ret, locals, registers) == Some(map[])
  {
  }

  lemma EntrySettled(s: State, base: set<nat>)
    requires AtEntry(s) && base == s.blocks.Keys - {s.current}
    ensures Settled(base, s)
  {
    assert s.blocks[s.current].ops == [];
  }

  lemma BlockNeat(base: set<nat>, t: State, b: nat)
    requires Settled(base, t) && b in t.blocks && b !in base
    ensures b != 0 && CheckOps(t.blocks[b].ops, t.locals, |t.regs|).Some?
  {
  }
}
