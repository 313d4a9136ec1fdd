/** Registers are used linearly: over all blocks of a function every virtual register is defined by
    exactly one operation and read by at most one (`backends/ir.c:22-41, 846-906, 1348-1355`).  When no
    comparison is an operand of arithmetic or of another comparison, whatever reads a comparison is the
    operation right behind it, so nothing comes between the flags and their use. */
module Registers {
  import opened Wrappers
  import opened Words
  import opened Syntax
  import opened Ir
  import opened Lowering
  import opened Shape
  import opened LoweringShape
  import opened Layout
  import opened Correctness

  // ---- the programs ------------------------------------------------------------------------------

  /** Assignments stand in statement position; with `prompt`, comparisons are not operands of
      arithmetic or of comparisons. */
  predicate Value(e: Expr, prompt: bool)
    decreases e, 0
  {
    match e
    case Lit(_, _) => true
    case Var(_, _) => true
    case Bin(_, _, l, r) => Value(l, prompt) && Value(r, prompt) && Number(l, prompt) && Number(r, prompt)
    case Cmp(_, l, r) => Value(l, prompt) && Value(r, prompt) && Number(l, prompt) && Number(r, prompt)
    case Logic(_, l, r) => Value(l, prompt) && Value(r, prompt)
    case Neg(a) => Value(a, prompt) && Number(a, prompt)
    case Cast(_, a) => Value(a, prompt)
    case Assign(_, _) => false
    case OpAssign(_, _, _, _) => false
    case Do(_, items) => AllTidy(items, prompt)
    case If(c, body, orelse) => Value(c, prompt) && Tidy(body, prompt) && (orelse.Some? ==> Tidy(orelse.value, prompt))
    case Loop(init, test, update, body, _) =>
      && (init.Some? ==> Tidy(init.value, prompt)) && (test.Some? ==> Value(test.value, prompt))
      && Tidy(body, prompt) && (update.Some? ==> Action(update.value, prompt))
    case Break(_, carried) => carried.Some? ==> Value(carried.value, prompt)
  }

  predicate Number(e: Expr, prompt: bool) {
    prompt ==> !e.Cmp?
  }

  predicate Action(e: Expr, prompt: bool)
    decreases e, 1
  {
    match e
    case Assign(_, rhs) => Value(rhs, prompt)
    case OpAssign(_, _, _, rhs) => Value(rhs, prompt) && Number(rhs, prompt)
    case _ => Value(e, prompt)
  }

  predicate Tidy(st: Stmt, prompt: bool)
    decreases st, 0
  {
    match st
    case Compound(items) => AllTidy(items, prompt)
    case Decl(_, initial) => initial.Some? ==> Value(initial.value, prompt)
    case Eval(e) => Action(e, prompt)
  }

  predicate AllTidy(items: seq<Stmt>, prompt: bool)
    decreases items, 0
  {
    items == [] || (Tidy(items[0], prompt) && AllTidy(items[1..], prompt))
  }

  // ---- operations and their places ---------------------------------------------------------------

  function Sources(op: Op): seq<Operand> {
    match op
    case Store(_, src) => [src]
    case Load(_, src) => [src]
    case CastTo(_, src) => [src]
    case Compute(_, _, _, a, b) => [a, b]
    case Compare(_, _, a, b) => [a, b]
    case Combine(_, _, a, b) => [a, b]
    case Test(_, _, a) => [a]
    case Negate(_, a) => [a]
    case BranchCond(cond, _, _) => [cond]
    case _ => []
  }

  predicate Reads(op: Op, r: nat) {
    Reg(r) in Sources(op)
  }

  /** The register an operation writes. */
  function Defines(op: Op): Option<nat> {
    match op
    case Store(to, _) => if to.Local? then None else Some(to.payload)
    case Load(dst, _) => Some(dst)
    case CastTo(dst, _) => Some(dst)
    case Compute(_, _, dst, _, _) => Some(dst)
    case Compare(_, dst, _, _) => Some(dst)
    case Combine(_, dst, _, _) => Some(dst)
    case Test(_, dst, _) => Some(dst)
    case Negate(dst, _) => Some(dst)
    case _ => None
  }

  /** The sources are all that an operation depends on: another register may hold anything. */
  lemma DependsOnSources(code: Code, op: Op, f: Frame, r: nat, w: Word)
    requires r < |f.regs| && !Reads(op, r) && (op.Compare? ==> op.a.Reg? && op.b.Reg?)
    ensures var g := SetReg(f, r, w); var (x, y) := (Exec(code, op, f), Exec(code, op, g));
            && x.Some? == y.Some?
            && (x.Some? ==> y.value.locals == x.value.locals
                            && (forall q :: 0 <= q < |f.regs| && q != r ==> Read(y.value.regs, q) == Read(x.value.regs, q))
                            && Read(y.value.regs, r) == if Defines(op) == Some(r) then Read(x.value.regs, r) else w)
            && (op.BranchCond? ==> Ir.Value(code, g, op.cond) == Ir.Value(code, f, op.cond))
  {
    hide Arith, Ordered, Logical, Tested, Negated;
    var g := SetReg(f, r, w);
    assert forall o :: o in Sources(op) ==> Ir.Value(code, g, o) == Ir.Value(code, f, o);
    assert forall i :: 0 <= i < |Sources(op)| ==> Sources(op)[i] in Sources(op);
  }

  /** And the register it defines is all it changes, besides a local. */
  lemma ChangesDefined(code: Code, op: Op, f: Frame, q: nat)
    requires Exec(code, op, f).Some? && Defines(op) != Some(q)
    ensures Read(Exec(code, op, f).value.regs, q) == Read(f.regs, q)
  {
    hide Arith, Ordered, Logical, Tested, Negated;
  }

  /** A place in a block. */
  datatype Spot = Spot(block: nat, index: nat)

  predicate Taken(t: State, x: Spot) {
    x.block in t.blocks && x.index < |t.blocks[x.block].ops|
  }

  function OpAt(t: State, x: Spot): Op {
    if Taken(t, x) then t.blocks[x.block].ops[x.index] else Ret
  }

  /** The operation at `x` was appended between `s` and `t`. */
  predicate New(s: State, t: State, x: Spot) {
    Taken(t, x) && !Taken(s, x)
  }

  /** No register is an operand twice. */
  predicate ReadsOnce(op: Op) {
    |Sources(op)| == 2 && Sources(op)[0].Reg? ==> Sources(op)[0] != Sources(op)[1]
  }

  // ---- the relation ------------------------------------------------------------------------------

  predicate Keeps(s: State, t: State) {
    && |s.regs| <= |t.regs|
    && forall b :: b in s.blocks ==> b in t.blocks && s.blocks[b].ops <= t.blocks[b].ops
  }

  /** The operation touches only registers from `low` up to `high`. */
  ghost predicate Inside(op: Op, low: nat, high: nat) {
    && ReadsOnce(op)
    && (forall r: nat :: Reads(op, r) ==> low <= r < high)
    && (Defines(op).Some? ==> low <= Defines(op).value < high)
  }

  ghost predicate Defined(s: State, t: State, r: nat) {
    exists x :: New(s, t, x) && Defines(OpAt(t, x)) == Some(r)
  }

  /** Every register between `s` and `t` is defined by exactly one of the operations between them, and
      read by at most one. */
  ghost predicate Linear(s: State, t: State, prompt: bool) {
    && Keeps(s, t)
    && (forall x :: New(s, t, x) ==> Inside(OpAt(t, x), |s.regs|, |t.regs|))
    && (forall r :: |s.regs| <= r < |t.regs| ==> Defined(s, t, r))
    && OneDefinition(s, t)
    && OneReader(s, t)
    && (prompt ==> Prompt(s, t))
  }

  ghost predicate OneDefinition(s: State, t: State) {
    forall x, y :: New(s, t, x) && New(s, t, y) && Defines(OpAt(t, x)).Some? && Defines(OpAt(t, x)) == Defines(OpAt(t, y)) ==> x == y
  }

  ghost predicate OneReader(s: State, t: State) {
    forall x, y, r :: New(s, t, x) && New(s, t, y) && Reads(OpAt(t, x), r) && Reads(OpAt(t, y), r) ==> x == y
  }

  /** What reads a comparison stands right behind it. */
  ghost predicate Prompt(s: State, t: State) {
    forall x, y :: New(s, t, x) && New(s, t, y) && OpAt(t, x).Compare? && Reads(OpAt(t, y), OpAt(t, x).dst)
                   ==> y == Spot(x.block, x.index + 1)
  }

  /** The register is defined between `s` and `t` and not read yet. */
  ghost predicate Unread(s: State, t: State, r: nat) {
    |s.regs| <= r < |t.regs| && forall x :: New(s, t, x) ==> !Reads(OpAt(t, x), r)
  }

  /** The register is not a comparison. */
  ghost predicate Calm(s: State, t: State, r: nat) {
    forall x :: New(s, t, x) && OpAt(t, x).Compare? ==> OpAt(t, x).dst != r
  }

  /** If the register is a comparison, it is the last operation of the current block. */
  ghost predicate Ripe(s: State, t: State, r: nat) {
    forall x :: New(s, t, x) && OpAt(t, x).Compare? && OpAt(t, x).dst == r
      ==> x.block == t.current && t.current in t.blocks && x.index + 1 == |t.blocks[t.current].ops|
  }

  /** The operand may be read at any later time. */
  ghost predicate Free(s: State, t: State, o: Operand, prompt: bool) {
    o.Reg? ==> Unread(s, t, o.payload) && (prompt ==> Calm(s, t, o.payload))
  }

  /** The operand may be read by the next operation. */
  ghost predicate Next(s: State, t: State, o: Operand, prompt: bool) {
    o.Reg? ==> Unread(s, t, o.payload) && (prompt ==> Ripe(s, t, o.payload))
  }

  lemma FreeIsNext(s: State, t: State, o: Operand, prompt: bool)
    requires Free(s, t, o, prompt)
    ensures Next(s, t, o, prompt)
  {
  }

  lemma Itself(s: State, prompt: bool)
    ensures Linear(s, s, prompt)
  {
  }

  /** New, empty blocks and new locals change nothing. */
  lemma Quiet(s: State, t: State, u: State, prompt: bool)
    requires Linear(s, t, prompt) && |u.regs| == |t.regs|
    requires forall b :: b in t.blocks ==> b in u.blocks
    requires forall b :: b in u.blocks ==> u.blocks[b].ops == if b in t.blocks then t.blocks[b].ops else []
    ensures Linear(s, u, prompt)
  {
    assert forall x :: Taken(u, x) <==> Taken(t, x);
    assert forall x :: OpAt(u, x) == OpAt(t, x);
    forall r | |s.regs| <= r < |u.regs|
      ensures Defined(s, u, r)
    {
      assert Defined(s, t, r);
      var x :| New(s, t, x) && Defines(OpAt(t, x)) == Some(r);
      assert New(s, u, x);
    }
    hide Inside, Reads, Defines, Defined;
  }

  lemma Between(s: State, m: State, t: State, x: Spot)
    requires Keeps(s, m) && Keeps(m, t)
    ensures New(s, t, x) <==> New(s, m, x) || New(m, t, x)
    ensures New(s, m, x) ==> OpAt(t, x) == OpAt(m, x)
    ensures !(New(s, m, x) && New(m, t, x))
  {
  }

  lemma DefinedInside(s: State, m: State, t: State, r: nat)
    requires Keeps(s, m) && Keeps(m, t) && (Defined(s, m, r) || Defined(m, t, r))
    ensures Defined(s, t, r)
  {
    if Defined(s, m, r) {
      var x :| New(s, m, x) && Defines(OpAt(m, x)) == Some(r);
      Between(s, m, t, x);
    } else {
      var x :| New(m, t, x) && Defines(OpAt(t, x)) == Some(r);
      Between(s, m, t, x);
    }
  }

  lemma Composed(s: State, m: State, t: State, prompt: bool)
    requires Linear(s, m, prompt) && Linear(m, t, prompt)
    ensures Linear(s, t, prompt)
  {
    hide Reads, ReadsOnce, Defined, New, OpAt;
    forall x
      ensures New(s, t, x) <==> New(s, m, x) || New(m, t, x)
      ensures New(s, m, x) ==> OpAt(t, x) == OpAt(m, x)
      ensures !(New(s, m, x) && New(m, t, x))
    {
      Between(s, m, t, x);
    }
    forall r | |s.regs| <= r < |t.regs|
      ensures Defined(s, t, r)
    {
      DefinedInside(s, m, t, r);
    }
    assert Keeps(s, t);
  }

  /** Later code does not read what was left unread. */
  lemma FreeLater(s: State, m: State, t: State, o: Operand, prompt: bool)
    requires Keeps(s, m) && Free(s, m, o, prompt) && Linear(m, t, prompt)
    ensures Free(s, t, o, prompt)
  {
    forall x
      ensures New(s, t, x) <==> New(s, m, x) || New(m, t, x)
      ensures New(s, m, x) ==> OpAt(t, x) == OpAt(m, x)
    {
      Between(s, m, t, x);
    }
    hide New, OpAt, Reads, Taken;
  }

  /** And what is free later was free from the start of a longer stretch. */
  lemma FreeFrom(s: State, m: State, t: State, o: Operand, prompt: bool)
    requires Linear(s, m, prompt) && Linear(m, t, prompt) && Free(m, t, o, prompt)
    ensures Free(s, t, o, prompt)
  {
    hide Reads, ReadsOnce, Defined, New, OpAt;
    forall x
      ensures New(s, t, x) <==> New(s, m, x) || New(m, t, x)
      ensures New(s, m, x) ==> OpAt(t, x) == OpAt(m, x)
    {
      Between(s, m, t, x);
    }
  }

  // ---- one more operation ------------------------------------------------------------------------

  /** `u` is `t` with `op` appended, and with the register it defines. */
  predicate Appends(t: State, u: State, op: Op) {
    && t.current in t.blocks && u.current == t.current && u.blocks.Keys == t.blocks.Keys
    && u.blocks[t.current].ops == t.blocks[t.current].ops + [op]
    && (forall b :: b in t.blocks && b != t.current ==> u.blocks[b] == t.blocks[b])
    && |u.regs| == |t.regs| + (if Defines(op).Some? then 1 else 0)
    && (Defines(op).Some? ==> Defines(op).value == |t.regs|)
  }

  lemma OneSpot(s: State, t: State, u: State, op: Op, x: Spot)
    requires Keeps(s, t) && Appends(t, u, op)
    ensures Keeps(s, u)
    ensures New(s, u, x) <==> New(s, t, x) || x == Spot(t.current, |t.blocks[t.current].ops|)
    ensures New(s, t, x) ==> OpAt(u, x) == OpAt(t, x)
    ensures !New(s, t, Spot(t.current, |t.blocks[t.current].ops|)) && OpAt(u, Spot(t.current, |t.blocks[t.current].ops|)) == op
  {
  }

  /** An operation that reads what is ready to be read, each register once. */
  lemma AppendLinear(s: State, t: State, u: State, op: Op, prompt: bool)
    requires Linear(s, t, prompt) && Appends(t, u, op) && ReadsOnce(op)
    requires forall o :: o in Sources(op) ==> Next(s, t, o, prompt)
    ensures Linear(s, u, prompt)
  {
    hide ReadsOnce, Defined, New, OpAt, Sources, Appends, OneDefinition, OneReader, Prompt, Inside;
    AppendedHere(t, u, op);
    OneSpot(s, t, u, op, Spot(t.current, |t.blocks[t.current].ops|));
    forall r | |s.regs| <= r < |u.regs|
      ensures Defined(s, u, r)
    {
      DefinedStill(s, t, u, op, r);
    }
    forall x | New(s, u, x)
      ensures Inside(OpAt(u, x), |s.regs|, |u.regs|)
    {
      AppendInside(s, t, u, op, x, prompt);
    }
    AppendOneDefinition(s, t, u, op, prompt);
    AppendOneReader(s, t, u, op, prompt);
    if prompt {
      AppendPrompt(s, t, u, op);
    }
  }

  lemma AppendInside(s: State, t: State, u: State, op: Op, x: Spot, prompt: bool)
    requires Linear(s, t, prompt) && Appends(t, u, op) && ReadsOnce(op) && New(s, u, x)
    requires forall o :: o in Sources(op) ==> Next(s, t, o, prompt)
    ensures Inside(OpAt(u, x), |s.regs|, |u.regs|)
  {
    hide ReadsOnce, Defined, New, OpAt, Appends, Sources, Prompt;
    AppendedHere(t, u, op);
    OneSpot(s, t, u, op, x);
    if New(s, t, x) {
      assert Inside(OpAt(t, x), |s.regs|, |t.regs|);
    } else {
      forall r: nat | Reads(op, r)
        ensures |s.regs| <= r < |u.regs|
      {
        assert Unread(s, t, r);
      }
    }
  }

  lemma AppendOneDefinition(s: State, t: State, u: State, op: Op, prompt: bool)
    requires Linear(s, t, prompt) && Appends(t, u, op)
    ensures OneDefinition(s, u)
  {
    hide ReadsOnce, Defined, New, OpAt, Appends, Reads, Prompt;
    AppendedHere(t, u, op);
    var z := Spot(t.current, |t.blocks[t.current].ops|);
    forall x, y | New(s, u, x) && New(s, u, y) && Defines(OpAt(u, x)).Some? && Defines(OpAt(u, x)) == Defines(OpAt(u, y))
      ensures x == y
    {
      OneSpot(s, t, u, op, x);
      OneSpot(s, t, u, op, y);
      assert New(s, t, x) ==> Inside(OpAt(t, x), |s.regs|, |t.regs|);
      assert New(s, t, y) ==> Inside(OpAt(t, y), |s.regs|, |t.regs|);
    }
  }

  lemma AppendOneReader(s: State, t: State, u: State, op: Op, prompt: bool)
    requires Linear(s, t, prompt) && Appends(t, u, op)
    requires forall o :: o in Sources(op) ==> Next(s, t, o, prompt)
    ensures OneReader(s, u)
  {
    hide ReadsOnce, Defined, New, OpAt, Appends, Sources, Prompt;
    AppendedHere(t, u, op);
    var z := Spot(t.current, |t.blocks[t.current].ops|);
    forall x, y, r | New(s, u, x) && New(s, u, y) && Reads(OpAt(u, x), r) && Reads(OpAt(u, y), r)
      ensures x == y
    {
      OneSpot(s, t, u, op, x);
      OneSpot(s, t, u, op, y);
      assert New(s, t, x) && y == z ==> Unread(s, t, r);
      assert New(s, t, y) && x == z ==> Unread(s, t, r);
    }
  }

  lemma AppendPrompt(s: State, t: State, u: State, op: Op)
    requires Linear(s, t, true) && Appends(t, u, op)
    requires forall o :: o in Sources(op) ==> Next(s, t, o, true)
    ensures Prompt(s, u)
  {
    hide ReadsOnce, Defined, New, OpAt, Sources, Appends;
    AppendedHere(t, u, op);
    var z := Spot(t.current, |t.blocks[t.current].ops|);
    forall x, y | New(s, u, x) && New(s, u, y) && OpAt(u, x).Compare? && Reads(OpAt(u, y), OpAt(u, x).dst)
      ensures y == Spot(x.block, x.index + 1)
    {
      OneSpot(s, t, u, op, x);
      OneSpot(s, t, u, op, y);
      if x == z {
        OwnResult(s, t, op, y, true);
      } else if y == z {
        assert Ripe(s, t, OpAt(t, x).dst);
      }
    }
  }

  /** Nothing reads the register an operation defines before or while it does. */
  lemma OwnResult(s: State, t: State, op: Op, y: Spot, prompt: bool)
    requires Linear(s, t, prompt) && Defines(op) == Some(|t.regs|) && forall o :: o in Sources(op) ==> Next(s, t, o, prompt)
    ensures !Reads(op, |t.regs|) && (New(s, t, y) ==> !Reads(OpAt(t, y), |t.regs|))
  {
    assert New(s, t, y) ==> Inside(OpAt(t, y), |s.regs|, |t.regs|);
    hide Sources, OpAt, New;
  }

  lemma AppendedHere(t: State, u: State, op: Op)
    requires Appends(t, u, op)
    ensures t.current in t.blocks && u.current == t.current && |t.regs| <= |u.regs|
    ensures Defines(op).Some? ==> Defines(op).value == |t.regs| && |u.regs| == |t.regs| + 1
    ensures Defines(op).None? ==> |u.regs| == |t.regs|
  {
  }

  lemma DefinedStill(s: State, t: State, u: State, op: Op, r: nat)
    requires Keeps(s, t) && Appends(t, u, op) && |s.regs| <= r < |u.regs| && (r < |t.regs| ==> Defined(s, t, r))
    ensures Defined(s, u, r)
  {
    if r < |t.regs| {
      var x :| New(s, t, x) && Defines(OpAt(t, x)) == Some(r);
      OneSpot(s, t, u, op, x);
    } else {
      OneSpot(s, t, u, op, Spot(t.current, |t.blocks[t.current].ops|));
    }
  }

  /** What the operation does not read is as free as before. */
  lemma StaysFree(s: State, t: State, u: State, op: Op, o: Operand, prompt: bool)
    requires Linear(s, t, prompt) && Appends(t, u, op) && Free(s, t, o, prompt) && o !in Sources(op)
    ensures Free(s, u, o, prompt)
  {
    forall x
      ensures New(s, u, x) <==> New(s, t, x) || x == Spot(t.current, |t.blocks[t.current].ops|)
      ensures New(s, t, x) ==> OpAt(u, x) == OpAt(t, x)
    {
      OneSpot(s, t, u, op, x);
    }
    OneSpot(s, t, u, op, Spot(t.current, |t.blocks[t.current].ops|));
    hide New, OpAt, Taken, Sources, Linear, Keeps;
  }

  /** The register that an operation defines is there to be read: later, or at once for a comparison. */
  lemma DefinedFree(s: State, t: State, u: State, op: Op, prompt: bool)
    requires Linear(s, t, prompt) && Appends(t, u, op) && Defines(op).Some?
    requires forall o :: o in Sources(op) ==> Next(s, t, o, prompt)
    ensures Next(s, u, Reg(|t.regs|), prompt) && (!op.Compare? ==> Free(s, u, Reg(|t.regs|), prompt))
  {
    var z := Spot(t.current, |t.blocks[t.current].ops|);
    LinearKeeps(s, t, prompt);
    forall x
      ensures New(s, u, x) <==> New(s, t, x) || x == z
      ensures New(s, t, x) ==> OpAt(u, x) == OpAt(t, x) && !Reads(OpAt(t, x), |t.regs|) && Defines(OpAt(t, x)) != Some(|t.regs|)
    {
      OneSpot(s, t, u, op, x);
      OwnResult(s, t, op, x, prompt);
      if New(s, t, x) {
        LinearInside(s, t, x, prompt);
      }
    }
    OneSpot(s, t, u, op, z);
    OwnResult(s, t, op, z, prompt);
    hide Linear, New, OpAt, Taken, Sources, Reads;
  }

  lemma LinearInside(s: State, t: State, x: Spot, prompt: bool)
    requires Linear(s, t, prompt) && New(s, t, x)
    ensures Inside(OpAt(t, x), |s.regs|, |t.regs|)
  {
  }

  /** An operation that defines the next register. */
  lemma DstLinear(s: State, t: State, ty: Ty, op: Op, prompt: bool)
    requires Ready(t) && Linear(s, t, prompt) && Defines(op) == Some(NextReg(t)) && ReadsOnce(op)
    requires forall o :: o in Sources(op) ==> Next(s, t, o, prompt)
    ensures var u := AppendDst(t, ty, op);
            && Ready(u) && Linear(s, u, prompt) && Next(s, u, Reg(NextReg(t)), prompt)
            && (!op.Compare? ==> Free(s, u, Reg(NextReg(t)), prompt))
    ensures Appends(t, AppendDst(t, ty, op), op)
  {
    hide Linear, Next, Free, ReadsOnce, Sources;
    var u := AppendDst(t, ty, op);
    AppendDstShape(t, ty, op);
    assert Appends(t, u, op);
    AppendLinear(s, t, u, op, prompt);
    DefinedFree(s, t, u, op, prompt);
  }

  /** An operation that defines none. */
  lemma OpLinear(s: State, t: State, op: Op, prompt: bool)
    requires Ready(t) && Linear(s, t, prompt) && Defines(op).None? && ReadsOnce(op)
    requires forall o :: o in Sources(op) ==> Next(s, t, o, prompt)
    ensures Ready(AppendOp(t, op)) && Linear(s, AppendOp(t, op), prompt)
  {
    hide Linear, Next, ReadsOnce, Sources;
    AppendShape(t, op);
    assert Appends(t, AppendOp(t, op), op);
    AppendLinear(s, t, AppendOp(t, op), op, prompt);
  }

  // ---- states that differ in nothing that matters ------------------------------------------------

  lemma ConstantFree(s: State, t: State, o: Operand, prompt: bool)
    requires !o.Reg?
    ensures Free(s, t, o, prompt) && Next(s, t, o, prompt)
  {
  }

  /** The same operations and as many registers. */
  lemma SameOps(s: State, t: State, u: State, o: Operand, prompt: bool)
    requires Linear(s, t, prompt) && u.blocks == t.blocks && |u.regs| == |t.regs|
    ensures Linear(s, u, prompt) && (Free(s, t, o, prompt) ==> Free(s, u, o, prompt))
  {
    Quiet(s, t, u, prompt);
    assert forall x :: OpAt(u, x) == OpAt(t, x) && (New(s, u, x) <==> New(s, t, x));
    hide OpAt, New, Linear;
  }

  /** A later start that is itself only a quiet change of `s`. */
  lemma FromQuiet(s: State, m: State, t: State, prompt: bool)
    requires |m.regs| == |s.regs| && Linear(m, t, prompt)
    requires forall b :: b in s.blocks ==> b in m.blocks
    requires forall b :: b in m.blocks ==> m.blocks[b].ops == if b in s.blocks then s.blocks[b].ops else []
    ensures Linear(s, m, prompt) && Linear(s, t, prompt)
  {
    Itself(s, prompt);
    Quiet(s, s, m, prompt);
    Composed(s, m, t, prompt);
  }

  // ---- operands ----------------------------------------------------------------------------------

  /** What lowering an expression returns. */
  ghost predicate Returns(s: State, low: Lowered, e: Expr, prompt: bool) {
    && Ready(low.0) && Linear(s, low.0, prompt) && Next(s, low.0, low.1, prompt)
    && (Number(e, prompt) ==> Free(s, low.0, low.1, prompt))
  }

  lemma ImmediateLinear(s: State, t: State, ty: Ty, o: Operand, kept: Operand, prompt: bool)
    requires Ready(t) && Linear(s, t, prompt) && Free(s, t, o, prompt) && Free(s, t, kept, prompt) && (kept.Reg? ==> kept != o)
    ensures var (u, o') := LoadImmediate(t, ty, o);
            && Ready(u) && Linear(s, u, prompt) && Free(s, u, o', prompt) && Free(s, u, kept, prompt)
            && (o'.Reg? && kept.Reg? ==> o' != kept)
  {
    if o.Imm? {
      var op := Load(NextReg(t), o);
      ConstantFree(s, t, o, prompt);
      DstLinear(s, t, ty, op, prompt);
      BelowNext(s, t, kept, prompt);
      if kept.Reg? {
        StaysFree(s, t, AppendDst(t, ty, op), op, kept, prompt);
      } else {
        ConstantFree(s, AppendDst(t, ty, op), kept, prompt);
      }
    }
  }

  lemma BelowNext(s: State, t: State, o: Operand, prompt: bool)
    requires Free(s, t, o, prompt)
    ensures o.Reg? ==> |s.regs| <= o.payload < |t.regs|
  {
  }

  /** Two operands lowered one after the other are different registers, and both are free. */
  lemma PairLinear(s: State, ctx: seq<Target>, e: Expr, first: Expr, second: Expr, t1: Ty, t2: Ty, prompt: bool)
    requires Ready(s) && first < e && second < e && Value(first, prompt) && Value(second, prompt)
    requires Number(first, prompt) && Number(second, prompt)
    ensures var p := LowerPair(s, ctx, first, second, t1, t2);
            && Ready(p.state) && Linear(s, p.state, prompt) && Free(s, p.state, p.first, prompt) && Free(s, p.state, p.second, prompt)
            && (p.first.Reg? && p.second.Reg? ==> p.first != p.second)
    decreases e, 0
  {
    hide Linear, Free, Next, LoadImmediate, Ready;
    ValueLinear(s, ctx, first, prompt);
    var (m, a0) := Lower(s, ctx, first);
    ConstantFree(s, m, Imm(0), prompt);
    ImmediateLinear(s, m, t1, a0, Imm(0), prompt);
    var (s2, a) := LoadImmediate(m, t1, a0);
    ValueLinear(s2, ctx, second, prompt);
    var (s3, b0) := Lower(s2, ctx, second);
    Composed(s, s2, s3, prompt);
    FreeLater(s, s2, s3, a, prompt) by { LinearKeeps(s, s2, prompt); }
    FreeFrom(s, s2, s3, b0, prompt);
    BelowNext(s, s2, a, prompt);
    BelowNext(s2, s3, b0, prompt);
    ImmediateLinear(s, s3, t2, b0, a, prompt);
  }

  lemma LinearKeeps(s: State, t: State, prompt: bool)
    requires Linear(s, t, prompt)
    ensures Keeps(s, t)
  {
  }

  // ---- lowering ----------------------------------------------------------------------------------

  lemma {:induction false} ValueLinear(s: State, ctx: seq<Target>, e: Expr, prompt: bool)
    requires Ready(s) && Value(e, prompt)
    ensures Returns(s, Lower(s, ctx, e), e, prompt)
    decreases e, 2
  {
    hide Linear, Free, Next, LoadImmediate, Ready, AppendDst;
    match e
    case Lit(w, _) => LiteralLinear(s, w, prompt);
    case Var(x, ty) =>
      Itself(s, prompt);
      ConstantFree(s, s, Local(x), prompt);
      DstLinear(s, s, ty, Load(NextReg(s), Local(x)), prompt);
    case Bin(op, ty, l, r) =>
      PairLinear(s, ctx, e, l, r, ty, ty, prompt);
      var p := LowerPair(s, ctx, l, r, ty, ty);
      PairNext(s, p.state, p.first, p.second, prompt);
      DstLinear(s, p.state, ty, Compute(op, ty, NextReg(p.state), p.first, p.second), prompt);
    case Cmp(cmp, l, r) =>
      PairLinear(s, ctx, e, r, l, TypeOf(r), TypeOf(l), prompt);
      var p := LowerPair(s, ctx, r, l, TypeOf(r), TypeOf(l));
      PairNext(s, p.state, p.first, p.second, prompt);
      DstLinear(s, p.state, Bool, Compare(cmp, NextReg(p.state), p.second, p.first), prompt);
      ComparedOnly(s, AppendDst(p.state, Bool, Compare(cmp, NextReg(p.state), p.second, p.first)), Reg(NextReg(p.state)), e, prompt);
    case Logic(_, _, _) => LogicLinear(s, ctx, e, prompt);
    case Neg(a) =>
      ValueLinear(s, ctx, a, prompt);
      var (s1, o) := Lower(s, ctx, a);
      DstLinear(s, s1, I64, Negate(NextReg(s1), o), prompt);
    case Cast(ty, a) => CastLinear(s, ctx, e, prompt);
    case Do(_, _) => DoLinear(s, ctx, e, prompt);
    case If(_, _, _) => IfLinear(s, ctx, e, prompt);
    case Loop(_, _, _, _, _) => LoopLinear(s, ctx, e, prompt);
    case Break(_, _) => BreakLinear(s, ctx, e, prompt);
  }

  lemma PairNext(s: State, t: State, a: Operand, b: Operand, prompt: bool)
    requires Free(s, t, a, prompt) && Free(s, t, b, prompt)
    ensures Next(s, t, a, prompt) && Next(s, t, b, prompt)
  {
  }

  lemma ComparedOnly(s: State, t: State, o: Operand, e: Expr, prompt: bool)
    requires e.Cmp? && Next(s, t, o, prompt)
    ensures Number(e, prompt) ==> Free(s, t, o, prompt)
  {
  }

  lemma LiteralLinear(s: State, w: Word, prompt: bool)
    requires Ready(s)
    ensures Ready(LowerLiteral(s, w).0) && Linear(s, LowerLiteral(s, w).0, prompt)
    ensures Free(s, LowerLiteral(s, w).0, LowerLiteral(s, w).1, prompt) && Next(s, LowerLiteral(s, w).0, LowerLiteral(s, w).1, prompt)
  {
    LiteralExtends(s, w);
    Itself(s, prompt);
    SameOps(s, s, LowerLiteral(s, w).0, Imm(0), prompt);
    ConstantFree(s, LowerLiteral(s, w).0, LowerLiteral(s, w).1, prompt);
  }

  lemma LogicLinear(s: State, ctx: seq<Target>, e: Expr, prompt: bool)
    requires e.Logic? && Ready(s) && Value(e, prompt)
    ensures Returns(s, Lower(s, ctx, e), e, prompt)
    decreases e, 1
  {
    hide Linear, Free, Next, Ready, AppendDst;
    var (l, r) := (e.left, e.right);
    ValueLinear(s, ctx, l, prompt);
    var (s1, a) := Lower(s, ctx, l);
    DstLinear(s, s1, TypeOf(l), Test(TypeOf(l), NextReg(s1), a), prompt);
    var s2 := AppendDst(s1, TypeOf(l), Test(TypeOf(l), NextReg(s1), a));
    ValueLinear(s2, ctx, r, prompt);
    var (s3, b) := Lower(s2, ctx, r);
    DstLinear(s2, s3, TypeOf(r), Test(TypeOf(r), NextReg(s3), b), prompt);
    var s4 := AppendDst(s3, TypeOf(r), Test(TypeOf(r), NextReg(s3), b));
    Composed(s, s2, s4, prompt);
    FreeLater(s, s2, s4, Reg(NextReg(s1)), prompt) by { LinearKeeps(s, s2, prompt); }
    FreeFrom(s, s2, s4, Reg(NextReg(s3)), prompt);
    BelowNext(s, s2, Reg(NextReg(s1)), prompt);
    BelowNext(s2, s4, Reg(NextReg(s3)), prompt);
    PairNext(s, s4, Reg(NextReg(s1)), Reg(NextReg(s3)), prompt);
    DstLinear(s, s4, Bool, Combine(e.conjunction, NextReg(s4), Reg(NextReg(s1)), Reg(NextReg(s3))), prompt);
  }

  lemma CompareIsNoLoad(s: State, ctx: seq<Target>, e: Expr)
    requires e.Cmp?
    ensures !Lower(s, ctx, e).0.lastLoad
  {
  }

  lemma CastLinear(s: State, ctx: seq<Target>, e: Expr, prompt: bool)
    requires e.Cast? && Ready(s) && Value(e, prompt)
    ensures Returns(s, Lower(s, ctx, e), e, prompt)
    decreases e, 1
  {
    hide Linear, Free, Next, Ready, AppendDst;
    var s0 := s.(lastLoad := false);
    ForgetLoad(s);
    ValueLinear(s0, ctx, e.operand, prompt);
    var (s1, a) := Lower(s0, ctx, e.operand);
    FromQuiet(s, s0, s1, prompt);
    if s1.lastLoad && a.payload < |s1.regs| {
      if e.operand.Cmp? {
        CompareIsNoLoad(s0, ctx, e.operand);
      }
      FreeFrom(s, s0, s1, a, prompt);
      Retyped(s, s1, a, e.ty, prompt);
    } else {
      DstLinear(s0, s1, e.ty, CastTo(NextReg(s1), a), prompt);
      var u := AppendDst(s1, e.ty, CastTo(NextReg(s1), a));
      FromQuiet(s, s0, u, prompt);
      FreeFrom(s, s0, u, Reg(NextReg(s1)), prompt);
      PairNext(s, u, Reg(NextReg(s1)), Imm(0), prompt) by { ConstantFree(s, u, Imm(0), prompt); }
    }
  }

  lemma Retyped(s: State, t: State, o: Operand, ty: Ty, prompt: bool)
    requires Ready(t) && Linear(s, t, prompt) && Free(s, t, o, prompt) && o.payload < |t.regs|
    ensures var u := t.(regs := t.regs[o.payload := ty]);
            Ready(u) && Linear(s, u, prompt) && Free(s, u, o, prompt) && Next(s, u, o, prompt)
  {
    var u := t.(regs := t.regs[o.payload := ty]);
    SameOps(s, t, u, o, prompt);
    FreeIsNext(s, u, o, prompt);
  }

  lemma DoLinear(s: State, ctx: seq<Target>, e: Expr, prompt: bool)
    requires e.Do? && Ready(s) && Value(e, prompt)
    ensures Returns(s, Lower(s, ctx, e), e, prompt)
    decreases e, 1
  {
    hide Linear, Free, Next, AppendDst, OpenDo;
    var exit := FreshRef(s);
    var s1 := OpenDo(s);
    OpenDoShape(s);
    var ctx' := [Target(exit, Some(s.locals))] + ctx;
    AllLinear(s1, ctx', e.items, prompt);
    AllExtend(s1, ctx', e.items);
    var s2 := LowerAll(s1, ctx', e.items);
    FromQuiet(s, s1, s2, prompt) by { InsertedQuiet(s, s1, exit); }
    var u := MoveTo(s2, exit);
    Moved(s, s2, exit, prompt);
    ConstantFree(s, u, Local(s.locals), prompt);
    DstLinear(s, u, e.result.ty, Load(NextReg(u), Local(s.locals)), prompt);
  }

  lemma InsertedQuiet(s: State, t: State, r: nat)
    requires Inserted(AddLocal(s), t, r)
    ensures |t.regs| == |s.regs| && (forall b :: b in s.blocks ==> b in t.blocks)
    ensures forall b :: b in t.blocks ==> t.blocks[b].ops == if b in s.blocks then s.blocks[b].ops else []
  {
    forall b | b in s.blocks && b != s.current
      ensures t.blocks[b] == s.blocks[b]
    {
      assert Untouched(AddLocal(s), t, b);
    }
  }

  lemma Moved(s: State, t: State, b: nat, prompt: bool)
    requires Linear(s, t, prompt)
    ensures Linear(s, MoveTo(t, b), prompt)
  {
    SameOps(s, t, MoveTo(t, b), Imm(0), prompt);
  }

  lemma {:induction false} StmtLinear(s: State, ctx: seq<Target>, st: Stmt, prompt: bool)
    requires Ready(s) && Tidy(st, prompt)
    ensures Ready(LowerStmt(s, ctx, st)) && Linear(s, LowerStmt(s, ctx, st), prompt)
    decreases st, 0
  {
    hide Linear, Free, Next, Ready, Lower, AppendOp;
    match st
    case Compound(items) => AllLinear(s, ctx, items, prompt);
    case Decl(_, initial) =>
      var s1 := AddLocal(s);
      LocalLinear(s, prompt);
      if initial.Some? {
        ValueLinear(s1, ctx, initial.value, prompt);
        var (s2, v) := Lower(s1, ctx, initial.value);
        OpLinear(s1, s2, Store(Local(s.locals), v), prompt);
        Composed(s, s1, AppendOp(s2, Store(Local(s.locals), v)), prompt);
      }
    case Eval(e) => ActionLinear(s, ctx, e, prompt);
  }

  lemma LocalLinear(s: State, prompt: bool)
    requires Ready(s)
    ensures Ready(AddLocal(s)) && Linear(s, AddLocal(s), prompt)
  {
    Itself(s, prompt);
    SameOps(s, s, AddLocal(s), Imm(0), prompt);
  }

  lemma {:induction false} AllLinear(s: State, ctx: seq<Target>, items: seq<Stmt>, prompt: bool)
    requires Ready(s) && AllTidy(items, prompt)
    ensures Ready(LowerAll(s, ctx, items)) && Linear(s, LowerAll(s, ctx, items), prompt)
    decreases items, 0
  {
    hide Linear, Ready, LowerStmt, Tidy;
    if items == [] {
      Itself(s, prompt);
    } else {
      StmtLinear(s, ctx, items[0], prompt);
      var s1 := LowerStmt(s, ctx, items[0]);
      AllLinear(s1, ctx, items[1..], prompt);
      Composed(s, s1, LowerAll(s1, ctx, items[1..]), prompt);
    }
  }

  lemma {:induction false} ActionLinear(s: State, ctx: seq<Target>, e: Expr, prompt: bool)
    requires Ready(s) && Action(e, prompt)
    ensures Ready(Lower(s, ctx, e).0) && Linear(s, Lower(s, ctx, e).0, prompt)
    decreases e, 3
  {
    hide Linear, Free, Next, Ready, AppendDst, AppendOp;
    match e
    case Assign(x, rhs) =>
      ValueLinear(s, ctx, rhs, prompt);
      var (s1, v) := Lower(s, ctx, rhs);
      OpLinear(s, s1, Store(Local(x), v), prompt);
    case OpAssign(op, ty, x, rhs) =>
      ValueLinear(s, ctx, rhs, prompt);
      var (s1, b) := Lower(s, ctx, rhs);
      var load := Load(NextReg(s1), Local(x));
      ConstantFree(s, s1, Local(x), prompt);
      DstLinear(s, s1, ty, load, prompt);
      var s2 := AppendDst(s1, ty, load);
      if b.Reg? {
        StaysFree(s, s1, s2, load, b, prompt);
      } else {
        ConstantFree(s, s2, b, prompt);
      }
      BelowNext(s, s1, b, prompt);
      PairNext(s, s2, Reg(NextReg(s1)), b, prompt);
      DstLinear(s, s2, ty, Compute(op, ty, NextReg(s2), Reg(NextReg(s1)), b), prompt);
      var s3 := AppendDst(s2, ty, Compute(op, ty, NextReg(s2), Reg(NextReg(s1)), b));
      OpLinear(s, s3, Store(Local(x), Reg(NextReg(s2))), prompt);
    case _ => ValueLinear(s, ctx, e, prompt);
  }

  // ---- control flow ------------------------------------------------------------------------------

  lemma ReadyMoved(s: State, t: State, b: nat, prompt: bool)
    requires Ready(t) && Linear(s, t, prompt) && b in s.blocks
    ensures Ready(MoveTo(t, b)) && b in t.blocks && Linear(s, MoveTo(t, b), prompt)
  {
    Moved(s, t, b, prompt);
  }

  lemma NextBlockLinear(s: State, t: State, prompt: bool)
    requires Ready(t) && Linear(s, t, prompt)
    ensures Ready(NextBlock(t)) && Linear(s, NextBlock(t), prompt)
  {
    hide Linear;
    AddBlockShape(t);
    var r := FreshRef(t);
    forall b | b in t.blocks && b != t.current
      ensures AddBlock(t).blocks[b] == t.blocks[b]
    {
      assert Untouched(t, AddBlock(t), b);
    }
    Quiet(s, t, NextBlock(t), prompt);
  }

  lemma BreakLinear(s: State, ctx: seq<Target>, e: Expr, prompt: bool)
    requires e.Break? && Ready(s) && Value(e, prompt)
    ensures Returns(s, Lower(s, ctx, e), e, prompt)
    decreases e, 1
  {
    hide Linear, Free, Next, Ready, AppendOp, NextBlock;
    var target := if e.level < |ctx| then ctx[e.level] else Target(0, None);
    var s1 := s;
    if e.carried.None? {
      Itself(s, prompt);
    } else {
      ValueLinear(s, ctx, e.carried.value, prompt);
      var (m, v) := Lower(s, ctx, e.carried.value);
      s1 := LowerCarried((m, v), target.slot);
      if target.slot.Some? {
        OpLinear(s, m, Store(Local(target.slot.value), v), prompt);
      }
    }
    OpLinear(s, s1, Branch(target.block), prompt);
    NextBlockLinear(s, AppendOp(s1, Branch(target.block)), prompt);
    ConstantFree(s, LeaveTo(s1, target.block), Imm(0), prompt);
  }

  lemma IfOperandLinear(s: State, t: State, o: Operand, prompt: bool)
    requires Ready(t) && Linear(s, t, prompt) && Next(s, t, o, prompt)
    ensures var (u, o') := IfOperand(t, o); Ready(u) && Linear(s, u, prompt) && Next(s, u, o', prompt)
  {
    hide Linear, Free, Next, Ready, AppendDst;
    var (s1, o1) := LoadImmediate(t, Bool, o);
    if o.Imm? {
      ConstantFree(s, t, o, prompt);
      DstLinear(s, t, Bool, Load(NextReg(t), o), prompt);
    }
    ConstantFree(s, s1, Imm(0), prompt);
    DstLinear(s, s1, Bool, Compare(Neq, NextReg(s1), o1, Imm(0)), prompt);
  }

  lemma ArmLinear(s: State, t: State, ctx: seq<Target>, st: Stmt, end: nat, e: Expr, prompt: bool)
    requires Ready(t) && Linear(s, t, prompt) && Tidy(st, prompt) && st < e
    ensures var u := AppendOp(LowerStmt(t, ctx, st), Branch(end)); Ready(u) && Linear(s, u, prompt)
    decreases e, 0
  {
    hide Linear, Ready, AppendOp, LowerStmt;
    StmtLinear(t, ctx, st, prompt);
    OpLinear(t, LowerStmt(t, ctx, st), Branch(end), prompt);
    Composed(s, t, AppendOp(LowerStmt(t, ctx, st), Branch(end)), prompt);
  }

  lemma IfOpenLinear(s: State, hasElse: bool, prompt: bool)
    requires Ready(s)
    ensures var p := OpenIf(s, hasElse);
            && Ready(p.state) && Linear(s, p.state, prompt)
            && p.body in p.state.blocks && p.orelse in p.state.blocks && p.end in p.state.blocks
  {
    hide Linear, OpenIf;
    OpenIfShape(s, hasElse);
    var t := OpenIf(s, hasElse).state;
    forall b | b in s.blocks && b != s.current
      ensures t.blocks[b] == s.blocks[b]
    {
      assert Untouched(s, t, b);
    }
    Itself(s, prompt);
    Quiet(s, s, t, prompt);
  }

  lemma IfLinear(s: State, ctx: seq<Target>, e: Expr, prompt: bool)
    requires e.If? && Ready(s) && Value(e, prompt)
    ensures Returns(s, Lower(s, ctx, e), e, prompt)
    decreases e, 1
  {
    hide Linear, Free, Next, Ready, AppendOp, LowerStmt, OpenIf, IfOperand, Tidy;
    var p := OpenIf(s, e.orelse.Some?);
    IfOpenLinear(s, e.orelse.Some?, prompt);
    ValueLinear(p.state, ctx, e.cond, prompt);
    var low := Lower(p.state, ctx, e.cond);
    IfOperandLinear(p.state, low.0, low.1, prompt);
    var (c, o) := IfOperand(low.0, low.1);
    OpLinear(p.state, c, BranchCond(o, p.body, p.orelse), prompt);
    var s1 := BranchIf(low, p);
    ReadyMoved(p.state, s1, p.body, prompt);
    ArmLinear(p.state, MoveTo(s1, p.body), ctx, e.body, p.end, e, prompt);
    var s2 := AppendOp(LowerStmt(MoveTo(s1, p.body), ctx, e.body), Branch(p.end));
    var s3 := s2;
    if e.orelse.Some? {
      ReadyMoved(p.state, s2, p.orelse, prompt);
      ArmLinear(p.state, MoveTo(s2, p.orelse), ctx, e.orelse.value, p.end, e, prompt);
      s3 := AppendOp(LowerStmt(MoveTo(s2, p.orelse), ctx, e.orelse.value), Branch(p.end));
    }
    ReadyMoved(p.state, s3, p.end, prompt);
    Composed(s, p.state, MoveTo(s3, p.end), prompt);
    ConstantFree(s, MoveTo(s3, p.end), Imm(0), prompt);
  }

  lemma LoopOpenLinear(s: State, hasSlot: bool, prompt: bool)
    requires Ready(s)
    ensures var p := OpenLoop(s, hasSlot);
            && Ready(p.state) && Linear(s, p.state, prompt) && p.body in p.state.blocks && p.end in p.state.blocks
  {
    hide Linear, OpenLoop;
    OpenLoopShape(s, hasSlot);
    var t := OpenLoop(s, hasSlot).state;
    forall b | b in s.blocks && b != s.current
      ensures t.blocks[b] == s.blocks[b]
    {
      assert Untouched(s, t, b);
    }
    Itself(s, prompt);
    Quiet(s, s, t, prompt);
  }

  lemma LoopTestLinear(ctx: seq<Target>, e: Expr, p: LoopParts, prompt: bool)
    requires e.Loop? && e.test.Some? && Ready(p.state) && Value(e.test.value, prompt)
    ensures var s1 := BranchLoop(Lower(p.state, ctx, e.test.value), p); Ready(s1) && Linear(p.state, s1, prompt)
    decreases e, 0
  {
    hide Linear, Next, Free, Ready, AppendOp;
    ValueLinear(p.state, ctx, e.test.value, prompt);
    var low := Lower(p.state, ctx, e.test.value);
    OpLinear(p.state, low.0, BranchCond(low.1, p.body, p.end), prompt);
  }

  lemma LoopLinear(s: State, ctx: seq<Target>, e: Expr, prompt: bool)
    requires e.Loop? && Ready(s) && Value(e, prompt)
    ensures Returns(s, Lower(s, ctx, e), e, prompt)
    decreases e, 1
  {
    hide Linear, Free, Next, Ready, AppendOp, AppendDst, LowerStmt, OpenLoop, BranchLoop, Tidy, Action;
    Itself(s, prompt);
    var s0 := if e.init.None? then s else LowerStmt(s, ctx, e.init.value);
    if e.init.Some? {
      StmtLinear(s, ctx, e.init.value, prompt);
    }
    var p := OpenLoop(s0, e.slot.Some?);
    LoopOpenLinear(s0, e.slot.Some?, prompt);
    Composed(s, s0, p.state, prompt);
    var ctx' := LoopContext(s0, ctx, p, e.slot.Some?);
    Itself(p.state, prompt);
    if e.test.Some? {
      LoopTestLinear(ctx', e, p, prompt);
    }
    var s1 := if e.test.None? then p.state else BranchLoop(Lower(p.state, ctx', e.test.value), p);
    ReadyMoved(p.state, s1, p.body, prompt);
    var b := MoveTo(s1, p.body);
    StmtLinear(b, ctx', e.body, prompt);
    var s2 := LowerStmt(b, ctx', e.body);
    Composed(p.state, b, s2, prompt);
    var s3 := if e.update.None? then s2 else Lower(s2, ctx', e.update.value).0;
    if e.update.Some? {
      ActionLinear(s2, ctx', e.update.value, prompt);
      Composed(p.state, s2, s3, prompt);
    }
    OpLinear(p.state, s3, Branch(p.test), prompt);
    var s4 := AppendOp(s3, Branch(p.test));
    ReadyMoved(p.state, s4, p.end, prompt);
    var m := MoveTo(s4, p.end);
    Composed(s, p.state, m, prompt);
    ConstantFree(s, m, Imm(0), prompt);
    if e.slot.Some? {
      ConstantFree(s, m, Local(s0.locals), prompt);
      DstLinear(s, m, e.slot.value.ty, Load(NextReg(m), Local(s0.locals)), prompt);
    }
  }

  // ---- functions ---------------------------------------------------------------------------------

  lemma BodyLinear(s: State, body: Stmt, prompt: bool)
    requires AtEntry(s) && Tidy(body, prompt)
    ensures Linear(s, LowerBody(s, body), prompt)
  {
    hide Linear, Next, LowerStmt, AppendOp;
    StmtLinear(s, [], body, prompt);
    OpLinear(s, LowerStmt(s, [], body), Ret, prompt);
  }

  /** Every register of a function is defined by exactly one operation of its blocks and read by at most
      one, and the function reads no other registers. */
  lemma DefinedOnceReadOnce(s: State, body: Stmt, r: nat) returns (x: Spot)
    requires AtEntry(s) && Tidy(body, false) && |s.regs| <= r < |LowerBody(s, body).regs|
    ensures var t := LowerBody(s, body);
            && New(s, t, x) && Defines(OpAt(t, x)) == Some(r)
            && (forall y :: New(s, t, y) && Defines(OpAt(t, y)) == Some(r) ==> y == x)
            && (forall y, z :: New(s, t, y) && New(s, t, z) && Reads(OpAt(t, y), r) && Reads(OpAt(t, z), r) ==> y == z)
            && (forall y, q: nat :: New(s, t, y) && Reads(OpAt(t, y), q) ==> |s.regs| <= q < |t.regs|)
  {
    var t := LowerBody(s, body);
    hide LowerBody, Tidy, AtEntry, New, OpAt, Reads;
    BodyLinear(s, body, false);
    assert Defined(s, t, r);
    x :| New(s, t, x) && Defines(OpAt(t, x)) == Some(r);
  }

  /** A comparison that is read at all is read by the very next operation of its block, also when it is
      an operand of a logical operator, stored, or carried out of a `do`. */
  lemma ComparisonReadNext(s: State, body: Stmt, x: Spot, y: Spot)
    requires AtEntry(s) && Tidy(body, true)
    requires var t := LowerBody(s, body);
             New(s, t, x) && New(s, t, y) && OpAt(t, x).Compare? && Reads(OpAt(t, y), OpAt(t, x).dst)
    ensures y == Spot(x.block, x.index + 1)
  {
    hide LowerBody, Tidy, AtEntry, New, OpAt, Reads;
    BodyLinear(s, body, true);
  }
}
