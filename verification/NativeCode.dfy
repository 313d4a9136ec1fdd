/** From the source to the slot code, and where the two part. */
module NativeCode {
  import opened Wrappers
  import opened Words
  import opened Syntax
  import opened Ir
  import opened Lowering
  import opened Shape
  import opened LoweringShape
  import opened Simulation
  import opened Correctness
  import opened Layout
  import opened Landing
  import opened Machine
  import opened Backend
  import opened Refinement
  import opened GeneratedRuns
  import opened PlainLowering
  import Source

  /** A plain function whose source run ends: the generator succeeds on its layout chain and the code
      reaches the epilogue with the source's locals in their slots, provided no ordering on the way
      compares words of different sign. */
  lemma NativeCodePreservesMeaning(s: State, body: Stmt, f: Frame, c: Cpu, fuel: nat)
    returns (chain: seq<nat>, m: nat, d: Cpu)
    requires AtEntry(s) && Plain(body) && ResolveStmt(body, s.locals, []).Some?
    requires var t := LowerBody(s, body); |f.locals| == t.locals && |t.regs| <= |f.regs| && InSlots(f.locals, c)
    requires Source.RunStmt(body, f.locals, fuel).Done?
    requires AlwaysAgrees(Finished(LowerBody(s, body)), GeneratedRuns.Start(s.current, f))
    ensures var code := Finished(LowerBody(s, body));
            var text := EmitChain(Alloc(map[], 8 * |f.locals|), code, chain);
            && Chain(code.blocks, s.current, chain)
            && text.Some? && RunBlocks(ProgramOf(code, chain, text.value.1), s.current, c, m) == (0, d)
    ensures InSlots(Source.RunStmt(body, f.locals, fuel).store, d)
  {
    hide LowerBody, Source.RunStmt, ResolveStmt, Plain, AlwaysAgrees, InSlots, Checked, Chain, EmitChain, RunBlocks, AtEntry;
    var t := LowerBody(s, body);
    PlainSupported(body);
    chain := PlainFunctionChecked(s, body);
    var n, g := BodyPreservesMeaning(s, body, f, fuel);
    m, d := GeneratedCodeRuns(Finished(t), s.current, chain, |f.locals|, |t.regs|, f, c, n, g);
  }

  /** The converse: when the slot code of a plain function reaches the epilogue, the source run ends and
      the locals are in their slots. */
  lemma NativeCodeComesFromSource(s: State, body: Stmt, f: Frame, c: Cpu, chain: seq<nat>, m: nat, d: Cpu) returns (fuel: nat)
    requires AtEntry(s) && Plain(body) && ResolveStmt(body, s.locals, []).Some?
    requires var t := LowerBody(s, body); |f.locals| == t.locals && |t.regs| <= |f.regs| && InSlots(f.locals, c)
    requires AlwaysAgrees(Finished(LowerBody(s, body)), GeneratedRuns.Start(s.current, f))
    requires Chain(LowerBody(s, body).blocks, s.current, chain)
    requires var code := Finished(LowerBody(s, body));
             var text := EmitChain(Alloc(map[], 8 * |f.locals|), code, chain);
             text.Some? && RunBlocks(ProgramOf(code, chain, text.value.1), s.current, c, m) == (0, d)
    ensures Source.RunStmt(body, f.locals, fuel).Done? && InSlots(Source.RunStmt(body, f.locals, fuel).store, d)
  {
    hide LowerBody, Source.RunStmt, ResolveStmt, Plain, AlwaysAgrees, InSlots, Checked, EmitChain, RunBlocks, AtEntry;
    var t := LowerBody(s, body);
    PlainSupported(body);
    var path := PlainFunctionChecked(s, body);
    NoBlockZero(s, body);
    OneChain(t.blocks, s.current, path, chain);
    hide Chain;
    var n, g := GeneratedCodeComesFrom(Finished(t), s.current, chain, |f.locals|, |t.regs|, f, c, m, d);
    BodyHaltingComesFromSource(s, body, f, n, g);
    fuel := n + 1;
  }

  /** The layout chain from a block is determined by the blocks. */
  lemma OneChain(blocks: Blocks, first: nat, p: seq<nat>, q: seq<nat>)
    requires Chain(blocks, first, p) && Chain(blocks, first, q) && 0 !in blocks
    ensures p == q
  {
    forall i | 0 <= i < |p| && i < |q|
      ensures p[i] == q[i]
    {
      SamePoint(blocks, first, p, q, i);
    }
    assert forall i :: 0 <= i < |p| ==> p[i] in blocks;
    assert forall i :: 0 <= i < |q| ==> q[i] in blocks;
    if |p| <= |q| {
      EndsWith(blocks, first, p, q);
    } else {
      EndsWith(blocks, first, q, p);
    }
  }

  lemma {:induction false} SamePoint(blocks: Blocks, first: nat, p: seq<nat>, q: seq<nat>, i: nat)
    requires Chain(blocks, first, p) && Chain(blocks, first, q) && i < |p| && i < |q|
    ensures p[i] == q[i]
  {
    if i > 0 {
      SamePoint(blocks, first, p, q, i - 1);
      assert blocks[p[i - 1]].next == (p + [0])[i] && blocks[q[i - 1]].next == (q + [0])[i];
    }
  }

  lemma EndsWith(blocks: Blocks, first: nat, p: seq<nat>, q: seq<nat>)
    requires Chain(blocks, first, p) && Chain(blocks, first, q) && |p| <= |q|
    ensures (q + [0])[|p|] == 0
  {
    var i := |p|;
    SamePoint(blocks, first, p, q, i - 1);
    assert blocks[p[i - 1]].next == (p + [0])[i] && blocks[q[i - 1]].next == (q + [0])[i];
  }

  lemma NoBlockZero(s: State, body: Stmt)
    requires AtEntry(s)
    ensures 0 !in LowerBody(s, body).blocks
  {
    hide Extends, LowerStmt;
    StmtExtends(s, [], body);
    AppendShape(LowerStmt(s, [], body), Ret);
  }

  // ---- aliasing --------------------------------------------------------------------------------------

  /** `x + (x = 5)`: the sum reads the slot of `x` only after the assignment has changed it. */
  const ASSIGN_INSIDE := Bin(ArithOp.Add, U64, Var(0, U64), Assign(0, Lit(5, U64)))

  const ASSIGN_INSIDE_OPS := [Load(0, Local(0)), Store(Local(0), Imm(5)), Load(1, Imm(5)), Compute(ArithOp.Add, U64, 2, Reg(0), Reg(1))]

  lemma AssignInsideOps(s: State)
    requires AtEntry(s) && s.regs == []
    ensures Lower(s, [], ASSIGN_INSIDE).0.blocks[s.current].ops == ASSIGN_INSIDE_OPS
  {
    var s1 := EmitLoad(s, U64, Local(0)).0;
    var s2 := AppendOp(s1, Store(Local(0), Imm(5)));
    assert Lower(s1, [], Assign(0, Lit(5, U64))) == (s2, Imm(5));
    var s3 := EmitLoad(s2, U64, Imm(5)).0;
    var s4 := AppendDst(s3, U64, Compute(ArithOp.Add, U64, 2, Reg(0), Reg(1)));
    assert Lower(s, [], ASSIGN_INSIDE) == (s4, Reg(2));
    assert s4.blocks[s.current].ops == ASSIGN_INSIDE_OPS;
  }

  const ASSIGN_INSIDE_CODE := [
    StoreImm(8, 5), LoadImm(Rax, 5), StoreSlot(16, Rax), LoadSlot(Rax, 8), LoadSlot(Rcx, 16), AddRR(Rax, Rcx), StoreSlot(24, Rax)]

  lemma AssignInsideEmits(code: Code, next: nat)
    ensures EmitOps(Alloc(map[], 8), code, ASSIGN_INSIDE_OPS, next).Some?
    ensures EmitOps(Alloc(map[], 8), code, ASSIGN_INSIDE_OPS, next).value.code == ASSIGN_INSIDE_CODE
  {
    hide EmitOp, EmitOps;
    var x := Home(OnStack(8), false);
    var a0, a1, a2 := Alloc(map[], 8), Alloc(map[0 := x], 8), Alloc(map[0 := x, 1 := Home(OnStack(16), false)], 16);
    var ops := ASSIGN_INSIDE_OPS;
    assert [ops[0]] + ops[1..] == ops && [ops[1]] + ops[2..] == ops[1..] && [ops[2]] + ops[3..] == ops[2..] && [ops[3]] + [] == ops[3..];
    AliasEmits(code, next);
    StoreEmits(a1, code, next);
    ImmediateEmits(a1, a2, code, next);
    SumEmits(a2, code, next);
    var e3 := EmitOp(a2, code, ops[3], next).value;
    var e4 := Emitted(e3.alloc, []);
    NoneEmits(e3.alloc, code, next);
    var e := EmitStep(a2, code, ops[3], [], next, e3, e4);
    e := EmitStep(a1, code, ops[2], ops[3..], next, Emitted(a2, [LoadImm(Rax, 5), StoreSlot(16, Rax)]), e);
    e := EmitStep(a1, code, ops[1], ops[2..], next, Emitted(a1, [StoreImm(8, 5)]), e);
    e := EmitStep(a0, code, ops[0], ops[1..], next, Emitted(a1, []), e);
    assert e.code == ASSIGN_INSIDE_CODE;
  }

  lemma AliasEmits(code: Code, next: nat)
    ensures EmitOp(Alloc(map[], 8), code, Load(0, Local(0)), next)
            == Some(Emitted(Alloc(map[0 := Home(OnStack(8), false)], 8), []))
  {
  }

  lemma StoreEmits(a: Alloc, code: Code, next: nat)
    ensures EmitOp(a, code, Store(Local(0), Imm(5)), next) == Some(Emitted(a, [StoreImm(8, 5)]))
  {
  }

  lemma ImmediateEmits(a: Alloc, b: Alloc, code: Code, next: nat)
    requires a.used == 8 && b == Alloc(a.homes[1 := Home(OnStack(16), false)], 16)
    ensures EmitOp(a, code, Load(1, Imm(5)), next) == Some(Emitted(b, [LoadImm(Rax, 5), StoreSlot(16, Rax)]))
  {
    NewSlot(a);
    assert [LoadImm(Rax, 5)] + [StoreSlot(16, Rax)] == [LoadImm(Rax, 5), StoreSlot(16, Rax)];
  }

  lemma SumEmits(a: Alloc, code: Code, next: nat)
    requires a == Alloc(map[0 := Home(OnStack(8), false), 1 := Home(OnStack(16), false)], 16)
    ensures var e := EmitOp(a, code, Compute(ArithOp.Add, U64, 2, Reg(0), Reg(1)), next);
            e.Some? && e.value.code == [LoadSlot(Rax, 8), LoadSlot(Rcx, 16), AddRR(Rax, Rcx), StoreSlot(24, Rax)]
  {
    NewSlot(a);
    var l := LoadOperand(a, code, Rax, Reg(0)).value;
    assert LoadPair(a, code, Reg(0), Reg(1)).value.code == [LoadSlot(Rax, 8), LoadSlot(Rcx, 16)];
  }

  lemma NoneEmits(a: Alloc, code: Code, next: nat)
    ensures EmitOps(a, code, [], next) == Some(Emitted(a, []))
  {
  }

  lemma EmitStep(a: Alloc, code: Code, op: Op, rest: seq<Op>, next: nat, first: Emitted, more: Emitted) returns (e: Emitted)
    requires EmitOp(a, code, op, next) == Some(first) && EmitOps(first.alloc, code, rest, next) == Some(more)
    ensures e == Emitted(more.alloc, first.code + more.code) && EmitOps(a, code, [op] + rest, next) == Some(e)
  {
    hide EmitOp;
    assert ([op] + rest)[1..] == rest;
    e := Emitted(more.alloc, first.code + more.code);
  }

  /** The interpreter adds the old value of `x`, the machine the new one: they agree exactly when
      `x` was 5 already. */
  lemma AssignInsideDiffers(code: Code, f: Frame, c: Cpu)
    requires |f.locals| == 1 && |f.regs| == 3 && c.Slot(8) == f.locals[0]
    ensures ExecAll(code, ASSIGN_INSIDE_OPS, f).Some?
    ensures PerformAll(ASSIGN_INSIDE_CODE, c).Slot(24) == Read(ExecAll(code, ASSIGN_INSIDE_OPS, f).value.regs, 2) <==> f.locals[0] == 5
  {
    var x: int := f.locals[0];
    var f1 := SetReg(f, 0, x);
    var f2 := f1.(locals := [5]);
    var f3 := SetReg(f2, 1, 5);
    var f4 := SetReg(f3, 2, Wrap(x + 5));
    var ops := ASSIGN_INSIDE_OPS;
    assert ops[1..][1..] == ops[2..] && ops[2..][1..] == ops[3..] && ops[3..][1..] == [];
    assert Write(f.locals, 0, 5) == [5];
    assert Exec(code, ops[0], f) == Some(f1) && Exec(code, ops[1], f1) == Some(f2);
    assert Exec(code, ops[2], f2) == Some(f3) && Exec(code, ops[3], f3) == Some(f4);
    assert ExecAll(code, ops[3..], f3) == Some(f4);
    assert ExecAll(code, ops[2..], f2) == Some(f4);
    assert ExecAll(code, ops[1..], f1) == Some(f4);
    AssignInsideRuns(c);
  }

  lemma AssignInsideRuns(c: Cpu)
    ensures PerformAll(ASSIGN_INSIDE_CODE, c).Slot(24) == 10
  {
    var i := ASSIGN_INSIDE_CODE;
    var c3 := PerformAll([i[0], i[1], i[2]], c);
    PerformAppend([i[0], i[1], i[2]], [i[3], i[4], i[5], i[6]], c);
    assert i == [i[0], i[1], i[2]] + [i[3], i[4], i[5], i[6]];
    PerformThree(i[0], i[1], i[2], c);
    PerformFour(i[3], i[4], i[5], i[6], c3);
  }

  function ExecAll(code: Code, ops: seq<Op>, f: Frame): Option<Frame> {
    if ops == [] then Some(f) else
    var g := Exec(code, ops[0], f);
    if g.None? then None else ExecAll(code, ops[1..], g.value)
  }

  lemma PerformThree(i: Instr, j: Instr, k: Instr, c: Cpu)
    ensures PerformAll([i, j, k], c) == Perform(k, Perform(j, Perform(i, c)))
  {
    assert [i, j, k][1..] == [j, k] && [j, k][1..] == [k];
    PerformOne(k, Perform(j, Perform(i, c)));
  }

  lemma PerformFour(i: Instr, j: Instr, k: Instr, l: Instr, c: Cpu)
    ensures PerformAll([i, j, k, l], c) == Perform(l, Perform(k, Perform(j, Perform(i, c))))
  {
    assert [i, j, k, l][1..] == [j, k, l];
    PerformThree(j, k, l, Perform(i, c));
  }
}
