/** Whole runs of the slot code: a generated function ends with the locals the interpreter ends
    with. */
module GeneratedRuns {
  import opened Wrappers
  import opened Words
  import opened Ir
  import opened Shape
  import opened Layout
  import opened Landing
  import opened Machine
  import opened Backend
  import opened Refinement

  /** Every block of the function passes the check and keeps the shape lowering gives it. */
  ghost predicate Checked(blocks: Blocks, home: set<nat>, locals: nat, registers: nat) {
    && Contained(blocks, home) && 0 !in home
    && forall b :: b in home ==> b in blocks && Closed(blocks[b]) && CheckOps(blocks[b].ops, locals, registers).Some?
  }

  /** `text` is what the generator emits for `blk` in some allocation state. */
  ghost predicate EmittedFor(text: seq<Instr>, code: Code, blk: Block, locals: nat) {
    exists a: Alloc :: Roomy(a, locals) && EmitOps(a, code, blk.ops, blk.next).Some?
                       && EmitOps(a, code, blk.ops, blk.next).value.code == text
  }

  ghost predicate Compiled(p: Program, code: Code, home: set<nat>, locals: nat) {
    forall b :: b in home ==>
      && b in code.blocks && b in p.code && b in p.next
      && p.next[b] == code.blocks[b].next && EmittedFor(p.code[b], code, code.blocks[b], locals)
  }

  /** The next operation orders its operands alike on the interpreter and the machine. */
  predicate Agrees(code: Code, c: Config) {
    c.Running? && c.pc < |At(code.blocks, c.block).ops| ==> OrdersAgree(At(code.blocks, c.block).ops[c.pc], c.frame)
  }

  /** No comparison on the way has operands of different sign, unless it is `==` or `!=`. */
  ghost predicate AlwaysAgrees(code: Code, c: Config) {
    forall n: nat :: Agrees(code, Steps(code, c, n))
  }

  lemma AgreesNow(code: Code, c: Config)
    requires AlwaysAgrees(code, c)
    ensures Agrees(code, c) && AlwaysAgrees(code, Step(code, c))
  {
    assert Agrees(code, Steps(code, c, 0));
    forall n: nat
      ensures Agrees(code, Steps(code, Step(code, c), n))
    {
      assert Steps(code, c, n + 1) == Steps(code, Step(code, c), n);
    }
  }

  lemma {:induction false} AgreesLater(code: Code, c: Config, n: nat)
    requires AlwaysAgrees(code, c)
    ensures AlwaysAgrees(code, Steps(code, c, n))
    decreases n
  {
    hide AlwaysAgrees;
    if n > 0 {
      AgreesNow(code, c);
      AgreesLater(code, Step(code, c), n - 1);
    }
  }

  // ---- branches ----------------------------------------------------------------------------------

  /** After the code for the branch, control is where the interpreter goes, with the locals in their
      slots. */
  lemma BranchRefined(env: Pending, a: Alloc, code: Code, op: Op, next: nat, f: Frame, c: Cpu, locals: nat, registers: nat)
    requires op.BranchCond? && Rel(env, a, f, c, locals, registers) && CheckOp(env, op, locals, registers).Some?
    requires next == op.thenBlock || next == op.elseBlock
    ensures EmitOp(a, code, op, next).Some?
    ensures var r := RunCode(EmitOp(a, code, op, next).value.code, next, c);
            && r.0 == (if Value(code, f, op.cond) != 0 then op.thenBlock else op.elseBlock)
            && r.1.slots == c.slots
  {
    var r := op.cond.payload;
    assert Holding(env[r], r, a, f, c, locals);
    var home := a.homes[r];
    var j := if home.place.InFlags?
             then (if op.thenBlock == next then JumpIf(Inverse(home.place.cond), op.elseBlock) else JumpIf(home.place.cond, op.thenBlock))
             else if op.thenBlock == next then JumpIf(E, op.elseBlock) else JumpIf(NE, op.thenBlock);
    if home.place.InFlags? {
      RunJumpIf(j, next, c);
    } else {
      LoadedForTest(env, a, r, f, c, locals, registers);
      var before := [LoadSlot(Rax, home.place.offset), TestR(Rax)];
      PerformOne(TestR(Rax), Perform(before[0], c));
      assert before[1..] == [TestR(Rax)];
      RunStraight(before, [j], next, c);
      RunJumpIf(j, next, PerformAll(before, c));
      assert before + [j] == EmitOp(a, code, op, next).value.code;
    }
  }

  lemma RunJumpIf(j: Instr, next: nat, c: Cpu)
    requires j.JumpIf?
    ensures RunCode([j], next, c) == (if c.flags.Some? && Holds(j.cond, c.flags.value) then j.target else next, c)
  {
    assert [j][1..] == [];
  }

  lemma LoadedForTest(env: Pending, a: Alloc, r: nat, f: Frame, c: Cpu, locals: nat, registers: nat)
    requires Rel(env, a, f, c, locals, registers) && r in env && !env[r].Comparison?
    ensures r in a.homes && a.homes[r].place.OnStack? && c.Slot(a.homes[r].place.offset) == Read(f.regs, r)
  {
    assert Holding(env[r], r, a, f, c, locals);
  }

  lemma StartRel(a: Alloc, f: Frame, c: Cpu, locals: nat, registers: nat)
    requires |f.locals| == locals && registers <= |f.regs| && Roomy(a, locals) && InSlots(f.locals, c)
    ensures Rel(map[], a, f, c, locals, registers)
  {
  }

  lemma RelLocals(env: Pending, a: Alloc, f: Frame, c: Cpu, d: Cpu, locals: nat, registers: nat)
    requires Rel(env, a, f, c, locals, registers) && d.slots == c.slots
    ensures |f.locals| == locals && registers <= |f.regs| && Roomy(a, locals) && InSlots(f.locals, d)
  {
    assert forall o :: d.Slot(o) == c.Slot(o);
  }

  // ---- runs --------------------------------------------------------------------------------------

  /** Interpreter and machine arrive at the same block, with the same locals. */
  ghost predicate Together(home: set<nat>, locals: nat, registers: nat, b: nat, f: Frame, c: Cpu) {
    (b == 0 || b in home) && |f.locals| == locals && registers <= |f.regs| && InSlots(f.locals, c)
  }

  /** The rest of a block from operation `pc`: the interpreter takes `n` steps to where the emitted code
      goes. */
  lemma {:induction false} RestFollows(code: Code, home: set<nat>, locals: nat, registers: nat,
                                       b: nat, pc: nat, env: Pending, a: Alloc, f: Frame, c: Cpu)
    returns (n: nat, h: Frame)
    requires Checked(code.blocks, home, locals, registers)
    requires b in home && pc <= |code.blocks[b].ops|
    requires CheckOps(code.blocks[b].ops[..pc], locals, registers) == Some(env)
    requires Rel(env, a, f, c, locals, registers)
    requires EmitOps(a, code, code.blocks[b].ops[pc..], code.blocks[b].next).Some?
    requires AlwaysAgrees(code, Running(b, pc, f))
    ensures var r := RunCode(EmitOps(a, code, code.blocks[b].ops[pc..], code.blocks[b].next).value.code, code.blocks[b].next, c);
            n > 0 && Steps(code, Running(b, pc, f), n) == Enter(r.0, h) && Together(home, locals, registers, r.0, h, r.1)
    decreases |code.blocks[b].ops| - pc
  {
    hide Rel, EmitOp, CheckOp, CheckOps, Contained, Closed, AlwaysAgrees, Agrees, OrdersAgree, Steps, InSlots;
    var blk := code.blocks[b];
    AgreesNow(code, Running(b, pc, f));
    OneStepOf(code, Running(b, pc, f));
    if pc == |blk.ops| {
      RelLocals(env, a, f, c, c, locals, registers);
      NextIn(code.blocks, home, b);
      return 1, f;
    }
    var op := blk.ops[pc];
    CheckPrefix(blk.ops, pc, locals, registers);
    assert blk.ops[pc..][0] == op && blk.ops[pc..][1..] == blk.ops[pc + 1..];
    if op.IsBranch() {
      var target := if op.Branch? then op.target else if Value(code, f, op.cond) != 0 then op.thenBlock else op.elseBlock;
      var r := RunCode(EmitOps(a, code, blk.ops[pc..], blk.next).value.code, blk.next, c);
      assert r.0 == target && r.1.slots == c.slots by { BranchTaken(code, b, pc, env, a, f, c, locals, registers); }
      BranchIn(code.blocks, home, b, pc);
      RelLocals(env, a, f, c, r.1, locals, registers);
      return 1, f;
    }
    OpRefined(env, a, code, op, blk.next, f, c, locals, registers);
    var e := EmitOp(a, code, op, blk.next).value;
    var f' := ExecSigned(code, op, f).value;
    assert Exec(code, op, f) == Some(f') by { AgreedExec(code, b, pc, f); }
    var rest := EmitOps(e.alloc, code, blk.ops[pc + 1..], blk.next).value.code;
    RunStraight(e.code, rest, blk.next, c);
    n, h := RestFollows(code, home, locals, registers, b, pc + 1, CheckOp(env, op, locals, registers).value,
                        e.alloc, f', PerformAll(e.code, c));
    StepsAdd(code, Running(b, pc, f), 1, n);
    n := 1 + n;
  }

  lemma OneStepOf(code: Code, c: Config)
    ensures Steps(code, c, 1) == Step(code, c)
  {
    hide Step;
    assert Steps(code, c, 1) == Steps(code, Step(code, c), 0);
  }

  /** A whole block. */
  lemma BlockFollows(code: Code, p: Program, home: set<nat>, locals: nat, registers: nat, b: nat, f: Frame, c: Cpu)
    returns (n: nat, h: Frame)
    requires Checked(code.blocks, home, locals, registers) && Compiled(p, code, home, locals)
    requires b in home && Together(home, locals, registers, b, f, c) && AlwaysAgrees(code, Running(b, 0, f))
    ensures b in p.code && b in p.next
    ensures var r := RunCode(p.code[b], p.next[b], c);
            n > 0 && Steps(code, Running(b, 0, f), n) == Enter(r.0, h) && Together(home, locals, registers, r.0, h, r.1)
  {
    hide Rel, EmitOps, AlwaysAgrees, Contained, Closed, RunCode, Steps;
    var blk := code.blocks[b];
    assert EmittedFor(p.code[b], code, blk, locals);
    var a: Alloc :| Roomy(a, locals) && EmitOps(a, code, blk.ops, blk.next).Some?
                    && EmitOps(a, code, blk.ops, blk.next).value.code == p.code[b];
    StartRel(a, f, c, locals, registers);
    assert blk.ops[..0] == [] && blk.ops[0..] == blk.ops;
    n, h := RestFollows(code, home, locals, registers, b, 0, map[], a, f, c);
  }

  lemma AgreedExec(code: Code, b: nat, pc: nat, f: Frame)
    requires b in code.blocks && pc < |code.blocks[b].ops| && Agrees(code, Running(b, pc, f))
    ensures ExecSigned(code, code.blocks[b].ops[pc], f) == Exec(code, code.blocks[b].ops[pc], f)
  {
    SameExec(code, code.blocks[b].ops[pc], f);
  }

  lemma NextIn(blocks: Blocks, home: set<nat>, b: nat)
    requires Contained(blocks, home) && b in home
    ensures b in blocks && (blocks[b].next == 0 || blocks[b].next in home)
  {
  }

  lemma BranchIn(blocks: Blocks, home: set<nat>, b: nat, pc: nat)
    requires Contained(blocks, home) && b in home && b in blocks && pc < |blocks[b].ops|
    ensures OpLands(blocks[b].ops[pc], home)
  {
  }

  lemma BranchIsLast(blk: Block, pc: nat)
    requires Closed(blk) && pc < |blk.ops|
    ensures blk.ops[pc].IsBranch() ==> pc == |blk.ops| - 1
    ensures pc == |blk.ops| - 1 && blk.ops[pc].BranchCond? ==> blk.next in {blk.ops[pc].thenBlock, blk.ops[pc].elseBlock}
  {
    if pc < |blk.ops| - 1 {
      assert blk.ops[..|blk.ops| - 1][pc] == blk.ops[pc];
    }
  }

  lemma BranchTaken(code: Code, b: nat, pc: nat, env: Pending, a: Alloc, f: Frame, c: Cpu, locals: nat, registers: nat)
    requires b in code.blocks && Closed(code.blocks[b]) && pc < |code.blocks[b].ops| && code.blocks[b].ops[pc].IsBranch()
    requires Rel(env, a, f, c, locals, registers) && CheckOp(env, code.blocks[b].ops[pc], locals, registers).Some?
    requires EmitOps(a, code, code.blocks[b].ops[pc..], code.blocks[b].next).Some?
    ensures var op := code.blocks[b].ops[pc];
            var r := RunCode(EmitOps(a, code, code.blocks[b].ops[pc..], code.blocks[b].next).value.code, code.blocks[b].next, c);
            && r.0 == (if op.Branch? then op.target else if Value(code, f, op.cond) != 0 then op.thenBlock else op.elseBlock)
            && r.1.slots == c.slots
  {
    hide Rel, EmitOp, CheckOp, Closed;
    var blk := code.blocks[b];
    var op := blk.ops[pc];
    BranchIsLast(blk, pc);
    assert blk.ops[pc..] == [op];
    var e := EmitOp(a, code, op, blk.next).value.code;
    assert [op][1..] == [] && e + [] == e;
    assert EmitOps(a, code, [op], blk.next).value.code == e + [];
    if op.BranchCond? {
      BranchRefined(env, a, code, op, blk.next, f, c, locals, registers);
    } else {
      JumpTaken(a, code, op, blk.next, c);
    }
  }

  lemma JumpTaken(a: Alloc, code: Code, op: Op, next: nat, c: Cpu)
    requires op.Branch?
    ensures EmitOp(a, code, op, next).Some? && RunCode(EmitOp(a, code, op, next).value.code, next, c) == (op.target, c)
  {
  }

  /** Where the interpreter halts, the machine reaches the epilogue. */
  lemma {:induction false} EnterRefined(code: Code, p: Program, home: set<nat>, locals: nat, registers: nat,
                                        b: nat, f: Frame, c: Cpu, n: nat, g: Frame) returns (m: nat, d: Cpu)
    requires Checked(code.blocks, home, locals, registers) && Compiled(p, code, home, locals)
    requires Together(home, locals, registers, b, f, c) && AlwaysAgrees(code, Enter(b, f))
    requires Steps(code, Enter(b, f), n) == Halted(g)
    ensures RunBlocks(p, b, c, m) == (0, d) && InSlots(g.locals, d)
    decreases n
  {
    hide Contained, Closed, RunCode, InSlots, AlwaysAgrees, Compiled, Checked, Steps;
    if b == 0 {
      Stopped(code, Halted(f), n);
      return 0, c;
    }
    var n1, h := BlockFollows(code, p, home, locals, registers, b, f, c);
    var (b', c') := RunCode(p.code[b], p.next[b], c);
    if n1 < n {
      StepsAdd(code, Enter(b, f), n1, n - n1);
      AgreesLater(code, Enter(b, f), n1);
      m, d := EnterRefined(code, p, home, locals, registers, b', h, c', n - n1, g);
      m := m + 1;
    } else {
      StopsOnce(code, Enter(b, f), n, n1);
      OneBlock(p, b, c);
      m, d := 1, c';
    }
  }

  lemma OneBlock(p: Program, b: nat, c: Cpu)
    requires b in p.code && b in p.next
    ensures RunBlocks(p, b, c, 1) == RunCode(p.code[b], p.next[b], c)
  {
    var (b', c') := RunCode(p.code[b], p.next[b], c);
    assert RunBlocks(p, b', c', 0) == (b', c');
  }

  /** And where the machine reaches the epilogue, the interpreter halts. */
  lemma {:induction false} LeftRefined(code: Code, p: Program, home: set<nat>, locals: nat, registers: nat,
                                       b: nat, f: Frame, c: Cpu, m: nat, d: Cpu) returns (n: nat, g: Frame)
    requires Checked(code.blocks, home, locals, registers) && Compiled(p, code, home, locals) && 0 !in p.code
    requires Together(home, locals, registers, b, f, c) && AlwaysAgrees(code, Enter(b, f))
    requires RunBlocks(p, b, c, m) == (0, d)
    ensures Steps(code, Enter(b, f), n) == Halted(g) && InSlots(g.locals, d)
    decreases m
  {
    hide Contained, Closed, RunCode, InSlots, AlwaysAgrees, Compiled, Checked;
    if b == 0 {
      return 0, f;
    }
    hide Steps;
    var n1, h := BlockFollows(code, p, home, locals, registers, b, f, c);
    var (b', c') := RunCode(p.code[b], p.next[b], c);
    AgreesLater(code, Enter(b, f), n1);
    n, g := LeftRefined(code, p, home, locals, registers, b', h, c', m - 1, d);
    StepsAdd(code, Enter(b, f), n1, n);
    n := n1 + n;
  }

  // ---- generation --------------------------------------------------------------------------------

  /** A checked block never fails an assertion of the generator, and the frame stays aligned. */
  lemma {:induction false} BlockEmits(code: Code, blk: Block, pc: nat, env: Pending, a: Alloc, f: Frame, c: Cpu, locals: nat, registers: nat)
    requires Closed(blk) && CheckOps(blk.ops, locals, registers).Some? && pc <= |blk.ops|
    requires CheckOps(blk.ops[..pc], locals, registers) == Some(env) && Rel(env, a, f, c, locals, registers)
    ensures EmitOps(a, code, blk.ops[pc..], blk.next).Some?
    ensures Roomy(EmitOps(a, code, blk.ops[pc..], blk.next).value.alloc, locals)
    decreases |blk.ops| - pc
  {
    hide Rel, EmitOp, CheckOp, CheckOps, Closed;
    if pc == |blk.ops| {
      RelLocals(env, a, f, c, c, locals, registers);
    } else {
      var op := blk.ops[pc];
      CheckPrefix(blk.ops, pc, locals, registers);
      assert blk.ops[pc..][0] == op && blk.ops[pc..][1..] == blk.ops[pc + 1..];
      if op.IsBranch() {
        BranchIsLast(blk, pc);
        BranchEmits(env, a, code, op, blk.next, f, c, locals, registers);
        assert blk.ops[pc + 1..] == [];
      } else {
        OpRefined(env, a, code, op, blk.next, f, c, locals, registers);
        var e := EmitOp(a, code, op, blk.next).value;
        BlockEmits(code, blk, pc + 1, CheckOp(env, op, locals, registers).value, e.alloc,
                   ExecSigned(code, op, f).value, PerformAll(e.code, c), locals, registers);
      }
    }
  }

  lemma BranchEmits(env: Pending, a: Alloc, code: Code, op: Op, next: nat, f: Frame, c: Cpu, locals: nat, registers: nat)
    requires op.IsBranch() && Rel(env, a, f, c, locals, registers) && CheckOp(env, op, locals, registers).Some?
    requires op.BranchCond? ==> next == op.thenBlock || next == op.elseBlock
    ensures EmitOp(a, code, op, next).Some? && Roomy(EmitOp(a, code, op, next).value.alloc, locals)
  {
    if op.BranchCond? {
      assert Holding(env[op.cond.payload], op.cond.payload, a, f, c, locals);
    }
  }

  /** Any frame and machine with enough room will do to see that a block emits. */
  lemma CheckedEmits(code: Code, blk: Block, a: Alloc, locals: nat, registers: nat)
    requires Closed(blk) && CheckOps(blk.ops, locals, registers).Some? && Roomy(a, locals)
    ensures EmitOps(a, code, blk.ops, blk.next).Some? && Roomy(EmitOps(a, code, blk.ops, blk.next).value.alloc, locals)
  {
    var f := Frame(seq(locals, _ => 0), seq(registers, _ => 0));
    var c := Cpu(0, 0, 0, None, map[]);
    StartRel(a, f, c, locals, registers);
    assert blk.ops[..0] == [] && blk.ops[0..] == blk.ops;
    BlockEmits(code, blk, 0, map[], a, f, c, locals, registers);
  }

  /** The generator succeeds on the chain of a checked function and emits every block of it. */
  lemma {:induction false} ChainEmits(code: Code, chain: seq<nat>, a: Alloc, locals: nat, registers: nat)
    requires Distinct(chain) && Roomy(a, locals)
    requires forall b :: b in chain ==> b in code.blocks && Closed(code.blocks[b]) && CheckOps(code.blocks[b].ops, locals, registers).Some?
    ensures EmitChain(a, code, chain).Some?
    ensures var text := EmitChain(a, code, chain).value.1;
            && text.Keys == Members(chain)
            && forall b :: b in chain ==> EmittedFor(text[b], code, code.blocks[b], locals)
    decreases |chain|
  {
    hide EmitOps, CheckOps, Closed, Roomy;
    if chain != [] {
      var b := chain[0];
      assert b in chain && code.blocks[b] == At(code.blocks, b);
      CheckedEmits(code, code.blocks[b], a, locals, registers);
      var first := EmitOps(a, code, code.blocks[b].ops, code.blocks[b].next).value;
      assert EmittedFor(first.code, code, code.blocks[b], locals);
      assert Distinct(chain[1..]) by { TailDistinct(chain); }
      ChainEmits(code, chain[1..], first.alloc, locals, registers);
      var text := EmitChain(a, code, chain).value.1;
      assert b !in chain[1..] by { HeadOnce(chain); }
      forall x | x in chain
        ensures x in text && EmittedFor(text[x], code, code.blocks[x], locals)
      {
        assert x == b || x in chain[1..];
      }
    }
  }

  lemma TailDistinct(chain: seq<nat>)
    requires Distinct(chain) && chain != []
    ensures Distinct(chain[1..])
  {
  }

  lemma HeadOnce(chain: seq<nat>)
    requires Distinct(chain) && chain != []
    ensures chain[0] !in chain[1..]
  {
    forall i | 0 <= i < |chain[1..]|
      ensures chain[1..][i] != chain[0]
    {
      assert chain[0] != chain[i + 1];
    }
  }

  /** The program the generator writes for a layout chain. */
  function ProgramOf(code: Code, chain: seq<nat>, text: map<nat, seq<Instr>>): Program {
    Program(text, map b | b in chain :: At(code.blocks, b).next)
  }

  /** A checked function, generated block by block along its layout chain, is a program of its blocks. */
  lemma ChainCompiled(code: Code, entry: nat, chain: seq<nat>, locals: nat, registers: nat)
    requires Chain(code.blocks, entry, chain) && Checked(code.blocks, Members(chain), locals, registers)
    ensures EmitChain(Alloc(map[], 8 * locals), code, chain).Some?
    ensures var p := ProgramOf(code, chain, EmitChain(Alloc(map[], 8 * locals), code, chain).value.1);
            Compiled(p, code, Members(chain), locals) && 0 !in p.code && entry in Members(chain)
  {
    hide CheckOps, Closed, EmittedFor, EmitChain;
    var a := Alloc(map[], 8 * locals);
    assert chain[0] in chain;
    forall b | b in chain
      ensures b in code.blocks && Closed(code.blocks[b]) && CheckOps(code.blocks[b].ops, locals, registers).Some?
    {
      assert b in Members(chain);
    }
    ChainEmits(code, chain, a, locals, registers);
    var p := ProgramOf(code, chain, EmitChain(a, code, chain).value.1);
    forall b | b in Members(chain)
      ensures b in p.code && b in p.next && p.next[b] == code.blocks[b].next && EmittedFor(p.code[b], code, code.blocks[b], locals)
    {
      assert b in chain;
    }
  }

  /** Whenever the interpreter halts, and no ordering on the way compares words of different sign, the
      machine reaches the epilogue with the same locals. */
  lemma GeneratedCodeRuns(code: Code, entry: nat, chain: seq<nat>, locals: nat, registers: nat, f: Frame, c: Cpu, n: nat, g: Frame)
    returns (m: nat, d: Cpu)
    requires Chain(code.blocks, entry, chain) && Checked(code.blocks, Members(chain), locals, registers)
    requires |f.locals| == locals && registers <= |f.regs| && InSlots(f.locals, c)
    requires Steps(code, Start(entry, f), n) == Halted(g) && AlwaysAgrees(code, Start(entry, f))
    ensures EmitChain(Alloc(map[], 8 * locals), code, chain).Some?
    ensures var p := ProgramOf(code, chain, EmitChain(Alloc(map[], 8 * locals), code, chain).value.1);
            RunBlocks(p, entry, c, m) == (0, d)
    ensures InSlots(g.locals, d)
  {
    hide Chain, AlwaysAgrees, EmitChain, RunBlocks, Steps, InSlots, Compiled, ProgramOf;
    ChainCompiled(code, entry, chain, locals, registers);
    var p := ProgramOf(code, chain, EmitChain(Alloc(map[], 8 * locals), code, chain).value.1);
    m, d := EnterRefined(code, p, Members(chain), locals, registers, entry, f, c, n, g);
  }

  /** And whenever the machine reaches the epilogue, the interpreter halts with the same locals. */
  lemma GeneratedCodeComesFrom(code: Code, entry: nat, chain: seq<nat>, locals: nat, registers: nat, f: Frame, c: Cpu, m: nat, d: Cpu)
    returns (n: nat, g: Frame)
    requires Chain(code.blocks, entry, chain) && Checked(code.blocks, Members(chain), locals, registers)
    requires |f.locals| == locals && registers <= |f.regs| && InSlots(f.locals, c) && AlwaysAgrees(code, Start(entry, f))
    requires EmitChain(Alloc(map[], 8 * locals), code, chain).Some?
    requires RunBlocks(ProgramOf(code, chain, EmitChain(Alloc(map[], 8 * locals), code, chain).value.1), entry, c, m) == (0, d)
    ensures Steps(code, Start(entry, f), n) == Halted(g) && InSlots(g.locals, d)
  {
    hide Chain, AlwaysAgrees, EmitChain, RunBlocks, Steps, InSlots, Compiled, ProgramOf;
    ChainCompiled(code, entry, chain, locals, registers);
    var p := ProgramOf(code, chain, EmitChain(Alloc(map[], 8 * locals), code, chain).value.1);
    n, g := LeftRefined(code, p, Members(chain), locals, registers, entry, f, c, m, d);
  }

  function Start(entry: nat, f: Frame): Config {
    Running(entry, 0, f)
  }
}
