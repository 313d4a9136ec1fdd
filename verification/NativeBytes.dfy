/** From the source to the bytes: the slot code of a function, written block by block and patched, run
    by a processor that fetches and decodes. */
module NativeBytes {
  import opened Wrappers
  import opened Words
  import opened Ir
  import opened Machine
  import opened Backend
  import opened Refinement
  import opened GeneratedRuns
  import opened Layout
  import opened Landing
  import Shape
  import Bytes
  import Jumps
  import ByteMachine
  import Lowering
  import Simulation
  import Correctness
  import PlainLowering
  import NativeCode
  import Syntax
  import Source

  type Byte = Bytes.Byte

  // ---- the code of a block and how it ends -------------------------------------------------------

  /** A block's code without the jump that ends it. */
  function Body(code: seq<Instr>): seq<Instr> {
    if code != [] && code[|code| - 1].Leaves() then code[..|code| - 1] else code
  }

  function ExitOf(code: seq<Instr>): Jumps.Exit {
    if code == [] then Jumps.Falls else
    match code[|code| - 1]
    case Jump(target) => Jumps.Always(target)
    case JumpIf(cond, target) => Jumps.OnCondition(cond, target)
    case _ => Jumps.Falls
  }

  /** Jumps only at the end, slots within reach. */
  predicate Tidy(code: seq<Instr>, reach: nat) {
    && Straight(Body(code)) && forall i :: i in code ==> ByteMachine.Fitting(i, reach)
  }

  /** Every place is a slot that has been handed out. */
  predicate HomesWithin(a: Alloc) {
    a.used % 8 == 0
    && forall r :: r in a.homes && a.homes[r].place.OnStack? ==> ByteMachine.WholeSlot(a.homes[r].place.offset, a.used)
  }

  /** What one operation emits: slots of the frame as it is afterwards, and at most one jump, last. */
  predicate EmitsTidily(a: Alloc, e: Emitted, leaves: bool) {
    && HomesWithin(e.alloc) && a.used <= e.alloc.used
    && (forall i :: i in e.code ==> ByteMachine.Fitting(i, e.alloc.used))
    && if leaves then Straight(Body(e.code)) else Straight(e.code)
  }

  lemma OperandTidy(a: Alloc, code: Code, to: Register, o: Operand)
    requires HomesWithin(a) && LoadOperand(a, code, to, o).Some?
    ensures var e := LoadOperand(a, code, to, o).value;
            EmitsTidily(a, e, false) && e.alloc.used == a.used
  {
  }

  lemma PairTidy(a: Alloc, code: Code, left: Operand, right: Operand)
    requires HomesWithin(a) && LoadPair(a, code, left, right).Some?
    ensures var e := LoadPair(a, code, left, right).value;
            EmitsTidily(a, e, false) && e.alloc.used == a.used
  {
    hide LoadOperand;
    OperandTidy(a, code, Rax, left);
    OperandTidy(LoadOperand(a, code, Rax, left).value.alloc, code, Rcx, right);
  }

  lemma MoveTidy(a: Alloc, dst: nat, from: Register)
    requires HomesWithin(a)
    ensures EmitsTidily(a, MoveToNewSlot(a, dst, from), false)
  {
  }

  lemma TidyThen(a: Alloc, e: Emitted, more: Emitted)
    requires EmitsTidily(a, e, false) && EmitsTidily(e.alloc, more, false)
    ensures EmitsTidily(a, After(e, more), false)
  {
    FitsWider(e.code, e.alloc.used, more.alloc.used);
  }

  lemma FitsWider(code: seq<Instr>, reach: nat, wider: nat)
    requires (forall i :: i in code ==> ByteMachine.Fitting(i, reach)) && reach <= wider
    ensures forall i :: i in code ==> ByteMachine.Fitting(i, wider)
  {
  }

  lemma ComputeTidy(a: Alloc, code: Code, arith: ArithOp, ty: Ty, dst: nat, left: Operand, right: Operand)
    requires HomesWithin(a) && EmitCompute(a, code, arith, ty, dst, left, right).Some?
    ensures EmitsTidily(a, EmitCompute(a, code, arith, ty, dst, left, right).value, false)
  {
    hide LoadPair, MoveToNewSlot;
    PairTidy(a, code, left, right);
    var p := LoadPair(a, code, left, right).value;
    MoveTidy(p.alloc, dst, Rax);
    var m := MoveToNewSlot(p.alloc, dst, Rax);
    match arith
    case Add => TidyThen(a, Then(p, [AddRR(Rax, Rcx)]), m);
    case Sub => TidyThen(a, Then(p, [SubRR(Rax, Rcx)]), m);
    case _ => TidyThen(a, Emitted(p.alloc, [XorRR(Rdx, Rdx)] + p.code + [MulR(Rcx, ty == I64)]), m);
  }

  lemma OpTidy(env: Pending, a: Alloc, code: Code, op: Op, next: nat, locals: nat, registers: nat)
    requires HomesWithin(a) && 8 * locals <= a.used && CheckOp(env, op, locals, registers).Some?
    requires EmitOp(a, code, op, next).Some?
    ensures EmitsTidily(a, EmitOp(a, code, op, next).value, op.IsBranch())
  {
    match op
    case Load(_, _) => LoadTidy(env, a, code, op, next, locals, registers);
    case Store(_, _) => StoreTidy(env, a, code, op, next, locals, registers);
    case Compute(arith, ty, dst, left, right) => ComputeTidy(a, code, arith, ty, dst, left, right);
    case Negate(dst, src) =>
      hide LoadOperand, MoveToNewSlot, CheckOp;
      OperandTidy(a, code, Rax, src);
      var l := LoadOperand(a, code, Rax, src).value;
      MoveTidy(l.alloc, dst, Rax);
      TidyThen(a, Then(l, [NegR(Rax)]), MoveToNewSlot(l.alloc, dst, Rax));
    case Compare(cmp, dst, left, right) =>
      hide LoadPair, CheckOp;
      PairTidy(a.(homes := a.homes[dst := Home(InFlags(ConditionOf(cmp)), false)]), code, left, right);
    case BranchCond(cond, t, e) =>
      hide CheckOp;
      BranchTidy(a, cond, t, e, next);
    case _ =>
      hide CheckOp;
  }

  lemma LoadTidy(env: Pending, a: Alloc, code: Code, op: Op, next: nat, locals: nat, registers: nat)
    requires HomesWithin(a) && 8 * locals <= a.used && CheckOp(env, op, locals, registers).Some? && op.Load?
    requires EmitOp(a, code, op, next).Some?
    ensures EmitsTidily(a, EmitOp(a, code, op, next).value, false)
  {
    hide LoadOperand, MoveToNewSlot;
    if !op.src.Local? {
      OperandTidy(a, code, Rax, op.src);
      var l := LoadOperand(a, code, Rax, op.src).value;
      MoveTidy(l.alloc, op.dst, Rax);
      TidyThen(a, l, MoveToNewSlot(l.alloc, op.dst, Rax));
    }
  }

  lemma StoreTidy(env: Pending, a: Alloc, code: Code, op: Op, next: nat, locals: nat, registers: nat)
    requires HomesWithin(a) && 8 * locals <= a.used && CheckOp(env, op, locals, registers).Some? && op.Store?
    requires EmitOp(a, code, op, next).Some?
    ensures EmitsTidily(a, EmitOp(a, code, op, next).value, false)
  {
    hide LoadOperand, Consume;
    if !op.src.Imm? {
      OperandTidy(a, code, Rax, op.src);
    }
  }

  lemma BranchTidy(a: Alloc, cond: Operand, t: nat, e: nat, next: nat)
    requires HomesWithin(a) && EmitBranch(a, cond, t, e, next).Some?
    ensures EmitsTidily(a, EmitBranch(a, cond, t, e, next).value, true)
  {
  }

  /** Every jump goes to a block of `home`. */
  predicate JumpsInto(code: seq<Instr>, home: set<nat>) {
    forall i :: i in code ==> (i.Jump? ==> i.target in home) && (i.JumpIf? ==> i.target in home)
  }

  lemma OpJumps(a: Alloc, code: Code, op: Op, next: nat, home: set<nat>)
    requires op.IsBranch() && OpLands(op, home) && EmitOp(a, code, op, next).Some?
    ensures JumpsInto(EmitOp(a, code, op, next).value.code, home)
  {
  }

  lemma StraightJumps(code: seq<Instr>, home: set<nat>)
    requires Straight(code)
    ensures JumpsInto(code, home)
  {
  }

  lemma BodyAfter(p: seq<Instr>, q: seq<Instr>)
    requires Straight(p)
    ensures Body(p + q) == p + Body(q) && (q == [] ==> Body(p + q) == p)
  {
    if q == [] {
      assert p + q == p;
    } else {
      assert (p + q)[|p + q| - 1] == q[|q| - 1];
      assert (p + q)[..|p + q| - 1] == p + q[..|q| - 1];
    }
  }

  /** A block, from operation `pc`. */
  lemma {:induction false} OpsTidy(blk: Block, pc: nat, a: Alloc, code: Code, locals: nat, registers: nat, home: set<nat>)
    requires Closed(blk) && OpsLand(blk.ops, home) && CheckOps(blk.ops, locals, registers).Some? && pc <= |blk.ops|
    requires HomesWithin(a) && 8 * locals <= a.used && EmitOps(a, code, blk.ops[pc..], blk.next).Some?
    ensures EmitsTidily(a, EmitOps(a, code, blk.ops[pc..], blk.next).value, true)
    ensures JumpsInto(EmitOps(a, code, blk.ops[pc..], blk.next).value.code, home)
    decreases |blk.ops| - pc
  {
    hide CheckOp, CheckOps, EmitOp, Closed, OpLands;
    var ops := blk.ops[pc..];
    if ops != [] {
      assert ops[0] == blk.ops[pc] && ops[1..] == blk.ops[pc + 1..];
      CheckPrefix(blk.ops, pc, locals, registers);
      BranchIsLast(blk, pc);
      OpTidy(CheckOps(blk.ops[..pc], locals, registers).value, a, code, ops[0], blk.next, locals, registers);
      var first := EmitOp(a, code, ops[0], blk.next).value;
      OpsTidy(blk, pc + 1, first.alloc, code, locals, registers, home);
      var rest := EmitOps(first.alloc, code, ops[1..], blk.next).value;
      FitsWider(first.code, first.alloc.used, rest.alloc.used);
      if ops[0].IsBranch() {
        OpJumps(a, code, ops[0], blk.next, home);
        assert rest.code == [] && first.code + [] == first.code;
      } else {
        StraightJumps(first.code, home);
        BodyAfter(first.code, rest.code);
      }
    }
  }

  /** The blocks of a function, with the frame they leave. */
  lemma {:induction false} ChainTidy(a: Alloc, code: Code, chain: seq<nat>, locals: nat, registers: nat, home: set<nat>)
    requires HomesWithin(a) && 8 * locals <= a.used && EmitChain(a, code, chain).Some?
    requires forall b :: b in chain ==> b in code.blocks && Closed(code.blocks[b]) && CheckOps(code.blocks[b].ops, locals, registers).Some?
    requires forall b :: b in chain ==> OpsLand(code.blocks[b].ops, home)
    ensures var (last, text) := EmitChain(a, code, chain).value;
            && a.used <= last.used && (forall b :: b in text ==> Tidy(text[b], last.used) && JumpsInto(text[b], home))
    decreases |chain|
  {
    hide CheckOps, EmitOps, Closed, OpsLand, JumpsInto;
    if chain != [] {
      var blk := code.blocks[chain[0]];
      assert blk.ops[0..] == blk.ops;
      OpsTidy(blk, 0, a, code, locals, registers, home);
      var first := EmitOps(a, code, blk.ops, blk.next).value;
      ChainTidy(first.alloc, code, chain[1..], locals, registers, home);
      FitsWider(first.code, first.alloc.used, EmitChain(first.alloc, code, chain[1..]).value.0.used);
    }
  }

  // ---- one block as bytes ------------------------------------------------------------------------

  /** The bytes of a block before its jump, and the jump. */
  function PieceFor(code: seq<Instr>): Jumps.Piece
    requires Tidy(code, ByteMachine.FRAME_LIMIT)
  {
    BodyPlain(code);
    Jumps.Piece(ByteMachine.WrittenAll(Body(code)), ExitOf(code))
  }

  lemma BodyPlain(code: seq<Instr>)
    requires Tidy(code, ByteMachine.FRAME_LIMIT)
    ensures ByteMachine.Plain(Body(code))
  {
  }

  predicate AllTidy(text: map<nat, seq<Instr>>) {
    forall b :: b in text ==> Tidy(text[b], ByteMachine.FRAME_LIMIT)
  }

  function PiecesFor(text: map<nat, seq<Instr>>): Jumps.Pieces
    requires AllTidy(text)
  {
    map b | b in text :: PieceFor(text[b])
  }

  /** Control at the end of a block. */
  function Leave(exit: Jumps.Exit, next: nat, c: Cpu): nat {
    match exit
    case Falls => next
    case Always(target) => target
    case OnCondition(cond, target) => if c.flags.Some? && Holds(cond, c.flags.value) then target else next
  }

  lemma RunCodeEnds(code: seq<Instr>, next: nat, c: Cpu)
    requires Straight(Body(code))
    ensures var d := PerformAll(Body(code), c); RunCode(code, next, c) == (Leave(ExitOf(code), next, d), d)
  {
    var body := Body(code);
    if code == body {
      assert code + [] == code;
      RunStraight(code, [], next, c);
    } else {
      var last := code[|code| - 1];
      assert code == body + [last];
      RunStraight(body, [last], next, c);
      assert [last][1..] == [];
    }
  }

  /** Where a block starts; block 0 is the epilogue, right behind the last block. */
  function Address(t: Jumps.Text, b: nat): nat {
    if b == 0 then |t.bytes| else Jumps.Offset(t, b)
  }

  /** How many instructions a block takes. */
  function Length(code: seq<Instr>): nat {
    |Body(code)| + if ExitOf(code).Aims() then 1 else 0
  }

  /** The bytes of a block stand at `at`: its body, then its jump, which goes to `target`; the next
      block starts at `end`. */
  predicate Stands(bytes: seq<Byte>, at: nat, code: seq<Instr>, end: nat, target: int)
    requires Tidy(code, ByteMachine.FRAME_LIMIT)
  {
    var body := PieceFor(code).body;
    var exit := ExitOf(code);
    var site := at + |body|;
    && site <= |bytes| && bytes[at..site] == body
    && if exit.Falls? then end == site
       else Jumps.OpensAs(bytes, site, exit) && Jumps.Destination(bytes, site) == Some(target)
            && (exit.OnCondition? ==> end == site + 6)
  }

  function Arrival(exit: Jumps.Exit, end: nat, target: int, c: Cpu): int {
    match exit
    case Falls => end
    case Always(_) => target
    case OnCondition(cond, _) => if c.flags.Some? && Holds(cond, c.flags.value) then target else end
  }

  lemma StandingRuns(bytes: seq<Byte>, at: nat, code: seq<Instr>, end: nat, target: int, c: Cpu)
    requires Tidy(code, ByteMachine.FRAME_LIMIT) && Stands(bytes, at, code, end, target)
    ensures var d := PerformAll(Body(code), c);
            ByteMachine.Run(bytes, ByteMachine.Core(at, c), Length(code))
            == Some(ByteMachine.Core(Arrival(ExitOf(code), end, target, d), d))
  {
    hide Tidy, Body, Jumps.Destination, ByteMachine.WrittenAll, ByteMachine.Step, PerformAll;
    var body := Body(code);
    BodyPlain(code);
    var site := at + |ByteMachine.WrittenAll(body)|;
    ByteMachine.RunWritten(bytes, at, body, c);
    var d := PerformAll(body, c);
    ByteMachine.RunAdd(bytes, ByteMachine.Core(at, c), |body|, Length(code) - |body|);
    hide ByteMachine.Plain;
    match ExitOf(code)
    case Falls => OneOrNone(bytes, ByteMachine.Core(site, d));
    case Always(_) =>
      ByteMachine.StepJump(bytes, site, d, target);
      OneOrNone(bytes, ByteMachine.Core(site, d));
    case OnCondition(cond, _) =>
      ByteMachine.StepJumpIf(bytes, site, d, cond, target);
      OneOrNone(bytes, ByteMachine.Core(site, d));
  }

  lemma OneOrNone(bytes: seq<Byte>, c: ByteMachine.Core)
    ensures ByteMachine.Run(bytes, c, 0) == Some(c) && ByteMachine.Run(bytes, c, 1) == ByteMachine.Step(bytes, c)
  {
    hide ByteMachine.Step;
    var next := ByteMachine.Step(bytes, c);
    if next.Some? {
      assert ByteMachine.Run(bytes, next.value, 0) == next;
    }
  }

  lemma SoundStands(t: Jumps.Text, chain: seq<nat>, text: map<nat, seq<Instr>>, i: nat)
    requires i < |chain| && chain[i] in text && AllTidy(text) && 0 !in chain
    requires Jumps.Sound(t, chain, PiecesFor(text), i) && !Jumps.Missed(t, chain, PiecesFor(text), i)
    ensures Stands(Jumps.Finished(t), Address(t, chain[i]), text[chain[i]], Address(t, (chain + [0])[i + 1]),
                   Jumps.Offset(t, PieceFor(text[chain[i]]).exit.Target()))
  {
    hide Jumps.Finished, Jumps.Missed, Jumps.Destination, Tidy, PieceFor, Jumps.Offset, Jumps.OpensAs;
    Jumps.FinishedLength(t);
    assert Jumps.PieceOf(PiecesFor(text), chain[i]) == PieceFor(text[chain[i]]);
    PieceExit(text[chain[i]]);
  }

  lemma PieceExit(code: seq<Instr>)
    requires Tidy(code, ByteMachine.FRAME_LIMIT)
    ensures PieceFor(code).exit == ExitOf(code)
  {
  }

  /** The bytes of a block take the processor where the block goes, with what the block computes. */
  lemma BlockAsBytes(t: Jumps.Text, chain: seq<nat>, text: map<nat, seq<Instr>>, i: nat, c: Cpu)
    requires i < |chain| && chain[i] in text && AllTidy(text) && 0 !in chain
    requires Jumps.Sound(t, chain, PiecesFor(text), i) && !Jumps.Missed(t, chain, PiecesFor(text), i)
    requires ExitOf(text[chain[i]]).Aims() ==> ExitOf(text[chain[i]]).target in chain
    ensures var (b, d) := RunCode(text[chain[i]], (chain + [0])[i + 1], c);
            ByteMachine.Run(Jumps.Finished(t), ByteMachine.Core(Address(t, chain[i]), c), Length(text[chain[i]]))
            == Some(ByteMachine.Core(Address(t, b), d))
  {
    hide Jumps.Finished, Jumps.Missed, Jumps.Sound, Stands, Tidy, RunCode, Jumps.Offset, Length, Body, ExitOf, ByteMachine.Run;
    var code := text[chain[i]];
    SoundStands(t, chain, text, i);
    PieceExit(code);
    BodyStraight(code);
    RunCodeEnds(code, (chain + [0])[i + 1], c);
    StandingRuns(Jumps.Finished(t), Address(t, chain[i]), code, Address(t, (chain + [0])[i + 1]), Jumps.Offset(t, ExitOf(code).Target()), c);
  }

  lemma BodyStraight(code: seq<Instr>)
    requires Tidy(code, ByteMachine.FRAME_LIMIT)
    ensures Straight(Body(code))
  {
  }

  // ---- runs --------------------------------------------------------------------------------------

  /** The bytes of all blocks are in place and no jump misses. */
  ghost predicate InPlace(t: Jumps.Text, chain: seq<nat>, text: map<nat, seq<Instr>>) {
    && AllTidy(text) && text.Keys == Members(chain) && 0 !in chain
    && forall i :: 0 <= i < |chain| ==>
         && Jumps.Sound(t, chain, PiecesFor(text), i) && !Jumps.Missed(t, chain, PiecesFor(text), i)
         && JumpsInto(text[chain[i]], Members(chain))
  }

  /** The processor runs the bytes of one block, and control stays within the function. */
  lemma OneBlockAsBytes(t: Jumps.Text, chain: seq<nat>, p: Program, i: nat, c: Cpu)
    requires InPlace(t, chain, p.code) && i < |chain| && chain[i] in p.next && p.next[chain[i]] == (chain + [0])[i + 1]
    ensures chain[i] in p.code
    ensures var (b, d) := RunCode(p.code[chain[i]], p.next[chain[i]], c);
            && (b == 0 || b in chain)
            && ByteMachine.Run(Jumps.Finished(t), ByteMachine.Core(Address(t, chain[i]), c), Length(p.code[chain[i]]))
               == Some(ByteMachine.Core(Address(t, b), d))
  {
    hide Jumps.Finished, Jumps.Missed, Jumps.Sound, RunCode, Address, ByteMachine.Run, AllTidy, PiecesFor, JumpsInto, Length, ExitOf;
    var b := chain[i];
    assert b in Members(chain);
    var code := p.code[b];
    TidyOne(p.code, b);
    ExitInside(code, Members(chain));
    BlockAsBytes(t, chain, p.code, i, c);
    NextInside(code, p.next[b], c, chain, i);
  }

  /** A run of the blocks that reaches the epilogue, as a run of the bytes. */
  lemma {:induction false} BytesFollow(t: Jumps.Text, chain: seq<nat>, p: Program, b: nat, c: Cpu, m: nat, d: Cpu) returns (k: nat)
    requires InPlace(t, chain, p.code) && (b == 0 || b in chain)
    requires forall i :: 0 <= i < |chain| ==> chain[i] in p.next && p.next[chain[i]] == (chain + [0])[i + 1]
    requires RunBlocks(p, b, c, m) == (0, d)
    ensures ByteMachine.Run(Jumps.Finished(t), ByteMachine.Core(Address(t, b), c), k) == Some(ByteMachine.Core(|t.bytes|, d))
    decreases m
  {
    hide Jumps.Finished, Jumps.Missed, Jumps.Sound, RunCode, Address, ByteMachine.Run, AllTidy, PiecesFor, JumpsInto, Length;
    if b == 0 {
      assert c == d by { assert 0 !in p.code by { NoCodeAtZero(t, chain, p.code); } }
      k := 0;
      AtTheEnd(t, c);
      return;
    }
    hide InPlace;
    var i :| 0 <= i < |chain| && chain[i] == b;
    OneBlockAsBytes(t, chain, p, i, c);
    var (b', c') := RunCode(p.code[b], p.next[b], c);
    var rest := BytesFollow(t, chain, p, b', c', m - 1, d);
    ByteMachine.RunAdd(Jumps.Finished(t), ByteMachine.Core(Address(t, b), c), Length(p.code[b]), rest);
    k := Length(p.code[b]) + rest;
  }

  lemma NoCodeAtZero(t: Jumps.Text, chain: seq<nat>, text: map<nat, seq<Instr>>)
    requires InPlace(t, chain, text)
    ensures 0 !in text
  {
  }

  lemma EndsAtEnd(t: Jumps.Text, c: ByteMachine.Core, k: nat, n: nat)
    requires ByteMachine.Run(Jumps.Finished(t), c, n).Some?
    requires ByteMachine.Run(Jumps.Finished(t), c, k).Some? && ByteMachine.Run(Jumps.Finished(t), c, k).value.ip == |t.bytes|
    ensures n <= k
  {
    hide ByteMachine.Step;
    if k < n {
      ByteMachine.RunAdd(Jumps.Finished(t), c, k, n - k);
      Jumps.FinishedLength(t);
      NoStepAtEnd(Jumps.Finished(t), ByteMachine.Run(Jumps.Finished(t), c, k).value);
    }
  }

  lemma NoStepAtEnd(bytes: seq<Byte>, c: ByteMachine.Core)
    requires c.ip == |bytes|
    ensures ByteMachine.Step(bytes, c).None?
  {
  }

  /** A run of the bytes that arrives behind the last block, as a run of the blocks. */
  lemma {:induction false} BlocksBehindBytes(t: Jumps.Text, chain: seq<nat>, p: Program, b: nat, c: Cpu, k: nat, d: Cpu, at: nat)
    returns (m: nat)
    requires InPlace(t, chain, p.code) && (b == 0 || (at < |chain| && chain[at] == b))
    requires forall i :: 0 <= i < |chain| ==> chain[i] in p.next && p.next[chain[i]] == (chain + [0])[i + 1]
    requires ByteMachine.Run(Jumps.Finished(t), ByteMachine.Core(Address(t, b), c), k) == Some(ByteMachine.Core(|t.bytes|, d))
    ensures RunBlocks(p, b, c, m) == (0, d)
    decreases k, if b == 0 then 0 else |chain| - at
  {
    hide Jumps.Finished, Jumps.Missed, Jumps.Sound, RunCode, Address, ByteMachine.Run, AllTidy, PiecesFor, JumpsInto, Length;
    var here := ByteMachine.Core(Address(t, b), c);
    if b == 0 {
      AtTheEnd(t, c);
      StopsAtEnd(t, c, k, d);
      return 0;
    }
    hide InPlace;
    OneBlockAsBytes(t, chain, p, at, c);
    var (b', c') := RunCode(p.code[b], p.next[b], c);
    var n := Length(p.code[b]);
    EndsAtEnd(t, here, k, n);
    ByteMachine.RunAdd(Jumps.Finished(t), here, n, k - n);
    ShortBlock(p.code[b], p.next[b], c);
    var next := if b' == 0 then 0 else if n == 0 then at + 1 else (var i :| 0 <= i < |chain| && chain[i] == b'; i);
    m := BlocksBehindBytes(t, chain, p, b', c', k - n, d, next);
    m := m + 1;
  }

  lemma StopsAtEnd(t: Jumps.Text, c: Cpu, k: nat, d: Cpu)
    requires ByteMachine.Run(Jumps.Finished(t), ByteMachine.Core(Address(t, 0), c), k) == Some(ByteMachine.Core(|t.bytes|, d))
    ensures c == d
  {
    hide ByteMachine.Step;
    Jumps.FinishedLength(t);
    NoStepAtEnd(Jumps.Finished(t), ByteMachine.Core(|t.bytes|, c));
  }

  /** A block without instructions falls into the next one. */
  lemma ShortBlock(code: seq<Instr>, next: nat, c: Cpu)
    ensures Length(code) == 0 ==> RunCode(code, next, c) == (next, c)
  {
  }

  lemma TidyOne(text: map<nat, seq<Instr>>, b: nat)
    requires AllTidy(text) && b in text
    ensures Tidy(text[b], ByteMachine.FRAME_LIMIT)
  {
  }

  lemma AtTheEnd(t: Jumps.Text, c: Cpu)
    ensures ByteMachine.Run(Jumps.Finished(t), ByteMachine.Core(Address(t, 0), c), 0) == Some(ByteMachine.Core(|t.bytes|, c))
  {
  }

  lemma ExitInside(code: seq<Instr>, home: set<nat>)
    requires JumpsInto(code, home)
    ensures ExitOf(code).Aims() ==> ExitOf(code).target in home
  {
    if code != [] {
      assert code[|code| - 1] in code;
    }
  }

  lemma NextInside(code: seq<Instr>, next: nat, c: Cpu, chain: seq<nat>, i: nat)
    requires Tidy(code, ByteMachine.FRAME_LIMIT) && JumpsInto(code, Members(chain)) && i < |chain| && next == (chain + [0])[i + 1]
    ensures var b := RunCode(code, next, c).0; b == 0 || b in chain
  {
    hide RunCode;
    BodyStraight(code);
    RunCodeEnds(code, next, c);
    ExitInside(code, Members(chain));
  }

  // ---- from the source ---------------------------------------------------------------------------

  /** The slot code of a function, if its frame is within reach of a 32-bit displacement. */
  function SlotCode(code: Code, chain: seq<nat>, locals: nat): Option<map<nat, seq<Instr>>> {
    var emitted := EmitChain(Alloc(map[], 8 * locals), code, chain);
    if emitted.None? || emitted.value.0.used > ByteMachine.FRAME_LIMIT || !AllTidy(emitted.value.1) then None
    else Some(emitted.value.1)
  }

  /** The text section after the function: its blocks behind `start`, the jumps not patched yet. */
  function TextOf(start: seq<Byte>, chain: seq<nat>, text: map<nat, seq<Instr>>): Jumps.Text
    requires AllTidy(text)
  {
    Jumps.EmitPieces(Jumps.Text(start, map[], map[], []), chain, PiecesFor(text))
  }

  /** Less than 2 GiB of code and no jump back over exactly 127 or 128 bytes. */
  predicate JumpsReach(start: seq<Byte>, chain: seq<nat>, text: map<nat, seq<Instr>>)
    requires AllTidy(text)
  {
    && |TextOf(start, chain, text).bytes| < 0x7FFF_FFF0
    && forall i :: 0 <= i < |chain| ==> !Jumps.Missed(TextOf(start, chain, text), chain, PiecesFor(text), i)
  }

  /** The code of a checked function fits once its frame does. */
  lemma SlotCodeExists(code: Code, entry: nat, chain: seq<nat>, locals: nat, registers: nat)
    requires Chain(code.blocks, entry, chain) && Checked(code.blocks, Members(chain), locals, registers)
    requires EmitChain(Alloc(map[], 8 * locals), code, chain).Some?
    ensures var (last, text) := EmitChain(Alloc(map[], 8 * locals), code, chain).value;
            && (last.used <= ByteMachine.FRAME_LIMIT ==> SlotCode(code, chain, locals) == Some(text))
            && forall b :: b in text ==> JumpsInto(text[b], Members(chain))
  {
    hide EmitChain, CheckOps, OpLands, Closed, Tidy, JumpsInto;
    forall b | b in chain
      ensures b in code.blocks && Closed(code.blocks[b]) && CheckOps(code.blocks[b].ops, locals, registers).Some?
      ensures OpsLand(code.blocks[b].ops, Members(chain))
    {
      assert b in Members(chain);
    }
    ChainTidy(Alloc(map[], 8 * locals), code, chain, locals, registers, Members(chain));
    var (last, text) := EmitChain(Alloc(map[], 8 * locals), code, chain).value;
    forall b | b in text && last.used <= ByteMachine.FRAME_LIMIT
      ensures Tidy(text[b], ByteMachine.FRAME_LIMIT)
    {
      TidyWider(text[b], last.used, ByteMachine.FRAME_LIMIT);
    }
  }

  lemma TidyWider(code: seq<Instr>, reach: nat, wider: nat)
    requires Tidy(code, reach) && reach <= wider
    ensures Tidy(code, wider)
  {
    FitsWider(code, reach, wider);
  }

  lemma TextInPlace(start: seq<Byte>, chain: seq<nat>, text: map<nat, seq<Instr>>)
    requires AllTidy(text) && text.Keys == Members(chain) && 0 !in chain && Shape.Distinct(chain)
    requires forall b :: b in text ==> JumpsInto(text[b], Members(chain))
    requires JumpsReach(start, chain, text)
    ensures InPlace(TextOf(start, chain, text), chain, text)
  {
    hide Jumps.Sound, Jumps.Missed, Tidy, JumpsInto, Jumps.EmitPieces;
    forall i | 0 <= i < |chain|
      ensures Jumps.Sound(TextOf(start, chain, text), chain, PiecesFor(text), i)
    {
      assert chain[i] in text;
      ExitInside(text[chain[i]], Members(chain));
      assert Jumps.PieceOf(PiecesFor(text), chain[i]) == PieceFor(text[chain[i]]);
      PieceExit(text[chain[i]]);
      Jumps.JumpsLand(start, chain, PiecesFor(text), i);
    }
  }

  /** A plain function whose source run ends, all the way down: the processor, started on the bytes
      of its first block, arrives behind its last block with the source's locals in their slots,
      provided the frame and the code are within reach, no jump goes back over exactly 127 or 128
      bytes and no ordering on the way compares words of different sign. */
  lemma NativeBytesPreserveMeaning(s: Lowering.State, body: Syntax.Stmt, f: Frame, c: Cpu, fuel: nat, start: seq<Byte>)
    returns (chain: seq<nat>, k: nat, d: Cpu)
    requires Correctness.AtEntry(s) && PlainLowering.Plain(body) && Syntax.ResolveStmt(body, s.locals, []).Some?
    requires var t := Correctness.LowerBody(s, body); |f.locals| == t.locals && |t.regs| <= |f.regs| && InSlots(f.locals, c)
    requires Source.RunStmt(body, f.locals, fuel).Done?
    requires AlwaysAgrees(Correctness.Finished(Correctness.LowerBody(s, body)), GeneratedRuns.Start(s.current, f))
    ensures var code := Correctness.Finished(Correctness.LowerBody(s, body));
            var emitted := EmitChain(Alloc(map[], 8 * |f.locals|), code, chain);
            && Chain(code.blocks, s.current, chain) && emitted.Some?
            && (emitted.value.0.used <= ByteMachine.FRAME_LIMIT ==> SlotCode(code, chain, |f.locals|) == Some(emitted.value.1))
    ensures var text := SlotCode(Correctness.Finished(Correctness.LowerBody(s, body)), chain, |f.locals|);
            text.Some? && JumpsReach(start, chain, text.value) ==>
              var t := TextOf(start, chain, text.value);
              ByteMachine.Run(Jumps.Finished(t), ByteMachine.Core(Jumps.Offset(t, s.current), c), k)
              == Some(ByteMachine.Core(|t.bytes|, d))
    ensures InSlots(Source.RunStmt(body, f.locals, fuel).store, d)
  {
    hide Correctness.LowerBody, Source.RunStmt, Syntax.ResolveStmt, PlainLowering.Plain, AlwaysAgrees, InSlots, Checked, Chain, EmitChain,
      RunBlocks, Correctness.AtEntry, JumpsReach, AllTidy, ByteMachine.Run, Jumps.Finished;
    var t := Correctness.LowerBody(s, body);
    var code := Correctness.Finished(t);
    PlainLowering.PlainSupported(body);
    chain := PlainLowering.PlainFunctionChecked(s, body);
    var n, g := Correctness.BodyPreservesMeaning(s, body, f, fuel);
    var m;
    m, d := GeneratedCodeRuns(code, s.current, chain, |f.locals|, |t.regs|, f, c, n, g);
    SlotCodeExists(code, s.current, chain, |f.locals|, |t.regs|);
    k := 0;
    var text := SlotCode(code, chain, |f.locals|);
    if text.Some? && JumpsReach(start, chain, text.value) {
      k := BytesOf(code, s.current, chain, text.value, |f.locals|, |t.regs|, start, c, m, d);
    }
  }

  /** The function of a layout chain is in place once its code fits and its jumps reach. */
  lemma FunctionInPlace(code: Code, entry: nat, chain: seq<nat>, text: map<nat, seq<Instr>>, locals: nat, registers: nat, start: seq<Byte>)
    requires Chain(code.blocks, entry, chain) && Checked(code.blocks, Members(chain), locals, registers)
    requires SlotCode(code, chain, locals) == Some(text) && AllTidy(text) && JumpsReach(start, chain, text)
    ensures var p := ProgramOf(code, chain, text);
            && InPlace(TextOf(start, chain, text), chain, p.code) && chain[0] == entry != 0
            && forall i :: 0 <= i < |chain| ==> chain[i] in p.next && p.next[chain[i]] == (chain + [0])[i + 1]
  {
    hide EmitChain, CheckOps, OpLands, Closed, Tidy, JumpsInto, JumpsReach, InPlace, EmittedFor, TextOf, AllTidy, Contained;
    SlotCodeExists(code, entry, chain, locals, registers);
    forall b | b in chain
      ensures b in code.blocks && Closed(code.blocks[b]) && CheckOps(code.blocks[b].ops, locals, registers).Some? && b != 0
    {
      assert b in Members(chain);
    }
    ChainEmits(code, chain, Alloc(map[], 8 * locals), locals, registers);
    TextInPlace(start, chain, text);
    assert entry in chain;
  }

  lemma BytesOf(code: Code, entry: nat, chain: seq<nat>, text: map<nat, seq<Instr>>, locals: nat, registers: nat,
                start: seq<Byte>, c: Cpu, m: nat, d: Cpu) returns (k: nat)
    requires Chain(code.blocks, entry, chain) && Checked(code.blocks, Members(chain), locals, registers)
    requires SlotCode(code, chain, locals) == Some(text) && AllTidy(text) && JumpsReach(start, chain, text)
    requires RunBlocks(ProgramOf(code, chain, text), entry, c, m) == (0, d)
    ensures var t := TextOf(start, chain, text);
            ByteMachine.Run(Jumps.Finished(t), ByteMachine.Core(Jumps.Offset(t, entry), c), k) == Some(ByteMachine.Core(|t.bytes|, d))
  {
    hide SlotCode, JumpsReach, InPlace, ByteMachine.Run, Jumps.Finished, TextOf, AllTidy, RunBlocks, ProgramOf;
    FunctionInPlace(code, entry, chain, text, locals, registers, start);
    k := BytesFollow(TextOf(start, chain, text), chain, ProgramOf(code, chain, text), entry, c, m, d);
  }

  /** The converse: when the processor, started on a plain function, arrives behind its last block, the
      source run ends and its locals are in their slots. */
  lemma NativeBytesComeFromSource(s: Lowering.State, body: Syntax.Stmt, f: Frame, c: Cpu, start: seq<Byte>, chain: seq<nat>, k: nat, d: Cpu)
    returns (fuel: nat)
    requires Correctness.AtEntry(s) && PlainLowering.Plain(body) && Syntax.ResolveStmt(body, s.locals, []).Some?
    requires var t := Correctness.LowerBody(s, body); |f.locals| == t.locals && |t.regs| <= |f.regs| && InSlots(f.locals, c)
    requires AlwaysAgrees(Correctness.Finished(Correctness.LowerBody(s, body)), GeneratedRuns.Start(s.current, f))
    requires Chain(Correctness.LowerBody(s, body).blocks, s.current, chain)
    requires var text := SlotCode(Correctness.Finished(Correctness.LowerBody(s, body)), chain, |f.locals|);
             && text.Some? && JumpsReach(start, chain, text.value)
             && var t := TextOf(start, chain, text.value);
                ByteMachine.Run(Jumps.Finished(t), ByteMachine.Core(Jumps.Offset(t, s.current), c), k) == Some(ByteMachine.Core(|t.bytes|, d))
    ensures Source.RunStmt(body, f.locals, fuel).Done? && InSlots(Source.RunStmt(body, f.locals, fuel).store, d)
  {
    hide Correctness.LowerBody, Source.RunStmt, Syntax.ResolveStmt, PlainLowering.Plain, AlwaysAgrees, InSlots, Checked, EmitChain,
      RunBlocks, Correctness.AtEntry, JumpsReach, AllTidy, ByteMachine.Run, Jumps.Finished, InPlace, ProgramOf;
    var t := Correctness.LowerBody(s, body);
    var code := Correctness.Finished(t);
    var text := SlotCode(code, chain, |f.locals|).value;
    var path := PlainLowering.PlainFunctionChecked(s, body);
    NativeCode.NoBlockZero(s, body);
    NativeCode.OneChain(t.blocks, s.current, path, chain);
    hide Chain;
    FunctionInPlace(code, s.current, chain, text, |f.locals|, |t.regs|, start);
    var m := BlocksBehindBytes(TextOf(start, chain, text), chain, ProgramOf(code, chain, text), s.current, c, k, d, 0);
    fuel := NativeCode.NativeCodeComesFromSource(s, body, f, c, chain, m, d);
  }
}
