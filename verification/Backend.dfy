/** The x86-64 back end on 64-bit integers (`backends/x86_64.c:341-503, 1394-1459, 1553-1599,
    1636-2173, 2371-2411, 2448-2463, 2533-2537`).  Every IR register lives in a frame slot, a
    comparison lives in the flags, and a load of a local emits nothing: the register takes over the
    local's slot. */
module Backend {
  import opened Wrappers
  import opened Words
  import opened Ir
  import opened Machine
  import Align

  /** Where the value of an IR register is. */
  datatype Place = OnStack(offset: nat) | InFlags(cond: Condition)

  /** `usedUp` is the debug flag that stops a register from being read twice. */
  datatype Home = Home(place: Place, usedUp: bool)

  /** The allocation state: the place of every register so far and the bytes of frame in use. */
  datatype Alloc = Alloc(homes: map<nat, Home>, used: nat)

  datatype Emitted = Emitted(alloc: Alloc, code: seq<Instr>)

  /** The slot of local `x` when every local is 8 bytes. */
  function LocalOffset(x: nat): nat {
    8 * (x + 1)
  }

  /** The slots are those that the loop over the locals hands out. */
  lemma LocalsInOrder(x: nat)
    ensures LocalOffset(0) == Align.Forward(0 + 8, 8) && LocalOffset(x + 1) == Align.Forward(LocalOffset(x) + 8, 8)
  {
  }

  function TempOffset(a: Alloc): nat {
    Align.Forward(a.used + 8, 8)
  }

  /** `x86_64_move_reg_alloc`: the result of an operation goes to a new slot. */
  function MoveToNewSlot(a: Alloc, dst: nat, from: Register): Emitted {
    Emitted(Alloc(a.homes[dst := Home(OnStack(TempOffset(a)), false)], TempOffset(a)), [StoreSlot(TempOffset(a), from)])
  }

  /** `x86_64_load_operand_with_type`.  `None` is a failed assertion, or the SETcc of a comparison
      used as a number, which is not modelled. */
  function LoadOperand(a: Alloc, code: Code, to: Register, o: Operand): Option<Emitted> {
    match o
    case Imm(n) => Some(Emitted(a, [LoadImm(to, Payload(n))]))
    case Literal(i) => Some(Emitted(a, [LoadImm(to, Read(code.literals, i))]))
    case Local(_) => None
    case Reg(r) =>
      if r !in a.homes || a.homes[r].usedUp || a.homes[r].place.InFlags? then None
      else Some(Emitted(a.(homes := a.homes[r := a.homes[r].(usedUp := true)]), [LoadSlot(to, a.homes[r].place.offset)]))
  }

  /** Two operands into `rax` and `rcx`. */
  function LoadPair(a: Alloc, code: Code, left: Operand, right: Operand): Option<Emitted> {
    var l := LoadOperand(a, code, Rax, left);
    if l.None? then None else
    var r := LoadOperand(l.value.alloc, code, Rcx, right);
    if r.None? then None else Some(Emitted(r.value.alloc, l.value.code + r.value.code))
  }

  /** `more` after what has been emitted. */
  function After(e: Emitted, more: Emitted): Emitted {
    Emitted(more.alloc, e.code + more.code)
  }

  function Then(e: Emitted, code: seq<Instr>): Emitted {
    e.(code := e.code + code)
  }

  /** The result of the code emitted so far, moved from `rax` to a new slot for `dst`. */
  function IntoNewSlot(e: Emitted, dst: nat): Emitted {
    var m := MoveToNewSlot(e.alloc, dst, Rax);
    Emitted(m.alloc, e.code + m.code)
  }

  function EmitCompute(a: Alloc, code: Code, arith: ArithOp, ty: Ty, dst: nat, left: Operand, right: Operand): Option<Emitted> {
    var p := LoadPair(a, code, left, right);
    if p.None? then None else
    match arith
    case Add => Some(IntoNewSlot(Then(p.value, [AddRR(Rax, Rcx)]), dst))
    case Sub => Some(IntoNewSlot(Then(p.value, [SubRR(Rax, Rcx)]), dst))
    case Mul => Some(IntoNewSlot(Emitted(p.value.alloc, [XorRR(Rdx, Rdx)] + p.value.code + [MulR(Rcx, ty == I64)]), dst))
    case _ => None
  }

  /** The code for one operation of a block whose layout successor is `next`. */
  function EmitOp(a: Alloc, code: Code, op: Op, next: nat): Option<Emitted> {
    match op
    case Load(dst, Local(x)) => Some(Emitted(a.(homes := a.homes[dst := Home(OnStack(LocalOffset(x)), false)]), []))
    case Load(_, Reg(_)) => None
    case Load(dst, src) =>
      var l := LoadOperand(a, code, Rax, src);
      if l.None? then None else Some(IntoNewSlot(l.value, dst))
    case Store(Local(x), Imm(n)) => Some(Emitted(a, [StoreImm(LocalOffset(x), Payload(n))]))
    case Store(Local(x), src) =>
      var l := LoadOperand(a, code, Rax, src);
      if l.None? then None else Some(Then(l.value, [StoreSlot(LocalOffset(x), Rax)]))
    case Compute(arith, ty, dst, left, right) => EmitCompute(a, code, arith, ty, dst, left, right)
    case Negate(dst, src) =>
      var l := LoadOperand(a, code, Rax, src);
      if l.None? then None else Some(IntoNewSlot(Then(l.value, [NegR(Rax)]), dst))
    case Compare(cmp, dst, left, right) =>
      var p := LoadPair(a.(homes := a.homes[dst := Home(InFlags(ConditionOf(cmp)), false)]), code, left, right);
      if p.None? then None else Some(Then(p.value, [CmpRR(Rax, Rcx)]))
    case Branch(target) => Some(Emitted(a, [Jump(target)]))
    case BranchCond(cond, t, e) => EmitBranch(a, cond, t, e, next)
    case Ret => Some(Emitted(a, [JumpNext]))
    case _ => None
  }

  /** A two-way branch falls into its layout successor and jumps to the other target.  The operand's
      number is taken for a register whatever its tag. */
  function EmitBranch(a: Alloc, cond: Operand, t: nat, e: nat, next: nat): Option<Emitted> {
    if cond.payload !in a.homes || (t != next && e != next) then None else
    var home := a.homes[cond.payload];
    if home.place.InFlags? then
      Some(Emitted(a, [if t == next then JumpIf(Inverse(home.place.cond), e) else JumpIf(home.place.cond, t)]))
    else if home.usedUp then None
    else
      Some(Emitted(a.(homes := a.homes[cond.payload := home.(usedUp := true)]),
                   [LoadSlot(Rax, home.place.offset), TestR(Rax), if t == next then JumpIf(E, e) else JumpIf(NE, t)]))
  }

  function EmitOps(a: Alloc, code: Code, ops: seq<Op>, next: nat): Option<Emitted>
    decreases |ops|
  {
    if ops == [] then Some(Emitted(a, [])) else
    var first := EmitOp(a, code, ops[0], next);
    if first.None? then None else
    var rest := EmitOps(first.value.alloc, code, ops[1..], next);
    if rest.None? then None else Some(Emitted(rest.value.alloc, first.value.code + rest.value.code))
  }

  /** The blocks of a layout chain, one after the other. */
  function EmitChain(a: Alloc, code: Code, chain: seq<nat>): Option<(Alloc, map<nat, seq<Instr>>)>
    decreases |chain|
  {
    if chain == [] then Some((a, map[])) else
    var b := chain[0];
    var first := EmitOps(a, code, At(code.blocks, b).ops, At(code.blocks, b).next);
    if first.None? then None else
    var rest := EmitChain(first.value.alloc, code, chain[1..]);
    if rest.None? then None else Some((rest.value.0, map[b := first.value.code] + rest.value.1))
  }

  // ---- the generator as the program runs it ------------------------------------------------------

  class Generator {
    const code: Code
    var homes: map<nat, Home>
    var stackUsed: nat
    var emitted: seq<Instr>
    var text: map<nat, seq<Instr>>

    ghost function Now(): Emitted
      reads this
    {
      Emitted(Alloc(homes, stackUsed), emitted)
    }

    /** The frame starts with the 8-byte slots of the locals. */
    constructor (code: Code, locals: nat)
      ensures this.code == code && Now() == Emitted(Alloc(map[], 8 * locals), []) && text == map[]
    {
      this.code := code;
      homes, stackUsed, emitted, text := map[], 8 * locals, [], map[];
    }

    method Write(i: Instr)
      modifies this`emitted
      ensures emitted == old(emitted) + [i]
    {
      emitted := emitted + [i];
    }

    /** Marks a register read; `false` is the assertion that it has not been read before. */
    method UseUp(r: nat) returns (ok: bool)
      modifies this`homes
      ensures ok == (r in old(homes) && !old(homes)[r].usedUp)
      ensures homes == if ok then old(homes)[r := old(homes)[r].(usedUp := true)] else old(homes)
    {
      ok := r in homes && !homes[r].usedUp;
      if ok {
        homes := homes[r := homes[r].(usedUp := true)];
      }
    }

    method Load(to: Register, o: Operand) returns (ok: bool)
      modifies this`homes, this`emitted
      ensures ok == LoadOperand(old(Now()).alloc, code, to, o).Some?
      ensures ok ==> Now() == After(old(Now()), LoadOperand(old(Now()).alloc, code, to, o).value)
    {
      ok := true;
      match o
      case Imm(n) =>
        Write(LoadImm(to, Payload(n)));
      case Literal(i) =>
        Write(LoadImm(to, Read(code.literals, i)));
      case Local(_) =>
        ok := false;
      case Reg(r) =>
        ok := UseUp(r);
        if ok {
          match homes[r].place
          case OnStack(offset) => Write(LoadSlot(to, offset));
          case InFlags(_) => ok := false;
        }
    }

    /** Moves a result to a new slot at the end of the frame. */
    method MoveToStack(dst: nat, from: Register)
      modifies this`homes, this`stackUsed, this`emitted
      ensures Now() == After(old(Now()), MoveToNewSlot(old(Now()).alloc, dst, from))
    {
      stackUsed := Align.Forward(stackUsed + 8, 8);
      Write(StoreSlot(stackUsed, from));
      homes := homes[dst := Home(OnStack(stackUsed), false)];
    }

    method LoadBoth(left: Operand, right: Operand) returns (ok: bool)
      modifies this`homes, this`emitted
      ensures ok == LoadPair(old(Now()).alloc, code, left, right).Some?
      ensures ok ==> Now() == After(old(Now()), LoadPair(old(Now()).alloc, code, left, right).value)
    {
      ok := Load(Rax, left);
      if ok {
        ok := Load(Rcx, right);
      }
    }

    method GenerateCompute(arith: ArithOp, ty: Ty, dst: nat, left: Operand, right: Operand) returns (ok: bool)
      modifies this`homes, this`stackUsed, this`emitted
      ensures ok == EmitCompute(old(Now()).alloc, code, arith, ty, dst, left, right).Some?
      ensures ok ==> Now() == After(old(Now()), EmitCompute(old(Now()).alloc, code, arith, ty, dst, left, right).value)
    {
      if arith == Mul {
        Write(XorRR(Rdx, Rdx));
      }
      ok := LoadBoth(left, right);
      if !ok {
        return;
      }
      match arith {
        case Add => Write(AddRR(Rax, Rcx));
        case Sub => Write(SubRR(Rax, Rcx));
        case Mul => Write(MulR(Rcx, ty == I64));
        case _ => return false;
      }
      MoveToStack(dst, Rax);
      ghost var pair := LoadPair(old(Now()).alloc, code, left, right).value.code;
      assert old(emitted) + [XorRR(Rdx, Rdx)] + pair == old(emitted) + ([XorRR(Rdx, Rdx)] + pair);
      assert emitted == old(emitted) + EmitCompute(old(Now()).alloc, code, arith, ty, dst, left, right).value.code;
    }

    method GenerateBranch(cond: Operand, t: nat, e: nat, next: nat) returns (ok: bool)
      modifies this`homes, this`emitted
      ensures ok == EmitBranch(old(Now()).alloc, cond, t, e, next).Some?
      ensures ok ==> Now() == After(old(Now()), EmitBranch(old(Now()).alloc, cond, t, e, next).value)
    {
      if cond.payload !in homes || (t != next && e != next) {
        return false;
      }
      ok := true;
      match homes[cond.payload].place
      case InFlags(c) =>
        Write(if t == next then JumpIf(Inverse(c), e) else JumpIf(c, t));
      case OnStack(offset) =>
        ok := UseUp(cond.payload);
        if ok {
          Write(LoadSlot(Rax, offset));
          Write(TestR(Rax));
          Write(if t == next then JumpIf(E, e) else JumpIf(NE, t));
        }
    }

    method GenerateOp(op: Op, next: nat) returns (ok: bool)
      modifies this`homes, this`stackUsed, this`emitted
      ensures ok == EmitOp(old(Now()).alloc, code, op, next).Some?
      ensures ok ==> Now() == After(old(Now()), EmitOp(old(Now()).alloc, code, op, next).value)
    {
      hide LoadOperand, LoadPair, EmitBranch, EmitCompute;
      ok := true;
      match op
      case Load(dst, Local(x)) =>
        homes := homes[dst := Home(OnStack(LocalOffset(x)), false)];
      case Load(_, Reg(_)) =>
        ok := false;
      case Load(dst, src) =>
        ok := Load(Rax, src);
        if ok {
          MoveToStack(dst, Rax);
        }
      case Store(Local(x), Imm(n)) =>
        Write(StoreImm(LocalOffset(x), Payload(n)));
      case Store(Local(x), src) =>
        ok := Load(Rax, src);
        if ok {
          Write(StoreSlot(LocalOffset(x), Rax));
        }
      case Compute(arith, ty, dst, left, right) =>
        ok := GenerateCompute(arith, ty, dst, left, right);
      case Negate(dst, src) =>
        ok := Load(Rax, src);
        if ok {
          Write(NegR(Rax));
          MoveToStack(dst, Rax);
        }
      case Compare(cmp, dst, left, right) =>
        homes := homes[dst := Home(InFlags(ConditionOf(cmp)), false)];
        ok := LoadBoth(left, right);
        if ok {
          Write(CmpRR(Rax, Rcx));
        }
      case Branch(target) =>
        Write(Jump(target));
      case BranchCond(cond, t, e) =>
        ok := GenerateBranch(cond, t, e, next);
      case Ret =>
        Write(JumpNext);
      case _ =>
        ok := false;
    }

    /** The code of one block, operation by operation. */
    method GenerateBlock(b: nat) returns (ok: bool)
      requires emitted == []
      modifies this
      ensures ok == EmitOps(old(Now()).alloc, code, At(code.blocks, b).ops, At(code.blocks, b).next).Some?
      ensures ok ==>
        var r := EmitOps(old(Now()).alloc, code, At(code.blocks, b).ops, At(code.blocks, b).next).value;
        Now() == Emitted(r.alloc, []) && text == old(text)[b := r.code]
    {
      hide EmitOp, EmitOps;
      var block := At(code.blocks, b);
      var i := 0;
      assert block.ops[0..] == block.ops;
      BlockStarts(Now(), EmitOps(Now().alloc, code, block.ops, block.next));
      while i < |block.ops|
        invariant 0 <= i <= |block.ops|
        invariant text == old(text)
        invariant Leads(EmitOps(old(Now()).alloc, code, block.ops, block.next), Now(),
                        EmitOps(Now().alloc, code, block.ops[i..], block.next))
      {
        assert block.ops[i..][1..] == block.ops[i + 1..];
        BlockStep(Now(), code, block.ops[i..], block.next);
        ok := GenerateOp(block.ops[i], block.next);
        if !ok {
          return;
        }
        i := i + 1;
      }
      assert block.ops[i..] == [];
      BlockEnds(Now(), code, block.next);
      ok, text, emitted := true, text[b := emitted], [];
    }

    /** Follows the layout chain of a function from its entry to block 0. */
    method GenerateFunction(entry: nat, ghost chain: seq<nat>) returns (ok: bool)
      requires emitted == [] && text == map[] && chain != [] && chain[0] == entry
      requires forall i :: 0 <= i < |chain| ==> chain[i] != 0 && At(code.blocks, chain[i]).next == (chain + [0])[i + 1]
      modifies this
      ensures ok == EmitChain(old(Now()).alloc, code, chain).Some?
      ensures ok ==> (Now().alloc, text) == EmitChain(old(Now()).alloc, code, chain).value
    {
      hide EmitOps, EmitChain;
      var block := entry;
      ghost var i := 0;
      assert chain[0..] == chain;
      NothingBefore(Now().alloc, code, chain);
      while block != 0
        invariant 0 <= i <= |chain| && block == (chain + [0])[i] && emitted == []
        invariant Continues(EmitChain(old(Now()).alloc, code, chain), text, EmitChain(Now().alloc, code, chain[i..]))
        decreases |chain| - i
      {
        assert chain[i..][1..] == chain[i + 1..];
        ChainStep(Now().alloc, code, chain[i..], text);
        ok := GenerateBlock(block);
        if !ok {
          return;
        }
        block := At(code.blocks, block).next;
        i := i + 1;
      }
      assert chain[i..] == [];
      NothingAfter(Now().alloc, code, text);
      ok := true;
    }
  }

  /** The whole block is what has been emitted and then the rest. */
  predicate Leads(whole: Option<Emitted>, now: Emitted, rest: Option<Emitted>) {
    whole.Some? == rest.Some? && (rest.Some? ==> whole.value == After(now, rest.value))
  }

  lemma BlockStarts(now: Emitted, whole: Option<Emitted>)
    requires now.code == []
    ensures Leads(whole, now, whole)
  {
    assert whole.Some? ==> [] + whole.value.code == whole.value.code;
  }

  lemma BlockStep(now: Emitted, code: Code, ops: seq<Op>, next: nat)
    requires ops != []
    ensures var r := EmitOp(now.alloc, code, ops[0], next);
            && (r.None? ==> EmitOps(now.alloc, code, ops, next).None?)
            && (r.Some? ==>
                  forall whole :: Leads(whole, now, EmitOps(now.alloc, code, ops, next))
                    ==> Leads(whole, After(now, r.value), EmitOps(r.value.alloc, code, ops[1..], next)))
  {
    hide EmitOp;
    var r := EmitOp(now.alloc, code, ops[0], next);
    if r.Some? {
      var rest := EmitOps(r.value.alloc, code, ops[1..], next);
      if rest.Some? {
        assert now.code + (r.value.code + rest.value.code) == now.code + r.value.code + rest.value.code;
      }
    }
  }

  lemma BlockEnds(now: Emitted, code: Code, next: nat)
    ensures EmitOps(now.alloc, code, [], next) == Some(Emitted(now.alloc, []))
    ensures After(now, Emitted(now.alloc, [])) == now
  {
  }

  /** The whole chain is `text` and then the rest. */
  predicate Continues(whole: Option<(Alloc, map<nat, seq<Instr>>)>, text: map<nat, seq<Instr>>, rest: Option<(Alloc, map<nat, seq<Instr>>)>) {
    whole.Some? == rest.Some? && (rest.Some? ==> whole.value == (rest.value.0, text + rest.value.1))
  }

  lemma NothingBefore(a: Alloc, code: Code, chain: seq<nat>)
    ensures Continues(EmitChain(a, code, chain), map[], EmitChain(a, code, chain))
  {
    hide EmitOps;
    var r := EmitChain(a, code, chain);
    assert r.Some? ==> map[] + r.value.1 == r.value.1;
  }

  lemma NothingAfter(a: Alloc, code: Code, text: map<nat, seq<Instr>>)
    ensures EmitChain(a, code, []) == Some((a, map[])) && text + map[] == text
  {
  }

  lemma ChainStep(a: Alloc, code: Code, chain: seq<nat>, text: map<nat, seq<Instr>>)
    requires chain != []
    ensures var r := EmitOps(a, code, At(code.blocks, chain[0]).ops, At(code.blocks, chain[0]).next);
            && (r.None? ==> EmitChain(a, code, chain).None?)
            && (r.Some? ==>
                  forall whole :: Continues(whole, text, EmitChain(a, code, chain))
                    ==> Continues(whole, text[chain[0] := r.value.code], EmitChain(r.value.alloc, code, chain[1..])))
  {
    hide EmitOps;
    var b := chain[0];
    var r := EmitOps(a, code, At(code.blocks, b).ops, At(code.blocks, b).next);
    if r.Some? {
      var rest := EmitChain(r.value.alloc, code, chain[1..]);
      if rest.Some? {
        assert text + (map[b := r.value.code] + rest.value.1) == text[b := r.value.code] + rest.value.1;
      }
    }
  }
}
