/** The IR builder as the program keeps it: one table of blocks that grows, a chain of recycled
    blocks threaded through the table itself, and a current block that code generation moves
    around (`backends/ir.c:22-41, 294-375, 399-429, 671-925, 1300-1446`).  Every method is proved
    equal to the function of `Lowering` it implements. */
module Builder {
  import opened Wrappers
  import opened Words
  import opened Syntax
  import opened Ir
  import opened Lowering
  import opened Shape

  /** A chain through the block table: distinct entries, each followed by the next, the last by 0. */
  predicate Threaded(table: seq<Block>, first: nat, chain: seq<nat>) {
    && (chain + [0])[0] == first
    && Distinct(chain)
    && (forall i :: 0 <= i < |chain| ==>
          0 < chain[i] < |table| && table[chain[i]].next == (chain + [0])[i + 1])
  }

  /** The part of the table in use. */
  ghost function Used(table: seq<Block>, live: set<nat>): (r: Blocks)
    requires forall b :: b in live ==> b < |table|
    ensures r.Keys == live
  {
    map b | b in live :: table[b]
  }

  /** Where the lowering of a constant starts. */
  function ConstantEntry(table: Blocks, free: seq<nat>, count: nat, lastLoad: bool): State {
    var s := State(table, free, count, 0, 0, [], [], lastLoad);
    MoveTo(SetBlock(TakeRef(s), FreshRef(s), NO_BLOCK), FreshRef(s))
  }

  class IrBuilder {
    var blocks: seq<Block>
    var freeBlock: nat
    var currentBlock: nat
    var localCount: nat
    var registers: seq<Ty>
    var literals: seq<Word>
    var lastOpWasLoad: bool
    ghost var free: seq<nat>
    ghost var live: set<nat>

    /** The table holds the live blocks and, apart from them, the chain of recycled ones. */
    ghost predicate Sound()
      reads this
    {
      && 0 < |blocks|
      && Threaded(blocks, freeBlock, free)
      && (forall b :: b in live ==> 0 < b < |blocks| && b !in free)
    }

    /** Code is being generated. */
    ghost predicate Valid()
      reads this
    {
      Sound() && currentBlock in live
    }

    ghost function Table(): Blocks
      reads this
      requires Sound()
    {
      Used(blocks, live)
    }

    /** Block 0 is never handed out: a reference to it means none. */
    constructor ()
      ensures Sound() && live == {} && free == [] && blocks == [NO_BLOCK]
    {
      blocks, freeBlock, currentBlock, localCount := [NO_BLOCK], 0, 0, 0;
      registers, literals, lastOpWasLoad := [], [], false;
      free, live := [], {};
    }

    ghost function Now(): State
      reads this
      requires Valid()
    {
      State(Table(), free, |blocks|, currentBlock, localCount, registers, literals, lastOpWasLoad)
    }

    lemma ValidIsReady()
      requires Valid()
      ensures Ready(Now()) && Now().blocks.Keys == live && Now().current == currentBlock
    {
      forall i | 0 <= i < |free|
        ensures 0 < free[i] < |blocks| && free[i] !in live
      {
        assert free[i] in free;
      }
    }

    // ---- blocks --------------------------------------------------------------------------------

    /** Takes a block off the free chain, or grows the table. */
    method TakeBlock(block: Block) returns (r: nat)
      requires Sound()
      modifies `blocks, `freeBlock, `free, `live
      ensures Sound() && Table() == old(Table())[r := block]
      ensures r !in old(live) && live == old(live) + {r}
      ensures if old(free) == [] then r == old(|blocks|) && free == [] && |blocks| == old(|blocks|) + 1
              else r == old(free)[0] && free == old(free)[1..] && |blocks| == old(|blocks|)
    {
      if freeBlock != 0 {
        r := freeBlock;
        assert free != [];
        ThreadedTail(blocks, freeBlock, free, block);
        freeBlock := blocks[freeBlock].next;
        blocks := blocks[r := block];
        free := free[1..];
      } else {
        r := |blocks|;
        assert free == [];
        blocks := blocks + [block];
      }
      live := live + {r};
      assert Table() == old(Table())[r := block];
    }

    method SetNext(b: nat, next: nat)
      requires Valid() && b in live
      modifies this
      ensures Valid()
      ensures Now() == SetBlock(old(Now()), b, old(Now()).blocks[b].(next := next))
      ensures live == old(live)
    {
      ThreadedElsewhere(blocks, freeBlock, free, b, blocks[b].(next := next));
      blocks := blocks[b := blocks[b].(next := next)];
      assert Now().blocks == old(Now()).blocks[b := old(Now()).blocks[b].(next := next)];
    }

    /** `ir_create_block` with its `append` flag set. */
    method CreateBlock() returns (r: nat)
      requires Valid()
      modifies this
      ensures Valid()
      ensures r == FreshRef(old(Now())) && Now() == AddBlock(old(Now()))
      ensures r in live && old(live) <= live
    {
      var next := blocks[currentBlock].next;
      r := TakeBlock(Block([], next));
      SetNext(currentBlock, r);
    }

    method Select(b: nat)
      requires Valid() && b in live
      modifies this
      ensures Valid() && Now() == MoveTo(old(Now()), b) && live == old(live)
    {
      currentBlock := b;
    }

    /** A new block after the current one, which becomes the current one. */
    method CreateNext() returns (r: nat)
      requires Valid()
      modifies this
      ensures Valid() && Now() == NextBlock(old(Now()))
      ensures r == Now().current && r in live && old(live) <= live && Now().locals == old(Now()).locals
    {
      r := CreateBlock();
      Select(r);
    }

    /** After a jump out: a block that is created unlinked, then threaded in by hand. */
    method Leave(target: nat)
      requires Valid()
      modifies this
      ensures Valid() && Now() == LeaveTo(old(Now()), target) && old(live) <= live
    {
      hide Threaded, Lowering.AppendOp, NextBlock, Ready, AddBlock;
      AppendOp(Branch(target));
      ghost var s := Now();
      ValidIsReady();
      var next := TakeBlock(Block([], 0));
      SetNext(next, blocks[currentBlock].next);
      SetNext(currentBlock, next);
      Select(next);
      LinkedByHand(s, next);
    }

    // ---- functions and constants ---------------------------------------------------------------

    /** The entry of a function always grows the table. */
    method BeginFunction() returns (entry: nat)
      requires Sound()
      modifies this
      ensures Valid() && entry !in old(live) && live == old(live) + {entry}
      ensures Now() == State(old(Table())[entry := NO_BLOCK], free, |blocks|, entry, 0, [], [], old(lastOpWasLoad))
    {
      hide Threaded;
      entry := |blocks|;
      ThreadedLonger(blocks, freeBlock, free, NO_BLOCK);
      blocks := blocks + [NO_BLOCK];
      live := live + {entry};
      currentBlock, localCount, registers, literals := entry, 0, [], [];
      assert Table() == old(Table())[entry := NO_BLOCK];
    }

    /** The entry of a constant comes off the free chain when there is one. */
    method BeginConstant() returns (entry: nat)
      requires Sound()
      modifies this
      ensures Valid() && entry !in old(live) && live == old(live) + {entry}
      ensures Now() == ConstantEntry(old(Table()), old(free), old(|blocks|), old(lastOpWasLoad)) && entry == Now().current
      ensures Now().blocks == old(Table())[entry := NO_BLOCK] && Now().locals == 0
    {
      entry := TakeBlock(NO_BLOCK);
      currentBlock, localCount, registers, literals := entry, 0, [], [];
    }

    /** No code is being generated any more. */
    method Finish()
      requires Sound()
      modifies `currentBlock
      ensures Sound() && Table() == old(Table()) && currentBlock == 0
    {
      currentBlock := 0;
    }

    /** The chain of an evaluated constant becomes the free chain; what was left of the old one is
        never used again. */
    method Recycle(entry: nat, ghost chain: seq<nat>)
      requires Sound() && Threaded(blocks, entry, chain)
      modifies `freeBlock, `free, `live, `currentBlock
      ensures Sound() && free == chain && live == old(live) - (set x | x in chain)
    {
      freeBlock := entry;
      free := chain;
      live := live - (set x | x in chain);
      currentBlock := 0;
    }

    // ---- operations ----------------------------------------------------------------------------

    method AppendOp(op: Op)
      requires Valid()
      modifies this
      ensures Valid() && Now() == Lowering.AppendOp(old(Now()), op) && live == old(live)
    {
      var block := blocks[currentBlock];
      ThreadedElsewhere(blocks, freeBlock, free, currentBlock, block.(ops := block.ops + [op]));
      blocks := blocks[currentBlock := block.(ops := block.ops + [op])];
      lastOpWasLoad := op.Load?;
      assert Now().blocks == old(Now()).blocks[currentBlock := block.(ops := block.ops + [op])];
    }

    /** Allocates the destination register and appends the operation made for it. */
    method AppendOpDst(ty: Ty, make: nat -> Op) returns (dst: Operand)
      requires Valid()
      modifies this
      ensures Valid() && live == old(live)
      ensures dst == Reg(NextReg(old(Now())))
      ensures Now() == AppendDst(old(Now()), ty, make(NextReg(old(Now()))))
    {
      dst := Reg(|registers|);
      var op := make(|registers|);
      registers := registers + [ty];
      AppendOp(op);
    }

    method NewLocal() returns (x: nat)
      requires Valid()
      modifies this
      ensures Valid() && Now() == AddLocal(old(Now())) && x == old(Now()).locals && live == old(live)
    {
      x := localCount;
      localCount := localCount + 1;
    }

    method LoadIfNeeded(ty: Ty, o: Operand) returns (r: Operand)
      requires Valid()
      modifies this
      ensures Valid() && (Now(), r) == LoadImmediate(old(Now()), ty, o) && live == old(live)
    {
      if o.Imm? {
        r := AppendOpDst(ty, (dst: nat) => Load(dst, o));
      } else {
        r := o;
      }
    }

    method GenerateLiteral(w: Word) returns (o: Operand)
      requires Valid()
      modifies this
      ensures Valid() && (Now(), o) == LowerLiteral(old(Now()), w) && live == old(live)
    {
      if w <= MAX_IMMEDIATE {
        o := Imm(w);
      } else {
        o := Literal(|literals|);
        literals := literals + [w];
      }
    }

    method GenerateCast(ty: Ty, o: Operand) returns (r: Operand)
      requires Valid()
      modifies this
      ensures Valid() && (Now(), r) == LowerCast(old(Now()), ty, o) && live == old(live)
    {
      if lastOpWasLoad && o.payload < |registers| {
        registers := registers[o.payload := ty];
        r := o;
      } else {
        r := AppendOpDst(ty, (dst: nat) => CastTo(dst, o));
      }
    }

    /** The operand an `if` branches on. */
    method GenerateCondition(o: Operand) returns (r: Operand)
      requires Valid()
      modifies this
      ensures Valid() && (Now(), r) == IfOperand(old(Now()), o) && live == old(live)
    {
      if o.Imm? {
        var loaded := AppendOpDst(Bool, (dst: nat) => Load(dst, o));
        r := AppendOpDst(Bool, (dst: nat) => Compare(Neq, dst, loaded, Imm(0)));
      } else if o.Reg? && o.payload < |registers| && registers[o.payload] == Bool {
        r := o;
      } else {
        r := AppendOpDst(Bool, (dst: nat) => Compare(Neq, dst, o, Imm(0)));
      }
    }

    // ---- expressions and statements ------------------------------------------------------------

    /** `ctx` are the scopes a `break` may refer to, innermost first. */
    method GenerateExpression(e: Expr, ctx: seq<Target>) returns (o: Operand)
      requires Valid()
      modifies this
      ensures Valid() && (Now(), o) == Lower(old(Now()), ctx, e) && old(live) <= live
      decreases e, 1
    {
      hide Valid, Now, Lowering.AppendOp, AppendDst, LoadImmediate, LowerLiteral, LowerCast, LowerStmt, LowerAll, LeaveTo;
      match e
      case Lit(w, _) =>
        o := GenerateLiteral(w);
      case Var(x, ty) =>
        o := AppendOpDst(ty, (dst: nat) => Load(dst, Local(x)));
      case Bin(op, ty, l, r) =>
        var a := GenerateExpression(l, ctx);
        a := LoadIfNeeded(ty, a);
        var b := GenerateExpression(r, ctx);
        b := LoadIfNeeded(ty, b);
        o := AppendOpDst(ty, (dst: nat) => Compute(op, ty, dst, a, b));
      case Cmp(cmp, l, r) =>
        var b := GenerateExpression(r, ctx);
        b := LoadIfNeeded(TypeOf(r), b);
        var a := GenerateExpression(l, ctx);
        a := LoadIfNeeded(TypeOf(l), a);
        o := AppendOpDst(Bool, (dst: nat) => Compare(cmp, dst, a, b));
      case Logic(conjunction, l, r) =>
        var a := GenerateExpression(l, ctx);
        a := AppendOpDst(TypeOf(l), (dst: nat) => Test(TypeOf(l), dst, a));
        var b := GenerateExpression(r, ctx);
        b := AppendOpDst(TypeOf(r), (dst: nat) => Test(TypeOf(r), dst, b));
        o := AppendOpDst(Bool, (dst: nat) => Combine(conjunction, dst, a, b));
      case Neg(operand) =>
        var a := GenerateExpression(operand, ctx);
        o := AppendOpDst(I64, (dst: nat) => Negate(dst, a));
      case Cast(ty, operand) =>
        ForgetLoad();
        var a := GenerateExpression(operand, ctx);
        o := GenerateCast(ty, a);
      case Assign(x, rhs) =>
        o := GenerateExpression(rhs, ctx);
        AppendOp(Store(Local(x), o));
      case OpAssign(op, ty, x, rhs) =>
        var b := GenerateExpression(rhs, ctx);
        var a := AppendOpDst(ty, (dst: nat) => Load(dst, Local(x)));
        o := AppendOpDst(ty, (dst: nat) => Compute(op, ty, dst, a, b));
        AppendOp(Store(Local(x), o));
      case Do(_, _) =>
        o := GenerateDo(e, ctx);
      case If(_, _, _) =>
        o := GenerateIf(e, ctx);
      case Loop(_, _, _, _, _) =>
        o := GenerateLoop(e, ctx);
      case Break(level, carried) =>
        var target := if level < |ctx| then ctx[level] else Target(0, None);
        if carried.Some? {
          var v := GenerateExpression(carried.value, ctx);
          if target.slot.Some? {
            AppendOp(Store(Local(target.slot.value), v));
          }
        }
        Leave(target.block);
        o := Imm(0);
    }

    method ForgetLoad()
      requires Valid()
      modifies this
      ensures Valid() && Now() == old(Now()).(lastLoad := false) && live == old(live)
    {
      lastOpWasLoad := false;
    }

    method GenerateDo(e: Expr, ctx: seq<Target>) returns (o: Operand)
      requires Valid() && e.Do?
      modifies this
      ensures Valid() && (Now(), o) == Lower(old(Now()), ctx, e) && old(live) <= live
      decreases e, 0
    {
      hide Valid, Now, Lowering.AppendOp, AppendDst, LowerAll, AddBlock;
      var x := NewLocal();
      var exit := CreateBlock();
      GenerateAll(e.items, [Target(exit, Some(x))] + ctx);
      Select(exit);
      o := AppendOpDst(e.result.ty, (dst: nat) => Load(dst, Local(x)));
    }

    method GenerateIf(e: Expr, ctx: seq<Target>) returns (o: Operand)
      requires Valid() && e.If?
      modifies this
      ensures Valid() && (Now(), o) == Lower(old(Now()), ctx, e) && old(live) <= live
      decreases e, 0
    {
      hide Valid, Now, Lowering.AppendOp, AppendDst, LowerStmt, NextBlock, IfOperand;
      ValidIsReady();
      var condition := currentBlock;
      var body := CreateNext();
      var orelse := CreateNext();
      var end := orelse;
      if e.orelse.Some? {
        end := CreateNext();
      }
      Select(condition);
      var c := GenerateExpression(e.cond, ctx);
      c := GenerateCondition(c);
      AppendOp(BranchCond(c, body, orelse));
      Select(body);
      GenerateStatement(e.body, ctx);
      AppendOp(Branch(end));
      if e.orelse.Some? {
        Select(orelse);
        GenerateStatement(e.orelse.value, ctx);
        AppendOp(Branch(end));
      }
      Select(end);
      o := Imm(0);
    }

    /** The four blocks of a loop and, for a loop with a value, its hidden local. */
    method OpenParts(hasSlot: bool) returns (test: nat, body: nat, exit: nat, end: nat, slot: Option<nat>)
      requires Valid()
      modifies this
      ensures Valid() && old(live) <= live && {test, body, exit, end} <= live
      ensures OpenLoop(old(Now()), hasSlot) == LoopParts(Now(), test, body, exit, end)
      ensures slot == if hasSlot then Some(old(Now()).locals) else None
    {
      hide Valid, Now, NextBlock;
      test := CreateNext();
      body := CreateNext();
      exit := CreateNext();
      end := CreateNext();
      Select(test);
      slot := None;
      if hasSlot {
        var x := NewLocal();
        slot := Some(x);
      }
    }

    method GenerateLoop(e: Expr, ctx: seq<Target>) returns (o: Operand)
      requires Valid() && e.Loop?
      modifies this
      ensures Valid() && (Now(), o) == Lower(old(Now()), ctx, e) && old(live) <= live
      decreases e, 0
    {
      hide Valid, Now, Lowering.AppendOp, AppendDst, LowerStmt, OpenLoop;
      if e.init.Some? {
        GenerateStatement(e.init.value, ctx);
      }
      var test, body, exit, end, slot := OpenParts(e.slot.Some?);
      var inner := [Target(exit, slot)] + ctx;
      if e.test.Some? {
        var c := GenerateExpression(e.test.value, inner);
        AppendOp(BranchCond(c, body, end));
      }
      Select(body);
      GenerateStatement(e.body, inner);
      if e.update.Some? {
        var _ := GenerateExpression(e.update.value, inner);
      }
      AppendOp(Branch(test));
      Select(end);
      o := Imm(0);
      if slot.Some? {
        o := AppendOpDst(e.slot.value.ty, (dst: nat) => Load(dst, Local(slot.value)));
      }
    }

    method GenerateStatement(st: Stmt, ctx: seq<Target>)
      requires Valid()
      modifies this
      ensures Valid() && Now() == LowerStmt(old(Now()), ctx, st) && old(live) <= live
      decreases st, 0
    {
      hide Valid, Now, Lowering.AppendOp, LowerAll, Lower;
      match st
      case Compound(items) =>
        GenerateAll(items, ctx);
      case Decl(_, initial) =>
        var x := NewLocal();
        if initial.Some? {
          var v := GenerateExpression(initial.value, ctx);
          AppendOp(Store(Local(x), v));
        }
      case Eval(e) =>
        var _ := GenerateExpression(e, ctx);
    }

    method GenerateAll(items: seq<Stmt>, ctx: seq<Target>)
      requires Valid()
      modifies this
      ensures Valid() && Now() == LowerAll(old(Now()), ctx, items) && old(live) <= live
      decreases items, 0
    {
      hide Valid, Now, LowerStmt;
      var i := 0;
      while i < |items|
        invariant 0 <= i <= |items|
        invariant Valid() && LowerAll(Now(), ctx, items[i..]) == LowerAll(old(Now()), ctx, items)
        invariant old(live) <= live
      {
        GenerateStatement(items[i], ctx);
        assert items[i..][1..] == items[i + 1..];
        i := i + 1;
      }
    }
  }

  // ---- chains ------------------------------------------------------------------------------------

  lemma ThreadedTail(table: seq<Block>, first: nat, chain: seq<nat>, block: Block)
    requires Threaded(table, first, chain) && chain != []
    ensures 0 < first < |table| && first !in chain[1..] && first == chain[0]
    ensures Threaded(table[first := block], table[first].next, chain[1..])
  {
    assert first == chain[0];
    forall i | 0 <= i < |chain[1..]|
      ensures chain[1..][i] != first
    {
      assert chain[0] != chain[i + 1];
    }
  }

  lemma ThreadedElsewhere(table: seq<Block>, first: nat, chain: seq<nat>, b: nat, block: Block)
    requires Threaded(table, first, chain) && b < |table| && b !in chain
    ensures Threaded(table[b := block], first, chain)
  {
    forall i | 0 <= i < |chain|
      ensures chain[i] != b
    {
      assert chain[i] in chain;
    }
  }

  lemma ThreadedLonger(table: seq<Block>, first: nat, chain: seq<nat>, block: Block)
    requires Threaded(table, first, chain)
    ensures Threaded(table + [block], first, chain) && |table| !in chain
  {
  }

  /** Threading an unlinked block in by hand is what `ir_create_block` does when it appends. */
  lemma LinkedByHand(s: State, r: nat)
    requires Ready(s) && r == FreshRef(s)
    ensures var s1 := SetBlock(TakeRef(s), r, Block([], 0));
            var s2 := SetBlock(s1, r, Block([], s1.blocks[s.current].next));
            MoveTo(SetBlock(s2, s.current, s2.blocks[s.current].(next := r)), r) == NextBlock(s)
  {
    FreshIsFresh(s);
    var s1 := SetBlock(TakeRef(s), r, Block([], 0));
    var s2 := SetBlock(s1, r, Block([], s1.blocks[s.current].next));
    assert s2.blocks == s.blocks[r := Block([], s.blocks[s.current].next)];
  }
}
