/** What lowering leaves alone: every piece of lowering only appends to the current block, lays its
    new blocks out between the current block and that block's layout successor, and touches no
    other block. */
module Shape {
  import opened Wrappers
  import opened Words
  import opened Syntax
  import opened Ir
  import opened Lowering

  predicate Distinct(refs: seq<nat>) {
    forall i, j :: 0 <= i < j < |refs| ==> refs[i] != refs[j]
  }

  /** The current block is in use; references handed out next are not. */
  predicate Ready(s: State) {
    && s.current in s.blocks
    && 0 < s.count
    && (forall b :: b in s.blocks ==> 0 < b < s.count)
    && (forall i :: 0 <= i < |s.free| ==> 0 < s.free[i] < s.count && s.free[i] !in s.blocks)
    && Distinct(s.free)
  }

  /** Nothing is taken back: blocks, operations, registers, literals and locals only grow. */
  predicate Grows(a: State, b: State) {
    && a.blocks.Keys <= b.blocks.Keys
    && (forall x :: x in a.blocks ==> a.blocks[x].ops <= b.blocks[x].ops)
    && |a.regs| <= |b.regs|
    && a.literals <= b.literals
    && a.locals <= b.locals
  }

  predicate Untouched(a: State, b: State, x: nat) {
    x in a.blocks && x in b.blocks && a.blocks[x] == b.blocks[x]
  }

  predicate Extends(a: State, b: State) {
    && Ready(b)
    && Grows(a, b)
    && (forall x :: x in a.blocks && x != a.current ==> Untouched(a, b, x))
    && (b.current == a.current || b.current !in a.blocks)
    && At(b.blocks, b.current).next == At(a.blocks, a.current).next
  }

  lemma ExtendsTransitive(a: State, b: State, c: State)
    requires Ready(a) && Extends(a, b) && Extends(b, c)
    ensures Ready(c) && Extends(a, c)
  {
    forall x | x in a.blocks
      ensures a.blocks[x].ops <= c.blocks[x].ops
      ensures x != a.current ==> Untouched(a, c, x)
    {
      assert x in b.blocks;
    }
  }

  lemma FreshIsFresh(s: State)
    requires Ready(s)
    ensures FreshRef(s) != 0 && FreshRef(s) !in s.blocks
  {
  }

  /** `t` is `s` with the empty block `r` laid out right after the current block. */
  predicate Inserted(s: State, t: State, r: nat) {
    && Ready(t) && r != 0 && r !in s.blocks && s.current in s.blocks
    && t.blocks.Keys == s.blocks.Keys + {r}
    && t.blocks[r] == Block([], s.blocks[s.current].next)
    && t.blocks[s.current] == s.blocks[s.current].(next := r)
    && (forall x :: x in s.blocks && x != s.current ==> Untouched(s, t, x))
    && t.current == s.current && t.locals == s.locals && t.regs == s.regs && t.literals == s.literals
  }

  lemma AddBlockShape(s: State)
    requires Ready(s)
    ensures Inserted(s, AddBlock(s), FreshRef(s))
  {
    FreshIsFresh(s);
  }

  predicate Followed(s: State, t: State) {
    Inserted(s, MoveTo(t, s.current), t.current) && Ready(t)
  }

  lemma NextBlockShape(s: State) returns (t: State)
    requires Ready(s)
    ensures t == NextBlock(s) && Followed(s, t)
  {
    t := NextBlock(s);
    AddBlockShape(s);
    assert MoveTo(t, s.current) == AddBlock(s);
  }

  lemma AppendShape(s: State, op: Op)
    requires Ready(s)
    ensures var t := AppendOp(s, op);
            && Ready(t) && Extends(s, t) && t.current == s.current && t.blocks.Keys == s.blocks.Keys
            && t.blocks[s.current].ops == s.blocks[s.current].ops + [op]
            && t.locals == s.locals && t.regs == s.regs && t.literals == s.literals
  {
  }

  lemma AppendDstShape(s: State, ty: Ty, op: Op)
    requires Ready(s)
    ensures var t := AppendDst(s, ty, op);
            && Ready(t) && Extends(s, t) && t.current == s.current && t.blocks.Keys == s.blocks.Keys
            && t.blocks[s.current].ops == s.blocks[s.current].ops + [op]
            && t.locals == s.locals && |t.regs| == |s.regs| + 1 && t.regs[|s.regs|] == ty && t.literals == s.literals
  {
    AppendShape(s.(regs := s.regs + [ty]), op);
  }

  lemma LoadImmediateShape(s: State, ty: Ty, o: Operand)
    requires Ready(s)
    ensures Ready(LoadImmediate(s, ty, o).0) && Extends(s, LoadImmediate(s, ty, o).0)
  {
    AppendDstShape(s, ty, Load(NextReg(s), o));
  }

  lemma OpenDoShape(s: State)
    requires Ready(s)
    ensures Inserted(AddLocal(s), OpenDo(s), FreshRef(s))
  {
    AddBlockShape(AddLocal(s));
  }

  /** The parts of an `if`, laid out between the current block and its successor. */
  predicate IfOpened(s: State, p: IfParts, hasElse: bool) {
    var t := p.state;
    && Ready(t) && s.current in s.blocks && t.current == s.current
    && {p.body, p.orelse, p.end} !! s.blocks.Keys + {0}
    && p.body != p.orelse && p.body != p.end && (p.orelse == p.end <==> !hasElse)
    && t.blocks.Keys == s.blocks.Keys + {p.body, p.orelse, p.end}
    && t.blocks[s.current] == s.blocks[s.current].(next := p.body)
    && t.blocks[p.body] == Block([], p.orelse)
    && (hasElse ==> t.blocks[p.orelse] == Block([], p.end))
    && t.blocks[p.end] == Block([], s.blocks[s.current].next)
    && (forall x :: x in s.blocks && x != s.current ==> Untouched(s, t, x))
    && t.locals == s.locals && t.regs == s.regs && t.literals == s.literals
  }

  lemma OpenIfShape(s: State, hasElse: bool)
    requires Ready(s)
    ensures IfOpened(s, OpenIf(s, hasElse), hasElse)
  {
    var a := NextBlockShape(s);
    var b := NextBlockShape(a);
    if hasElse {
      var c := NextBlockShape(b);
      IfChain3(s, a, b, c);
    } else {
      IfChain2(s, a, b);
    }
  }

  lemma IfChain2(s: State, a: State, b: State)
    requires Followed(s, a) && Followed(a, b)
    ensures IfOpened(s, IfParts(MoveTo(b, s.current), a.current, b.current, b.current), false)
  {
  }

  lemma IfChain3(s: State, a: State, b: State, c: State)
    requires Followed(s, a) && Followed(a, b) && Followed(b, c)
    ensures IfOpened(s, IfParts(MoveTo(c, s.current), a.current, b.current, c.current), true)
  {
  }

  /** The parts of a loop, laid out between the current block and its successor. */
  predicate LoopOpened(s: State, p: LoopParts, locals: nat) {
    var t := p.state;
    && Ready(t) && s.current in s.blocks && t.current == p.test
    && {p.test, p.body, p.exit, p.end} !! s.blocks.Keys + {0}
    && Distinct([p.test, p.body, p.exit, p.end])
    && t.blocks.Keys == s.blocks.Keys + {p.test, p.body, p.exit, p.end}
    && t.blocks[s.current] == s.blocks[s.current].(next := p.test)
    && t.blocks[p.test] == Block([], p.body)
    && t.blocks[p.body] == Block([], p.exit)
    && t.blocks[p.exit] == Block([], p.end)
    && t.blocks[p.end] == Block([], s.blocks[s.current].next)
    && (forall x :: x in s.blocks && x != s.current ==> Untouched(s, t, x))
    && t.locals == locals && t.regs == s.regs && t.literals == s.literals
  }

  lemma OpenLoopShape(s: State, hasSlot: bool)
    requires Ready(s)
    ensures LoopOpened(s, OpenLoop(s, hasSlot), if hasSlot then s.locals + 1 else s.locals)
  {
    var a := NextBlockShape(s);
    var b := NextBlockShape(a);
    var c := NextBlockShape(b);
    var d := NextBlockShape(c);
    LoopChain(s, a, b, c, d);
  }

  lemma LoopChain(s: State, a: State, b: State, c: State, d: State)
    requires Followed(s, a) && Followed(a, b) && Followed(b, c) && Followed(c, d)
    ensures LoopOpened(s, LoopParts(MoveTo(d, a.current), a.current, b.current, c.current, d.current), s.locals)
  {
    assert Distinct([a.current, b.current, c.current, d.current]);
  }

  lemma LeaveToShape(s: State, target: nat)
    requires Ready(s)
    ensures var t := LeaveTo(s, target);
            && Ready(t) && Extends(s, t) && t.current !in s.blocks && t.blocks.Keys == s.blocks.Keys + {t.current}
            && t.blocks[s.current] == Block(s.blocks[s.current].ops + [Branch(target)], t.current)
            && t.blocks[t.current] == Block([], s.blocks[s.current].next)
            && t.regs == s.regs && t.literals == s.literals && t.locals == s.locals
  {
    AppendShape(s, Branch(target));
    var t := NextBlockShape(AppendOp(s, Branch(target)));
  }
}
