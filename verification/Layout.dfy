/** The layout chain: lowering threads each new block exactly once between the current block and
    its successor, ends every block but the current one with at most one branch, and keeps a target
    of every two-way branch right behind it. */
module Layout {
  import opened Wrappers
  import opened Words
  import opened Syntax
  import opened Ir
  import opened Lowering
  import opened Shape
  import opened LoweringShape
  import opened Correctness

  predicate NoBranch(ops: seq<Op>) {
    forall i :: 0 <= i < |ops| ==> !ops[i].IsBranch()
  }

  /** At most one branch, placed last; a two-way branch has one of its targets as layout successor. */
  predicate Closed(b: Block) {
    b.ops == [] || (
      && NoBranch(b.ops[..|b.ops| - 1])
      && (b.ops[|b.ops| - 1].BranchCond? ==> b.next in {b.ops[|b.ops| - 1].thenBlock, b.ops[|b.ops| - 1].elseBlock}))
  }

  /** The current block is still open for more operations. */
  predicate Open(s: State) {
    s.current in s.blocks && NoBranch(s.blocks[s.current].ops)
  }

  /** Closed blocks, each followed by the next one and the last one by `stop`. */
  predicate Sealed(blocks: Blocks, path: seq<nat>, stop: nat) {
    forall i :: 0 <= i < |path| ==>
      path[i] in blocks && Closed(blocks[path[i]]) && blocks[path[i]].next == (path + [stop])[i + 1]
  }

  /** From `s` to `t` the layout runs through `path` and then the current block of `t`. */
  ghost predicate Laid(s: State, t: State, path: seq<nat>) {
    && Open(t)
    && (path + [t.current])[0] == s.current
    && Sealed(t.blocks, path, t.current)
    && Distinct(path + [t.current])
    && At(t.blocks, t.current).next == At(s.blocks, s.current).next
    && (forall x :: x in t.blocks && x !in s.blocks <==> x in path + [t.current] && x != s.current)
  }

  /** One piece of lowering, as a frame and as a layout. */
  ghost predicate Piece(s: State, t: State) {
    Ready(t) && Open(t) && Extends(s, t) && exists path :: Laid(s, t, path)
  }

  lemma SealedJoin(blocks: Blocks, p: seq<nat>, q: seq<nat>, mid: nat, stop: nat)
    requires Sealed(blocks, p, mid) && Sealed(blocks, q, stop) && (q + [stop])[0] == mid
    ensures Sealed(blocks, p + q, stop)
  {
    forall i | 0 <= i < |p + q|
      ensures (p + q)[i] in blocks && Closed(blocks[(p + q)[i]]) && blocks[(p + q)[i]].next == (p + q + [stop])[i + 1]
    {
      if i < |p| {
        assert (p + [mid])[i + 1] == (p + q + [stop])[i + 1];
      } else {
        assert (q + [stop])[i - |p| + 1] == (p + q + [stop])[i + 1];
      }
    }
  }

  lemma SealedLater(a: Blocks, b: Blocks, path: seq<nat>, stop: nat)
    requires Sealed(a, path, stop)
    requires forall x :: x in path ==> x in b && b[x] == At(a, x)
    ensures Sealed(b, path, stop)
  {
    forall i | 0 <= i < |path|
      ensures path[i] in b && Closed(b[path[i]]) && b[path[i]].next == (path + [stop])[i + 1]
    {
      assert path[i] in path;
    }
  }

  lemma LaidThen(s: State, m: State, t: State, p: seq<nat>, q: seq<nat>)
    requires Ready(s) && Extends(s, m) && Extends(m, t) && Laid(s, m, p) && Laid(m, t, q)
    ensures Laid(s, t, p + q)
  {
    forall x | x in p
      ensures x in t.blocks && t.blocks[x] == At(m.blocks, x)
    {
      var i :| 0 <= i < |p| && p[i] == x;
      assert (p + [m.current])[i] != (p + [m.current])[|p|];
      assert Untouched(m, t, x);
    }
    SealedLater(m.blocks, t.blocks, p, m.current);
    SealedJoin(t.blocks, p, q, m.current, t.current);
    var whole := p + q + [t.current];
    forall i, j | 0 <= i < j < |whole|
      ensures whole[i] != whole[j]
    {
      if j < |p| {
        assert (p + [m.current])[i] != (p + [m.current])[j];
      } else if i >= |p| {
        assert (q + [t.current])[i - |p|] != (q + [t.current])[j - |p|];
      } else {
        assert p[i] in p + [m.current] && (p + [m.current])[i] != (p + [m.current])[|p|];
        assert whole[j] == (q + [t.current])[j - |p|] && whole[j] in q + [t.current];
        assert whole[i] in m.blocks;
      }
    }
    forall x
      ensures x in t.blocks && x !in s.blocks <==> x in p + q + [t.current] && x != s.current
    {
      assert x in p + q + [t.current] <==> x in p || x in q + [t.current];
      assert x in p + [m.current] <==> x in p || x == m.current;
      assert x == m.current ==> x in q + [t.current] by { assert (q + [t.current])[0] == m.current; }
    }
  }

  lemma PieceThen(s: State, m: State, t: State)
    requires Ready(s) && Piece(s, m) && Piece(m, t)
    ensures Piece(s, t)
  {
    hide Ready, Extends, Laid, Open;
    var p :| Laid(s, m, p);
    var q :| Laid(m, t, q);
    LaidThen(s, m, t, p, q);
    ExtendsTransitive(s, m, t);
  }

  lemma StayPiece(s: State, t: State)
    requires Ready(s) && Open(s) && Ready(t) && Extends(s, t) && Open(t)
    requires t.current == s.current && t.blocks.Keys == s.blocks.Keys
    ensures Piece(s, t)
  {
    assert Laid(s, t, []);
  }

  lemma OpPiece(s: State, op: Op)
    requires Ready(s) && Open(s) && !op.IsBranch()
    ensures Piece(s, AppendOp(s, op))
  {
    AppendShape(s, op);
    StayPiece(s, AppendOp(s, op));
  }

  lemma DstPiece(s: State, ty: Ty, op: Op)
    requires Ready(s) && Open(s) && !op.IsBranch()
    ensures Piece(s, AppendDst(s, ty, op))
  {
    AppendDstShape(s, ty, op);
    StayPiece(s, AppendDst(s, ty, op));
  }

  lemma LoadImmediatePiece(s: State, ty: Ty, o: Operand)
    requires Ready(s) && Open(s)
    ensures Piece(s, LoadImmediate(s, ty, o).0)
  {
    hide Piece, AppendDst;
    if o.Imm? {
      DstPiece(s, ty, Load(NextReg(s), o));
    } else {
      ExtendsReflexive(s);
      StayPiece(s, s);
    }
  }

  /** The open block of a piece closed by `op` (or left as it is), and the whole piece sealed. */
  lemma Seal(s: State, m: State, path: seq<nat>, b: Block, blocks: Blocks)
    requires Laid(s, m, path) && Closed(b) && b.next == At(s.blocks, s.current).next
    requires forall x :: x in path ==> x in blocks && blocks[x] == At(m.blocks, x)
    requires m.current in blocks && blocks[m.current] == b
    ensures Sealed(blocks, path + [m.current], At(s.blocks, s.current).next)
  {
    SealedLater(m.blocks, blocks, path, m.current);
    SealedJoin(blocks, path, [m.current], m.current, At(s.blocks, s.current).next);
  }

  /** The open block of a piece closed by the branch `op`, and the whole piece sealed. */
  lemma SealWith(s: State, m: State, path: seq<nat>, op: Op, blocks: Blocks)
    requires Ready(m) && Laid(s, m, path)
    requires op.BranchCond? ==> At(s.blocks, s.current).next in {op.thenBlock, op.elseBlock}
    requires forall x :: x in path + [m.current] ==> x in blocks && blocks[x] == At(AppendOp(m, op).blocks, x)
    ensures Sealed(blocks, path + [m.current], At(s.blocks, s.current).next)
  {
    var b := AppendOp(m, op).blocks[m.current];
    assert b.ops[..|b.ops| - 1] == m.blocks[m.current].ops;
    assert forall x :: x in path ==> x in path + [m.current];
    assert m.current in path + [m.current];
    forall x | x in path
      ensures x != m.current
    {
      var i :| 0 <= i < |path| && path[i] == x;
      assert (path + [m.current])[i] != (path + [m.current])[|path|];
    }
    Seal(s, m, path, b, blocks);
  }

  // ---- the induction ---------------------------------------------------------------------------

  lemma {:induction false} LowerPiece(s: State, ctx: seq<Target>, e: Expr)
    requires Ready(s) && Open(s)
    ensures Piece(s, Lower(s, ctx, e).0)
    decreases e, 2
  {
    hide Ready, Open, Extends, Piece, AppendOp, AppendDst, LeaveTo, LowerStmt, LowerAll, OpenIf, OpenLoop, OpenDo, BranchIf, BranchLoop, CloseLoop;
    match e
    case Lit(w, _) => LiteralPiece(s, w);
    case Var(x, ty) => DstPiece(s, ty, Load(NextReg(s), Local(x)));
    case Bin(op, ty, l, r) =>
      PairPiece(s, ctx, e, l, r, ty, ty);
      var (s1, a) := Lower(s, ctx, l);
      var (s2, a') := LoadImmediate(s1, ty, a);
      var (s3, b) := Lower(s2, ctx, r);
      var (s4, b') := LoadImmediate(s3, ty, b);
      DstPiece(s4, ty, Compute(op, ty, NextReg(s4), a', b'));
      PieceThen(s, s4, Lower(s, ctx, e).0);
    case Cmp(cmp, l, r) =>
      PairPiece(s, ctx, e, r, l, TypeOf(r), TypeOf(l));
      var (s1, b) := Lower(s, ctx, r);
      var (s2, b') := LoadImmediate(s1, TypeOf(r), b);
      var (s3, a) := Lower(s2, ctx, l);
      var (s4, a') := LoadImmediate(s3, TypeOf(l), a);
      DstPiece(s4, Bool, Compare(cmp, NextReg(s4), a', b'));
      PieceThen(s, s4, Lower(s, ctx, e).0);
    case Logic(conjunction, l, r) =>
      LowerPiece(s, ctx, l);
      var (s1, a) := Lower(s, ctx, l);
      PieceOpen(s, s1);
      DstPiece(s1, TypeOf(l), Test(TypeOf(l), NextReg(s1), a));
      var s2 := AppendDst(s1, TypeOf(l), Test(TypeOf(l), NextReg(s1), a));
      PieceThen(s, s1, s2);
      PieceOpen(s, s2);
      LowerPiece(s2, ctx, r);
      var (s3, b) := Lower(s2, ctx, r);
      PieceThen(s, s2, s3);
      PieceOpen(s, s3);
      DstPiece(s3, TypeOf(r), Test(TypeOf(r), NextReg(s3), b));
      var s4 := AppendDst(s3, TypeOf(r), Test(TypeOf(r), NextReg(s3), b));
      PieceThen(s, s3, s4);
      PieceOpen(s, s4);
      DstPiece(s4, Bool, Combine(conjunction, NextReg(s4), Reg(NextReg(s1)), Reg(NextReg(s3))));
      PieceThen(s, s4, Lower(s, ctx, e).0);
    case Neg(a) =>
      LowerPiece(s, ctx, a);
      var (s1, o) := Lower(s, ctx, a);
      PieceOpen(s, s1);
      DstPiece(s1, I64, Negate(NextReg(s1), o));
      PieceThen(s, s1, Lower(s, ctx, e).0);
    case Cast(ty, a) =>
      var s0 := s.(lastLoad := false);
      ForgetPiece(s);
      LowerPiece(s0, ctx, a);
      var (s1, o) := Lower(s0, ctx, a);
      PieceThen(s, s0, s1);
      PieceOpen(s, s1);
      CastPiece(s1, ty, o);
      PieceThen(s, s1, Lower(s, ctx, e).0);
    case Assign(x, rhs) =>
      LowerPiece(s, ctx, rhs);
      var (s1, o) := Lower(s, ctx, rhs);
      PieceOpen(s, s1);
      OpPiece(s1, Store(Local(x), o));
      PieceThen(s, s1, Lower(s, ctx, e).0);
    case OpAssign(op, ty, x, rhs) =>
      LowerPiece(s, ctx, rhs);
      var (s1, b) := Lower(s, ctx, rhs);
      PieceOpen(s, s1);
      DstPiece(s1, ty, Load(NextReg(s1), Local(x)));
      var (s2, a) := EmitLoad(s1, ty, Local(x));
      PieceThen(s, s1, s2);
      PieceOpen(s, s2);
      DstPiece(s2, ty, Compute(op, ty, NextReg(s2), a, b));
      var s3 := AppendDst(s2, ty, Compute(op, ty, NextReg(s2), a, b));
      PieceThen(s, s2, s3);
      PieceOpen(s, s3);
      OpPiece(s3, Store(Local(x), Reg(NextReg(s2))));
      PieceThen(s, s3, Lower(s, ctx, e).0);
    case Do(_, _) => DoPiece(s, ctx, e);
    case If(_, _, _) => IfPiece(s, ctx, e);
    case Loop(_, _, _, _, _) => LoopPiece(s, ctx, e);
    case Break(level, carried) =>
      var target := if level < |ctx| then ctx[level] else Target(0, None);
      if carried.Some? {
        LowerPiece(s, ctx, carried.value);
        var low := Lower(s, ctx, carried.value);
        PieceOpen(s, low.0);
        CarriedPiece(low, target.slot);
        PieceThen(s, low.0, LowerCarried(low, target.slot));
        PieceOpen(s, LowerCarried(low, target.slot));
        LeavePiece(LowerCarried(low, target.slot), target.block);
        PieceThen(s, LowerCarried(low, target.slot), Lower(s, ctx, e).0);
      } else {
        LeavePiece(s, target.block);
      }
  }

  lemma PieceOpen(s: State, t: State)
    requires Piece(s, t)
    ensures Ready(t) && Open(t) && Extends(s, t)
  {
  }

  lemma LiteralPiece(s: State, w: Word)
    requires Ready(s) && Open(s)
    ensures Piece(s, LowerLiteral(s, w).0)
  {
    LiteralExtends(s, w);
    StayPiece(s, LowerLiteral(s, w).0);
  }

  lemma ForgetPiece(s: State)
    requires Ready(s) && Open(s)
    ensures Ready(s.(lastLoad := false)) && Open(s.(lastLoad := false)) && Piece(s, s.(lastLoad := false))
  {
    StayPiece(s, s.(lastLoad := false));
  }

  lemma CastPiece(s: State, ty: Ty, o: Operand)
    requires Ready(s) && Open(s)
    ensures Piece(s, LowerCast(s, ty, o).0)
  {
    hide Piece, AppendDst;
    DstPiece(s, ty, CastTo(NextReg(s), o));
    if s.lastLoad && o.payload < |s.regs| {
      StayPiece(s, s.(regs := s.regs[o.payload := ty]));
    }
  }

  lemma CarriedPiece(low: Lowered, slot: Option<nat>)
    requires Ready(low.0) && Open(low.0)
    ensures Piece(low.0, LowerCarried(low, slot))
  {
    hide Piece;
    if slot.Some? {
      OpPiece(low.0, Store(Local(slot.value), low.1));
    } else {
      ExtendsReflexive(low.0);
      StayPiece(low.0, low.0);
    }
  }

  lemma LeavePiece(s: State, target: nat)
    requires Ready(s) && Open(s)
    ensures Piece(s, LeaveTo(s, target))
  {
    var t := LeaveTo(s, target);
    LeaveToShape(s, target);
    var b := t.blocks[s.current];
    assert b.ops[..|b.ops| - 1] == s.blocks[s.current].ops;
    assert Laid(s, t, [s.current]);
  }

  lemma PairPiece(s: State, ctx: seq<Target>, e: Expr, first: Expr, second: Expr, t1: Ty, t2: Ty)
    requires Ready(s) && Open(s) && first < e && second < e
    ensures var s2 := LoadImmediate(Lower(s, ctx, first).0, t1, Lower(s, ctx, first).1).0;
            var s4 := LoadImmediate(Lower(s2, ctx, second).0, t2, Lower(s2, ctx, second).1).0;
            Ready(s4) && Open(s4) && Piece(s, s4)
    decreases e, 0
  {
    hide Ready, Open, Extends, Piece, AppendOp, AppendDst, LoadImmediate, Lower;
    LowerPiece(s, ctx, first);
    var (s1, a) := Lower(s, ctx, first);
    PieceOpen(s, s1);
    LoadImmediatePiece(s1, t1, a);
    var s2 := LoadImmediate(s1, t1, a).0;
    PieceThen(s, s1, s2);
    PieceOpen(s, s2);
    LowerPiece(s2, ctx, second);
    var (s3, b) := Lower(s2, ctx, second);
    PieceThen(s, s2, s3);
    PieceOpen(s, s3);
    LoadImmediatePiece(s3, t2, b);
    var s4 := LoadImmediate(s3, t2, b).0;
    PieceThen(s, s3, s4);
    PieceOpen(s, s4);
  }

  lemma DoPiece(s: State, ctx: seq<Target>, e: Expr)
    requires e.Do? && Ready(s) && Open(s)
    ensures Piece(s, Lower(s, ctx, e).0)
    decreases e, 1
  {
    hide Ready, Extends, Piece, AppendOp, AppendDst, LowerAll, OpenDo, Inserted, Open;
    var exit := FreshRef(s);
    var s1 := OpenDo(s);
    var ctx' := [Target(exit, Some(s.locals))] + ctx;
    OpenDoShape(s);
    DoOpens(s, s1, exit);
    AllPiece(s1, ctx', e.items);
    var s2 := LowerAll(s1, ctx', e.items);
    DoLaid(s, s1, exit, s2);
    PieceOpen(s, MoveTo(s2, exit));
    DstPiece(MoveTo(s2, exit), e.result.ty, Load(NextReg(s2), Local(s.locals)));
    PieceThen(s, MoveTo(s2, exit), Lower(s, ctx, e).0);
  }

  lemma DoOpens(s: State, s1: State, exit: nat)
    requires Open(s) && Inserted(AddLocal(s), s1, exit)
    ensures Ready(s1) && Open(s1)
  {
  }

  lemma DoLaid(s: State, s1: State, exit: nat, s2: State)
    requires Ready(s) && Open(s) && Inserted(AddLocal(s), s1, exit) && Piece(s1, s2)
    ensures Piece(s, MoveTo(s2, exit))
  {
    var path :| Laid(s1, s2, path);
    var t := MoveTo(s2, exit);
    DoClosed(s, s1, exit, s2);
    assert Untouched(s1, s2, exit);
    var b := s2.blocks[s2.current];
    assert b.ops != [] ==> b.ops[..|b.ops| - 1] <= b.ops;
    Seal(s1, s2, path, b, s2.blocks);
    var whole := path + [s2.current];
    assert exit !in whole by {
      assert exit in s1.blocks && exit != s1.current;
    }
    assert forall x :: x in whole + [exit] <==> x in whole || x == exit;
    assert Laid(s, t, whole) by {
      assert (whole + [exit])[0] == whole[0];
    }
  }

  lemma {:induction false} StmtPiece(s: State, ctx: seq<Target>, st: Stmt)
    requires Ready(s) && Open(s)
    ensures Piece(s, LowerStmt(s, ctx, st))
    decreases st, 0
  {
    hide Ready, Open, Extends, Piece, AppendOp, LowerAll, Lower;
    match st
    case Compound(items) => AllPiece(s, ctx, items);
    case Decl(_, initial) =>
      var s1 := AddLocal(s);
      LocalPiece(s);
      if initial.Some? {
        LowerPiece(s1, ctx, initial.value);
        var (s2, v) := Lower(s1, ctx, initial.value);
        PieceThen(s, s1, s2);
        PieceOpen(s, s2);
        OpPiece(s2, Store(Local(s.locals), v));
        PieceThen(s, s2, LowerStmt(s, ctx, st));
      }
    case Eval(e) => LowerPiece(s, ctx, e);
  }

  lemma LocalPiece(s: State)
    requires Ready(s) && Open(s)
    ensures Ready(AddLocal(s)) && Open(AddLocal(s)) && Piece(s, AddLocal(s))
  {
    StayPiece(s, AddLocal(s));
  }

  lemma {:induction false} AllPiece(s: State, ctx: seq<Target>, items: seq<Stmt>)
    requires Ready(s) && Open(s)
    ensures Piece(s, LowerAll(s, ctx, items))
    decreases items, 0
  {
    hide Ready, Open, Extends, Piece, LowerStmt;
    if items == [] {
      ExtendsReflexive(s);
      SelfPiece(s);
    } else {
      StmtPiece(s, ctx, items[0]);
      var s1 := LowerStmt(s, ctx, items[0]);
      PieceOpen(s, s1);
      AllPiece(s1, ctx, items[1..]);
      PieceThen(s, s1, LowerAll(s1, ctx, items[1..]));
    }
  }

  lemma SelfPiece(s: State)
    requires Ready(s) && Open(s)
    ensures Piece(s, s)
  {
    ExtendsReflexive(s);
    StayPiece(s, s);
  }

  // ---- joining the parts of a branching construct ----------------------------------------------

  /** A finished stretch of the layout: from `first` through exactly the blocks of `t` outside
      `kept`, each closed, on to `stop`. */
  ghost predicate Strip(kept: set<nat>, t: State, path: seq<nat>, first: nat, stop: nat) {
    && path != [] && path[0] == first && kept <= t.blocks.Keys
    && Sealed(t.blocks, path, stop)
    && Distinct(path)
    && (forall x :: x in path <==> x in t.blocks && x !in kept)
  }

  predicate OnlyTouches(t: State, u: State, b: nat) {
    forall x :: x in t.blocks && x != b ==> Untouched(t, u, x)
  }

  lemma ExtendsTouches(t: State, b: nat, u: State)
    requires Extends(MoveTo(t, b), u)
    ensures OnlyTouches(t, u, b)
  {
    forall x | x in t.blocks && x != b
      ensures Untouched(t, u, x)
    {
      assert Untouched(MoveTo(t, b), u, x);
    }
  }

  lemma StripJoin(kept: set<nat>, t: State, p: seq<nat>, first: nat, mid: nat, u: State, q: seq<nat>, stop: nat)
    requires Strip(kept, t, p, first, mid) && Strip(t.blocks.Keys - {mid}, u, q, mid, stop)
    requires mid in kept && OnlyTouches(t, u, mid)
    ensures Strip(kept - {mid}, u, p + q, first, stop)
  {
    hide Sealed, Distinct;
    forall x | x in p
      ensures x in u.blocks && u.blocks[x] == At(t.blocks, x) && x !in q
    {
      assert Untouched(t, u, x);
    }
    JoinSealed(t, p, mid, u, q, stop);
    JoinDistinct(p, q);
    forall x
      ensures x in p + q <==> x in u.blocks && x !in kept - {mid}
    {
      JoinMember(kept, t, p, mid, u, q, x);
    }
    forall x | x in kept - {mid}
      ensures x in u.blocks
    {
      assert Untouched(t, u, x);
    }
  }

  lemma JoinMember(kept: set<nat>, t: State, p: seq<nat>, mid: nat, u: State, q: seq<nat>, x: nat)
    requires x in p <==> x in t.blocks && x !in kept
    requires x in q <==> x in u.blocks && x !in t.blocks.Keys - {mid}
    requires mid in kept && kept <= t.blocks.Keys && q != [] && q[0] == mid && (x in t.blocks && x != mid ==> Untouched(t, u, x))
    ensures x in p + q <==> x in u.blocks && x !in kept - {mid}
  {
    assert mid in q;
  }

  lemma JoinSealed(t: State, p: seq<nat>, mid: nat, u: State, q: seq<nat>, stop: nat)
    requires Sealed(t.blocks, p, mid) && q != [] && q[0] == mid && Sealed(u.blocks, q, stop)
    requires forall x :: x in p ==> x in u.blocks && u.blocks[x] == At(t.blocks, x)
    ensures Sealed(u.blocks, p + q, stop)
  {
    SealedLater(t.blocks, u.blocks, p, mid);
    SealedJoin(u.blocks, p, q, mid, stop);
  }

  lemma JoinDistinct(p: seq<nat>, q: seq<nat>)
    requires Distinct(p) && Distinct(q) && forall x :: x in p ==> x !in q
    ensures Distinct(p + q)
  {
    forall i, j | 0 <= i < j < |p + q|
      ensures (p + q)[i] != (p + q)[j]
    {
      if i < |p| <= j {
        assert p[i] in p && q[j - |p|] in q;
      }
    }
  }

  /** A piece whose open block is closed by a branch. */
  lemma PieceStrip(s: State, m: State, op: Op) returns (path: seq<nat>)
    requires Ready(s) && Piece(s, m)
    requires op.Branch? || (op.BranchCond? && At(s.blocks, s.current).next in {op.thenBlock, op.elseBlock})
    ensures Strip(s.blocks.Keys - {s.current}, AppendOp(m, op), path, s.current, At(s.blocks, s.current).next)
  {
    var p :| Laid(s, m, p);
    path := p + [m.current];
    var t := AppendOp(m, op);
    assert t.blocks.Keys == m.blocks.Keys;
    PathLives(s, m, p);
    SealWith(s, m, p, op, t.blocks);
    forall x
      ensures x in path <==> x in t.blocks && x !in s.blocks.Keys - {s.current}
    {
      assert s.current in path by { assert path[0] == s.current; }
      assert x in path <==> x in p || x == m.current;
    }
  }

  lemma PathLives(s: State, m: State, p: seq<nat>)
    requires Ready(s) && Laid(s, m, p)
    ensures forall x :: x in p + [m.current] ==> x in m.blocks
  {
    forall x | x in p + [m.current]
      ensures x in m.blocks
    {
      var i :| 0 <= i < |p + [m.current]| && (p + [m.current])[i] == x;
    }
  }

  /** A block that is closed as it stands. */
  lemma SoloStrip(t: State, b: nat, stop: nat)
    requires b in t.blocks && NoBranch(t.blocks[b].ops) && t.blocks[b].next == stop
    ensures Strip(t.blocks.Keys - {b}, t, [b], b, stop)
  {
    var blk := t.blocks[b];
    assert blk.ops != [] ==> blk.ops[..|blk.ops| - 1] <= blk.ops;
  }

  /** A strip that leaves the block `end` out, and the piece it completes. */
  lemma StripPiece(s: State, t: State, path: seq<nat>, end: nat)
    requires Ready(s) && Extends(s, MoveTo(t, end)) && end !in s.blocks
    requires end in t.blocks && t.blocks[end] == Block([], At(s.blocks, s.current).next)
    requires Strip(s.blocks.Keys - {s.current} + {end}, t, path, s.current, end)
    ensures Piece(s, MoveTo(t, end))
  {
    forall x
      ensures x in t.blocks && x !in s.blocks <==> x in path + [end] && x != s.current
    {
      assert x in path + [end] <==> x in path || x == end;
    }
    forall i, j | 0 <= i < j < |path + [end]|
      ensures (path + [end])[i] != (path + [end])[j]
    {
      assert (path + [end])[i] in path;
    }
    assert Laid(s, MoveTo(t, end), path);
  }

  // ---- `if` ------------------------------------------------------------------------------------

  lemma IfPiece(s: State, ctx: seq<Target>, e: Expr)
    requires e.If? && Ready(s) && Open(s)
    ensures Piece(s, Lower(s, ctx, e).0)
    decreases e, 1
  {
    hide Ready, Open, Extends, Piece, IfOpened, AppendOp, LowerStmt, OpenIf, BranchIf, Strip;
    var hasElse := e.orelse.Some?;
    var p := OpenIf(s, hasElse);
    OpenIfShape(s, hasElse);
    IfOpens(s, p, hasElse);
    LowerPiece(p.state, ctx, e.cond);
    var s1 := BranchIf(Lower(p.state, ctx, e.cond), p);
    var path1 := BranchIfStrip(s, p, hasElse, Lower(p.state, ctx, e.cond));
    var b1 := MoveTo(s1, p.body);
    IfArms(s, p, hasElse, s1);
    StmtPiece(b1, ctx, e.body);
    var s2 := AppendOp(LowerStmt(b1, ctx, e.body), Branch(p.end));
    var path2 := ArmStrip(b1, LowerStmt(b1, ctx, e.body), p.end);
    ExtendsTouches(s1, p.body, s2);
    StripJoin(p.state.blocks.Keys - {s.current}, s1, path1, s.current, p.body, s2, path2, p.orelse);
    if !hasElse {
      assert p.state.blocks.Keys - {s.current} - {p.body} == p.state.blocks.Keys - {s.current} - {p.body} - {};
      IfClosed(s, p, false, s1, s2, MoveTo(s2, p.orelse));
      IfEnds(s, p, false, s1, s2, s2, path1 + path2);
    } else {
      var b2 := MoveTo(s2, p.orelse);
      IfElse(s, p, s1, s2);
      StmtPiece(b2, ctx, e.orelse.value);
      var s3 := AppendOp(LowerStmt(b2, ctx, e.orelse.value), Branch(p.end));
      var path3 := ArmStrip(b2, LowerStmt(b2, ctx, e.orelse.value), p.end);
      ExtendsTouches(s2, p.orelse, s3);
      StripJoin(p.state.blocks.Keys - {s.current} - {p.body}, s2, path1 + path2, s.current, p.orelse, s3, path3, p.end);
      IfClosed(s, p, true, s1, s2, s3);
      IfEnds(s, p, true, s1, s2, s3, path1 + path2 + path3);
    }
  }

  lemma IfOpens(s: State, p: IfParts, hasElse: bool)
    requires Ready(s) && Open(s) && IfOpened(s, p, hasElse)
    ensures Ready(p.state) && Open(p.state) && p.state.current == s.current && s.current in p.state.blocks
    ensures p.body in p.state.blocks.Keys - {s.current}
    ensures hasElse ==> p.orelse in p.state.blocks.Keys - {s.current} - {p.body}
  {
  }

  lemma BranchIfStrip(s: State, p: IfParts, hasElse: bool, low: Lowered) returns (path: seq<nat>)
    requires IfOpened(s, p, hasElse) && Ready(p.state) && Open(p.state) && Piece(p.state, low.0)
    ensures Extends(p.state, BranchIf(low, p))
    ensures Strip(p.state.blocks.Keys - {s.current}, BranchIf(low, p), path, s.current, p.body)
  {
    hide Ready, Open, Extends, Piece, AppendOp, AppendDst, Strip;
    PieceOpen(p.state, low.0);
    BranchIfExtends(p.state, low, p);
    IfOperandPiece(low.0, low.1);
    var (t, o) := IfOperand(low.0, low.1);
    PieceThen(p.state, low.0, t);
    path := PieceStrip(p.state, t, BranchCond(o, p.body, p.orelse));
  }

  lemma IfOperandPiece(s: State, o: Operand)
    requires Ready(s) && Open(s)
    ensures Piece(s, IfOperand(s, o).0)
  {
    hide Ready, Open, Extends, Piece, AppendOp, AppendDst, LoadImmediate;
    LoadImmediatePiece(s, Bool, o);
    var (s1, o1) := LoadImmediate(s, Bool, o);
    PieceOpen(s, s1);
    DstPiece(s1, Bool, Compare(Neq, NextReg(s1), o1, Imm(0)));
    PieceThen(s, s1, AppendDst(s1, Bool, Compare(Neq, NextReg(s1), o1, Imm(0))));
    SelfPiece(s);
  }

  lemma IfArms(s: State, p: IfParts, hasElse: bool, s1: State)
    requires Ready(s) && IfOpened(s, p, hasElse) && Extends(p.state, s1)
    ensures var b := MoveTo(s1, p.body); Ready(b) && Open(b) && At(b.blocks, b.current).next == p.orelse
  {
    assert Untouched(p.state, s1, p.body);
  }

  lemma IfElse(s: State, p: IfParts, s1: State, s2: State)
    requires Ready(s) && IfOpened(s, p, true) && Extends(p.state, s1) && Extends(MoveTo(s1, p.body), s2)
    ensures var b := MoveTo(s2, p.orelse); Ready(b) && Open(b) && At(b.blocks, b.current).next == p.end
  {
    assert Untouched(p.state, s1, p.orelse) && Untouched(MoveTo(s1, p.body), s2, p.orelse);
  }

  lemma ArmStrip(b: State, m: State, end: nat) returns (path: seq<nat>)
    requires Ready(b) && Piece(b, m)
    ensures Extends(b, AppendOp(m, Branch(end)))
    ensures Strip(b.blocks.Keys - {b.current}, AppendOp(m, Branch(end)), path, b.current, At(b.blocks, b.current).next)
  {
    hide Ready, Open, Extends, Piece, AppendOp, Strip;
    PieceOpen(b, m);
    AppendAfter(b, m, Branch(end));
    path := PieceStrip(b, m, Branch(end));
  }

  lemma IfEnds(s: State, p: IfParts, hasElse: bool, s1: State, s2: State, s3: State, path: seq<nat>)
    requires Ready(s) && IfOpened(s, p, hasElse) && Extends(p.state, s1) && Extends(MoveTo(s1, p.body), s2)
    requires if hasElse then Extends(MoveTo(s2, p.orelse), s3) else s3 == s2
    requires Extends(s, MoveTo(s3, p.end))
    requires Strip(p.state.blocks.Keys - {s.current} - {p.body} - (if hasElse then {p.orelse} else {}), s3, path, s.current, p.end)
    ensures Piece(s, MoveTo(s3, p.end))
  {
    hide Extends, Strip, Piece;
    assert p.state.blocks.Keys - {s.current} - {p.body} - (if hasElse then {p.orelse} else {})
           == s.blocks.Keys - {s.current} + {p.end};
    IfEndKept(s, p, hasElse, s1, s2, s3);
    StripPiece(s, s3, path, p.end);
  }

  lemma IfEndKept(s: State, p: IfParts, hasElse: bool, s1: State, s2: State, s3: State)
    requires Ready(s) && IfOpened(s, p, hasElse) && Extends(p.state, s1) && Extends(MoveTo(s1, p.body), s2)
    requires if hasElse then Extends(MoveTo(s2, p.orelse), s3) else s3 == s2
    ensures p.end !in s.blocks && p.end in s3.blocks && s3.blocks[p.end] == Block([], At(s.blocks, s.current).next)
  {
    assert Untouched(p.state, s1, p.end) && Untouched(MoveTo(s1, p.body), s2, p.end);
    assert hasElse ==> Untouched(MoveTo(s2, p.orelse), s3, p.end);
  }

  // ---- loops -----------------------------------------------------------------------------------

  lemma LoopPiece(s: State, ctx: seq<Target>, e: Expr)
    requires e.Loop? && Ready(s) && Open(s)
    ensures Piece(s, Lower(s, ctx, e).0)
    decreases e, 1
  {
    hide Ready, Open, Extends, Piece, LoopOpened, AppendOp, LowerStmt, OpenLoop, BranchLoop, CloseLoop, Strip;
    var s0 := if e.init.None? then s else LowerStmt(s, ctx, e.init.value);
    SelfPiece(s);
    if e.init.Some? {
      StmtPiece(s, ctx, e.init.value);
    }
    PieceOpen(s, s0);
    var hasSlot := e.slot.Some?;
    var p := OpenLoop(s0, hasSlot);
    OpenLoopShape(s0, hasSlot);
    LoopReady(s0, p);
    LoopOpens(s0, p);
    var ctx' := LoopContext(s0, ctx, p, hasSlot);
    var s1 := if e.test.None? then p.state else BranchLoop(Lower(p.state, ctx', e.test.value), p);
    var path1;
    if e.test.Some? {
      LowerPiece(p.state, ctx', e.test.value);
      path1 := TestStrip(s0, p, Lower(p.state, ctx', e.test.value));
    } else {
      ExtendsReflexive(p.state);
      path1 := NoTestStrip(s0, p);
    }
    ExtendsTouches(p.state, p.test, s1);
    StripJoin(p.state.blocks.Keys - {s0.current}, p.state, [s0.current], s0.current, p.test, s1, path1, p.body);
    LoopBody(s0, p, s1);
    var b := MoveTo(s1, p.body);
    StmtPiece(b, ctx', e.body);
    var s2 := LowerStmt(b, ctx', e.body);
    PieceOpen(b, s2);
    var s3 := if e.update.None? then s2 else Lower(s2, ctx', e.update.value).0;
    if e.update.Some? {
      LowerPiece(s2, ctx', e.update.value);
      PieceThen(b, s2, s3);
    }
    var s4 := AppendOp(s3, Branch(p.test));
    var path2 := ArmStrip(b, s3, p.test);
    ExtendsTouches(s1, p.body, s4);
    StripJoin(p.state.blocks.Keys - {s0.current} - {p.test}, s1, [s0.current] + path1, s0.current, p.body, s4, path2, p.exit);
    LoopEnds(s0, p, s1, s4, [s0.current] + path1 + path2);
    PieceThen(s, s0, MoveTo(s4, p.end));
    PieceOpen(s, MoveTo(s4, p.end));
    CloseLoopPiece(s4, p, s0.locals, e.slot);
    PieceThen(s, MoveTo(s4, p.end), CloseLoop(s4, p, s0.locals, e.slot).0);
  }

  lemma LoopOpens(s: State, p: LoopParts)
    requires Ready(s) && Open(s) && LoopOpened(s, p, p.state.locals)
    ensures Open(p.state) && p.state.current == p.test && MoveTo(p.state, p.test) == p.state
    ensures p.test in p.state.blocks.Keys - {s.current}
    ensures p.body in p.state.blocks.Keys - {s.current} - {p.test}
    ensures Strip(p.state.blocks.Keys - {s.current}, p.state, [s.current], s.current, p.test)
  {
    hide Strip;
    LoopPartsDiffer(p);
    SoloStrip(p.state, s.current, p.test);
  }

  lemma LoopPartsDiffer(p: LoopParts)
    requires Distinct([p.test, p.body, p.exit, p.end])
    ensures p.test != p.body && p.test != p.exit && p.test != p.end
    ensures p.body != p.exit && p.body != p.end && p.exit != p.end
  {
    var l := [p.test, p.body, p.exit, p.end];
    assert l[0] != l[1] && l[0] != l[2] && l[0] != l[3] && l[1] != l[2] && l[1] != l[3] && l[2] != l[3];
  }

  lemma TestStrip(s: State, p: LoopParts, low: Lowered) returns (path: seq<nat>)
    requires LoopOpened(s, p, p.state.locals) && Ready(p.state) && Piece(p.state, low.0)
    ensures Extends(p.state, BranchLoop(low, p))
    ensures Strip(p.state.blocks.Keys - {p.test}, BranchLoop(low, p), path, p.test, p.body)
  {
    hide Ready, Extends, Piece, AppendOp, Strip;
    PieceOpen(p.state, low.0);
    BranchLoopExtends(p.state, low, p);
    path := PieceStrip(p.state, low.0, BranchCond(low.1, p.body, p.end));
  }

  lemma NoTestStrip(s: State, p: LoopParts) returns (path: seq<nat>)
    requires LoopOpened(s, p, p.state.locals)
    ensures Strip(p.state.blocks.Keys - {p.test}, p.state, path, p.test, p.body)
  {
    path := [p.test];
    SoloStrip(p.state, p.test, p.body);
  }

  lemma LoopBody(s: State, p: LoopParts, s1: State)
    requires Ready(s) && LoopOpened(s, p, p.state.locals) && Extends(p.state, s1)
    ensures var b := MoveTo(s1, p.body); Ready(b) && Open(b) && At(b.blocks, b.current).next == p.exit
  {
    LoopPartsDiffer(p);
    assert Untouched(p.state, s1, p.body);
  }

  lemma LoopEnds(s: State, p: LoopParts, s1: State, s4: State, path: seq<nat>)
    requires Ready(s) && p.state.locals >= s.locals && LoopOpened(s, p, p.state.locals)
    requires Extends(p.state, s1) && Extends(MoveTo(s1, p.body), s4)
    requires Strip(p.state.blocks.Keys - {s.current} - {p.test} - {p.body}, s4, path, s.current, p.exit)
    ensures Piece(s, MoveTo(s4, p.end))
  {
    hide Extends, Strip, Piece, Ready;
    LoopPartsDiffer(p);
    LoopTailKept(s, p, s1, s4);
    SoloStrip(s4, p.exit, p.end);
    StripJoin(p.state.blocks.Keys - {s.current} - {p.test} - {p.body}, s4, path, s.current, p.exit, s4, [p.exit], p.end);
    assert p.state.blocks.Keys - {s.current} - {p.test} - {p.body} - {p.exit} == s.blocks.Keys - {s.current} + {p.end};
    LoopClosed(s, p, s1, s4);
    StripPiece(s, s4, path + [p.exit], p.end);
  }

  lemma LoopTailKept(s: State, p: LoopParts, s1: State, s4: State)
    requires Ready(s) && LoopOpened(s, p, p.state.locals)
    requires Extends(p.state, s1) && Extends(MoveTo(s1, p.body), s4)
    ensures p.exit in s4.blocks && s4.blocks[p.exit] == Block([], p.end)
    ensures p.end !in s.blocks && p.end in s4.blocks && s4.blocks[p.end] == Block([], At(s.blocks, s.current).next)
    ensures OnlyTouches(s4, s4, p.exit)
  {
    LoopPartsDiffer(p);
    assert Untouched(p.state, s1, p.end) && Untouched(MoveTo(s1, p.body), s4, p.end);
    assert Untouched(p.state, s1, p.exit) && Untouched(MoveTo(s1, p.body), s4, p.exit);
  }

  lemma CloseLoopPiece(s: State, p: LoopParts, local: nat, slot: Option<Slot>)
    requires Ready(MoveTo(s, p.end)) && Open(MoveTo(s, p.end))
    ensures Piece(MoveTo(s, p.end), CloseLoop(s, p, local, slot).0)
  {
    hide Ready, Open, Extends, Piece, AppendDst;
    var t := MoveTo(s, p.end);
    SelfPiece(t);
    if slot.Some? {
      DstPiece(t, slot.value.ty, Load(NextReg(t), Local(local)));
    }
  }

  // ---- whole functions -------------------------------------------------------------------------

  /** The blocks of a function in layout order: no block twice, and the last one is followed by
      none. */
  predicate Chain(blocks: Blocks, first: nat, path: seq<nat>) {
    && path != [] && path[0] == first
    && Distinct(path)
    && (forall i :: 0 <= i < |path| ==> path[i] in blocks && blocks[path[i]].next == (path + [0])[i + 1])
  }

  /** A finished function is laid out in one chain of exactly the entry and the blocks created for
      it; each has at most one branch, placed last, and every two-way branch still has one of its
      targets right behind it. */
  lemma FunctionLayout(s: State, body: Stmt) returns (path: seq<nat>)
    requires AtEntry(s)
    ensures var t := LowerBody(s, body);
            && Chain(t.blocks, s.current, path)
            && (forall x :: x in path <==> x == s.current || (x in t.blocks && x !in s.blocks))
            && (forall x :: x in path ==> x != 0 && Closed(t.blocks[x]))
  {
    hide Extends, Piece, LowerStmt;
    StmtPiece(s, [], body);
    var s1 := LowerStmt(s, [], body);
    PieceOpen(s, s1);
    OpPiece(s1, Ret);
    PieceThen(s, s1, LowerBody(s, body));
    path := PieceChain(s, LowerBody(s, body));
  }

  /** The same for an expression evaluated at compile time. */
  lemma ExpressionLayout(s: State, e: Expr) returns (path: seq<nat>)
    requires AtEntry(s)
    ensures var t := Lower(s, [], e).0;
            && Chain(t.blocks, s.current, path)
            && (forall x :: x in path <==> x == s.current || (x in t.blocks && x !in s.blocks))
            && (forall x :: x in path ==> x != 0 && Closed(t.blocks[x]))
  {
    hide Extends, Piece, Lower;
    LowerPiece(s, [], e);
    path := PieceChain(s, Lower(s, [], e).0);
  }

  lemma PieceChain(s: State, t: State) returns (path: seq<nat>)
    requires AtEntry(s) && Piece(s, t)
    ensures Chain(t.blocks, s.current, path)
    ensures forall x :: x in path <==> x == s.current || (x in t.blocks && x !in s.blocks)
    ensures forall x :: x in path ==> x != 0 && Closed(t.blocks[x])
  {
    var p :| Laid(s, t, p);
    path := p + [t.current];
    var last := t.blocks[t.current];
    assert last.ops != [] ==> last.ops[..|last.ops| - 1] <= last.ops;
    PathLives(s, t, p);
    Seal(s, t, p, last, t.blocks);
    assert s.current in path by { assert path[0] == s.current; }
    forall x | x in path
      ensures Closed(t.blocks[x])
    {
      var i :| 0 <= i < |path| && path[i] == x;
    }
  }
}
