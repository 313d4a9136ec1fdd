/** Where lowering and the interpreter do not meet the source, and exactly when they still do. */
module Limits {
  import opened Wrappers
  import opened Words
  import opened Syntax
  import opened Ir
  import opened Lowering
  import opened Shape
  import opened LoweringShape
  import opened Simulation
  import opened Correctness
  import Source

  /** The register an `if` on something that is not a bool register compares its condition with:
      the interpreter takes the immediate zero for register zero, which is the freshly loaded
      condition itself when no register was in use. */
  function ComparedWith(code: Code, s: State, f: Frame, o: Operand): Word {
    if o.Imm? && |s.regs| == 0 then Value(code, f, o) else Read(f.regs, 0)
  }

  /** An `if` on an immediate or an integer register takes its body exactly when the condition
      differs from register zero. */
  lemma ConditionMeetsRegisterZero(code: Code, s: State, o: Operand, f: Frame) returns (n: nat, g: Frame)
    requires Ready(s) && Fits(s, o) && !o.Literal? && !BoolRegister(s, o)
    requires Agrees(code, s, IfOperand(s, o).0) && Roomy(IfOperand(s, o).0, f)
    ensures var (t, o') := IfOperand(s, o);
            && Reaches(code, s, f, t, g, n)
            && (Value(code, g, o') != 0 <==> Value(code, f, o) != ComparedWith(code, s, f, o))
  {
    var (s1, o1) := LoadImmediate(s, Bool, o);
    var t := AppendDst(s1, Bool, Compare(Neq, NextReg(s1), o1, Imm(0)));
    LoadImmediateShape(s, Bool, o);
    AppendDstShape(s1, Bool, Compare(Neq, NextReg(s1), o1, Imm(0)));
    Split(code, s, s1, t, f);
    var n1, g1 := LoadImmediateStep(code, s, Bool, o, f);
    KeepsRoom(code, s, f, s1, g1, n1, t);
    var w := BoolWord(Ordered(Neq, RawValue(g1, o1), RawValue(g1, Imm(0))));
    g := DefineStep(code, s1, t, Bool, Compare(Neq, NextReg(s1), o1, Imm(0)), g1, w);
    ReachesTransitive(code, s, f, s1, g1, t, g, n1, 1);
    n := n1 + 1;
  }

  /** So before any register is in use no literal condition takes the body: `if true` runs its else
      branch, and only `if false` is right. */
  lemma LiteralConditionAtStart(code: Code, s: State, w: nat, f: Frame) returns (n: nat, g: Frame)
    requires Ready(s) && w <= MAX_IMMEDIATE && |s.regs| == 0
    requires Agrees(code, s, IfOperand(s, Imm(w)).0) && Roomy(IfOperand(s, Imm(w)).0, f)
    ensures var (t, o') := IfOperand(s, Imm(w));
            && Reaches(code, s, f, t, g, n) && Value(code, g, o') == 0
            && ((Value(code, g, o') != 0 <==> w != 0) <==> w == 0)
  {
    n, g := ConditionMeetsRegisterZero(code, s, Imm(w), f);
  }

  // ---- comparisons with wide literals ------------------------------------------------------------

  /** `v cmp w` with a literal `v` too wide for an operand and a literal `w` that fits one. */
  function WideCompare(cmp: CompareOp, v: Word, w: Word): Expr {
    Cmp(cmp, Lit(v, U64), Lit(w, U64))
  }

  /** What the comparison reads in place of the wide literal: the register that happens to have the
      literal's number in the literal table.  As the first literal of a function that has no register
      yet it is the register that `w` has just been loaded into. */
  function ReadInstead(s: State, w: Word, f: Frame): Word {
    if |s.literals| == |s.regs| then w else Read(f.regs, |s.literals|)
  }

  /** The words in place of the wide literal for which the answer is still right. */
  predicate StillRight(cmp: CompareOp, instead: Word, w: Word) {
    match cmp
    case Eq => instead != w
    case Neq => instead != w
    case Gt => instead > w
    case Lte => instead > w
    case Gte => instead >= w
    case Lt => instead >= w
  }

  lemma WideCompareCode(s: State, cmp: CompareOp, v: Word, w: Word)
    requires AtEntry(s) && v > MAX_IMMEDIATE && w <= MAX_IMMEDIATE
    ensures var (t, o) := Lower(s, [], WideCompare(cmp, v, w)); var n := |s.regs|;
            && s.current in t.blocks && t.blocks[s.current] == Block([Load(n, Imm(w)), Compare(cmp, n + 1, Literal(|s.literals|), Reg(n))], 0)
            && |t.regs| == n + 2 && o == Reg(n + 1)
  {
    var n := |s.regs|;
    assert LowerLiteral(s, w) == (s, Imm(w));
    var s2 := EmitLoad(s, U64, Imm(w)).0;
    AppendDstShape(s, U64, Load(n, Imm(w)));
    var (s3, a) := LowerLiteral(s2, v);
    assert Lower(s, [], WideCompare(cmp, v, w)) == (AppendDst(s3, Bool, Compare(cmp, n + 1, a, Reg(n))), Reg(n + 1));
    LiteralExtends(s2, v);
    AppendDstShape(s3, Bool, Compare(cmp, n + 1, a, Reg(n)));
  }

  /** The comparison, evaluated: it compares some register with `w` and not the literal, and is right
      exactly for the words in that register that are on the literal's side of `w`. */
  lemma WideComparison(s: State, cmp: CompareOp, v: Word, w: Word, f: Frame) returns (g: Frame)
    requires AtEntry(s) && v > MAX_IMMEDIATE && w <= MAX_IMMEDIATE && |s.regs| + 2 <= |f.regs|
    ensures var (t, o) := Lower(s, [], WideCompare(cmp, v, w));
            && Steps(Finished(t), Start(s, f), 3) == Halted(g)
            && (Source.Run(WideCompare(cmp, v, w), f.locals, 0) == Source.Done(Source.Normal, f.locals, Value(Finished(t), g, o))
                <==> StillRight(cmp, ReadInstead(s, w, f), w))
  {
    var t := Lower(s, [], WideCompare(cmp, v, w)).0;
    WideCompareCode(s, cmp, v, w);
    var n, code := |s.regs|, Finished(t);
    hide Lower;
    var f1 := SetReg(f, n, w);
    g := SetReg(f1, n + 1, BoolWord(Ordered(cmp, ReadInstead(s, w, f), w)));
    assert Read(f1.regs, n) == w;
    assert Wrap(w) == w;
    var path := [Start(s, f), Running(s.current, 1, f1), Running(s.current, 2, g), Halted(g)];
    assert Step(code, path[0]) == path[1];
    assert Step(code, path[1]) == path[2];
    assert Step(code, path[2]) == path[3];
    Path(code, path);
  }

  /** So where no register and no literal is in use yet, exactly `>=` and `<` come out right. */
  lemma FirstWideComparison(s: State, cmp: CompareOp, v: Word, w: Word, f: Frame) returns (g: Frame)
    requires AtEntry(s) && v > MAX_IMMEDIATE && w <= MAX_IMMEDIATE && |s.regs| == |s.literals| == 0 && 2 <= |f.regs|
    ensures var (t, o) := Lower(s, [], WideCompare(cmp, v, w));
            && Steps(Finished(t), Start(s, f), 3) == Halted(g)
            && (Source.Run(WideCompare(cmp, v, w), f.locals, 0) == Source.Done(Source.Normal, f.locals, Value(Finished(t), g, o))
                <==> cmp == Gte || cmp == Lt)
  {
    hide Lower, Steps, Source.Run;
    g := WideComparison(s, cmp, v, w, f);
  }

  // ---- one program for each --------------------------------------------------------------------

  /** An empty function with one local. */
  const EMPTY := State(map[1 := Block([], 0)], [], 2, 1, 1, [], [], false)

  /** `if true { x = 1 } else { x = 2 }` */
  const IF_TRUE := If(Lit(1, Bool), Eval(Assign(0, Lit(1, U64))), Some(Eval(Assign(0, Lit(2, U64)))))

  const IF_TRUE_CODE := Code(map[
    1 := Block([Load(0, Imm(1)), Compare(Neq, 1, Reg(0), Imm(0)), BranchCond(Reg(1), 2, 3)], 2),
    2 := Block([Store(Local(0), Imm(1)), Branch(4)], 3),
    3 := Block([Store(Local(0), Imm(2)), Branch(4)], 4),
    4 := Block([], 0)], [])

  lemma IfTrueCode()
    ensures Finished(Lower(EMPTY, [], IF_TRUE).0) == IF_TRUE_CODE
  {
    var p := OpenIf(EMPTY, true);
    assert p == IfParts(State(map[1 := Block([], 2), 2 := Block([], 3), 3 := Block([], 4), 4 := Block([], 0)],
                              [], 5, 1, 1, [], [], false), 2, 3, 4);
    var s1 := BranchIf(Lower(p.state, [], Lit(1, Bool)), p);
    assert s1.blocks[1] == IF_TRUE_CODE.blocks[1];
    var s2 := LowerArm(MoveTo(s1, 2), [], IF_TRUE.body, 4);
    assert s2.blocks[2] == IF_TRUE_CODE.blocks[2];
    var s3 := LowerArm(MoveTo(s2, 3), [], IF_TRUE.orelse.value, 4);
    assert s3.blocks[3] == IF_TRUE_CODE.blocks[3];
    LowerIfIs(EMPTY, [], IF_TRUE);
  }

  lemma Path(code: Code, path: seq<Config>)
    requires path != [] && forall i :: 0 <= i < |path| - 1 ==> Step(code, path[i]) == path[i + 1]
    ensures Steps(code, path[0], |path| - 1) == path[|path| - 1]
    decreases |path|
  {
    if |path| > 1 {
      Path(code, path[1..]);
    }
  }

  lemma IfTrueSteps(code: Code)
    requires code == IF_TRUE_CODE
    ensures Steps(code, Running(1, 0, Frame([0], [0, 0])), 6) == Halted(Frame([2], [1, 0]))
  {
    var f0, f1, f2 := Frame([0], [0, 0]), Frame([0], [1, 0]), Frame([2], [1, 0]);
    assert Step(code, Running(1, 0, f0)) == Running(1, 1, f1);
    assert Step(code, Running(1, 1, f1)) == Running(1, 2, f1);
    assert Step(code, Running(1, 2, f1)) == Running(3, 0, f1);
    assert Step(code, Running(3, 0, f1)) == Running(3, 1, f2);
    assert Step(code, Running(3, 1, f2)) == Running(4, 0, f2);
    assert Step(code, Running(4, 0, f2)) == Halted(f2);
    Path(code, [Running(1, 0, f0), Running(1, 1, f1), Running(1, 2, f1), Running(3, 0, f1), Running(3, 1, f2),
                Running(4, 0, f2), Halted(f2)]);
  }

  /** The source assigns 1 and the interpreted blocks assign 2. */
  lemma IfTrueRunsElse()
    ensures Source.Run(IF_TRUE, [0], 0) == Source.Done(Source.Normal, [1], 0)
    ensures Steps(Finished(Lower(EMPTY, [], IF_TRUE).0), Start(EMPTY, Frame([0], [0, 0])), 6)
            == Halted(Frame([2], [1, 0]))
  {
    hide Lower, Steps, Step;
    IfTrueCode();
    IfTrueSteps(IF_TRUE_CODE);
  }

  /** `x = (0x1000_0000 > 5)` */
  const WIDE_GREATER := Assign(0, Cmp(Gt, Lit(0x1000_0000, U64), Lit(5, U64)))

  const WIDE_GREATER_CODE := Code(map[
    1 := Block([Load(0, Imm(5)), Compare(Gt, 1, Literal(0), Reg(0)), Store(Local(0), Reg(1))], 0)], [0x1000_0000])

  lemma WideGreaterCode()
    ensures Finished(Lower(EMPTY, [], WIDE_GREATER).0) == WIDE_GREATER_CODE
  {
    var s1 := EmitLoad(EMPTY, U64, Imm(5)).0;
    var s2 := LowerLiteral(s1, 0x1000_0000).0;
    var s3 := AppendDst(s2, Bool, Compare(Gt, 1, Literal(0), Reg(0)));
    assert Lower(EMPTY, [], WIDE_GREATER.rhs) == (s3, Reg(1));
    var s4 := AppendOp(s3, Store(Local(0), Reg(1)));
    assert Lower(EMPTY, [], WIDE_GREATER) == (s4, Reg(1));
    assert s4.blocks[1] == WIDE_GREATER_CODE.blocks[1];
  }

  /** The source stores 1 and the interpreted block stores 0. */
  lemma WideGreaterIsFalse()
    ensures Source.Run(WIDE_GREATER, [0], 0) == Source.Done(Source.Normal, [1], 1)
    ensures Steps(Finished(Lower(EMPTY, [], WIDE_GREATER).0), Start(EMPTY, Frame([0], [0, 0])), 4)
            == Halted(Frame([0], [5, 0]))
  {
    hide Lower, Steps, Step;
    WideGreaterCode();
    WideGreaterSteps(WIDE_GREATER_CODE);
  }

  lemma WideGreaterSteps(code: Code)
    requires code == WIDE_GREATER_CODE
    ensures Steps(code, Running(1, 0, Frame([0], [0, 0])), 4) == Halted(Frame([0], [5, 0]))
  {
    hide Steps;
    var f0, f1 := Frame([0], [0, 0]), Frame([0], [5, 0]);
    assert Step(code, Running(1, 0, f0)) == Running(1, 1, f1);
    assert Step(code, Running(1, 1, f1)) == Running(1, 2, f1);
    assert Step(code, Running(1, 2, f1)) == Running(1, 3, f1);
    assert Step(code, Running(1, 3, f1)) == Halted(f1);
    Path(code, [Running(1, 0, f0), Running(1, 1, f1), Running(1, 2, f1), Running(1, 3, f1), Halted(f1)]);
  }

  /** `2 as bool && 1 as bool` */
  const RAW_AND := Logic(true, Cast(Bool, Lit(2, U64)), Cast(Bool, Lit(1, U64)))

  const RAW_AND_CODE := Code(map[
    1 := Block([CastTo(0, Imm(2)), Test(Bool, 1, Reg(0)), CastTo(2, Imm(1)), Test(Bool, 3, Reg(2)), Combine(true, 4, Reg(1), Reg(3))], 0)], [])

  lemma RawAndCode()
    ensures Lower(EMPTY, [], RAW_AND).1 == Reg(4) && Finished(Lower(EMPTY, [], RAW_AND).0) == RAW_AND_CODE
  {
    var s1 := AppendDst(EMPTY, Bool, CastTo(0, Imm(2)));
    assert Lower(EMPTY, [], RAW_AND.left) == (s1, Reg(0));
    var s2 := AppendDst(s1, Bool, Test(Bool, 1, Reg(0)));
    var s3 := AppendDst(s2, Bool, CastTo(2, Imm(1)));
    assert Lower(s2, [], RAW_AND.right) == (s3, Reg(2));
    var s4 := AppendDst(s3, Bool, Test(Bool, 3, Reg(2)));
    assert Lower(EMPTY, [], RAW_AND) == (AppendDst(s4, Bool, Combine(true, 4, Reg(1), Reg(3))), Reg(4));
    assert AppendDst(s4, Bool, Combine(true, 4, Reg(1), Reg(3))).blocks[1] == RAW_AND_CODE.blocks[1];
  }

  /** A cast to bool copies the word, so two true bools can have a false conjunction. */
  lemma RawAndIsFalse()
    ensures Source.Run(RAW_AND.left, [0], 0).word == 2 && Source.Run(RAW_AND.right, [0], 0).word == 1
    ensures Source.Run(RAW_AND, [0], 0) == Source.Done(Source.Normal, [0], 0)
    ensures Steps(Finished(Lower(EMPTY, [], RAW_AND).0), Start(EMPTY, Frame([0], [0, 0, 0, 0, 0])), 6)
            == Halted(Frame([0], [2, 2, 1, 1, 0]))
  {
    hide Lower, Steps;
    RawAndCode();
    BitAndWithOne(2);
    hide BitAnd;
    var code := RAW_AND_CODE;
    var f := [Frame([0], [0, 0, 0, 0, 0]), Frame([0], [2, 0, 0, 0, 0]), Frame([0], [2, 2, 0, 0, 0]), Frame([0], [2, 2, 1, 0, 0]),
              Frame([0], [2, 2, 1, 1, 0])];
    assert Step(code, Running(1, 0, f[0])) == Running(1, 1, f[1]);
    assert Step(code, Running(1, 1, f[1])) == Running(1, 2, f[2]);
    assert Step(code, Running(1, 2, f[2])) == Running(1, 3, f[3]);
    assert Step(code, Running(1, 3, f[3])) == Running(1, 4, f[4]);
    assert Step(code, Running(1, 4, f[4])) == Running(1, 5, f[4]);
    assert Step(code, Running(1, 5, f[4])) == Halted(f[4]);
    Path(code, [Running(1, 0, f[0]), Running(1, 1, f[1]), Running(1, 2, f[2]), Running(1, 3, f[3]), Running(1, 4, f[4]), Running(1, 5, f[4]),
                Halted(f[4])]);
  }
}
