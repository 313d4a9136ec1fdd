/** One program with a loop, an `if` and breaks that carry values out of two levels, from its source run to
    the run of its blocks. */
module Example {
  import opened Wrappers
  import opened Words
  import opened Syntax
  import opened Ir
  import opened Lowering
  import opened Simulation
  import opened Correctness
  import Source

  const X := Var(1, U64)

  const TEST := Cmp(Lt, X, Lit(10, U64))
  const STEP := OpAssign(Add, U64, 1, Lit(3, U64))
  const LEAVE := Eval(If(Cmp(Eq, X, Lit(6, U64)), Eval(Break(1, Some(Bin(Mul, U64, X, Lit(2, U64))))), None))
  const LOOP := Loop(None, Some(TEST), Some(STEP), LEAVE, None)

  /** `do { var x = 0; for (; x < 10; x += 3) { if x == 6 { break outer x * 2 } }  break x }` */
  const PROGRAM := Do(Slot(0, U64), [Decl(1, Some(Lit(0, U64))), Eval(LOOP), Eval(Break(0, Some(X)))])

  const CARRIED := Bin(Mul, U64, X, Lit(2, U64))
  const SIX := Cmp(Eq, X, Lit(6, U64))

  lemma PartsResolve()
    ensures var inner := [None, Some(0)];
            && Resolve(TEST, 2, inner) == Some(2) && Resolve(STEP, 2, inner) == Some(2) && ResolveStmt(LEAVE, 2, inner) == Some(2)
            && Supported(TEST) && Supported(STEP) && SupportedStmt(LEAVE)
  {
    var inner := [None, Some(0)];
    assert Resolve(X, 2, inner) == Some(2);
    assert Resolve(CARRIED, 2, inner) == Some(2) && Supported(CARRIED);
    assert Resolve(Break(1, Some(CARRIED)), 2, inner) == Some(2) && Supported(Break(1, Some(CARRIED)));
    assert ResolveStmt(Eval(Break(1, Some(CARRIED))), 2, inner) == Some(2) && SupportedStmt(Eval(Break(1, Some(CARRIED))));
    assert Resolve(SIX, 2, inner) == Some(2) && Supported(SIX);
    assert Resolve(LEAVE.expr, 2, inner) == Some(2) && Supported(LEAVE.expr);
  }

  lemma LoopResolves()
    ensures Supported(LOOP) && Resolve(LOOP, 2, [Some(0)]) == Some(2)
  {
    PartsResolve();
    assert [SlotLocal(None)] + [Some(0)] == [None, Some(0)];
  }

  lemma ProgramResolves()
    ensures Supported(PROGRAM) && Resolve(PROGRAM, 0, []) == Some(2)
  {
    LoopResolves();
    var slots := [Some(0)];
    var (first, second, third) := (PROGRAM.items[0], PROGRAM.items[1], PROGRAM.items[2]);
    assert ResolveStmt(first, 1, slots) == Some(2) && SupportedStmt(first);
    assert ResolveStmt(second, 2, slots) == Some(2) && SupportedStmt(second);
    assert Resolve(X, 2, slots) == Some(2) && Resolve(Break(0, Some(X)), 2, slots) == Some(2);
    assert ResolveStmt(third, 2, slots) == Some(2) && SupportedStmt(third);
    var items := PROGRAM.items;
    assert items[1..][1..][1..] == [] && items[1..][1..] == [third] && items[1..] == [second, third];
    assert ResolveAll([third], 2, slots) == Some(2) && AllSupported([third]);
    assert ResolveAll([second, third], 2, slots) == Some(2) && AllSupported([second, third]);
    assert ResolveAll(items, 1, slots) == Some(2) && AllSupported(items);
    assert [Some(0)] + [] == slots;
  }

  // ---- the source run ----------------------------------------------------------------------------

  /** One round of the loop that goes on. */
  lemma Round(s: Source.Store, fuel: nat)
    requires |s| == 2 && s[1] < 10 && s[1] != 6 && fuel > 1
    ensures Source.Iterate(LOOP, s, fuel) == Source.Iterate(LOOP, [s[0], s[1] + 3], fuel - 1)
  {
    assert Source.Run(TEST, s, fuel - 1) == Source.Done(Source.Normal, s, 1);
    assert Source.Run(SIX, s, fuel - 1) == Source.Done(Source.Normal, s, 0);
    assert Source.Run(LEAVE.expr, s, fuel - 1) == Source.Done(Source.Normal, s, 0);
    assert Source.RunStmt(LEAVE, s, fuel - 1) == Source.Done(Source.Normal, s, 0);
    assert Arith(Add, U64, s[1], 3) == Some(s[1] + 3);
    assert Source.Run(STEP, s, fuel - 1).Falls() && Source.Run(STEP, s, fuel - 1).store == [s[0], s[1] + 3];
  }

  lemma LastRound(s: Source.Store, fuel: nat)
    requires |s| == 2 && s[1] == 6 && fuel > 1
    ensures Source.Iterate(LOOP, s, fuel) == Source.Done(Source.Broken(1, Some(12)), s, 0)
  {
    assert Source.Run(TEST, s, fuel - 1) == Source.Done(Source.Normal, s, 1);
    assert Source.Run(SIX, s, fuel - 1) == Source.Done(Source.Normal, s, 1);
    assert Arith(Mul, U64, 6, 2) == Some(12);
    assert Source.Run(CARRIED, s, fuel - 1) == Source.Done(Source.Normal, s, 12);
    assert Source.Run(Break(1, Some(CARRIED)), s, fuel - 1) == Source.Done(Source.Broken(1, Some(12)), s, 0);
    assert Source.RunStmt(Eval(Break(1, Some(CARRIED))), s, fuel - 1) == Source.Done(Source.Broken(1, Some(12)), s, 0);
    assert Source.Run(LEAVE.expr, s, fuel - 1) == Source.Done(Source.Broken(1, Some(12)), s, 0);
    assert Source.RunStmt(LEAVE, s, fuel - 1) == Source.Done(Source.Broken(1, Some(12)), s, 0);
  }

  lemma LoopRuns(s: Source.Store)
    requires |s| == 2 && s[1] == 0
    ensures Source.Run(LOOP, s, 5) == Source.Done(Source.Broken(0, Some(12)), [s[0], 6], 0)
  {
    RoundsRun(s);
    hide Source.Iterate;
  }

  lemma RoundsRun(s: Source.Store)
    requires |s| == 2 && s[1] == 0
    ensures Source.Iterate(LOOP, s, 5) == Source.Done(Source.Broken(1, Some(12)), [s[0], 6], 0)
  {
    hide Source.Iterate;
    Round(s, 5);
    Round([s[0], 3], 4);
    LastRound([s[0], 6], 3);
  }

  /** The program evaluates to 12, whatever its locals held before. */
  lemma ProgramRuns(s: Source.Store)
    requires |s| == 2
    ensures Source.Run(PROGRAM, s, 5) == Source.Done(Source.Normal, [12, 6], 12)
  {
    var s0 := [s[0], 0];
    LoopRuns(s0);
    hide Source.Iterate;
    var (first, second, third) := (PROGRAM.items[0], PROGRAM.items[1], PROGRAM.items[2]);
    assert Source.RunStmt(first, s, 5) == Source.Done(Source.Normal, s0, 0);
    var out := Source.Done(Source.Broken(0, Some(12)), [s[0], 6], 0);
    assert Source.RunStmt(second, s0, 5) == out;
    var items := PROGRAM.items;
    assert items[1..] == [second, third];
    assert Source.RunAll([second, third], s0, 5) == out;
    assert Source.RunAll(items, s, 5) == out;
  }

  /** And so do its blocks, lowered onto any block table, after finitely many steps. */
  lemma BlocksRun(s: State, f: Frame) returns (n: nat, g: Frame)
    requires AtEntry(s) && s.locals == 0 && |f.locals| == 2 && Roomy(Lower(s, [], PROGRAM).0, f)
    ensures var (t, o) := Lower(s, [], PROGRAM);
            Steps(Finished(t), Start(s, f), n) == Halted(g) && g.locals == [12, 6] && Value(Finished(t), g, o) == 12
  {
    hide AtEntry, Lower, Roomy, Steps, Source.Run, Resolve, Supported, Value;
    ProgramResolves();
    ProgramRuns(f.locals);
    n, g := LoweringPreservesMeaning(s, PROGRAM, f, 5);
  }
}
