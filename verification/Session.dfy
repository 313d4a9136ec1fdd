/** A compilation: functions are lowered and constants are evaluated one after the other, on one
    block table.  Evaluating a constant takes its blocks off the recycled chain and puts its whole
    layout chain back as the new recycled chain (`backends/ir.c:430-486`, `src/eval.c:906-982`). */
module Session {
  import opened Wrappers
  import opened Words
  import opened Syntax
  import opened Ir
  import opened Lowering
  import opened Shape
  import opened LoweringShape
  import opened Simulation
  import opened Correctness
  import opened Layout
  import opened Landing
  import opened Builder
  import opened Evaluator
  import Source

  /** A lowered function. */
  datatype Function = Function(entry: nat, locals: nat, registers: seq<Ty>, literals: seq<Word>)

  /** The run of `code` from `entry` ends as the body does. */
  predicate Meets(code: Code, entry: nat, body: Stmt, f: Frame, fuel: nat, n: nat, g: Frame) {
    var after := Steps(code, Running(entry, 0, f), n);
    var r := Source.RunStmt(body, f.locals, fuel);
    && (r.Done? ==> r.flow.Normal? && after == Halted(g) && g.locals == r.store)
    && (r.Fault? ==> after == Faulted)
    && (r.Timeout? ==> after.Running? && n >= fuel)
  }

  /** Whatever the locals hold and however long it runs, the function does what its body says. */
  ghost predicate Implements(code: Code, fn: Function, body: Stmt) {
    forall f: Frame, fuel: nat | fn.locals <= |f.locals| && |fn.registers| <= |f.regs| :: Ends(code, fn.entry, body, f, fuel)
  }

  ghost predicate Ends(code: Code, entry: nat, body: Stmt, f: Frame, fuel: nat) {
    exists n: nat, g: Frame :: Meets(code, entry, body, f, fuel, n, g)
  }

  /** The function owns the blocks of `chain` and, on `table`, does what its body says. */
  ghost predicate Alive(table: Blocks, fn: Function, body: Stmt, chain: seq<nat>) {
    && Chain(table, fn.entry, chain)
    && Contained(table, Members(chain)) && fn.entry in Members(chain)
    && Implements(Code(table, fn.literals), fn, body)
  }

  ghost function AllMembers(chains: seq<seq<nat>>): set<nat> {
    if chains == [] then {} else AllMembers(chains[..|chains| - 1]) + Members(chains[|chains| - 1])
  }

  predicate Disjoint(chains: seq<seq<nat>>) {
    forall i, j :: 0 <= i < j < |chains| ==> Members(chains[i]) !! Members(chains[j])
  }

  lemma {:induction false} ChainAmong(chains: seq<seq<nat>>, i: nat)
    requires i < |chains|
    ensures Members(chains[i]) <= AllMembers(chains)
    decreases |chains|
  {
    if i < |chains| - 1 {
      ChainAmong(chains[..|chains| - 1], i);
    }
  }

  /** A function stays alive on any table that keeps its blocks. */
  lemma StaysAlive(a: Blocks, b: Blocks, fn: Function, body: Stmt, chain: seq<nat>)
    requires Alive(a, fn, body, chain) && SameOn(a, b, Members(chain))
    ensures Alive(b, fn, body, chain)
  {
    hide Contained, Meets;
    ContainedStays(a, b, Members(chain));
    var before, after := Code(a, fn.literals), Code(b, fn.literals);
    forall f: Frame, fuel: nat | fn.locals <= |f.locals| && |fn.registers| <= |f.regs|
      ensures Ends(after, fn.entry, body, f, fuel)
    {
      assert Ends(before, fn.entry, body, f, fuel);
      var n: nat, g: Frame :| Meets(before, fn.entry, body, f, fuel, n, g);
      SameRun(before, after, Members(chain), Running(fn.entry, 0, f), n);
      assert Meets(after, fn.entry, body, f, fuel, n, g) by { SameMeeting(before, after, fn.entry, body, f, fuel, n, g); }
    }
    ChainStays(a, b, fn.entry, chain);
  }

  lemma SameMeeting(a: Code, b: Code, entry: nat, body: Stmt, f: Frame, fuel: nat, n: nat, g: Frame)
    requires Meets(a, entry, body, f, fuel, n, g)
    requires Steps(a, Running(entry, 0, f), n) == Steps(b, Running(entry, 0, f), n)
    ensures Meets(b, entry, body, f, fuel, n, g)
  {
  }

  lemma ContainedStays(a: Blocks, b: Blocks, home: set<nat>)
    requires Contained(a, home) && SameOn(a, b, home)
    ensures Contained(b, home)
  {
  }

  lemma ChainStays(a: Blocks, b: Blocks, first: nat, chain: seq<nat>)
    requires Chain(a, first, chain) && SameOn(a, b, Members(chain))
    ensures Chain(b, first, chain)
  {
    forall i | 0 <= i < |chain|
      ensures chain[i] in b && b[chain[i]] == a[chain[i]]
    {
      assert chain[i] in chain;
    }
  }

  /** A freshly lowered function is alive. */
  lemma BornAlive(s: State, body: Stmt, fn: Function) returns (chain: seq<nat>)
    requires AtEntry(s) && s.literals == [] && s.regs == [] && s.locals == 0
    requires SupportedStmt(body) && ResolveStmt(body, 0, []).Some?
    requires var t := LowerBody(s, body); fn == Function(s.current, t.locals, t.regs, t.literals)
    ensures Alive(LowerBody(s, body).blocks, fn, body, chain)
    ensures forall x :: x in chain <==> x == s.current || (x in LowerBody(s, body).blocks && x !in s.blocks)
  {
    hide AtEntry, Meets, LowerBody, Source.RunStmt, SupportedStmt, ResolveStmt, OpsLand, Closed, Steps;
    var t := LowerBody(s, body);
    chain := FunctionLands(s, body);
    ChainContained(t.blocks, s.current, chain);
    var code := Code(t.blocks, fn.literals);
    forall f: Frame, fuel: nat | fn.locals <= |f.locals| && |fn.registers| <= |f.regs|
      ensures Ends(code, fn.entry, body, f, fuel)
    {
      var n, g := BodyPreservesMeaning(s, body, f, fuel);
      assert Meets(code, fn.entry, body, f, fuel, n, g) by { BodyMeets(s, body, f, fuel, n, g); }
    }
  }

  lemma BodyMeets(s: State, body: Stmt, f: Frame, fuel: nat, n: nat, g: Frame)
    requires var after := Steps(Finished(LowerBody(s, body)), Start(s, f), n);
             match Source.RunStmt(body, f.locals, fuel)
             case Done(flow, store, _) => flow.Normal? && after == Halted(g) && g.locals == store
             case Fault => after == Faulted
             case Timeout => after.Running? && n >= fuel
    ensures Meets(Finished(LowerBody(s, body)), s.current, body, f, fuel, n, g)
  {
    hide LowerBody, Source.RunStmt, Steps;
  }

  /** The chains of the functions are disjoint and make up the live blocks, and every function is
      alive. */
  ghost predicate Healthy(table: Blocks, functions: seq<Function>, bodies: seq<Stmt>, chains: seq<seq<nat>>) {
    && |functions| == |bodies| == |chains|
    && Disjoint(chains) && AllMembers(chains) == table.Keys
    && (forall i :: 0 <= i < |functions| ==> Alive(table, functions[i], bodies[i], chains[i]))
  }

  lemma StaysHealthy(a: Blocks, b: Blocks, functions: seq<Function>, bodies: seq<Stmt>, chains: seq<seq<nat>>, i: nat)
    requires Healthy(a, functions, bodies, chains) && SameOn(a, b, a.Keys) && i < |functions|
    ensures Alive(b, functions[i], bodies[i], chains[i])
  {
    hide Alive, Disjoint;
    ChainAmong(chains, i);
    StaysAlive(a, b, functions[i], bodies[i], chains[i]);
  }

  /** One more function, on blocks that were not live. */
  lemma GrowsHealthy(a: Blocks, b: Blocks, functions: seq<Function>, bodies: seq<Stmt>, chains: seq<seq<nat>>,
                     fn: Function, body: Stmt, chain: seq<nat>)
    requires Healthy(a, functions, bodies, chains) && SameOn(a, b, a.Keys)
    requires Alive(b, fn, body, chain) && Members(chain) == b.Keys - a.Keys
    ensures Healthy(b, functions + [fn], bodies + [body], chains + [chain])
  {
    hide Alive;
    var fs, bs, cs := functions + [fn], bodies + [body], chains + [chain];
    forall i | 0 <= i < |fs|
      ensures Alive(b, fs[i], bs[i], cs[i])
      ensures i < |chains| ==> Members(chains[i]) !! Members(chain)
    {
      if i < |functions| {
        StaysHealthy(a, b, functions, bodies, chains, i);
        ChainAmong(chains, i);
      }
    }
    assert cs[..|cs| - 1] == chains;
  }

  lemma FunctionKeeps(s: State, body: Stmt)
    requires AtEntry(s)
    ensures SameOn(s.blocks, LowerBody(s, body).blocks, s.blocks.Keys - {s.current})
    ensures s.blocks.Keys <= LowerBody(s, body).blocks.Keys
  {
    hide LowerStmt;
    StmtExtends(s, [], body);
    AppendAfter(s, LowerStmt(s, [], body), Ret);
    forall x | x in s.blocks && x != s.current
      ensures Untouched(s, LowerBody(s, body), x)
    {
    }
  }

  class Compilation {
    const ir: IrBuilder
    var functions: seq<Function>
    ghost var bodies: seq<Stmt>
    ghost var chains: seq<seq<nat>>

    /** The chains of the live functions and the recycled chain are acyclic and pairwise disjoint,
        and every function lowered so far still does what its body says. */
    ghost predicate Valid()
      reads this, ir
    {
      ir.Sound() && Healthy(ir.Table(), functions, bodies, chains)
    }

    constructor ()
      ensures Valid() && functions == [] && fresh(ir)
    {
      ir := new IrBuilder();
      functions, bodies, chains := [], [], [];
    }

    /** Lowers a function; its entry always grows the table, its other blocks may be recycled ones. */
    method GenerateFunction(body: Stmt)
      requires Valid() && SupportedStmt(body) && ResolveStmt(body, 0, []).Some?
      modifies this, ir
      ensures Valid() && bodies == old(bodies) + [body]
      ensures |functions| == |old(functions)| + 1 && old(functions) <= functions && old(chains) <= chains
      ensures SameOn(old(ir.Table()), ir.Table(), old(ir.live))
    {
      hide Healthy, Alive, LowerBody, SupportedStmt, ResolveStmt, SameOn;
      ghost var before := ir.Table();
      var entry := ir.BeginFunction();
      ghost var s := ir.Now();
      ir.ValidIsReady();
      EntryReached(before, s, entry);
      ir.GenerateStatement(body, []);
      ir.AppendOp(Ret);
      ghost var t := ir.Now();
      LoweredBody(s, t, body);
      var fn := Function(entry, ir.localCount, ir.registers, ir.literals);
      ghost var chain := BornAlive(s, body, fn);
      FunctionKeeps(s, body);
      NewBlocks(before, s, entry, t.blocks, chain);
      GrowsHealthy(before, t.blocks, functions, bodies, chains, fn, body, chain);
      functions := functions + [fn];
      bodies, chains := bodies + [body], chains + [chain];
      ir.Finish();
    }

    /** Runs the code of a constant and reads its value off the frame it leaves. */
    static method Execute(code: Code, entry: nat, frame: Frame, o: Operand, ghost n: nat) returns (ok: bool, result: Option<Word>, ghost after: Frame)
      requires entry != 0 && !Steps(code, Running(entry, 0, frame), n).Running?
      ensures Steps(code, Running(entry, 0, frame), n) == if ok then Halted(after) else Faulted
      ensures result == if ok then NodeResult(after, o) else None
    {
      hide Steps, NodeResult;
      var eval := new Eval(frame.locals, frame.regs);
      ok := eval.EvalFn(code, entry, n);
      after := eval.Now();
      result := if ok then NodeResult(eval.Now(), o) else None;
    }

    /** Evaluates a constant expression at compile time and recycles its blocks.  `frame` is what the
        reserved locals and registers happen to hold; a divide fault ends the program. */
    method EvaluateConstant(e: Expr, frame: Frame, ghost fuel: nat) returns (ok: bool, result: Option<Word>)
      requires Valid() && Supported(e) && Resolve(e, 0, []).Some?
      requires Roomy(Lower(ConstantEntry(ir.Table(), ir.free, |ir.blocks|, ir.lastOpWasLoad), [], e).0, frame)
      requires !Source.Run(e, frame.locals, fuel).Timeout?
      modifies ir
      ensures ok == Source.Run(e, frame.locals, fuel).Done?
      ensures ok ==> (result == Some(Source.Run(e, frame.locals, fuel).word) <==> !YieldsLiteral(e))
      ensures ok ==> Valid() && ir.Table() == old(ir.Table())
    {
      hide Healthy, AtEntry, Lower, Supported, Resolve, SameOn, Roomy, Steps, Source.Run, ConstantEntry, Chain, Closed,
        OpsLand, Members, WholeTable, NodeResult, YieldsLiteral, Threaded, Distinct;
      ghost var before := ir.Table();
      var entry := ir.BeginConstant();
      ghost var s := ir.Now();
      ir.ValidIsReady();
      EntryReached(before, s, entry);
      var o := ir.GenerateExpression(e, []);
      ghost var t := ir.Now();
      var code := Code(WholeTable(ir.blocks), ir.literals);
      ghost var chain := ExpressionLands(s, e);
      ghost var n, g := ConstantRun(s, e, t, o, ir.blocks, chain, frame, fuel);
      ghost var after;
      ok, result, after := Execute(code, entry, frame, o, n);
      if !ok {
        return false, None;
      }
      Release(before, s, e, entry, chain);
    }

    /** The blocks of the constant become the recycled chain; the table is as before. */
    method Release(ghost before: Blocks, ghost s: State, ghost e: Expr, entry: nat, ghost chain: seq<nat>)
      requires ir.Valid() && AtEntry(s) && ir.Now() == Lower(s, [], e).0
      requires entry !in before && s.blocks == before[entry := NO_BLOCK] && s.current == entry
      requires Chain(ir.Now().blocks, entry, chain) && forall x :: x in chain <==> x == s.current || (x in ir.Now().blocks && x !in s.blocks)
      modifies ir
      ensures ir.Sound() && ir.Table() == before
    {
      hide AtEntry, Lower, SameOn, Chain, Members, Threaded, Distinct;
      ghost var t := ir.Now();
      ChainThreaded(t.blocks, ir.blocks, entry, chain);
      ExpressionKeeps(s, e);
      NewBlocks(before, s, entry, t.blocks, chain);
      ir.Recycle(entry, chain);
      RestoredTable(before, t.blocks, ir.Table(), chain);
    }
  }

  function WholeTable(blocks: seq<Block>): Blocks {
    map b | 0 < b < |blocks| :: blocks[b]
  }

  lemma EntryReached(before: Blocks, s: State, entry: nat)
    requires entry !in before && s.blocks == before[entry := NO_BLOCK] && s.current == entry && Ready(s)
    ensures AtEntry(s)
  {
  }

  lemma LoweredBody(s: State, t: State, body: Stmt)
    requires t == AppendOp(LowerStmt(s, [], body), Ret)
    ensures t == LowerBody(s, body)
  {
  }

  lemma NewBlocks(before: Blocks, s: State, entry: nat, after: Blocks, chain: seq<nat>)
    requires entry !in before && s.blocks == before[entry := NO_BLOCK] && s.current == entry
    requires SameOn(s.blocks, after, s.blocks.Keys - {entry}) && s.blocks.Keys <= after.Keys
    requires forall x :: x in chain <==> x == s.current || (x in after && x !in s.blocks)
    ensures SameOn(before, after, before.Keys) && Members(chain) == after.Keys - before.Keys
  {
  }

  lemma ExpressionKeeps(s: State, e: Expr)
    requires AtEntry(s)
    ensures SameOn(s.blocks, Lower(s, [], e).0.blocks, s.blocks.Keys - {s.current})
    ensures s.blocks.Keys <= Lower(s, [], e).0.blocks.Keys
  {
    hide Lower;
    LowerExtends(s, [], e);
    forall x | x in s.blocks && x != s.current
      ensures Untouched(s, Lower(s, [], e).0, x)
    {
    }
  }

  lemma ChainThreaded(used: Blocks, table: seq<Block>, first: nat, chain: seq<nat>)
    requires Chain(used, first, chain) && forall b :: b in used ==> 0 < b < |table| && table[b] == used[b]
    ensures Threaded(table, first, chain)
  {
  }

  lemma RestoredTable(before: Blocks, grown: Blocks, after: Blocks, chain: seq<nat>)
    requires SameOn(before, grown, before.Keys) && Members(chain) == grown.Keys - before.Keys
    requires after.Keys == grown.Keys - Members(chain) && SameOn(after, grown, after.Keys)
    requires before.Keys <= grown.Keys
    ensures after == before
  {
  }

  /** The evaluator runs on the whole table; only the chain of the constant matters. */
  lemma ConstantRun(s: State, e: Expr, t: State, o: Operand, table: seq<Block>, chain: seq<nat>, f: Frame, fuel: nat)
    returns (n: nat, g: Frame)
    requires AtEntry(s) && Supported(e) && Resolve(e, s.locals, []).Some? && (t, o) == Lower(s, [], e) && Roomy(t, f)
    requires Chain(t.blocks, s.current, chain) && forall x :: x in chain ==> OpsLand(t.blocks[x].ops, Members(chain))
    requires forall b :: b in t.blocks ==> 0 < b < |table| && table[b] == t.blocks[b]
    requires !Source.Run(e, f.locals, fuel).Timeout?
    ensures var after := Steps(Code(WholeTable(table), t.literals), Running(s.current, 0, f), n);
            var r := Source.Run(e, f.locals, fuel);
            && (r.Done? ==> after == Halted(g) && (NodeResult(g, o) == Some(r.word) <==> !YieldsLiteral(e)))
            && (r.Fault? ==> after == Faulted)
  {
    hide AtEntry, Lower, Supported, Resolve, Roomy, Steps, Source.Run, OpsLand;
    n, g := LoweringPreservesMeaning(s, e, f, fuel);
    ChainContained(t.blocks, s.current, chain);
    assert SameOn(t.blocks, WholeTable(table), Members(chain)) by { ContainedPresent(t.blocks, Members(chain)); }
    SameRun(Finished(t), Code(WholeTable(table), t.literals), Members(chain), Running(s.current, 0, f), n);
    if Source.Run(e, f.locals, fuel).Done? {
      ConstantIsSourceValue(s, e, f, fuel, n, g);
    }
  }

  lemma ContainedPresent(blocks: Blocks, home: set<nat>)
    requires Contained(blocks, home)
    ensures forall x :: x in home ==> x in blocks
  {
  }
}
