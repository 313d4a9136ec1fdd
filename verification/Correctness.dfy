/** The theorems about whole expressions and functions: lowering into a fresh entry block and
    interpreting the result from there. */
module Correctness {
  import opened Wrappers
  import opened Words
  import opened Syntax
  import opened Ir
  import opened Lowering
  import opened Shape
  import opened LoweringShape
  import opened Simulation
  import Source

  /** The code a finished lowering leaves. */
  function Finished(t: State): Code {
    Code(t.blocks, t.literals)
  }

  /** Lowering is about to start in an empty block at the end of the layout chain. */
  predicate AtEntry(s: State) {
    Ready(s) && s.blocks[s.current] == Block([], 0)
  }

  function Start(s: State, f: Frame): Config {
    Running(s.current, 0, f)
  }

  lemma FinishedAgrees(s: State, t: State)
    requires AtEntry(s) && Extends(s, t)
    ensures Agrees(Finished(t), s, t) && At(t.blocks, t.current).next == 0
  {
  }

  lemma LastFall(code: Code, t: State, g: Frame)
    requires code.blocks == t.blocks && At(t.blocks, t.current).next == 0
    ensures Steps(code, Here(t, g), 1) == Halted(g)
  {
    assert Steps(code, Here(t, g), 1) == Steps(code, Step(code, Here(t, g)), 0);
  }

  /** What the interpreter does with a lowered expression, for every source result: it halts with
      the source's locals and value, it faults, or it outlasts the source's fuel.  Registers in use
      before keep their values. */
  lemma LoweringPreservesMeaning(s: State, e: Expr, f: Frame, fuel: nat) returns (n: nat, g: Frame)
    requires AtEntry(s) && Supported(e) && Resolve(e, s.locals, []).Some?
    requires Roomy(Lower(s, [], e).0, f)
    ensures var (t, o) := Lower(s, [], e);
            var after := Steps(Finished(t), Start(s, f), n);
            match Source.Run(e, f.locals, fuel)
            case Done(flow, store, w) =>
              flow.Normal? && after == Halted(g) && g.locals == store && SameBelow(f, g, |s.regs|)
              && Value(Finished(t), g, o) == w
            case Fault => after == Faulted
            case Timeout => after.Running? && n >= fuel
  {
    hide Ready, Extends, Agrees, Roomy, SameBelow, Lower, Source.Run, Resolve, Supported, Value;
    var (t, o) := Lower(s, [], e);
    var code := Finished(t);
    LowerExtends(s, [], e);
    FinishedAgrees(s, t);
    EntryReady(s, f);
    n, g := SimExpr(code, s, [], e, f, fuel);
    if Source.Run(e, f.locals, fuel).Falls() {
      LastFall(code, t, g);
      Continue(code, s, f, t, g, n, 1);
      ReachesSame(code, s, f, t, g, n);
      n := n + 1;
    }
  }

  lemma EntryReady(s: State, f: Frame)
    requires AtEntry(s)
    ensures Ready(s) && Targets([]) && Here(s, f) == Start(s, f)
  {
  }

  /** The converse: a run of the generated blocks that halts is the image of a halting source run,
      with the same locals and the same value. */
  lemma HaltingComesFromSource(s: State, e: Expr, f: Frame, n: nat, g: Frame)
    requires AtEntry(s) && Supported(e) && Resolve(e, s.locals, []).Some?
    requires Roomy(Lower(s, [], e).0, f)
    requires Steps(Finished(Lower(s, [], e).0), Start(s, f), n) == Halted(g)
    ensures Source.Run(e, f.locals, n + 1)
            == Source.Done(Source.Normal, g.locals, Value(Finished(Lower(s, [], e).0), g, Lower(s, [], e).1))
    ensures SameBelow(f, g, |s.regs|)
  {
    hide Ready, AtEntry, Roomy, SameBelow, Lower, Source.Run, Resolve, Supported, Value, Steps;
    var code := Finished(Lower(s, [], e).0);
    var m, h := LoweringPreservesMeaning(s, e, f, n + 1);
    if m <= n {
      MustHaveStopped(code, Start(s, f), m, n);
    } else {
      StopsOnce(code, Start(s, f), n, m);
    }
  }

  /** A run that has halted by `n` steps was running or stopped for good at every earlier one. */
  lemma MustHaveStopped(code: Code, c: Config, m: nat, n: nat)
    requires m <= n
    ensures !Steps(code, c, m).Running? ==> Steps(code, c, n) == Steps(code, c, m)
  {
    if !Steps(code, c, m).Running? {
      StopsOnce(code, c, m, n);
    }
  }

  ghost predicate SourceHalts(e: Expr, store: seq<Word>, after: seq<Word>, w: Word) {
    exists fuel: nat :: Source.Run(e, store, fuel) == Source.Done(Source.Normal, after, w)
  }

  ghost predicate CodeHalts(code: Code, c: Config, o: Operand, after: seq<Word>, w: Word) {
    exists n: nat, g: Frame :: Steps(code, c, n) == Halted(g) && g.locals == after && Value(code, g, o) == w
  }

  /** The source ends with given locals and value exactly when the interpreted blocks do. */
  lemma SameHalting(s: State, e: Expr, f: Frame, after: seq<Word>, w: Word)
    requires AtEntry(s) && Supported(e) && Resolve(e, s.locals, []).Some?
    requires Roomy(Lower(s, [], e).0, f)
    ensures SourceHalts(e, f.locals, after, w)
            <==> CodeHalts(Finished(Lower(s, [], e).0), Start(s, f), Lower(s, [], e).1, after, w)
  {
    hide Ready, AtEntry, Roomy, SameBelow, Lower, Source.Run, Resolve, Supported, Value, Steps;
    var (t, o) := Lower(s, [], e);
    if SourceHalts(e, f.locals, after, w) {
      var fuel: nat :| Source.Run(e, f.locals, fuel) == Source.Done(Source.Normal, after, w);
      var n, g := LoweringPreservesMeaning(s, e, f, fuel);
    }
    if CodeHalts(Finished(t), Start(s, f), o, after, w) {
      var n: nat, g: Frame :| Steps(Finished(t), Start(s, f), n) == Halted(g) && g.locals == after && Value(Finished(t), g, o) == w;
      HaltingComesFromSource(s, e, f, n, g);
    }
  }

  // ---- function bodies -------------------------------------------------------------------------

  /** A function body, ended by the RET that lowering appends. */
  function LowerBody(s: State, body: Stmt): State {
    AppendOp(LowerStmt(s, [], body), Ret)
  }

  lemma BodyPreservesMeaning(s: State, body: Stmt, f: Frame, fuel: nat) returns (n: nat, g: Frame)
    requires AtEntry(s) && SupportedStmt(body) && ResolveStmt(body, s.locals, []).Some?
    requires Roomy(LowerBody(s, body), f)
    ensures var after := Steps(Finished(LowerBody(s, body)), Start(s, f), n);
            match Source.RunStmt(body, f.locals, fuel)
            case Done(flow, store, _) => flow.Normal? && after == Halted(g) && g.locals == store
            case Fault => after == Faulted
            case Timeout => after.Running? && n >= fuel
  {
    hide Ready, Extends, Agrees, Roomy, SameBelow, LowerStmt, AppendOp, Source.RunStmt, ResolveStmt, SupportedStmt;
    var s1 := LowerStmt(s, [], body);
    var t := LowerBody(s, body);
    var code := Finished(t);
    StmtExtends(s, [], body);
    AppendShape(s1, Ret);
    ExtendsTransitive(s, s1, t);
    FinishedAgrees(s, t);
    EntryReady(s, f);
    Split(code, s, s1, t, f);
    n, g := SimStmt(code, s, [], body, f, fuel);
    if Source.RunStmt(body, f.locals, fuel).Falls() {
      RetStep(code, s1, t, g);
      Continue(code, s, f, s1, g, n, 1);
      LastFall(code, t, g);
      StepsAdd(code, Here(s, f), n + 1, 1);
      n := n + 2;
    }
  }

  /** The converse for bodies: a halting run of the blocks is the image of a halting source run. */
  lemma BodyHaltingComesFromSource(s: State, body: Stmt, f: Frame, n: nat, g: Frame)
    requires AtEntry(s) && SupportedStmt(body) && ResolveStmt(body, s.locals, []).Some?
    requires Roomy(LowerBody(s, body), f)
    requires Steps(Finished(LowerBody(s, body)), Start(s, f), n) == Halted(g)
    ensures Source.RunStmt(body, f.locals, n + 1).Done? && Source.RunStmt(body, f.locals, n + 1).store == g.locals
  {
    hide AtEntry, Roomy, LowerBody, Source.RunStmt, ResolveStmt, SupportedStmt, Steps;
    var code := Finished(LowerBody(s, body));
    var m, h := BodyPreservesMeaning(s, body, f, n + 1);
    if m <= n {
      MustHaveStopped(code, Start(s, f), m, n);
    } else {
      StopsOnce(code, Start(s, f), n, m);
    }
  }

  lemma RetStep(code: Code, s: State, t: State, f: Frame)
    requires Ready(s) && t == AppendOp(s, Ret) && Agrees(code, s, t)
    ensures Steps(code, Here(s, f), 1) == Here(t, f)
  {
    AppendShape(s, Ret);
    OneStep(code, s, t, Ret, f);
  }

  // ---- constant evaluation ---------------------------------------------------------------------

  /** What `ll_eval_node` hands back; `None` is the operand kind it has no case for, which leaves
      the result unset. */
  function NodeResult(f: Frame, o: Operand): Option<Word> {
    match o
    case Imm(n) => Some(Payload(n))
    case Reg(r) => Some(Read(f.regs, r))
    case Local(x) => Some(Read(f.locals, x))
    case Literal(_) => None
  }

  /** Evaluating a constant expression gives the source's value, for every expression but those
      whose value is left in the literal table. */
  lemma ConstantIsSourceValue(s: State, e: Expr, f: Frame, fuel: nat, n: nat, g: Frame)
    requires AtEntry(s) && Supported(e) && Resolve(e, s.locals, []).Some?
    requires Roomy(Lower(s, [], e).0, f)
    requires Steps(Finished(Lower(s, [], e).0), Start(s, f), n) == Halted(g)
    requires Source.Run(e, f.locals, fuel).Done?
    ensures NodeResult(g, Lower(s, [], e).1) == Some(Source.Run(e, f.locals, fuel).word) <==> !YieldsLiteral(e)
  {
    hide Ready, AtEntry, Roomy, SameBelow, Lower, Source.Run, Resolve, Supported, Steps;
    var (t, o) := Lower(s, [], e);
    LowerOperand(s, [], e);
    var m, h := LoweringPreservesMeaning(s, e, f, fuel);
    if m <= n {
      StopsOnce(Finished(t), Start(s, f), m, n);
    } else {
      StopsOnce(Finished(t), Start(s, f), n, m);
    }
    assert h == g;
  }
}
