/** What a resolved program means: a big-step evaluator over a store of locals.  `fuel` bounds the
    number of loop iterations that may be nested in one another or follow one another; running out
    of it is the only way to be `Timeout`, and the theorems relate every value of it to the length
    of the run of the generated code. */
module Source {
  import opened Wrappers
  import opened Words
  import opened Syntax

  type Store = seq<Word>

  /** A run either falls through or is on its way out of `level` more breakable constructs. */
  datatype Flow = Normal | Broken(level: nat, carried: Option<Word>)

  datatype Result =
    | Done(flow: Flow, store: Store, word: Word)
    | Fault
    | Timeout
  {
    predicate Falls() { Done? && flow.Normal? }
  }

  function WriteSlot(s: Store, local: Option<nat>, carried: Option<Word>): (r: Store)
    ensures |r| == |s|
  {
    if local.Some? && carried.Some? then Write(s, local.value, carried.value) else s
  }

  /** A breakable construct with the given result local absorbs one level of breaking. */
  function Absorb(r: Result, local: Option<nat>): Result {
    match r
    case Done(Broken(level, carried), s, _) =>
      if level == 0 then Done(Normal, WriteSlot(s, local, carried), 0) else Done(Broken(level - 1, carried), s, 0)
    case _ => r
  }

  /** The value of a `do` expression or a loop is what its result local holds on the way out. */
  function WithResult(r: Result, slot: Option<Slot>): Result {
    if r.Falls() then r.(word := if slot.Some? then Read(r.store, slot.value.local) else 0) else r
  }

  /** The operands of logical operators are tested at their own types. */
  function Truth(e: Expr, w: Word): Word {
    Tested(TypeOf(e), w)
  }

  function Run(e: Expr, s: Store, fuel: nat): Result
    decreases fuel, e, 1
  {
    match e
    case Lit(w, _) => Done(Normal, s, w)
    case Var(x, _) => Done(Normal, s, Read(s, x))
    case Bin(op, ty, l, r) =>
      var a := Run(l, s, fuel);
      if !a.Falls() then a else
      var b := Run(r, a.store, fuel);
      if !b.Falls() then b else
      var v := Arith(op, ty, a.word, b.word);
      if v.None? then Fault else Done(Normal, b.store, v.value)
    case Cmp(cmp, l, r) =>
      var b := Run(r, s, fuel);
      if !b.Falls() then b else
      var a := Run(l, b.store, fuel);
      if !a.Falls() then a else
      Done(Normal, a.store, BoolWord(Ordered(cmp, a.word, b.word)))
    case Logic(conjunction, l, r) =>
      var a := Run(l, s, fuel);
      if !a.Falls() then a else
      var b := Run(r, a.store, fuel);
      if !b.Falls() then b else
      Done(Normal, b.store, Logical(conjunction, Truth(l, a.word), Truth(r, b.word)))
    case Neg(operand) =>
      var a := Run(operand, s, fuel);
      if !a.Falls() then a else Done(Normal, a.store, Negated(a.word))
    case Cast(_, operand) => Run(operand, s, fuel)
    case Assign(x, rhs) =>
      var a := Run(rhs, s, fuel);
      if !a.Falls() then a else Done(Normal, Write(a.store, x, a.word), a.word)
    case OpAssign(op, ty, x, rhs) =>
      var b := Run(rhs, s, fuel);
      if !b.Falls() then b else
      var v := Arith(op, ty, Read(b.store, x), b.word);
      if v.None? then Fault else Done(Normal, Write(b.store, x, v.value), v.value)
    case Do(result, items) => WithResult(Absorb(RunAll(items, s, fuel), Some(result.local)), Some(result))
    case If(c, body, orelse) =>
      var a := Run(c, s, fuel);
      if !a.Falls() then a
      else if a.word != 0 then RunStmt(body, a.store, fuel)
      else if orelse.Some? then RunStmt(orelse.value, a.store, fuel)
      else Done(Normal, a.store, 0)
    case Loop(init, _, _, _, slot) =>
      var a := if init.Some? then RunStmt(init.value, s, fuel) else Done(Normal, s, 0);
      if !a.Falls() then a else WithResult(Absorb(Iterate(e, a.store, fuel), SlotLocal(slot)), slot)
    case Break(level, carried) =>
      if carried.None? then Done(Broken(level, None), s, 0) else
      var a := Run(carried.value, s, fuel);
      if !a.Falls() then a else Done(Broken(level, Some(a.word)), a.store, 0)
  }

  /** The iterations of a loop, from the evaluation of its condition. */
  function Iterate(e: Expr, s: Store, fuel: nat): Result
    requires e.Loop?
    decreases fuel, e, 0
  {
    if fuel == 0 then Timeout else
    var a := if e.test.Some? then Run(e.test.value, s, fuel - 1) else Done(Normal, s, 1);
    if !a.Falls() then a
    else if a.word == 0 then Done(Normal, a.store, 0)
    else
      var b := RunStmt(e.body, a.store, fuel - 1);
      if !b.Falls() then b else
      var c := if e.update.Some? then Run(e.update.value, b.store, fuel - 1) else Done(Normal, b.store, 0);
      if !c.Falls() then c else Iterate(e, c.store, fuel - 1)
  }

  function RunStmt(st: Stmt, s: Store, fuel: nat): Result
    decreases fuel, st, 0
  {
    match st
    case Compound(items) => RunAll(items, s, fuel)
    case Decl(x, initial) =>
      if initial.None? then Done(Normal, s, 0) else
      var a := Run(initial.value, s, fuel);
      if !a.Falls() then a else Done(Normal, Write(a.store, x, a.word), 0)
    case Eval(e) =>
      var a := Run(e, s, fuel);
      if !a.Falls() then a else Done(Normal, a.store, 0)
  }

  function RunAll(items: seq<Stmt>, s: Store, fuel: nat): Result
    decreases fuel, items, 0
  {
    if items == [] then Done(Normal, s, 0) else
    var a := RunStmt(items[0], s, fuel);
    if !a.Falls() then a else RunAll(items[1..], a.store, fuel)
  }

  // ---- logical operators -------------------------------------------------------------------------

  /** The node says that its value is an integer. */
  predicate IntegerForm(e: Expr) {
    match e
    case Lit(_, ty) => ty != Bool
    case Var(_, ty) => ty != Bool
    case Bin(_, ty, _, _) => ty != Bool
    case Cast(ty, _) => ty != Bool
    case OpAssign(_, ty, _, _) => ty != Bool
    case Do(result, _) => result.ty != Bool
    case Loop(_, _, _, _, Some(slot)) => slot.ty != Bool
    case Assign(_, rhs) => IntegerForm(rhs)
    case Neg(_) => true
    case _ => false
  }

  /** The node says that its value is a bool. */
  predicate BoolForm(e: Expr) {
    match e
    case Lit(_, ty) => ty == Bool
    case Var(_, ty) => ty == Bool
    case Bin(_, ty, _, _) => ty == Bool
    case Cast(ty, _) => ty == Bool
    case OpAssign(_, ty, _, _) => ty == Bool
    case Do(result, _) => result.ty == Bool
    case Loop(_, _, _, _, Some(slot)) => slot.ty == Bool
    case Assign(_, rhs) => BoolForm(rhs)
    case Cmp(_, _, _) => true
    case Logic(_, _, _) => true
    case _ => false
  }

  lemma {:induction false} FormsAreTypes(e: Expr)
    ensures (IntegerForm(e) ==> TypeOf(e) != Bool) && (BoolForm(e) ==> TypeOf(e) == Bool)
    decreases e
  {
    if e.Assign? {
      FormsAreTypes(e.rhs);
    }
  }

  /** `||` is the disjunction of its operands' truth; `&&` is the conjunction as soon as one operand is an
      integer, and of two bools exactly when one is zero or they have a one bit in common.  Both operands
      are evaluated, the left one first. */
  lemma LogicDecides(conjunction: bool, l: Expr, r: Expr, s: Store, fuel: nat)
    requires Run(l, s, fuel).Falls() && Run(r, Run(l, s, fuel).store, fuel).Falls()
    ensures var a := Run(l, s, fuel); var b := Run(r, a.store, fuel); var e := Run(Logic(conjunction, l, r), s, fuel);
            && e.Falls() && e.store == b.store
            && (!conjunction ==> (e.word != 0 <==> a.word != 0 || b.word != 0))
            && (conjunction && (IntegerForm(l) || IntegerForm(r)) ==> (e.word != 0 <==> a.word != 0 && b.word != 0))
            && (conjunction && BoolForm(l) && BoolForm(r) ==>
                  ((e.word != 0 <==> a.word != 0 && b.word != 0) <==> a.word == 0 || b.word == 0 || ShareBit(a.word, b.word)))
  {
    LogicRuns(conjunction, l, r, s, fuel);
    FormsAreTypes(l);
    FormsAreTypes(r);
    hide Tested, Logical, ShareBit, TypeOf, Run, IntegerForm, BoolForm;
    var a := Run(l, s, fuel);
    LogicalMeaning(TypeOf(l), a.word, TypeOf(r), Run(r, a.store, fuel).word);
  }

  lemma LogicRuns(conjunction: bool, l: Expr, r: Expr, s: Store, fuel: nat)
    requires Run(l, s, fuel).Falls() && Run(r, Run(l, s, fuel).store, fuel).Falls()
    ensures var a := Run(l, s, fuel); var b := Run(r, a.store, fuel);
            Run(Logic(conjunction, l, r), s, fuel)
            == Done(Normal, b.store, Logical(conjunction, Tested(TypeOf(l), a.word), Tested(TypeOf(r), b.word)))
  {
    hide Tested, Logical, TypeOf, Iterate, RunStmt, RunAll, Arith, Negated, Ordered, WithResult, Absorb, Write, Read;
  }
}
