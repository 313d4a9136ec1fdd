/** The resolved syntax trees that lowering consumes (`src/ast.h:107-230`).  Name resolution and
    typing have already happened: a local is the ordinal its declaration gets in lowering order,
    a `break` carries how many enclosing loops and `do` expressions it leaves, and the types that
    lowering asks for are written on the nodes. */
module Syntax {
  import opened Wrappers
  import opened Words

  /** The hidden local that carries the value of a `do` expression or of a loop used as a value. */
  datatype Slot = Slot(local: nat, ty: Ty)

  datatype Expr =
    | Lit(word: Word, ty: Ty)
    | Var(x: nat, ty: Ty)
    | Bin(op: ArithOp, ty: Ty, left: Expr, right: Expr)
    | Cmp(cmp: CompareOp, left: Expr, right: Expr)
    | Logic(conjunction: bool, left: Expr, right: Expr)
    | Neg(operand: Expr)
    | Cast(ty: Ty, operand: Expr)
    | Assign(x: nat, rhs: Expr)
    | OpAssign(op: ArithOp, ty: Ty, x: nat, rhs: Expr)
    | Do(result: Slot, items: seq<Stmt>)
    | If(cond: Expr, body: Stmt, orelse: Option<Stmt>)
    | Loop(init: Option<Stmt>, test: Option<Expr>, update: Option<Expr>, body: Stmt, slot: Option<Slot>)
    | Break(level: nat, carried: Option<Expr>)

  datatype Stmt =
    | Compound(items: seq<Stmt>)
    | Decl(x: nat, initial: Option<Expr>)
    | Eval(expr: Expr)

  /** The type the typer records on an expression. */
  function TypeOf(e: Expr): Ty {
    match e
    case Lit(_, ty) => ty
    case Var(_, ty) => ty
    case Bin(_, ty, _, _) => ty
    case Cmp(_, _, _) => Bool
    case Logic(_, _, _) => Bool
    case Neg(_) => I64
    case Cast(ty, _) => ty
    case Assign(_, rhs) => TypeOf(rhs)
    case OpAssign(_, ty, _, _) => ty
    case Do(result, _) => result.ty
    case Loop(_, _, _, _, Some(slot)) => slot.ty
    case _ => I64
  }

  /** The largest literal that fits the 28 payload bits of an operand. */
  const MAX_IMMEDIATE := 0xFFF_FFFF

  /** Lowering leaves the expression in the literal table, not in a register. */
  predicate YieldsLiteral(e: Expr) {
    match e
    case Lit(w, _) => w > MAX_IMMEDIATE
    case Assign(_, rhs) => YieldsLiteral(rhs)
    case _ => false
  }

  /** Lowering leaves the expression in a register whose type is bool. */
  predicate YieldsBool(e: Expr) {
    match e
    case Var(_, ty) => ty == Bool
    case Cmp(_, _, _) => true
    case Logic(_, _, _) => true
    case Assign(_, rhs) => YieldsBool(rhs)
    case Cast(ty, operand) => ty == Bool
    case Do(result, _) => result.ty == Bool
    case Loop(_, _, _, _, Some(slot)) => slot.ty == Bool
    case _ => false
  }

  // ---- the programs the lowering theorems speak about ------------------------------------

  /** Literals compared directly fit an operand, `if` conditions are bool-typed registers, and
      arithmetic is on integers. */
  predicate Supported(e: Expr) {
    match e
    case Lit(_, _) => true
    case Var(_, _) => true
    case Bin(_, ty, l, r) => ty != Bool && Supported(l) && Supported(r)
    case Cmp(_, l, r) => !YieldsLiteral(l) && !YieldsLiteral(r) && Supported(l) && Supported(r)
    case Logic(_, l, r) => Supported(l) && Supported(r)
    case Neg(a) => Supported(a)
    case Cast(_, a) => Supported(a)
    case Assign(_, rhs) => Supported(rhs)
    case OpAssign(_, ty, _, rhs) => ty != Bool && Supported(rhs)
    case Do(_, items) => AllSupported(items)
    case If(c, body, orelse) =>
      YieldsBool(c) && Supported(c) && SupportedStmt(body) && (orelse.Some? ==> SupportedStmt(orelse.value))
    case Loop(init, test, update, body, _) =>
      && (init.Some? ==> SupportedStmt(init.value)) && (test.Some? ==> Supported(test.value))
      && SupportedStmt(body) && (update.Some? ==> Supported(update.value))
    case Break(_, carried) => carried.Some? ==> Supported(carried.value)
  }

  predicate SupportedStmt(s: Stmt) {
    match s
    case Compound(items) => AllSupported(items)
    case Decl(_, initial) => initial.Some? ==> Supported(initial.value)
    case Eval(e) => Supported(e)
  }

  predicate AllSupported(items: seq<Stmt>) {
    items == [] || (SupportedStmt(items[0]) && AllSupported(items[1..]))
  }

  /** What a `break` can leave: for each enclosing loop or `do`, innermost first, the local that
      receives a carried value. */
  type Slots = seq<Option<nat>>

  function SlotLocal(s: Option<Slot>): Option<nat> {
    if s.Some? then Some(s.value.local) else None
  }

  /** Resolution, checked: given that `n` locals exist, every reference is to one of them, every
      declaration is numbered in lowering order and every `break` has a target.  The result is
      the number of locals afterwards. */
  function Resolve(e: Expr, n: nat, slots: Slots): (r: Option<nat>)
    ensures r.Some? ==> r.value >= n
  {
    match e
    case Lit(_, _) => Some(n)
    case Var(x, _) => if x < n then Some(n) else None
    case Bin(_, _, l, r) =>
      var n1 := Resolve(l, n, slots);
      if n1.None? then None else Resolve(r, n1.value, slots)
    case Cmp(_, l, r) =>
      var n1 := Resolve(r, n, slots);
      if n1.None? then None else Resolve(l, n1.value, slots)
    case Logic(_, l, r) =>
      var n1 := Resolve(l, n, slots);
      if n1.None? then None else Resolve(r, n1.value, slots)
    case Neg(a) => Resolve(a, n, slots)
    case Cast(_, a) => Resolve(a, n, slots)
    case Assign(x, rhs) => if x < n then Resolve(rhs, n, slots) else None
    case OpAssign(_, _, x, rhs) => if x < n then Resolve(rhs, n, slots) else None
    case Do(result, items) => if result.local == n then ResolveAll(items, n + 1, [Some(n)] + slots) else None
    case If(c, body, orelse) =>
      var n1 := Resolve(c, n, slots);
      if n1.None? then None else
      var n2 := ResolveStmt(body, n1.value, slots);
      if n2.None? || orelse.None? then n2 else ResolveStmt(orelse.value, n2.value, slots)
    case Loop(init, test, update, body, slot) =>
      var n0 := if init.None? then Some(n) else ResolveStmt(init.value, n, slots);
      if n0.None? || (slot.Some? && slot.value.local != n0.value) then None else
      var inner := [SlotLocal(slot)] + slots;
      var n1 := if slot.Some? then n0.value + 1 else n0.value;
      var n2 := if test.None? then Some(n1) else Resolve(test.value, n1, inner);
      if n2.None? then None else
      var n3 := ResolveStmt(body, n2.value, inner);
      if n3.None? || update.None? then n3 else Resolve(update.value, n3.value, inner)
    case Break(level, carried) =>
      if level >= |slots| then None
      else if carried.None? then Some(n)
      else if slots[level].None? then None
      else Resolve(carried.value, n, slots)
  }

  function ResolveStmt(s: Stmt, n: nat, slots: Slots): (r: Option<nat>)
    ensures r.Some? ==> r.value >= n
  {
    match s
    case Compound(items) => ResolveAll(items, n, slots)
    case Decl(x, initial) =>
      if x != n then None else if initial.None? then Some(n + 1) else Resolve(initial.value, n + 1, slots)
    case Eval(e) => Resolve(e, n, slots)
  }

  function ResolveAll(items: seq<Stmt>, n: nat, slots: Slots): (r: Option<nat>)
    ensures r.Some? ==> r.value >= n
  {
    if items == [] then Some(n) else
    var n1 := ResolveStmt(items[0], n, slots);
    if n1.None? then None else ResolveAll(items[1..], n1.value, slots)
  }
}
