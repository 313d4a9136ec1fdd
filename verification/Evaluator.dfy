/** The interpreter as the program runs it: a frame whose banks are updated in place, a loop over
    the operations of a block and a loop over blocks (`src/eval.c:521-606, 817-855`).  Both are
    proved against the step relation of `Ir`. */
module Evaluator {
  import opened Wrappers
  import opened Words
  import opened Ir

  class Eval {
    var registers: seq<Word>
    var locals: seq<Word>
    var nextBlock: nat

    function Now(): Frame
      reads this
    {
      Frame(locals, registers)
    }

    /** The banks are reserved, not cleared: they start with whatever they hold. */
    constructor (locals: seq<Word>, registers: seq<Word>)
      ensures Now() == Frame(locals, registers)
    {
      this.locals := locals;
      this.registers := registers;
      nextBlock := 0;
    }

    function GetValue(code: Code, o: Operand): (w: Word)
      reads this
      ensures w == Value(code, Now(), o)
    {
      match o
      case Imm(n) => Payload(n)
      case Reg(r) => Read(registers, r)
      case Local(x) => Read(locals, x)
      case Literal(i) => Read(code.literals, i)
    }

    method SetRegister(r: nat, w: Word)
      modifies this
      ensures Now() == SetReg(old(Now()), r, w) && nextBlock == old(nextBlock)
    {
      registers := Write(registers, r, w);
    }

    /** One operation that is not a branch; `false` is a divide fault. */
    method EvalOp(code: Code, op: Op) returns (ok: bool)
      requires !op.IsBranch()
      modifies this
      ensures ok == Exec(code, op, old(Now())).Some?
      ensures Now() == if ok then Exec(code, op, old(Now())).value else old(Now())
      ensures nextBlock == old(nextBlock)
    {
      ok := true;
      match op
      case Store(to, src) =>
        var w := GetValue(code, src);
        if to.Local? {
          locals := Write(locals, to.payload, w);
        } else {
          SetRegister(to.payload, w);
        }
      case Load(dst, src) =>
        SetRegister(dst, GetValue(code, src));
      case CastTo(dst, src) =>
        SetRegister(dst, GetValue(code, src));
      case Compute(arith, ty, dst, a, b) =>
        var v := Arith(arith, ty, GetValue(code, a), GetValue(code, b));
        if v.None? {
          ok := false;
        } else {
          SetRegister(dst, v.value);
        }
      case Compare(cmp, dst, a, b) =>
        SetRegister(dst, BoolWord(Ordered(cmp, Read(registers, a.payload), Read(registers, b.payload))));
      case Combine(conjunction, dst, a, b) =>
        SetRegister(dst, Logical(conjunction, GetValue(code, a), GetValue(code, b)));
      case Test(ty, dst, a) =>
        SetRegister(dst, Tested(ty, GetValue(code, a)));
      case Negate(dst, a) =>
        SetRegister(dst, Negated(GetValue(code, a)));
      case _ =>
    }

    /** Runs one block from its first operation, leaving the block to go to in `nextBlock`; `steps`
        is how many steps of the machine that took. */
    method EvalBlock(code: Code, b: nat) returns (ok: bool, ghost steps: nat)
      modifies this
      requires nextBlock == At(code.blocks, b).next
      ensures steps > 0
      ensures Steps(code, Running(b, 0, old(Now())), steps) == if ok then Enter(nextBlock, Now()) else Faulted
    {
      hide Exec, Steps, Step;
      var ops := At(code.blocks, b).ops;
      ghost var start := Running(b, 0, old(Now()));
      NoSteps(code, start);
      var i := 0;
      while i < |ops|
        invariant 0 <= i <= |ops|
        invariant nextBlock == At(code.blocks, b).next
        invariant Steps(code, start, i) == Running(b, i, Now())
      {
        OneMore(code, start, i);
        ghost var before := Now();
        assert Step(code, Running(b, i, Now())) == Execute(code, b, i, ops[i], Now()) by { Executes(code, b, i, Now()); }
        match ops[i]
        case Branch(target) =>
          nextBlock := target;
          return true, i + 1;
        case BranchCond(cond, t, e) =>
          if GetValue(code, cond) != 0 {
            nextBlock := t;
          } else {
            nextBlock := e;
          }
          return true, i + 1;
        case _ =>
          ok := EvalOp(code, ops[i]);
          if !ok {
            return false, i + 1;
          }
          i := i + 1;
      }
      OneMore(code, start, i);
      FallsThrough(code, b, i, Now());
      return true, i + 1;
    }

    /** Runs blocks from `entry` until the chain ends.  The caller knows a number of steps within
        which the run stops; the loop itself counts nothing. */
    method EvalFn(code: Code, entry: nat, ghost n: nat) returns (ok: bool)
      requires !Steps(code, Enter(entry, Now()), n).Running?
      modifies this
      ensures Steps(code, Enter(entry, old(Now())), n) == if ok then Halted(Now()) else Faulted
    {
      hide Steps, Step;
      ghost var start := Enter(entry, Now());
      ghost var total := 0;
      NoSteps(code, start);
      var current := entry;
      while current != 0
        invariant Steps(code, start, total) == Enter(current, Now())
        decreases n - total
      {
        StillRunning(code, start, total, n);
        nextBlock := At(code.blocks, current).next;
        ghost var steps;
        ok, steps := EvalBlock(code, current);
        StepsAdd(code, start, total, steps);
        total := total + steps;
        if !ok {
          StopsTogether(code, start, total, n);
          return false;
        }
        current := nextBlock;
      }
      StopsTogether(code, start, total, n);
      return true;
    }
  }

  lemma NoSteps(code: Code, c: Config)
    ensures Steps(code, c, 0) == c
  {
  }

  lemma OneMore(code: Code, c: Config, n: nat)
    ensures Steps(code, c, n + 1) == Step(code, Steps(code, c, n))
  {
    StepsAdd(code, c, n, 1);
    assert Steps(code, Steps(code, c, n), 1) == Steps(code, Step(code, Steps(code, c, n)), 0);
  }

  lemma Executes(code: Code, b: nat, i: nat, f: Frame)
    requires i < |At(code.blocks, b).ops|
    ensures Step(code, Running(b, i, f)) == Execute(code, b, i, At(code.blocks, b).ops[i], f)
  {
  }

  lemma FallsThrough(code: Code, b: nat, i: nat, f: Frame)
    requires i >= |At(code.blocks, b).ops|
    ensures Step(code, Running(b, i, f)) == Enter(At(code.blocks, b).next, f)
  {
  }

  lemma StillRunning(code: Code, c: Config, m: nat, n: nat)
    requires Steps(code, c, m).Running? && !Steps(code, c, n).Running?
    ensures m < n
  {
    if n <= m {
      StopsOnce(code, c, n, m);
    }
  }

  lemma StopsTogether(code: Code, c: Config, m: nat, n: nat)
    requires !Steps(code, c, m).Running? && !Steps(code, c, n).Running?
    ensures Steps(code, c, m) == Steps(code, c, n)
  {
    if n <= m {
      StopsOnce(code, c, n, m);
    } else {
      StopsOnce(code, c, m, n);
    }
  }
}
