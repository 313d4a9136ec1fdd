/** Operations as they are appended to the flat stream (`backends/ir.c:22-41`, `backends/ir.h:6-18, 39-77`):
    a register first where there is a result, then the operands, each packed into one word. */
module OpEncoding {
  import opened Wrappers
  import opened Words
  import opened Ir
  import opened OpStream

  // ---- operands ----------------------------------------------------------------------------------

  const PAYLOADS := 0x1000_0000

  /** The kind of an operand in the upper four bits. */
  function Tag(o: Operand): nat {
    match o
    case Imm(_) => 0
    case Reg(_) => 1
    case Local(_) => 2
    case Literal(_) => 6
  }

  function Pack(o: Operand): nat {
    PAYLOADS * Tag(o) + o.payload
  }

  function Unpack(word: nat): Option<Operand> {
    var payload := word % PAYLOADS;
    match word / PAYLOADS
    case 0 => Some(Imm(payload))
    case 1 => Some(Reg(payload))
    case 2 => Some(Local(payload))
    case 6 => Some(Literal(payload))
    case _ => None
  }

  /** A packed operand gives its kind and payload back exactly when the payload fits 28 bits. */
  lemma PackRoundTrip(o: Operand)
    ensures Unpack(Pack(o)) == Some(o) <==> o.payload < PAYLOADS
  {
    if o.payload < PAYLOADS {
      assert Pack(o) / PAYLOADS == Tag(o) && Pack(o) % PAYLOADS == o.payload;
    }
  }

  // ---- operations --------------------------------------------------------------------------------

  /** What lowering appends: the operations of `Ir`, and those of the forms it does not cover. */
  datatype Appended =
    | Modelled(op: Op)
    | ReturnValue(value: nat)
    | CopyMemory(to: nat, from: nat, size: nat)
    | Clone(dst: nat, src: nat)
    | Alias(dst: nat, src: nat)
    | Address(dst: nat, src: nat)
    | AddressOfElement(dst: nat, base: nat, index: nat, size: nat)
    | Complement(dst: nat, src: nat)
    | ExclusiveOr(dst: nat, a: nat, b: nat)
    | Invoke(invokee: nat, arguments: seq<nat>)
    | InvokeValue(dst: nat, invokee: nat, arguments: seq<nat>)

  function ArithOpcode(op: ArithOp): nat {
    match op case Add => 14 case Sub => 15 case Mul => 16 case Div => 17 case Mod => 18
  }

  function CompareOpcode(op: CompareOp): nat {
    match op case Lt => 19 case Lte => 20 case Gt => 21 case Gte => 22 case Eq => 23 case Neq => 24
  }

  /** An operation of `Ir`, word for word. */
  function OpLine(op: Op): seq<nat> {
    match op
    case Ret => [0]
    case Store(to, src) => [2, Pack(to), Pack(src)]
    case Load(dst, src) => [4, Pack(Reg(dst)), Pack(src)]
    case CastTo(dst, src) => [11, Pack(Reg(dst)), Pack(src)]
    case Branch(target) => [12, target]
    case BranchCond(cond, t, e) => [13, Pack(cond), t, e]
    case Compute(arith, _, dst, a, b) => [ArithOpcode(arith), Pack(Reg(dst)), Pack(a), Pack(b)]
    case Compare(cmp, dst, a, b) => [CompareOpcode(cmp), Pack(Reg(dst)), Pack(a), Pack(b)]
    case Negate(dst, a) => [25, Pack(Reg(dst)), Pack(a)]
    case Test(_, dst, a) => [27, Pack(Reg(dst)), Pack(a)]
    case Combine(conjunction, dst, a, b) => [if conjunction then 28 else 29, Pack(Reg(dst)), Pack(a), Pack(b)]
  }

  function Line(x: Appended): seq<nat> {
    match x
    case Modelled(op) => OpLine(op)
    case ReturnValue(value) => [1, value]
    case CopyMemory(to, from, size) => [3, to, from, size]
    case Clone(dst, src) => [5, dst, src]
    case Alias(dst, src) => [6, dst, src]
    case Address(dst, src) => [9, dst, src]
    case AddressOfElement(dst, base, index, size) => [10, dst, base, index, size]
    case Complement(dst, src) => [26, dst, src]
    case ExclusiveOr(dst, a, b) => [30, dst, a, b]
    case Invoke(invokee, arguments) => [7, invokee, |arguments|] + arguments
    case InvokeValue(dst, invokee, arguments) => [8, dst, invokee, |arguments|] + arguments
  }

  function Stream(list: seq<Appended>): seq<nat> {
    if list == [] then [] else Line(list[0]) + Stream(list[1..])
  }

  // ---- reading them back -------------------------------------------------------------------------

  /** Types are those of the destination registers, not part of the stream. */
  function Untyped(x: Appended): Appended {
    match x
    case Modelled(Compute(op, _, dst, a, b)) => Modelled(Compute(op, U64, dst, a, b))
    case Modelled(Test(_, dst, a)) => Modelled(Test(U64, dst, a))
    case _ => x
  }

  function OperandsOf(op: Op): seq<Operand> {
    match op
    case Store(to, src) => [to, src]
    case Load(dst, src) => [Reg(dst), src]
    case CastTo(dst, src) => [Reg(dst), src]
    case BranchCond(cond, _, _) => [cond]
    case Compute(_, _, dst, a, b) => [Reg(dst), a, b]
    case Compare(_, dst, a, b) => [Reg(dst), a, b]
    case Negate(dst, a) => [Reg(dst), a]
    case Test(_, dst, a) => [Reg(dst), a]
    case Combine(_, dst, a, b) => [Reg(dst), a, b]
    case _ => []
  }

  /** Numbers of registers, locals and literals fit 28 bits, and so do immediates. */
  predicate Packable(x: Appended) {
    x.Modelled? ==> forall o :: o in OperandsOf(x.op) ==> o.payload < PAYLOADS
  }

  function Register(word: nat): nat {
    match Unpack(word) case Some(Reg(r)) => r case _ => 0
  }

  function Unpacked(word: nat): Operand {
    match Unpack(word) case Some(o) => o case None => Imm(0)
  }

  /** The operation that an opcode and its operand words stand for. */
  function Meaning(o: Operation): Option<Appended> {
    var w := o.operands;
    if o.opcode == 0 && |w| == 0 then Some(Modelled(Ret))
    else if o.opcode == 1 && |w| == 1 then Some(ReturnValue(w[0]))
    else if o.opcode == 2 && |w| == 2 then Some(Modelled(Store(Unpacked(w[0]), Unpacked(w[1]))))
    else if o.opcode == 3 && |w| == 3 then Some(CopyMemory(w[0], w[1], w[2]))
    else if o.opcode == 4 && |w| == 2 then Some(Modelled(Load(Register(w[0]), Unpacked(w[1]))))
    else if o.opcode == 5 && |w| == 2 then Some(Clone(w[0], w[1]))
    else if o.opcode == 6 && |w| == 2 then Some(Alias(w[0], w[1]))
    else if o.opcode == 7 && |w| >= 2 then Some(Invoke(w[0], w[2..]))
    else if o.opcode == 8 && |w| >= 3 then Some(InvokeValue(w[0], w[1], w[3..]))
    else if o.opcode == 9 && |w| == 2 then Some(Address(w[0], w[1]))
    else if o.opcode == 10 && |w| == 4 then Some(AddressOfElement(w[0], w[1], w[2], w[3]))
    else if o.opcode == 11 && |w| == 2 then Some(Modelled(CastTo(Register(w[0]), Unpacked(w[1]))))
    else if o.opcode == 12 && |w| == 1 then Some(Modelled(Branch(w[0])))
    else if o.opcode == 13 && |w| == 3 then Some(Modelled(BranchCond(Unpacked(w[0]), w[1], w[2])))
    else if 14 <= o.opcode <= 18 && |w| == 3 then
      var op := if o.opcode == 14 then Add else if o.opcode == 15 then Sub else if o.opcode == 16 then Mul else if o.opcode == 17 then Div else Mod;
      Some(Modelled(Compute(op, U64, Register(w[0]), Unpacked(w[1]), Unpacked(w[2]))))
    else if 19 <= o.opcode <= 24 && |w| == 3 then
      var cmp := if o.opcode == 19 then Lt else if o.opcode == 20 then Lte else if o.opcode == 21 then Gt
                 else if o.opcode == 22 then Gte else if o.opcode == 23 then Eq else Neq;
      Some(Modelled(Compare(cmp, Register(w[0]), Unpacked(w[1]), Unpacked(w[2]))))
    else if o.opcode == 25 && |w| == 2 then Some(Modelled(Negate(Register(w[0]), Unpacked(w[1]))))
    else if o.opcode == 26 && |w| == 2 then Some(Complement(w[0], w[1]))
    else if o.opcode == 27 && |w| == 2 then Some(Modelled(Test(U64, Register(w[0]), Unpacked(w[1]))))
    else if (o.opcode == 28 || o.opcode == 29) && |w| == 3 then
      Some(Modelled(Combine(o.opcode == 28, Register(w[0]), Unpacked(w[1]), Unpacked(w[2]))))
    else if o.opcode == 30 && |w| == 3 then Some(ExclusiveOr(w[0], w[1], w[2]))
    else None
  }

  function Meanings(ops: seq<Operation>): seq<Option<Appended>> {
    seq(|ops|, i requires 0 <= i < |ops| => Meaning(ops[i]))
  }

  /** An operation with its words. */
  function Operated(x: Appended): Operation
    ensures Flat(Operated(x)) == Line(x)
  {
    Operation(Line(x)[0], Line(x)[1..])
  }

  lemma OperatedFormed(x: Appended)
    ensures Formed(Operated(x))
  {
    hide Pack;
  }

  lemma OperatedWords(x: Appended)
    ensures Operated(x).opcode == Line(x)[0] && Operated(x).operands == Line(x)[1..]
  {
  }

  /** The words of an operation mean that operation. */
  lemma LineMeans(x: Appended)
    requires Packable(x)
    ensures Meaning(Operated(x)) == Some(Untyped(x))
  {
    if x.Modelled? {
      OpMeans(x.op);
    } else {
      OperatedWords(x);
      hide Unpacked, Register;
    }
  }

  lemma Unpacks(o: Operand)
    requires o.payload < PAYLOADS
    ensures Unpacked(Pack(o)) == o && (o.Reg? ==> Register(Pack(o)) == o.payload)
  {
    PackRoundTrip(o);
    hide Unpack;
  }

  lemma OpMeans(op: Op)
    requires Packable(Modelled(op))
    ensures Meaning(Operated(Modelled(op))) == Some(Untyped(Modelled(op)))
  {
    hide Pack, Unpacked, Register;
    forall o | o in OperandsOf(op)
      ensures Unpacked(Pack(o)) == o && (o.Reg? ==> Register(Pack(o)) == o.payload)
    {
      Unpacks(o);
    }
    var all := OperandsOf(op);
    assert forall i :: 0 <= i < |all| ==> all[i] in all;
    OperatedWords(Modelled(op));
    hide Operated;
    match op
    case Compute(_, _, _, _, _) => ThreeMean(op);
    case Compare(_, _, _, _) => ThreeMean(op);
    case Combine(_, _, _, _) => ThreeMean(op);
    case _ =>
  }

  lemma ThreeMean(op: Op)
    requires (op.Compute? || op.Compare? || op.Combine?) && forall o :: o in OperandsOf(op) ==> Unpacked(Pack(o)) == o
    requires Register(Pack(Reg(op.dst))) == op.dst
    ensures Meaning(Operated(Modelled(op))) == Some(Untyped(Modelled(op)))
  {
    hide Pack, Unpacked, Register;
    OperatedWords(Modelled(op));
    assert op.a in OperandsOf(op) && op.b in OperandsOf(op);
    hide Operated, OperandsOf;
  }

  function AllOperated(list: seq<Appended>): seq<Operation>
    ensures |AllOperated(list)| == |list|
  {
    if list == [] then [] else [Operated(list[0])] + AllOperated(list[1..])
  }

  lemma {:induction false} StreamIsFlat(list: seq<Appended>)
    ensures Stream(list) == Flatten(AllOperated(list))
    ensures forall op :: op in AllOperated(list) ==> Formed(op)
    decreases |list|
  {
    hide Line, Formed, Operated;
    if list != [] {
      StreamIsFlat(list[1..]);
      OperatedFormed(list[0]);
      assert AllOperated(list)[1..] == AllOperated(list[1..]);
    }
  }

  lemma {:induction false} AllMean(list: seq<Appended>, i: nat)
    requires (forall x :: x in list ==> Packable(x)) && i < |list|
    ensures Meaning(AllOperated(list)[i]) == Some(Untyped(list[i]))
    decreases |list|
  {
    hide Meaning, Untyped, Operated, Packable;
    if i == 0 {
      LineMeans(list[0]);
    } else {
      AllMean(list[1..], i - 1);
    }
  }

  /** Walking the stream of any appended operations gives exactly those operations. */
  lemma WalkGivesOperations(list: seq<Appended>)
    requires forall x :: x in list ==> Packable(x)
    ensures Walk(Stream(list)).Some? && |Walk(Stream(list)).value| == |list|
    ensures forall i :: 0 <= i < |list| ==> Meaning(Walk(Stream(list)).value[i]) == Some(Untyped(list[i]))
  {
    hide Meaning, Untyped, Packable, Walk;
    StreamIsFlat(list);
    WalkRecovers(AllOperated(list));
    forall i | 0 <= i < |list|
      ensures Meaning(AllOperated(list)[i]) == Some(Untyped(list[i]))
    {
      AllMean(list, i);
    }
  }

  // ---- reversing ---------------------------------------------------------------------------------

  function Backwards(list: seq<Appended>): seq<Appended> {
    if list == [] then [] else Backwards(list[1..]) + [list[0]]
  }

  lemma {:induction false} OperatedAppend(a: seq<Appended>, b: seq<Appended>)
    ensures AllOperated(a + b) == AllOperated(a) + AllOperated(b)
    decreases |a|
  {
    if a == [] {
      assert a + b == b;
    } else {
      assert (a + b)[1..] == a[1..] + b;
      OperatedAppend(a[1..], b);
    }
  }

  lemma {:induction false} OperatedBackwards(list: seq<Appended>)
    ensures AllOperated(Backwards(list)) == Reversed(AllOperated(list))
    decreases |list|
  {
    if list != [] {
      OperatedBackwards(list[1..]);
      OperatedAppend(Backwards(list[1..]), [list[0]]);
      assert [list[0]][1..] == [];
      assert AllOperated(list)[1..] == AllOperated(list[1..]);
    }
  }

  /** The reversing pass on the stream of any block: the same operations from the last to the first. */
  method ReverseBlock(stream: seq<nat>, ghost list: seq<Appended>) returns (reversed: array<nat>)
    requires stream == Stream(list)
    ensures reversed[..] == Stream(Backwards(list))
  {
    StreamIsFlat(list);
    OperatedBackwards(list);
    StreamIsFlat(Backwards(list));
    reversed := GenerateReverseOps(stream, AllOperated(list));
  }
}
