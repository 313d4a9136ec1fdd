/** The flat operation stream of a block (`backends/ir.c:28-104, 994-1053`): an opcode, then its
    operands, one after the other in one list of numbers. */
module OpStream {
  import opened Wrappers

  /** Opcodes by their numbers (`backends/ir.h:39-77`). */
  const INVOKE := 7
  const INVOKEVALUE := 8
  const LAST_OPCODE := 30

  /** The length of an operation, opcode included, for the opcodes that fix it. */
  function FixedLength(opcode: nat): Option<nat> {
    if opcode == 0 then Some(1)
    else if opcode == 1 || opcode == 12 then Some(2)
    else if opcode in {2, 4, 5, 6, 9, 11, 25, 26, 27} then Some(3)
    else if opcode == 3 || 13 <= opcode <= 24 || 28 <= opcode <= LAST_OPCODE then Some(4)
    else if opcode == 10 then Some(5)
    else None
  }

  /** `ir_get_op_count` at position `i`; `None` is an opcode that does not exist, or a stream that ends
      before the count of an invocation. */
  function Length(stream: seq<nat>, i: nat): (n: Option<nat>)
    requires i < |stream|
    ensures n.Some? ==> n.value > 0
  {
    var opcode := stream[i];
    if opcode == INVOKEVALUE then (if i + 3 < |stream| then Some(4 + stream[i + 3]) else None)
    else if opcode == INVOKE then (if i + 2 < |stream| then Some(3 + stream[i + 2]) else None)
    else FixedLength(opcode)
  }

  datatype Operation = Operation(opcode: nat, operands: seq<nat>)

  /** Invocations carry the number of their arguments. */
  predicate Formed(op: Operation) {
    if op.opcode == INVOKEVALUE then |op.operands| >= 3 && op.operands[2] == |op.operands| - 3
    else if op.opcode == INVOKE then |op.operands| >= 2 && op.operands[1] == |op.operands| - 2
    else FixedLength(op.opcode) == Some(1 + |op.operands|)
  }

  function Flat(op: Operation): (s: seq<nat>)
    ensures |s| == 1 + |op.operands|
  {
    [op.opcode] + op.operands
  }

  function Flatten(ops: seq<Operation>): seq<nat> {
    if ops == [] then [] else Flat(ops[0]) + Flatten(ops[1..])
  }

  /** Reading the stream from the front. */
  function Walk(stream: seq<nat>): Option<seq<Operation>>
    decreases |stream|
  {
    if stream == [] then Some([]) else
    var n := Length(stream, 0);
    if n.None? || n.value > |stream| then None else
    var rest := Walk(stream[n.value..]);
    if rest.None? then None else Some([Operation(stream[0], stream[1..n.value])] + rest.value)
  }

  lemma FlatLength(op: Operation, rest: seq<nat>)
    requires Formed(op)
    ensures Length(Flat(op) + rest, 0) == Some(|Flat(op)|)
  {
    var s := Flat(op) + rest;
    assert s[0] == op.opcode;
    assert |op.operands| >= 2 ==> s[2] == op.operands[1];
    assert |op.operands| >= 3 ==> s[3] == op.operands[2];
  }

  /** Walking the stream of any list of operations gives the list back. */
  lemma {:induction false} WalkRecovers(ops: seq<Operation>)
    requires forall op :: op in ops ==> Formed(op)
    ensures Walk(Flatten(ops)) == Some(ops)
    decreases |ops|
  {
    if ops != [] {
      var rest := Flatten(ops[1..]);
      WalkRecovers(ops[1..]);
      FlatLength(ops[0], rest);
      var s := Flat(ops[0]) + rest;
      assert s[|Flat(ops[0])|..] == rest;
      assert s[1..|Flat(ops[0])|] == ops[0].operands;
      assert Operation(s[0], s[1..|Flat(ops[0])|]) == ops[0];
      assert [ops[0]] + ops[1..] == ops;
      assert Flatten(ops) == s;
    }
  }

  /** And a stream that can be walked is the stream of what it was walked to. */
  lemma {:induction false} WalkIsFlatten(stream: seq<nat>)
    requires Walk(stream).Some?
    ensures Flatten(Walk(stream).value) == stream
    decreases |stream|
  {
    if stream != [] {
      var n := Length(stream, 0).value;
      WalkIsFlatten(stream[n..]);
      var ops := Walk(stream).value;
      assert Flat(ops[0]) == stream[..n];
      assert stream == stream[..n] + stream[n..];
    }
  }

  // ---- reversing -----------------------------------------------------------------------------------

  function Reversed(ops: seq<Operation>): seq<Operation> {
    if ops == [] then [] else Reversed(ops[1..]) + [ops[0]]
  }

  lemma {:induction false} FlattenAppend(a: seq<Operation>, b: seq<Operation>)
    ensures Flatten(a + b) == Flatten(a) + Flatten(b)
    decreases |a|
  {
    if a == [] {
      assert a + b == b;
    } else {
      assert (a + b)[1..] == a[1..] + b;
      FlattenAppend(a[1..], b);
    }
  }

  lemma FlattenReversed(ops: seq<Operation>)
    requires ops != []
    ensures Flatten(Reversed(ops)) == Flatten(Reversed(ops[1..])) + Flat(ops[0])
  {
    FlattenAppend(Reversed(ops[1..]), [ops[0]]);
    assert [ops[0]][1..] == [];
    assert Flatten([ops[0]]) == Flat(ops[0]) + [];
  }

  /** Copies the operations of a stream to the other end of a buffer, one by one. */
  method GenerateReverseOps(stream: seq<nat>, ghost ops: seq<Operation>) returns (reversed: array<nat>)
    requires (forall op :: op in ops ==> Formed(op)) && stream == Flatten(ops)
    ensures reversed[..] == Flatten(Reversed(ops))
  {
    hide Formed, Length, FixedLength, Flat, Reversed, Flatten;
    reversed := new nat[|stream|](_ => 0);
    var i := 0;
    ghost var left := ops;
    FlattenEmpty(left);
    while i < |stream|
      invariant 0 <= i <= |stream| && stream[i..] == Flatten(left)
      invariant forall op :: op in left ==> Formed(op)
      invariant Flatten(Reversed(left)) + reversed[|stream| - i..] == Flatten(Reversed(ops))
      invariant fresh(reversed) && reversed.Length == |stream|
    {
      var count := Length(stream, i);
      NextOperation(stream, i, left);
      ghost var tail := reversed[|stream| - i..];
      CopyOperation(stream, i, count.value, reversed, |stream| - i - count.value);
      assert reversed[|stream| - i - count.value..] == Flat(left[0]) + tail;
      i := i + count.value;
      left := left[1..];
    }
    FlattenEmpty(left);
    assert reversed[0..] == reversed[..];
  }

  method CopyOperation(stream: seq<nat>, i: nat, n: nat, target: array<nat>, to: nat)
    requires i + n <= |stream| && to + n <= target.Length
    modifies target
    ensures target[to..] == stream[i..i + n] + old(target[to + n..])
  {
    forall k | 0 <= k < n {
      target[to + k] := stream[i + k];
    }
  }

  lemma FlattenEmpty(ops: seq<Operation>)
    ensures ops == [] ==> Flatten(Reversed(ops)) == []
    ensures ops == [] <==> Flatten(ops) == []
  {
  }

  /** The operation at `i` is the first of those that are left. */
  lemma NextOperation(stream: seq<nat>, i: nat, left: seq<Operation>)
    requires i < |stream| && stream[i..] == Flatten(left) && forall op :: op in left ==> Formed(op)
    ensures left != [] && Length(stream, i) == Some(|Flat(left[0])|) && i + |Flat(left[0])| <= |stream|
    ensures stream[i..i + |Flat(left[0])|] == Flat(left[0])
    ensures stream[i + |Flat(left[0])|..] == Flatten(left[1..])
    ensures Flatten(Reversed(left)) == Flatten(Reversed(left[1..])) + Flat(left[0])
  {
    hide Formed, Length, FixedLength, Flat, Reversed;
    FlatLength(left[0], Flatten(left[1..]));
    LengthAt(stream, i);
    FlattenReversed(left);
    var n := |Flat(left[0])|;
    assert stream[i..] == Flat(left[0]) + Flatten(left[1..]);
    assert stream[i..][..n] == stream[i..i + n];
    assert stream[i..][n..] == stream[i + n..];
  }

  lemma LengthAt(stream: seq<nat>, i: nat)
    requires i < |stream|
    ensures Length(stream, i) == Length(stream[i..], 0)
  {
  }

  // ---- invocations ---------------------------------------------------------------------------------

  /** The operands of an invocation: the count field is noted first and filled in after the
      arguments. */
  method AppendInvoke(stream: seq<nat>, result: Option<nat>, invokee: nat, arguments: seq<nat>) returns (longer: seq<nat>)
    ensures var op := Invocation(result, invokee, arguments);
            Formed(op) && longer == stream + Flat(op)
  {
    hide FixedLength;
    var ops := new nat[3 + |arguments|](_ => 0);
    var offset := 0;
    if result.Some? {
      ops[offset] := result.value;
      offset := offset + 1;
    }
    ops[offset] := invokee;
    var field := offset + 1;
    offset := offset + 2;
    ops[field] := offset;
    ghost var head := if result.Some? then [result.value, invokee] else [invokee];
    var i := 0;
    while i < |arguments|
      invariant 0 <= i <= |arguments| && field == |head| && offset == field + 1 + i
      invariant ops[..field] == head && ops[field] == field + 1
      invariant ops[field + 1..offset] == arguments[..i]
    {
      ops[offset] := arguments[i];
      offset := offset + 1;
      i := i + 1;
    }
    ops[field] := offset - ops[field];
    assert ops[..offset] == ops[..field] + [ops[field]] + ops[field + 1..offset];
    assert ops[..offset] == head + [|arguments|] + arguments;
    longer := stream + ([if result.Some? then INVOKEVALUE else INVOKE] + ops[..offset]);
  }

  function Invocation(result: Option<nat>, invokee: nat, arguments: seq<nat>): Operation {
    if result.Some? then Operation(INVOKEVALUE, [result.value, invokee] + [|arguments|] + arguments)
    else Operation(INVOKE, [invokee] + [|arguments|] + arguments)
  }
}
