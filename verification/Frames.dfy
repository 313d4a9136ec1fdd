/** Stack frames and argument passing (`src/callconv.c:18-67`,
    `backends/x86_64.c:664-672, 725-737, 2235-2294, 2448-2523, 2558-2570`). */
module Frames {
  import opened Wrappers
  import Align

  // ---- where arguments go ------------------------------------------------------------------------

  datatype Kind = Integral | Floating

  /** A place for an argument: one of the four registers of its bank, or a stack offset. */
  datatype Place = IntRegister(index: nat) | VectorRegister(index: nat) | OnStack(offset: nat)

  const BANK := 4
  const SHADOW := 0x20

  /** The allocator of argument places. */
  datatype Convention = Convention(ints: nat, vectors: nat, stack: nat)

  const FRESH := Convention(0, 0, SHADOW)

  function NextPlace(c: Convention, kind: Kind): (Place, Convention) {
    if kind.Floating? && c.vectors < BANK then (VectorRegister(c.vectors), c.(vectors := c.vectors + 1))
    else if kind.Integral? && c.ints < BANK then (IntRegister(c.ints), c.(ints := c.ints + 1))
    else (OnStack(c.stack), c.(stack := c.stack + 8))
  }

  function Places(c: Convention, kinds: seq<Kind>): (p: seq<Place>)
    ensures |p| == |kinds|
    decreases |kinds|
  {
    if kinds == [] then [] else [NextPlace(c, kinds[0]).0] + Places(NextPlace(c, kinds[0]).1, kinds[1..])
  }

  function After(c: Convention, kinds: seq<Kind>): Convention
    decreases |kinds|
  {
    if kinds == [] then c else After(NextPlace(c, kinds[0]).1, kinds[1..])
  }

  /** The place is one the allocator hands out from `c` on, up to `d`. */
  predicate Between(p: Place, c: Convention, d: Convention) {
    match p
    case IntRegister(i) => c.ints <= i < d.ints
    case VectorRegister(i) => c.vectors <= i < d.vectors
    case OnStack(o) => c.stack <= o && o + 8 <= d.stack
  }

  predicate Later(c: Convention, d: Convention) {
    c.ints <= d.ints && c.vectors <= d.vectors && c.stack <= d.stack
  }

  lemma {:induction false} PlacesBetween(c: Convention, kinds: seq<Kind>, i: nat)
    requires i < |kinds|
    ensures Between(Places(c, kinds)[i], c, After(c, kinds)) && Later(c, After(c, kinds))
    decreases |kinds|
  {
    var d := NextPlace(c, kinds[0]).1;
    if i > 0 {
      PlacesBetween(d, kinds[1..], i - 1);
    } else if |kinds| > 1 {
      PlacesBetween(d, kinds[1..], 0);
    }
  }

  lemma FirstPlace(c: Convention, kinds: seq<Kind>)
    requires kinds != []
    ensures Places(c, kinds) == [NextPlace(c, kinds[0]).0] + Places(NextPlace(c, kinds[0]).1, kinds[1..])
  {
  }

  /** The bytes of two stack places do not overlap, and registers are different ones. */
  predicate Separate(p: Place, q: Place) {
    p != q && (p.OnStack? && q.OnStack? ==> p.offset + 8 <= q.offset || q.offset + 8 <= p.offset)
  }

  /** Distinct arguments get distinct places. */
  lemma {:induction false} PlacesSeparate(c: Convention, kinds: seq<Kind>, i: nat, j: nat)
    requires i < j < |kinds|
    ensures Separate(Places(c, kinds)[i], Places(c, kinds)[j])
    decreases |kinds|
  {
    var d := NextPlace(c, kinds[0]).1;
    if i > 0 {
      PlacesSeparate(d, kinds[1..], i - 1, j - 1);
    } else {
      PlacesBetween(d, kinds[1..], j - 1);
    }
  }

  /** The arguments a call passes: a pointer to the result first when that is returned in memory. */
  function Passed(kinds: seq<Kind>, hidden: bool): seq<Kind> {
    (if hidden then [Integral] else []) + kinds
  }

  /** How many of the first `j` arguments have this kind. */
  function Earlier(kinds: seq<Kind>, kind: Kind, j: nat): nat
    requires j <= |kinds|
  {
    if j == 0 then 0 else Earlier(kinds, kind, j - 1) + if kinds[j - 1] == kind then 1 else 0
  }

  /** How many of the first `j` arguments come after four others of their kind. */
  function Spilled(kinds: seq<Kind>, j: nat): nat
    requires j <= |kinds|
  {
    if j == 0 then 0 else Spilled(kinds, j - 1) + if Earlier(kinds, kinds[j - 1], j - 1) >= 4 then 1 else 0
  }

  lemma {:induction false} PlaceIsNext(c: Convention, kinds: seq<Kind>, j: nat)
    requires j < |kinds|
    ensures Places(c, kinds)[j] == NextPlace(After(c, kinds[..j]), kinds[j]).0
    decreases j
  {
    hide NextPlace;
    if j > 0 {
      PlaceIsNext(NextPlace(c, kinds[0]).1, kinds[1..], j - 1);
      assert kinds[..j][1..] == kinds[1..][..j - 1];
    }
  }

  lemma {:induction false} OneAfter(c: Convention, kinds: seq<Kind>, kind: Kind)
    ensures After(c, kinds + [kind]) == NextPlace(After(c, kinds), kind).1
    decreases |kinds|
  {
    hide NextPlace;
    if kinds == [] {
      assert [kind][1..] == [];
    } else {
      assert (kinds + [kind])[1..] == kinds[1..] + [kind];
      OneAfter(NextPlace(c, kinds[0]).1, kinds[1..], kind);
    }
  }

  function AtMostFour(n: nat): nat {
    if n < 4 then n else 4
  }

  lemma {:induction false} Counted(kinds: seq<Kind>, j: nat)
    requires j <= |kinds|
    ensures After(FRESH, kinds[..j])
            == Convention(AtMostFour(Earlier(kinds, Integral, j)), AtMostFour(Earlier(kinds, Floating, j)), 0x20 + 8 * Spilled(kinds, j))
    decreases j
  {
    if j > 0 {
      Counted(kinds, j - 1);
      assert kinds[..j] == kinds[..j - 1] + [kinds[j - 1]];
      OneAfter(FRESH, kinds[..j - 1], kinds[j - 1]);
    }
  }

  /** Where every argument goes: the first four of a kind to the registers of their bank in order, the
      others to the stack words above the shadow space in order. */
  lemma PlaceOfArgument(kinds: seq<Kind>, j: nat)
    requires j < |kinds|
    ensures var n := Earlier(kinds, kinds[j], j);
            Places(FRESH, kinds)[j]
            == if n >= 4 then OnStack(0x20 + 8 * Spilled(kinds, j))
               else if kinds[j].Floating? then VectorRegister(n) else IntRegister(n)
  {
    PlaceIsNext(FRESH, kinds, j);
    Counted(kinds, j);
    hide Places, After, Earlier, Spilled;
  }

  lemma {:induction false} EarlierPassed(kinds: seq<Kind>, kind: Kind, j: nat)
    requires j <= |kinds|
    ensures Earlier([Integral] + kinds, kind, j + 1) == Earlier(kinds, kind, j) + if kind == Integral then 1 else 0
    decreases j
  {
    if j > 0 {
      EarlierPassed(kinds, kind, j - 1);
      assert ([Integral] + kinds)[j] == kinds[j - 1];
    }
  }

  /** A hidden pointer to the result takes the first integer register, and the integers move up by one. */
  lemma HiddenPointerFirst(kinds: seq<Kind>, j: nat)
    requires j < |kinds|
    ensures var places := Places(FRESH, Passed(kinds, true)); var n := Earlier(kinds, kinds[j], j);
            && places[0] == IntRegister(0)
            && (kinds[j].Integral? && n < 3 ==> places[j + 1] == IntRegister(n + 1))
            && (kinds[j].Floating? && n < 4 ==> places[j + 1] == VectorRegister(n))
            && (n >= (if kinds[j].Integral? then 3 else 4) ==> places[j + 1] == OnStack(0x20 + 8 * Spilled([Integral] + kinds, j + 1)))
  {
    hide Places, Earlier, Spilled;
    var all := [Integral] + kinds;
    assert Earlier(all, Integral, 0) == 0 by { NoneEarlier(all); }
    PlaceOfArgument(all, 0);
    PlaceOfArgument(all, j + 1);
    EarlierPassed(kinds, kinds[j], j);
  }

  lemma NoneEarlier(kinds: seq<Kind>)
    ensures Earlier(kinds, Integral, 0) == 0
  {
  }

  lemma StackPlace(c: Convention, kind: Kind)
    ensures var (p, d) := NextPlace(c, kind); (p.OnStack? ==> p.offset + 8 == d.stack) && c.stack <= d.stack
  {
  }

  /** The places of a call taken one after the other, and the end of the highest stack place. */
  method StackNeeded(kinds: seq<Kind>) returns (used: nat)
    ensures forall i :: 0 <= i < |kinds| && Places(FRESH, kinds)[i].OnStack? ==> Places(FRESH, kinds)[i].offset + 8 <= used
    ensures used == 0 || exists i :: 0 <= i < |kinds| && Places(FRESH, kinds)[i].OnStack? && Places(FRESH, kinds)[i].offset + 8 == used
  {
    hide Places, NextPlace;
    ghost var places := Places(FRESH, kinds);
    var convention := FRESH;
    used := 0;
    assert kinds[0..] == kinds && places[0..] == places;
    for k := 0 to |kinds|
      invariant used <= convention.stack
      invariant Places(convention, kinds[k..]) == places[k..]
      invariant forall i :: 0 <= i < k && places[i].OnStack? ==> places[i].offset + 8 <= used
      invariant used == 0 || exists i :: 0 <= i < k && places[i].OnStack? && places[i].offset + 8 == used
    {
      FirstPlace(convention, kinds[k..]);
      StackPlace(convention, kinds[k]);
      assert kinds[k..][1..] == kinds[k + 1..] && places[k..][1..] == places[k + 1..];
      var next := NextPlace(convention, kinds[k]);
      assert places[k] == places[k..][0] == next.0;
      if next.0.OnStack? {
        used := next.1.stack;
      }
      convention := next.1;
    }
  }

  // ---- the frame ---------------------------------------------------------------------------------

  /** A slot at `rbp - offset`. */
  datatype Slot = Slot(offset: nat, extent: nat, alignment: nat)

  /** Neither slot reaches into the other. */
  predicate Disjoint(a: Slot, b: Slot) {
    b.offset + a.extent <= a.offset || a.offset + b.extent <= b.offset
  }

  /** The slot is aligned relative to the frame pointer, which is aligned to 16 itself. */
  predicate Aligned(s: Slot) {
    Align.Alignment(s.alignment) && Align.Aligned(s.offset, s.alignment)
  }

  class Frame {
    var stackUsed: nat
    var argumentsUsed: nat
    ghost var slots: seq<Slot>

    ghost predicate Valid()
      reads this
    {
      && (forall i :: 0 <= i < |slots| ==> slots[i].offset <= stackUsed && slots[i].extent <= slots[i].offset && Aligned(slots[i]))
      && (forall i, j :: 0 <= i < j < |slots| ==> Disjoint(slots[i], slots[j]))
    }

    constructor ()
      ensures Valid() && slots == [] && argumentsUsed == 0
    {
      stackUsed, argumentsUsed, slots := 0, 0, [];
    }

    /** A slot for a local, a parameter or a temporary. */
    method NewSlot(size: nat, alignment: nat) returns (offset: nat)
      requires Valid() && Align.Alignment(alignment)
      modifies this
      ensures Valid() && argumentsUsed == old(argumentsUsed)
      ensures slots == old(slots) + [Slot(offset, if size > alignment then size else alignment, alignment)]
      ensures offset == stackUsed
      ensures var least := old(stackUsed) + if size > alignment then size else alignment; least <= offset < least + alignment
    {
      hide Align.Forward;
      var stride := if size > alignment then size else alignment;
      stackUsed := Align.Forward(stackUsed + stride, alignment);
      offset := stackUsed;
      slots := slots + [Slot(offset, stride, alignment)];
    }

    /** A call notes how much stack its arguments take. */
    method NoteArguments(kinds: seq<Kind>, hidden: bool)
      requires Valid()
      modifies this
      ensures Valid() && slots == old(slots) && argumentsUsed >= old(argumentsUsed)
      ensures forall i :: 0 <= i < |Passed(kinds, hidden)| && Places(FRESH, Passed(kinds, hidden))[i].OnStack? ==>
                Places(FRESH, Passed(kinds, hidden))[i].offset + 8 <= argumentsUsed
      ensures argumentsUsed == old(argumentsUsed)
              || exists i :: 0 <= i < |Passed(kinds, hidden)| && Places(FRESH, Passed(kinds, hidden))[i].OnStack?
                             && Places(FRESH, Passed(kinds, hidden))[i].offset + 8 == argumentsUsed
    {
      var used := StackNeeded(Passed(kinds, hidden));
      if used > argumentsUsed {
        argumentsUsed := used;
      }
    }

    /** The size of the frame, patched into the prologue when everything is known. */
    method FrameSize() returns (size: nat)
      requires Valid()
      ensures size % 16 == 0 && stackUsed + argumentsUsed <= size < stackUsed + argumentsUsed + 16
      ensures forall i :: 0 <= i < |slots| ==> argumentsUsed + slots[i].offset <= size
    {
      size := Align.Forward(stackUsed + argumentsUsed, 16);
    }
  }

  /** Every slot lies between the outgoing arguments and the frame pointer. */
  lemma SlotContained(rbp: int, size: nat, argumentsUsed: nat, s: Slot)
    requires s.extent <= s.offset && argumentsUsed + s.offset <= size
    ensures (rbp - size) + argumentsUsed <= rbp - s.offset && rbp - s.offset + s.extent <= rbp
  {
  }

  // ---- prologue and epilogue ---------------------------------------------------------------------

  datatype Saved = Rbp | Rbx | Rdi | Rsi | R12

  const PUSHED := [Rbp, Rbx, Rdi, Rsi, R12]

  /** The registers a function saves, the stack pointer, memory by words and the two banks of argument
      registers. */
  datatype Machine = Machine(registers: map<Saved, int>, rsp: int, memory: map<int, int>, ints: map<nat, int>, vectors: map<nat, int>)

  function Push(m: Machine, r: Saved): Machine
    requires r in m.registers
  {
    m.(rsp := m.rsp - 8, memory := m.memory[m.rsp - 8 := m.registers[r]])
  }

  function Pop(m: Machine, r: Saved): Machine {
    m.(rsp := m.rsp + 8, registers := m.registers[r := if m.rsp in m.memory then m.memory[m.rsp] else 0])
  }

  predicate Whole(m: Machine) {
    m.registers.Keys == {Rbp, Rbx, Rdi, Rsi, R12}
  }

  function Prologue(m: Machine, size: nat): Machine
    requires Whole(m)
  {
    var p := Push(Push(Push(Push(Push(m, Rbp), Rbx), Rdi), Rsi), R12);
    p.(registers := p.registers[Rbp := p.rsp], rsp := p.rsp - size)
  }

  function Epilogue(m: Machine, size: nat): Machine {
    Pop(Pop(Pop(Pop(Pop(m.(rsp := m.rsp + size), R12), Rsi), Rdi), Rbx), Rbp)
  }

  /** The body leaves the stack pointer where the prologue put it and writes nothing above its frame. */
  predicate KeepsFrame(before: Machine, after: Machine, rbp: int) {
    && after.rsp == before.rsp && Whole(after)
    && forall a :: a in before.memory && a >= rbp ==> a in after.memory && after.memory[a] == before.memory[a]
  }

  /** The epilogue gives back the stack pointer and all five saved registers. */
  lemma EpilogueRestores(m: Machine, size: nat, after: Machine)
    requires Whole(m) && KeepsFrame(Prologue(m, size), after, m.rsp - 40)
    ensures Epilogue(after, size).rsp == m.rsp && Epilogue(after, size).registers == m.registers
  {
    var p := Prologue(m, size);
    assert p.memory[m.rsp - 8] == m.registers[Rbp] && p.memory[m.rsp - 16] == m.registers[Rbx];
    assert p.memory[m.rsp - 24] == m.registers[Rdi] && p.memory[m.rsp - 32] == m.registers[Rsi];
    assert p.memory[m.rsp - 40] == m.registers[R12];
  }

  // ---- from caller to callee ---------------------------------------------------------------------

  /** The return address and the five saved registers lie between the caller's stack pointer and the
      callee's frame pointer. */
  const SAVED := 0x30

  /** The caller writes an argument to its place. */
  function Put(m: Machine, p: Place, v: int): Machine {
    match p
    case IntRegister(i) => m.(ints := m.ints[i := v])
    case VectorRegister(i) => m.(vectors := m.vectors[i := v])
    case OnStack(o) => m.(memory := m.memory[m.rsp + o := v])
  }

  /** What is in a place, for a stack pointer as it was at the call. */
  function Held(m: Machine, rsp: int, p: Place): Option<int> {
    match p
    case IntRegister(i) => if i in m.ints then Some(m.ints[i]) else None
    case VectorRegister(i) => if i in m.vectors then Some(m.vectors[i]) else None
    case OnStack(o) => if rsp + o in m.memory then Some(m.memory[rsp + o]) else None
  }

  function PutAll(m: Machine, places: seq<Place>, values: seq<int>): (n: Machine)
    requires |places| == |values|
    ensures n.rsp == m.rsp && n.registers == m.registers
    decreases |places|
  {
    if places == [] then m else PutAll(Put(m, places[0], values[0]), places[1..], values[1..])
  }

  /** The return address is pushed. */
  function Called(m: Machine, address: int): Machine {
    m.(rsp := m.rsp - 8, memory := m.memory[m.rsp - 8 := address])
  }

  /** The frame slot for the next parameter that arrives in a register. */
  function HomeSlot(used: nat): nat {
    Align.Forward(used + 8, 8)
  }

  /** The callee moves parameters from registers to slots and leaves the others where they are. */
  function HomeAll(m: Machine, rbp: int, places: seq<Place>, used: nat): Machine
    decreases |places|
  {
    if places == [] then m
    else if places[0].OnStack? then HomeAll(m, rbp, places[1..], used)
    else
      var v := Held(m, 0, places[0]);
      HomeAll(m.(memory := m.memory[rbp - HomeSlot(used) := if v.Some? then v.value else 0]), rbp, places[1..], HomeSlot(used))
  }

  /** The frame offsets the callee records for its parameters. */
  function ParameterOffsets(places: seq<Place>, used: nat): (offsets: seq<int>)
    ensures |offsets| == |places|
    decreases |places|
  {
    if places == [] then []
    else if places[0].OnStack? then [0 - places[0].offset - SAVED] + ParameterOffsets(places[1..], used)
    else [HomeSlot(used)] + ParameterOffsets(places[1..], HomeSlot(used))
  }

  lemma PutElsewhere(m: Machine, p: Place, v: int, q: Place)
    ensures Put(m, p, v).rsp == m.rsp && Held(Put(m, p, v), m.rsp, p) == Some(v) && Put(m, p, v).registers == m.registers
    ensures Separate(p, q) ==> Held(Put(m, p, v), m.rsp, q) == Held(m, m.rsp, q)
  {
  }

  /** Arguments to come do not overwrite an earlier one. */
  lemma {:induction false} PutAllKeeps(m: Machine, places: seq<Place>, values: seq<int>, q: Place)
    requires |places| == |values| && forall p :: p in places ==> Separate(p, q)
    ensures Held(PutAll(m, places, values), m.rsp, q) == Held(m, m.rsp, q)
    decreases |places|
  {
    hide Held, Put, Separate;
    if places != [] {
      assert places[0] in places;
      PutElsewhere(m, places[0], values[0], q);
      PutAllKeeps(Put(m, places[0], values[0]), places[1..], values[1..], q);
    }
  }

  predicate AllSeparate(places: seq<Place>) {
    forall i, j :: 0 <= i < j < |places| ==> Separate(places[i], places[j]) && Separate(places[j], places[i])
  }

  /** When all arguments are written, each is in its place. */
  lemma {:induction false} PutAllHolds(m: Machine, places: seq<Place>, values: seq<int>, i: nat)
    requires |places| == |values| && i < |places| && AllSeparate(places)
    ensures Held(PutAll(m, places, values), m.rsp, places[i]) == Some(values[i])
    decreases |places|
  {
    hide Held, Put, Separate;
    PutElsewhere(m, places[0], values[0], places[0]);
    var n := Put(m, places[0], values[0]);
    if i > 0 {
      PutAllHolds(n, places[1..], values[1..], i - 1);
    } else {
      PutAllKeeps(n, places[1..], values[1..], places[0]);
    }
  }

  lemma SlotBeyond(used: nat)
    ensures used + 8 <= HomeSlot(used)
  {
  }

  /** Moving parameters to slots writes only below what is in use. */
  lemma {:induction false} HomeAllKeeps(m: Machine, rbp: int, places: seq<Place>, used: nat, address: int)
    requires address > rbp - used - 8
    ensures var n := HomeAll(m, rbp, places, used);
            && n.ints == m.ints && n.vectors == m.vectors
            && (address in n.memory <==> address in m.memory) && (address in m.memory ==> n.memory[address] == m.memory[address])
    decreases |places|
  {
    hide HomeSlot, Held;
    if places != [] {
      SlotBeyond(used);
      if places[0].OnStack? {
        HomeAllKeeps(m, rbp, places[1..], used, address);
      } else {
        var v := Held(m, 0, places[0]);
        var n := m.(memory := m.memory[rbp - HomeSlot(used) := if v.Some? then v.value else 0]);
        HomeAllKeeps(n, rbp, places[1..], HomeSlot(used), address);
      }
    }
  }

  /** What the callee finds at the offset recorded for parameter `i` is what arrived in its place. */
  lemma {:induction false} HomedParameter(m: Machine, rbp: int, places: seq<Place>, used: nat, i: nat, v: int)
    requires i < |places| && Held(m, rbp + SAVED, places[i]) == Some(v)
    ensures var n := HomeAll(m, rbp, places, used); var a := rbp - ParameterOffsets(places, used)[i];
            a in n.memory && n.memory[a] == v
    decreases |places|
  {
    hide HomeSlot;
    SlotBeyond(used);
    var n := if places[0].OnStack? then m
             else var w := Held(m, 0, places[0]); m.(memory := m.memory[rbp - HomeSlot(used) := if w.Some? then w.value else 0]);
    var next := if places[0].OnStack? then used else HomeSlot(used);
    assert HomeAll(m, rbp, places, used) == HomeAll(n, rbp, places[1..], next);
    if i > 0 {
      HomedParameter(n, rbp, places[1..], next, i - 1, v);
    } else {
      HomeAllKeeps(n, rbp, places[1..], next, rbp - ParameterOffsets(places, used)[0]);
    }
  }

  /** A call: the caller writes the arguments, the return address is pushed, the prologue runs and moves
      register parameters to slots.  The callee then reads every argument, a hidden pointer to the result
      included, at the offset it has recorded for it. */
  lemma ArgumentsArrive(m: Machine, size: nat, kinds: seq<Kind>, hidden: bool, values: seq<int>, address: int, used: nat, i: nat)
    requires Whole(m) && |values| == |Passed(kinds, hidden)| && i < |values|
    ensures var places := Places(FRESH, Passed(kinds, hidden));
            var entered := Prologue(Called(PutAll(m, places, values), address), size);
            var rbp := entered.registers[Rbp];
            var a := rbp - ParameterOffsets(places, used)[i];
            rbp == m.rsp - SAVED && a in HomeAll(entered, rbp, places, used).memory && HomeAll(entered, rbp, places, used).memory[a] == values[i]
  {
    hide Places, HomeAll, ParameterOffsets, PutAll, AllSeparate, Separate, Prologue, Held, Passed;
    var kinds' := Passed(kinds, hidden);
    var places := Places(FRESH, kinds');
    assert AllSeparate(places) by { AllPlacesSeparate(kinds'); }
    PutAllHolds(m, places, values, i);
    var p := PutAll(m, places, values);
    PlacesBetween(FRESH, kinds', i);
    var entered := Prologue(Called(p, address), size);
    Entered(p, address, size);
    var rbp := entered.registers[Rbp];
    HeldAfterEntry(p, address, size, places[i]);
    hide Held;
    HomedParameter(entered, rbp, places, used, i, values[i]);
  }

  lemma Entered(m: Machine, address: int, size: nat)
    requires Whole(m)
    ensures var e := Prologue(Called(m, address), size);
            && Rbp in e.registers && e.registers[Rbp] == m.rsp - SAVED && e.ints == m.ints && e.vectors == m.vectors
            && forall a :: a >= m.rsp ==> (a in e.memory <==> a in m.memory) && (a in m.memory ==> e.memory[a] == m.memory[a])
  {
  }

  lemma HeldAfterEntry(m: Machine, address: int, size: nat, q: Place)
    requires Whole(m)
    ensures Held(Prologue(Called(m, address), size), m.rsp, q) == Held(m, m.rsp, q)
  {
    Entered(m, address, size);
    hide Prologue;
  }

  lemma AllPlacesSeparate(kinds: seq<Kind>)
    ensures AllSeparate(Places(FRESH, kinds))
  {
    var places := Places(FRESH, kinds);
    forall i, j | 0 <= i < j < |places|
      ensures Separate(places[i], places[j]) && Separate(places[j], places[i])
    {
      PlacesSeparate(FRESH, kinds, i, j);
    }
  }
}
