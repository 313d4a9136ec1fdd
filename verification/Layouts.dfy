/** Sizes, alignments and field offsets (`backends/ir.c:495-516`, `backends/x86_64.c:206-238`), and the
    offsets that chains of member accesses add up (`backends/ir.c:547-590`). */
module Layouts {
  import opened Wrappers
  import Align

  /** `Number` is an integer, character or float of `bytes` bytes; `Slice` stands for strings too;
      `Plain` is every type without a layout of its own, such as bool. */
  datatype Type = Number(bytes: nat) | Pointer | Slice | Array(element: Type, count: nat) | Struct(fields: seq<Type>) | Plain

  /** Integers come in the machine's widths. */
  predicate Proper(t: Type) {
    match t
    case Number(b) => b == 1 || b == 2 || b == 4 || b == 8
    case Array(element, _) => Proper(element)
    case Struct(fields) => forall f :: f in fields ==> Proper(f)
    case _ => true
  }

  function Max(a: nat, b: nat): nat {
    if a > b then a else b
  }

  function Alignment(t: Type): (a: nat)
    requires Proper(t)
    ensures Align.Alignment(a) && a <= 8
    decreases t, 1
  {
    match t
    case Number(b) => b
    case Pointer => 8
    case Slice => 8
    case Array(element, _) => Alignment(element)
    case Struct(fields) => StructAlignment(fields)
    case Plain => 1
  }

  function StructAlignment(fields: seq<Type>): (a: nat)
    requires forall f :: f in fields ==> Proper(f)
    ensures Align.Alignment(a) && a <= 8
    decreases fields, 0
  {
    if fields == [] then 1
    else Max(StructAlignment(fields[..|fields| - 1]), Alignment(fields[|fields| - 1]))
  }

  function Size(t: Type): nat
    requires Proper(t)
    decreases t, 1
  {
    match t
    case Number(b) => b
    case Pointer => 8
    case Slice => 16
    case Array(element, count) => Max(Size(element), Alignment(element)) * count
    case Struct(fields) =>
      if fields == [] then 0
      else
        var last := fields[|fields| - 1];
        Align.Forward(FieldOffset(fields, |fields| - 1) + Max(Size(last), Alignment(last)), StructAlignment(fields))
    case Plain => 0
  }

  /** The bytes an object occupies where it is placed. */
  function Extent(t: Type): nat
    requires Proper(t)
    decreases t, 2
  {
    Max(Size(t), Alignment(t))
  }

  /** Where field `i` starts. */
  function FieldOffset(fields: seq<Type>, i: nat): nat
    requires (forall f :: f in fields ==> Proper(f)) && i < |fields|
    decreases fields, 0, 2 * i + 1
  {
    Align.Forward(EndOffset(fields, i), Alignment(fields[i]))
  }

  /** Where the fields before field `i` end. */
  function EndOffset(fields: seq<Type>, i: nat): nat
    requires (forall f :: f in fields ==> Proper(f)) && i <= |fields|
    decreases fields, 0, 2 * i
  {
    if i == 0 then 0
    else Align.Forward(FieldOffset(fields, i - 1) + Max(Size(fields[i - 1]), Alignment(fields[i - 1])), Alignment(fields[i - 1]))
  }

  lemma NextAlignment(fields: seq<Type>, i: nat)
    requires (forall f :: f in fields ==> Proper(f)) && i < |fields|
    ensures (forall f :: f in fields[..i] ==> Proper(f)) && (forall f :: f in fields[..i + 1] ==> Proper(f))
    ensures StructAlignment(fields[..i + 1]) == Max(StructAlignment(fields[..i]), Alignment(fields[i]))
  {
    assert fields[..i + 1][..i] == fields[..i] && fields[..i + 1][i] == fields[i];
  }

  /** The loop over the fields of a struct: its offsets and its alignment. */
  method CalculateOffsets(fields: seq<Type>) returns (offsets: seq<nat>, alignment: nat)
    requires forall f :: f in fields ==> Proper(f)
    ensures |offsets| == |fields| && forall i :: 0 <= i < |fields| ==> offsets[i] == FieldOffset(fields, i)
    ensures alignment == StructAlignment(fields)
    ensures exists parts :: Arranged(fields, offsets, parts) && Largest(parts, alignment)
  {
    hide StructAlignment, Size, Alignment, Arranged, Largest;
    var offset := 0;
    offsets, alignment := [], 1;
    assert StructAlignment(fields[..0]) == 1 by { EmptyAlignment(fields); }
    for i := 0 to |fields|
      invariant |offsets| == i && forall j :: 0 <= j < i ==> offsets[j] == FieldOffset(fields, j)
      invariant alignment == StructAlignment(fields[..i]) && offset == EndOffset(fields, i)
    {
      var a := Alignment(fields[i]);
      NextAlignment(fields, i);
      if a > alignment {
        alignment := a;
      }
      offset := Align.Forward(offset, a);
      offsets := offsets + [offset];
      offset := Align.Forward(offset + Max(Size(fields[i]), a), a);
    }
    assert fields[..|fields|] == fields;
    FieldsArranged(fields);
    assert offsets == Starts(fields);
  }

  lemma EmptyAlignment(fields: seq<Type>)
    ensures StructAlignment(fields[..0]) == 1
  {
  }

  // ---- the rules of layout, said on their own ----------------------------------------------------

  /** `n` is the least multiple of `a` that is not below `from`. */
  predicate LeastMultiple(n: nat, a: nat, from: nat) {
    a > 0 && n % a == 0 && from <= n < from + a
  }

  /** The alignment of a field and the bytes it takes. */
  datatype Part = Part(alignment: nat, bytes: nat)

  predicate Largest(parts: seq<Part>, a: nat) {
    && a >= 1 && (a == 1 || exists i :: 0 <= i < |parts| && parts[i].alignment == a)
    && forall i :: 0 <= i < |parts| ==> parts[i].alignment <= a
  }

  /** An object of the type has alignment `a` and takes `n` bytes: scalars are as aligned as they are large,
      arrays repeat their element, and each field of a struct starts at the least multiple of its alignment
      that is not below the end of the field before. */
  ghost predicate Takes(t: Type, a: nat, n: nat)
    decreases t, 1
  {
    match t
    case Number(b) => a == b && n == b
    case Pointer => a == 8 && n == 8
    case Slice => a == 8 && n == 16
    case Plain => a == 1 && n == 1
    case Array(element, count) => exists m: nat :: Takes(element, a, m) && n == if count == 0 then a else m * count
    case Struct(fields) =>
      exists starts: seq<nat>, parts: seq<Part> ::
        && Arranged(fields, starts, parts) && Largest(parts, a)
        && if fields == [] then n == 1 else LeastMultiple(n, a, starts[|fields| - 1] + parts[|fields| - 1].bytes)
  }

  ghost predicate Arranged(fields: seq<Type>, starts: seq<nat>, parts: seq<Part>)
    decreases fields, 0
  {
    && |starts| == |parts| == |fields|
    && (forall i :: 0 <= i < |fields| ==> Takes(fields[i], parts[i].alignment, parts[i].bytes))
    && (forall i :: 0 <= i < |fields| ==> LeastMultiple(starts[i], parts[i].alignment, EndBefore(starts, parts, i)))
  }

  function EndBefore(starts: seq<nat>, parts: seq<Part>, i: nat): nat
    requires i <= |starts| == |parts|
  {
    if i == 0 then 0 else starts[i - 1] + parts[i - 1].bytes
  }

  lemma ForwardIsLeast(n: nat, a: nat)
    requires Align.Alignment(a)
    ensures LeastMultiple(Align.Forward(n, a), a, n)
  {
  }

  lemma AlignedIsMultiple(n: nat, a: nat)
    requires Align.Alignment(a)
    ensures Align.Aligned(n, a) <==> n % a == 0
  {
  }

  /** The offsets and parts that the code computes. */
  function Starts(fields: seq<Type>): (r: seq<nat>)
    requires forall f :: f in fields ==> Proper(f)
    ensures |r| == |fields| && forall i :: 0 <= i < |fields| ==> r[i] == FieldOffset(fields, i)
  {
    seq(|fields|, i requires 0 <= i < |fields| => FieldOffset(fields, i))
  }

  function Parts(fields: seq<Type>): (r: seq<Part>)
    requires forall f :: f in fields ==> Proper(f)
    ensures |r| == |fields| && forall i :: 0 <= i < |fields| ==> r[i] == Part(Alignment(fields[i]), Extent(fields[i]))
  {
    seq(|fields|, i requires 0 <= i < |fields| => Part(Alignment(fields[i]), Extent(fields[i])))
  }

  /** Rounding the end of a field up to its alignment changes nothing. */
  lemma EndIsSum(fields: seq<Type>, i: nat)
    requires (forall f :: f in fields ==> Proper(f)) && 0 < i <= |fields|
    ensures EndOffset(fields, i) == FieldOffset(fields, i - 1) + Extent(fields[i - 1])
  {
    OffsetAligned(fields, i - 1);
    ExtentAligned(fields[i - 1]);
    SumAligned(FieldOffset(fields, i - 1), Extent(fields[i - 1]), Alignment(fields[i - 1]));
    Align.AlignedStays(FieldOffset(fields, i - 1) + Extent(fields[i - 1]), Alignment(fields[i - 1]));
  }

  lemma {:induction false} LargestPart(fields: seq<Type>)
    requires forall f :: f in fields ==> Proper(f)
    ensures Largest(Parts(fields), StructAlignment(fields))
    decreases |fields|
  {
    hide Extent, Alignment;
    if fields != [] {
      var init, last := fields[..|fields| - 1], |fields| - 1;
      LargestPart(init);
      var a, b := StructAlignment(init), Alignment(fields[last]);
      assert forall i :: 0 <= i < |init| ==> Parts(fields)[i] == Parts(init)[i];
      assert Parts(fields)[last].alignment == b;
      if a != 1 && a >= b {
        var i :| 0 <= i < |init| && Parts(init)[i].alignment == a;
        assert Parts(fields)[i].alignment == a;
      }
    }
  }

  /** The code follows the rules: fields. */
  lemma {:induction false} FieldsArranged(fields: seq<Type>)
    requires forall f :: f in fields ==> Proper(f)
    ensures Arranged(fields, Starts(fields), Parts(fields)) && Largest(Parts(fields), StructAlignment(fields))
    decreases fields, 0
  {
    hide Extent, Alignment, EndOffset, Takes, LeastMultiple, StructAlignment, Largest;
    LargestPart(fields);
    forall i | 0 <= i < |fields|
      ensures Takes(fields[i], Alignment(fields[i]), Extent(fields[i]))
      ensures LeastMultiple(FieldOffset(fields, i), Alignment(fields[i]), EndBefore(Starts(fields), Parts(fields), i))
    {
      TypeTakes(fields[i]);
      FieldIsLeast(fields, i);
    }
  }

  lemma NothingBefore(fields: seq<Type>)
    requires (forall f :: f in fields ==> Proper(f))
    ensures EndOffset(fields, 0) == 0
  {
  }

  /** The code follows the rules: alignment and bytes of every type. */
  lemma {:induction false} TypeTakes(t: Type)
    requires Proper(t)
    ensures Takes(t, Alignment(t), Extent(t))
    decreases t, 1
  {
    match t
    case Array(element, count) =>
      TypeTakes(element);
      ArrayExtent(element, count);
      hide Extent;
      assert Takes(element, Alignment(element), Extent(element));
    case Struct(fields) =>
      FieldsArranged(fields);
      if fields != [] {
        StructExtent(fields);
      }
      hide Arranged, Extent, Largest, LeastMultiple;
    case _ =>
  }

  lemma ArrayParts(element: Type, count: nat)
    requires Proper(element)
    ensures Extent(Array(element, count)) == Max(Extent(element) * count, Alignment(element)) && Alignment(element) <= Extent(element)
  {
  }

  lemma ArrayExtent(element: Type, count: nat)
    requires Proper(element)
    ensures Extent(Array(element, count)) == if count == 0 then Alignment(element) else Extent(element) * count
  {
    hide Extent, Alignment, Proper;
    ArrayParts(element, count);
    Copies(Extent(element), count, Extent(element) * count);
  }

  lemma Copies(n: nat, count: nat, all: nat)
    requires all == n * count
    ensures if count == 0 then all == 0 else all >= n
  {
    if count > 0 {
      AtLeastOnce(n, count);
    }
  }

  lemma StructExtent(fields: seq<Type>)
    requires (forall f :: f in fields ==> Proper(f)) && fields != []
    ensures Extent(Struct(fields)) == Size(Struct(fields))
    ensures LeastMultiple(Size(Struct(fields)), StructAlignment(fields),
                          FieldOffset(fields, |fields| - 1) + Extent(fields[|fields| - 1]))
  {
    var last := |fields| - 1;
    var end := FieldOffset(fields, last) + Extent(fields[last]);
    ForwardIsLeast(end, StructAlignment(fields));
    hide StructAlignment, FieldOffset;
    assert end > 0;
  }

  lemma OneMultiple(n: nat, m: nat, a: nat, from: nat)
    requires Align.Alignment(a) && LeastMultiple(n, a, from) && LeastMultiple(m, a, from)
    ensures n == m
  {
    match a
    case 1 =>
    case 2 => Halves(n, m);
    case 4 => Quarters(n, m);
    case 8 => Eighths(n, m);
    case 16 => Sixteenths(n, m);
  }

  lemma Halves(n: nat, m: nat)
    requires n % 2 == 0 && m % 2 == 0 && n < m + 2 && m < n + 2
    ensures n == m
  {
  }

  lemma Quarters(n: nat, m: nat)
    requires n % 4 == 0 && m % 4 == 0 && n < m + 4 && m < n + 4
    ensures n == m
  {
  }

  lemma Eighths(n: nat, m: nat)
    requires n % 8 == 0 && m % 8 == 0 && n < m + 8 && m < n + 8
    ensures n == m
  {
  }

  lemma Sixteenths(n: nat, m: nat)
    requires n % 16 == 0 && m % 16 == 0 && n < m + 16 && m < n + 16
    ensures n == m
  {
  }

  lemma ProperElement(t: Type)
    requires Proper(t) && t.Array?
    ensures Proper(t.element) && Alignment(t) == Alignment(t.element)
  {
  }

  /** And the rules leave no choice. */
  lemma {:induction false} TakesOnce(t: Type, a: nat, n: nat)
    requires Proper(t) && Takes(t, a, n)
    ensures a == Alignment(t) && n == Extent(t)
    decreases t, 1
  {
    match t
    case Array(element, count) =>
      var m: nat :| Takes(element, a, m) && n == if count == 0 then a else m * count;
      ProperElement(t);
      hide Extent, Takes, Proper, Alignment;
      TakesOnce(element, a, m);
      ArrayExtent(element, count);
    case Struct(fields) =>
      var starts: seq<nat>, parts: seq<Part> :| && Arranged(fields, starts, parts) && Largest(parts, a)
                           && if fields == [] then n == 1 else LeastMultiple(n, a, starts[|fields| - 1] + parts[|fields| - 1].bytes);
      StructTakes(fields, starts, parts, a, n);
    case _ =>
  }

  lemma StructTakes(fields: seq<Type>, starts: seq<nat>, parts: seq<Part>, a: nat, n: nat)
    requires (forall f :: f in fields ==> Proper(f)) && Arranged(fields, starts, parts) && Largest(parts, a)
    requires if fields == [] then n == 1 else LeastMultiple(n, a, starts[|fields| - 1] + parts[|fields| - 1].bytes)
    ensures a == Alignment(Struct(fields)) && n == Extent(Struct(fields))
    decreases fields, 0, |fields| + 1
  {
    hide Proper, Extent, Alignment, Arranged, FieldOffset, StructAlignment, LeastMultiple, Largest, Size;
    assert |starts| == |parts| == |fields| by { SameLengths(fields, starts, parts); }
    ArrangedOnce(fields, starts, parts, |fields|);
    assert parts == Parts(fields);
    LargestPart(fields);
    OneLargest(parts, a, StructAlignment(fields));
    StructItself(fields);
    if fields != [] {
      StructExtent(fields);
      OneMultiple(n, Size(Struct(fields)), a, FieldOffset(fields, |fields| - 1) + Extent(fields[|fields| - 1]));
    } else {
      NoFields(fields);
    }
  }

  lemma SameLengths(fields: seq<Type>, starts: seq<nat>, parts: seq<Part>)
    requires Arranged(fields, starts, parts)
    ensures |starts| == |parts| == |fields|
  {
  }

  lemma StructItself(fields: seq<Type>)
    requires forall f :: f in fields ==> Proper(f)
    ensures Proper(Struct(fields)) && Alignment(Struct(fields)) == StructAlignment(fields) && Align.Alignment(StructAlignment(fields))
  {
  }

  lemma NoFields(fields: seq<Type>)
    requires fields == []
    ensures Extent(Struct(fields)) == 1
  {
    assert Size(Struct(fields)) == 0 && StructAlignment(fields) == 1;
    assert Alignment(Struct(fields)) == 1;
  }

  lemma OneLargest(parts: seq<Part>, a: nat, b: nat)
    requires Largest(parts, a) && Largest(parts, b)
    ensures a == b
  {
  }

  lemma {:induction false} ArrangedOnce(fields: seq<Type>, starts: seq<nat>, parts: seq<Part>, k: nat)
    requires (forall f :: f in fields ==> Proper(f)) && Arranged(fields, starts, parts) && k <= |fields| == |starts| == |parts|
    ensures forall i :: 0 <= i < k ==> parts[i] == Part(Alignment(fields[i]), Extent(fields[i])) && starts[i] == FieldOffset(fields, i)
    decreases fields, 0, k
  {
    hide Proper, Extent, Alignment, FieldOffset, Arranged;
    if k > 0 {
      ArrangedOnce(fields, starts, parts, k - 1);
      OneField(fields, starts, parts, k - 1);
    }
  }

  lemma OneField(fields: seq<Type>, starts: seq<nat>, parts: seq<Part>, i: nat)
    requires (forall f :: f in fields ==> Proper(f)) && Arranged(fields, starts, parts) && i < |fields| == |starts| == |parts|
    requires i > 0 ==> starts[i - 1] == FieldOffset(fields, i - 1) && parts[i - 1].bytes == Extent(fields[i - 1])
    ensures parts[i] == Part(Alignment(fields[i]), Extent(fields[i])) && starts[i] == FieldOffset(fields, i)
    decreases fields, 0, 0
  {
    hide Proper, Extent, Alignment, FieldOffset, Takes, LeastMultiple;
    assert Takes(fields[i], parts[i].alignment, parts[i].bytes) && LeastMultiple(starts[i], parts[i].alignment, EndBefore(starts, parts, i));
    hide Arranged;
    TakesOnce(fields[i], parts[i].alignment, parts[i].bytes);
    FieldIsLeast(fields, i);
    OneMultiple(starts[i], FieldOffset(fields, i), Alignment(fields[i]), EndBefore(starts, parts, i));
  }

  /** A field starts at the least multiple of its alignment from the end of the field before. */
  lemma FieldIsLeast(fields: seq<Type>, i: nat)
    requires (forall f :: f in fields ==> Proper(f)) && i < |fields|
    ensures LeastMultiple(FieldOffset(fields, i), Alignment(fields[i]),
                          if i == 0 then 0 else FieldOffset(fields, i - 1) + Extent(fields[i - 1]))
  {
    hide Extent, Alignment, EndOffset, LeastMultiple;
    ForwardIsLeast(EndOffset(fields, i), Alignment(fields[i]));
    if i > 0 {
      EndIsSum(fields, i);
    } else {
      NothingBefore(fields);
    }
  }

  // ---- one level -----------------------------------------------------------------------------------

  lemma {:induction false} FieldAlignment(fields: seq<Type>, i: nat)
    requires (forall f :: f in fields ==> Proper(f)) && i < |fields|
    ensures Alignment(fields[i]) <= StructAlignment(fields)
    decreases |fields|
  {
    var init := fields[..|fields| - 1];
    if i < |init| {
      assert init[i] == fields[i];
      FieldAlignment(init, i);
    }
  }

  /** Fields start aligned. */
  lemma OffsetAligned(fields: seq<Type>, i: nat)
    requires (forall f :: f in fields ==> Proper(f)) && i < |fields|
    ensures Align.Aligned(FieldOffset(fields, i), Alignment(fields[i]))
  {
  }

  /** An earlier field ends before a later one starts. */
  lemma {:induction false} FieldsApart(fields: seq<Type>, i: nat, j: nat)
    requires (forall f :: f in fields ==> Proper(f)) && i < j < |fields|
    ensures FieldOffset(fields, i) + Extent(fields[i]) <= FieldOffset(fields, j)
    decreases j
  {
    if i < j - 1 {
      FieldsApart(fields, i, j - 1);
    }
  }

  /** Every field lies inside its struct. */
  lemma FieldInside(fields: seq<Type>, i: nat)
    requires (forall f :: f in fields ==> Proper(f)) && i < |fields|
    ensures FieldOffset(fields, i) + Extent(fields[i]) <= Size(Struct(fields))
  {
    hide FieldOffset, EndOffset, Size, Alignment, Extent, StructAlignment;
    LastInside(fields);
    if i < |fields| - 1 {
      FieldsApart(fields, i, |fields| - 1);
    }
  }

  lemma LastInside(fields: seq<Type>)
    requires (forall f :: f in fields ==> Proper(f)) && fields != []
    ensures FieldOffset(fields, |fields| - 1) + Extent(fields[|fields| - 1]) <= Size(Struct(fields))
  {
    hide FieldOffset, Alignment, StructAlignment;
  }

  lemma SumAligned(m: nat, n: nat, a: nat)
    requires Align.Alignment(a) && Align.Aligned(m, a) && Align.Aligned(n, a)
    ensures Align.Aligned(m + n, a)
  {
    match a
    case 16 => SumBySixteen(m, n);
    case 8 => SumByEight(m, n);
    case 4 => SumByFour(m, n);
    case _ =>
  }

  lemma SumBySixteen(m: nat, n: nat)
    requires m % 16 == 0 && n % 16 == 0
    ensures (m + n) % 16 == 0
  {
  }

  lemma SumByEight(m: nat, n: nat)
    requires m % 8 == 0 && n % 8 == 0
    ensures (m + n) % 8 == 0
  {
  }

  lemma SumByFour(m: nat, n: nat)
    requires m % 4 == 0 && n % 4 == 0
    ensures (m + n) % 4 == 0
  {
  }

  lemma ZeroAligned(a: nat)
    requires Align.Alignment(a)
    ensures Align.Aligned(0, a)
  {
  }

  lemma {:induction false} MultipleAligned(k: nat, s: nat, a: nat)
    requires Align.Alignment(a) && Align.Aligned(s, a)
    ensures Align.Aligned(k * s, a)
    decreases k
  {
    hide Align.Aligned;
    if k == 0 {
      ZeroAligned(a);
    } else {
      MultipleAligned(k - 1, s, a);
      Distribute(s, k - 1, 1);
      SumAligned((k - 1) * s, s, a);
    }
  }

  /** What an object occupies is a multiple of its alignment, so arrays keep their elements aligned. */
  lemma {:induction false} ExtentAligned(t: Type)
    requires Proper(t)
    ensures Align.Aligned(Extent(t), Alignment(t))
    decreases t
  {
    match t
    case Array(element, count) =>
      ExtentAligned(element);
      MultipleAligned(count, Extent(element), Alignment(element));
      assert Extent(element) * count == count * Extent(element);
    case _ =>
  }

  lemma Distribute(s: nat, k: nat, d: nat)
    ensures (k + d) * s == k * s + d * s
  {
  }

  lemma AtLeastOnce(s: nat, d: nat)
    requires d >= 1
    ensures d * s >= s
  {
  }

  lemma ElementsApart(s: nat, k: nat, l: nat)
    requires k < l
    ensures k * s + s <= l * s
  {
    Distribute(s, k, l - k);
    AtLeastOnce(s, l - k);
  }

  // ---- paths ---------------------------------------------------------------------------------------

  /** The fields of a slice are its data and its length. */
  datatype Access = Field(field: nat) | Element(index: nat)

  /** The type an access selects, if it exists. */
  function Selected(t: Type, a: Access): Option<Type> {
    match (t, a)
    case (Struct(fields), Field(i)) => if i < |fields| then Some(fields[i]) else None
    case (Array(element, count), Element(k)) => if k < count then Some(element) else None
    case (Slice, Field(i)) => if i == 0 then Some(Pointer) else if i == 1 then Some(Number(8)) else None
    case _ => None
  }

  function AccessOffset(t: Type, a: Access): nat
    requires Proper(t) && Selected(t, a).Some?
  {
    match a
    case Field(i) => if t.Slice? then 8 * i else FieldOffset(t.fields, i)
    case Element(k) => k * Extent(t.element)
  }

  function TypeAt(t: Type, path: seq<Access>): Option<Type>
    decreases |path|
  {
    if path == [] then Some(t)
    else if Selected(t, path[0]).None? then None
    else TypeAt(Selected(t, path[0]).value, path[1..])
  }

  lemma SelectedProper(t: Type, a: Access)
    requires Proper(t) && Selected(t, a).Some?
    ensures Proper(Selected(t, a).value)
  {
  }

  lemma {:induction false} PathProper(t: Type, path: seq<Access>)
    requires Proper(t) && TypeAt(t, path).Some?
    ensures Proper(TypeAt(t, path).value)
    decreases |path|
  {
    if path != [] {
      SelectedProper(t, path[0]);
      PathProper(Selected(t, path[0]).value, path[1..]);
    }
  }

  /** The offsets along the path, added up. */
  function PathOffset(t: Type, path: seq<Access>): nat
    requires Proper(t) && TypeAt(t, path).Some?
    decreases |path|
  {
    if path == [] then 0
    else
      SelectedProper(t, path[0]);
      AccessOffset(t, path[0]) + PathOffset(Selected(t, path[0]).value, path[1..])
  }

  lemma AccessInside(t: Type, a: Access)
    requires Proper(t) && Selected(t, a).Some?
    ensures Proper(Selected(t, a).value)
    ensures AccessOffset(t, a) + Extent(Selected(t, a).value) <= Extent(t)
    ensures Alignment(Selected(t, a).value) <= Alignment(t)
    ensures Align.Aligned(AccessOffset(t, a), Alignment(Selected(t, a).value))
  {
    SelectedProper(t, a);
    match a
    case Field(i) =>
      if t.Struct? {
        FieldInside(t.fields, i);
        FieldAlignment(t.fields, i);
        OffsetAligned(t.fields, i);
      }
    case Element(k) =>
      ElementsApart(Extent(t.element), k, t.count);
      assert Extent(t.element) * t.count == t.count * Extent(t.element);
      ExtentAligned(t.element);
      MultipleAligned(k, Extent(t.element), Alignment(t.element));
  }

  /** The object a path selects lies inside the whole object and is aligned. */
  lemma {:induction false} PathInside(t: Type, path: seq<Access>)
    requires Proper(t) && TypeAt(t, path).Some?
    ensures Proper(TypeAt(t, path).value)
    ensures PathOffset(t, path) + Extent(TypeAt(t, path).value) <= Extent(t)
    ensures Alignment(TypeAt(t, path).value) <= Alignment(t)
    ensures Align.Aligned(PathOffset(t, path), Alignment(TypeAt(t, path).value))
    decreases |path|
  {
    hide Alignment, Extent, Align.Aligned, AccessOffset, Proper, Selected;
    PathProper(t, path);
    if path == [] {
      ZeroAligned(Alignment(t));
    } else {
      var s := Selected(t, path[0]).value;
      AccessInside(t, path[0]);
      PathInside(s, path[1..]);
      var a := Alignment(TypeAt(t, path).value);
      Align.AlignedForLess(AccessOffset(t, path[0]), Alignment(s), a);
      SumAligned(AccessOffset(t, path[0]), PathOffset(s, path[1..]), a);
    }
  }

  /** The paths part company: neither is a prefix of the other. */
  predicate Diverge(p: seq<Access>, q: seq<Access>) {
    p != [] && q != [] && (p[0] != q[0] || Diverge(p[1..], q[1..]))
  }

  predicate Apart(o: nat, m: nat, p: nat, n: nat) {
    o + m <= p || p + n <= o
  }

  lemma AccessesApart(t: Type, a: Access, b: Access)
    requires Proper(t) && Selected(t, a).Some? && Selected(t, b).Some? && a != b
    ensures Proper(Selected(t, a).value) && Proper(Selected(t, b).value)
    ensures Apart(AccessOffset(t, a), Extent(Selected(t, a).value), AccessOffset(t, b), Extent(Selected(t, b).value))
  {
    SelectedProper(t, a);
    SelectedProper(t, b);
    match (a, b)
    case (Field(i), Field(j)) =>
      if t.Struct? {
        if i < j { FieldsApart(t.fields, i, j); } else { FieldsApart(t.fields, j, i); }
      }
    case (Element(k), Element(l)) =>
      if k < l { ElementsApart(Extent(t.element), k, l); } else { ElementsApart(Extent(t.element), l, k); }
    case _ =>
  }

  /** Two paths that diverge denote disjoint bytes. */
  lemma {:induction false} PathsApart(t: Type, p: seq<Access>, q: seq<Access>)
    requires Proper(t) && TypeAt(t, p).Some? && TypeAt(t, q).Some? && Diverge(p, q)
    ensures Proper(TypeAt(t, p).value) && Proper(TypeAt(t, q).value)
    ensures Apart(PathOffset(t, p), Extent(TypeAt(t, p).value), PathOffset(t, q), Extent(TypeAt(t, q).value))
    decreases |p|
  {
    PathProper(t, p);
    PathProper(t, q);
    var s, r := Selected(t, p[0]).value, Selected(t, q[0]).value;
    SelectedProper(t, p[0]);
    SelectedProper(t, q[0]);
    if p[0] == q[0] {
      PathsApart(s, p[1..], q[1..]);
    } else {
      PathInside(s, p[1..]);
      PathInside(r, q[1..]);
      AccessesApart(t, p[0], q[0]);
    }
  }

  // ---- scalars -----------------------------------------------------------------------------------

  /** A type without parts, its alignment and its bytes; a bool takes the one byte it is aligned to. */
  predicate Scalar(t: Type, a: nat, n: nat) {
    match t
    case Number(b) => a == b && n == b
    case Pointer => a == 8 && n == 8
    case Slice => a == 8 && n == 16
    case Plain => a == 1 && n == 1
    case _ => false
  }

  /** Wherever a path leads to a scalar, it is naturally aligned and inside the whole object. */
  lemma ScalarPlaced(t: Type, path: seq<Access>, a: nat, n: nat, whole: nat, bytes: nat)
    requires Proper(t) && TypeAt(t, path).Some? && Scalar(TypeAt(t, path).value, a, n) && Takes(t, whole, bytes)
    ensures a > 0 && PathOffset(t, path) % a == 0 && PathOffset(t, path) + n <= bytes
  {
    hide Takes;
    PathInside(t, path);
    TakesOnce(t, whole, bytes);
    AlignedIsMultiple(PathOffset(t, path), a);
    hide PathOffset, TypeAt;
  }

  /** Its bytes belong to it alone: no other scalar reaches into them. */
  lemma ScalarsApart(t: Type, p: seq<Access>, q: seq<Access>, a: nat, n: nat, b: nat, m: nat)
    requires Proper(t) && TypeAt(t, p).Some? && TypeAt(t, q).Some? && Diverge(p, q)
    requires Scalar(TypeAt(t, p).value, a, n) && Scalar(TypeAt(t, q).value, b, m)
    ensures PathOffset(t, p) + n <= PathOffset(t, q) || PathOffset(t, q) + m <= PathOffset(t, p)
  {
    PathsApart(t, p, q);
    hide PathOffset, TypeAt;
  }

  // ---- where a path leads ------------------------------------------------------------------------

  /** The fields of a struct are where the rules put them. */
  lemma FieldStarts(fields: seq<Type>, starts: seq<nat>, parts: seq<Part>, i: nat)
    requires Proper(Struct(fields)) && Arranged(fields, starts, parts) && i < |fields|
    ensures PathOffset(Struct(fields), [Field(i)]) == starts[i]
  {
    hide Takes, Proper;
    StructFields(fields);
    SameLengths(fields, starts, parts);
    ArrangedOnce(fields, starts, parts, |fields|);
    OneAccess(Struct(fields), Field(i));
    hide FieldOffset, PathOffset;
  }

  lemma StructFields(fields: seq<Type>)
    requires Proper(Struct(fields))
    ensures forall f :: f in fields ==> Proper(f)
  {
  }

  lemma OneAccess(t: Type, a: Access)
    requires Proper(t) && Selected(t, a).Some?
    ensures TypeAt(t, [a]) == Selected(t, a) && PathOffset(t, [a]) == AccessOffset(t, a)
  {
    SelectedProper(t, a);
    assert [a][1..] == [];
  }

  /** The elements of an array lie one behind the other. */
  lemma ElementStarts(element: Type, count: nat, k: nat, a: nat, n: nat)
    requires Proper(element) && Takes(element, a, n) && k < count
    ensures PathOffset(Array(element, count), [Element(k)]) == k * n
  {
    hide Takes;
    TakesOnce(element, a, n);
    OneAccess(Array(element, count), Element(k));
    hide Extent, PathOffset;
  }

  /** A slice is its data pointer and behind it its length. */
  lemma SliceStarts()
    ensures TypeAt(Slice, [Field(0)]) == Some(Pointer) && PathOffset(Slice, [Field(0)]) == 0
    ensures TypeAt(Slice, [Field(1)]) == Some(Number(8)) && PathOffset(Slice, [Field(1)]) == 8
  {
    OneAccess(Slice, Field(0));
    OneAccess(Slice, Field(1));
  }

  /** The offsets of two paths, one behind the other, add up. */
  lemma {:induction false} PathsAdd(t: Type, p: seq<Access>, q: seq<Access>)
    requires Proper(t) && TypeAt(t, p).Some? && TypeAt(TypeAt(t, p).value, q).Some?
    ensures Proper(TypeAt(t, p).value) && TypeAt(t, p + q) == TypeAt(TypeAt(t, p).value, q)
    ensures PathOffset(t, p + q) == PathOffset(t, p) + PathOffset(TypeAt(t, p).value, q)
    decreases |p|
  {
    PathProper(t, p);
    if p == [] {
      assert p + q == q;
    } else {
      SelectedProper(t, p[0]);
      assert (p + q)[0] == p[0] && (p + q)[1..] == p[1..] + q;
      PathsAdd(Selected(t, p[0]).value, p[1..], q);
    }
  }
}
