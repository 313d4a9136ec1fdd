/** Integer casts in the back end (`backends/x86_64.c:740-755, 775-847, 879-917, 1402-1415`): the load
    that `x86_64_get_move_info` chooses, then a store of the destination's width. */
module Casts {

  datatype Width = W8 | W16 | W32 | W64

  /** A signed or unsigned integer type. */
  datatype Ty = Ty(signed: bool, width: Width)

  function Span(w: Width): nat {
    match w
    case W8 => 0x100
    case W16 => 0x1_0000
    case W32 => 0x1_0000_0000
    case W64 => 0x1_0000_0000_0000_0000
  }

  predicate Narrower(a: Width, b: Width) {
    Span(a) < Span(b)
  }

  /** The number a bit pattern stands for. */
  function Number(t: Ty, raw: nat): int {
    if t.signed && raw >= Span(t.width) / 2 then raw - Span(t.width) else raw
  }

  /** The load instructions, with the widths of their destination and source. */
  datatype Load = Mov(width: Width) | Movzx(to: Width, from: Width) | Movsx(to: Width, from: Width)

  /** `x86_64_get_move_info` between different integer types. */
  function MoveInfo(dst: Ty, src: Ty): Load {
    if !src.signed then
      if (Narrower(src.width, dst.width) || dst.signed) && src.width == W8 then
        Movzx(if dst.width == W8 || dst.width == W16 then W16 else dst.width, W8)
      else if (Narrower(src.width, dst.width) || dst.signed) && src.width == W16 then
        Movzx(if dst.width == W64 then W64 else W32, W16)
      else Mov(src.width)
    else
      if Narrower(src.width, dst.width) then Movsx(dst.width, src.width) else Mov(src.width)
  }

  /** Writing the low part of a 64-bit register: 32-bit writes clear the rest, narrower ones keep it. */
  function WriteRegister(before: nat, w: Width, value: nat): nat {
    match w
    case W64 => value
    case W32 => value
    case W16 => before / 0x1_0000 * 0x1_0000 + value
    case W8 => before / 0x100 * 0x100 + value
  }

  /** The register after the load of a slot that holds `raw`. */
  function Loaded(i: Load, raw: nat, before: nat): nat {
    match i
    case Mov(w) => WriteRegister(before, w, raw % Span(w))
    case Movzx(to, from) => WriteRegister(before, to, raw % Span(from))
    case Movsx(to, from) => WriteRegister(before, to, Number(Ty(true, from), raw % Span(from)) % Span(to))
  }

  function Stored(w: Width, register: nat): nat {
    register % Span(w)
  }

  /** Casting any value of any integer type leaves the same number modulo the destination's width,
      whatever the register held before. */
  lemma CastIsExact(dst: Ty, src: Ty, raw: nat, before: nat)
    requires raw < Span(src.width)
    ensures Stored(dst.width, Loaded(MoveInfo(dst, src), raw, before)) == Number(src, raw) % Span(dst.width)
  {
    if src.signed && Narrower(src.width, dst.width) {
      SignExtended(dst, src, raw, before);
    } else if src.signed {
      Truncated(dst.width, src, raw, before);
    } else {
      ZeroExtended(dst, src, raw, before);
    }
  }

  lemma SignExtended(dst: Ty, src: Ty, raw: nat, before: nat)
    requires raw < Span(src.width) && src.signed && Narrower(src.width, dst.width)
    ensures Stored(dst.width, Loaded(MoveInfo(dst, src), raw, before)) == Number(src, raw) % Span(dst.width)
  {
    var w, n := dst.width, Number(src, raw);
    assert Loaded(MoveInfo(dst, src), raw, before) == WriteRegister(before, w, n % Span(w)) by {
      assert MoveInfo(dst, src) == Movsx(w, src.width);
      Below(raw, src.width);
    }
    hide WriteRegister, MoveInfo, Loaded, Number, Narrower;
    Below(n % Span(w), w);
    KeepsLow(before, w, n % Span(w), w);
  }

  lemma Below(x: int, w: Width)
    requires 0 <= x < Span(w)
    ensures x % Span(w) == x
  {
  }

  lemma Truncated(w: Width, src: Ty, raw: nat, before: nat)
    requires raw < Span(src.width) && src.signed && !Narrower(src.width, w)
    ensures Stored(w, Loaded(Mov(src.width), raw, before)) == Number(src, raw) % Span(w)
  {
    assert Loaded(Mov(src.width), raw, before) == WriteRegister(before, src.width, raw) by {
      Below(raw, src.width);
      hide WriteRegister;
    }
    KeepsLow(before, src.width, raw, w);
    SameResidue(src.width, w, raw);
    assert Number(src, raw) == Number(Ty(true, src.width), raw);
    hide WriteRegister, Loaded, Span, Narrower;
  }

  lemma ZeroExtended(dst: Ty, src: Ty, raw: nat, before: nat)
    requires raw < Span(src.width) && !src.signed
    ensures Stored(dst.width, Loaded(MoveInfo(dst, src), raw, before)) == Number(src, raw) % Span(dst.width)
  {
    Below(raw, src.width);
    var to := match MoveInfo(dst, src) case Mov(w) => w case Movzx(t, _) => t case Movsx(t, _) => t;
    assert Loaded(MoveInfo(dst, src), raw, before) == WriteRegister(before, to, raw) by {
      hide WriteRegister, Narrower;
    }
    assert raw < Span(to) && (to == W8 || to == W16 ==> Span(dst.width) <= Span(to)) by {
      hide WriteRegister, Loaded;
    }
    hide WriteRegister, MoveInfo, Loaded, Narrower, Span;
    KeepsLow(before, to, raw, dst.width);
  }

  /** What a narrow write keeps does not reach the bits that are stored. */
  lemma KeepsLow(before: nat, w: Width, value: nat, stored: Width)
    requires value < Span(w) && (w == W8 || w == W16 ==> Span(stored) <= Span(w))
    ensures WriteRegister(before, w, value) % Span(stored) == value % Span(stored)
  {
    match w
    case W8 => ByteKept(before / 0x100, value);
    case W16 => WordKept(before / 0x1_0000, value, stored);
    case _ =>
  }

  lemma ByteKept(high: nat, value: nat)
    ensures (high * 0x100 + value) % 0x100 == value % 0x100
  {
  }

  lemma WordKept(high: nat, value: nat, stored: Width)
    requires stored == W8 || stored == W16
    ensures (high * 0x1_0000 + value) % Span(stored) == value % Span(stored)
  {
    if stored == W8 {
      ByteKept(high * 0x100, value);
    }
  }

  /** A pattern and the number it stands for agree modulo every width up to its own. */
  lemma SameResidue(w: Width, narrow: Width, raw: nat)
    requires raw < Span(w) && !Narrower(w, narrow)
    ensures Number(Ty(true, w), raw) % Span(narrow) == raw % Span(narrow)
  {
    match w
    case W64 => Lowered(raw, narrow);
    case W32 => assert (raw - 0x1_0000_0000) % Span(narrow) == raw % Span(narrow);
    case W16 => assert (raw - 0x1_0000) % Span(narrow) == raw % Span(narrow);
    case W8 => assert (raw - 0x100) % 0x100 == raw % 0x100;
  }

  lemma Lowered(raw: nat, narrow: Width)
    ensures (raw - Span(W64)) % Span(narrow) == raw % Span(narrow)
  {
  }
}
