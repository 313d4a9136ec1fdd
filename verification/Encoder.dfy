/** The x86-64 instruction writer on the integer forms that the back end emits
    (`core/machine_code.h:1062-1083, 1153-1170, 2140-2200, 2222-2613`), against a decoder that follows
    Intel SDM Vol. 2A, sections 2.1.3, 2.1.5 and 2.2.1. */
module Encoder {
  import opened Wrappers
  import opened Bytes

  datatype Size = S8 | S16 | S32 | S64

  /** An operand of the ModR/M byte: a register or memory. */
  datatype Place =
    | Direct(reg: nat)
    | At(base: nat, disp: int)
    | Indexed(base: nat, index: nat, scale: nat, disp: int)

  datatype Layout = RegAndRm | RmOnly(digit: nat) | InOpcode | NoOperand
  {
    predicate UsesModrm() { RegAndRm? || RmOnly? }
  }

  /** A row of the instruction table: `immediate` is the number of bytes of the immediate or of the
      jump distance, `by64` says that the 64-bit operand size is the default. */
  datatype Row = Row(escape: bool, opcode: Byte, layout: Layout, size: Size, immediate: nat, by64: bool)

  datatype Instruction = Instruction(row: Row, reg: nat, rm: Place, imm: int)

  const OPERAND_SIZE: Byte := 0x66
  const ESCAPE: Byte := 0x0F
  const RSP := 4
  const RBP := 5

  // ---- the writer --------------------------------------------------------------------------------

  /** The register that needs the B bit: the operand itself or the base of its address. */
  function LowRegister(p: Place): nat {
    match p
    case Direct(r) => r
    case At(base, _) => base
    case Indexed(base, _, _, _) => base
  }

  predicate Wide(row: Row) {
    row.size == S64 && !row.by64
  }

  function Bit(b: bool): nat {
    if b then 1 else 0
  }

  /** The REX prefix, or 0 for none. */
  function Rex(i: Instruction): Byte {
    var w := Wide(i.row);
    var r := i.row.layout.RegAndRm? && i.reg >= 8;
    var b := i.row.layout.UsesModrm() && LowRegister(i.rm) >= 8;
    if w || r || b then 0x40 + 8 * Bit(w) + 4 * Bit(r) + Bit(b) else 0
  }

  function ModRm(mode: nat, field: nat, rm: nat): Byte
    requires mode < 4 && field < 8 && rm < 8
  {
    64 * mode + 8 * field + rm
  }

  function Sib(scale: nat, index: nat, base: nat): Byte
    requires scale < 4
  {
    64 * scale + 8 * (index % 8) + base % 8
  }

  /** An address with a SIB byte. */
  function SibAddress(field: nat, sib: Byte, scaled: bool, disp: int): seq<Byte>
    requires field < 8
  {
    if disp == 0 then
      if sib % 8 != RBP then [ModRm(0, field, RSP), sib]
      else if scaled then [ModRm(0, field, RSP), sib] + Little(0, 4)
      else [ModRm(1, field, RSP), sib] + Little(0, 1)
    else if Fits(disp, 1) then [ModRm(1, field, RSP), sib] + Little(disp, 1)
    else if Fits(disp, 4) then [ModRm(2, field, RSP), sib] + Little(disp, 4)
    else []
  }

  /** An address without one.  The test for the short displacement casts before it compares, so it
      holds of every displacement from -128 up. */
  function PlainAddress(field: nat, base: nat, disp: int): seq<Byte>
    requires field < 8
  {
    if disp == 0 && base % 8 != RBP then [ModRm(0, field, base % 8)]
    else if disp >= -128 then [ModRm(1, field, base % 8)] + Little(disp, 1)
    else if Fits(disp, 4) then [ModRm(2, field, base % 8)] + Little(disp, 4)
    else []
  }

  function Address(field: nat, p: Place): seq<Byte>
    requires field < 8 && (p.Indexed? ==> p.scale < 4)
  {
    match p
    case Direct(r) => [ModRm(3, field, r % 8)]
    case At(base, disp) =>
      if base % 8 == RSP then SibAddress(field, Sib(0, RSP, RSP), false, disp) else PlainAddress(field, base, disp)
    case Indexed(base, index, scale, disp) => SibAddress(field, Sib(scale, index, base), true, disp)
  }

  function Field(i: Instruction): nat
    requires i.row.layout.RmOnly? ==> i.row.layout.digit < 8
    ensures Field(i) < 8
  {
    if i.row.layout.RmOnly? then i.row.layout.digit else i.reg % 8
  }

  function OpcodeByte(i: Instruction): Byte {
    (i.row.opcode + if i.row.layout.InOpcode? then i.reg else 0) % 256
  }

  /** What the writer needs to be well defined. */
  predicate Writable(i: Instruction) {
    && (i.row.layout.RmOnly? ==> i.row.layout.digit < 8)
    && (i.rm.Indexed? ==> i.rm.scale < 4)
  }

  function Prefixes(i: Instruction): seq<Byte> {
    (if Rex(i) != 0 then [Rex(i)] else [])
    + (if i.row.size == S16 then [OPERAND_SIZE] else [])
    + (if i.row.escape then [ESCAPE] else [])
  }

  /** `oc_x86_64_write_instruction`: the REX prefix comes before the operand-size prefix. */
  function Encode(i: Instruction): seq<Byte>
    requires Writable(i)
  {
    Prefixes(i)
    + [OpcodeByte(i)]
    + (if i.row.layout.UsesModrm() then Address(Field(i), i.rm) else [])
    + Little(i.imm, i.row.immediate)
  }

  // ---- the decoder -------------------------------------------------------------------------------

  /** The fields of an instruction as the processor sees them. */
  datatype Fields = Fields(wide: bool, operand16: bool, escape: bool, opcode: Byte, reg: nat, rm: Option<Place>, imm: int)

  /** The ModR/M byte is followed by a SIB byte when its last field is 4 (section 2.1.5). */
  function DecodeAddress(s: seq<Byte>, r: bool, x: bool, b: bool): Option<(nat, Place, seq<Byte>)> {
    if s == [] then None else
    var mode, field, m := s[0] / 64, s[0] / 8 % 8 + 8 * Bit(r), s[0] % 8;
    if mode == 3 then Some((field, Direct(m + 8 * Bit(b)), s[1..]))
    else if m == RSP then
      if |s| < 2 then None else DecodeSib(mode, field, s[1], s[2..], x, b)
    else if mode == 0 && m == RBP then None
    else
      var d := DecodeDisp(mode, s[1..]);
      if d.None? then None else Some((field, At(m + 8 * Bit(b), d.value.0), d.value.1))
  }

  function DecodeSib(mode: nat, field: nat, sib: Byte, s: seq<Byte>, x: bool, b: bool): Option<(nat, Place, seq<Byte>)> {
    var scale, index, base := sib / 64, sib / 8 % 8 + 8 * Bit(x), sib % 8;
    if mode == 0 && base == RBP then None else
    var d := DecodeDisp(mode, s);
    if d.None? then None
    else if index == RSP then Some((field, At(base + 8 * Bit(b), d.value.0), d.value.1))
    else Some((field, Indexed(base + 8 * Bit(b), index, scale, d.value.0), d.value.1))
  }

  function DecodeDisp(mode: nat, s: seq<Byte>): Option<(int, seq<Byte>)> {
    if mode == 0 then Some((0, s))
    else DecodeImmediate(if mode == 1 then 1 else 4, s)
  }

  function DecodeImmediate(n: nat, s: seq<Byte>): Option<(int, seq<Byte>)> {
    if n == 0 then Some((0, s)) else if |s| < n then None else Some((Signed(s[..n]), s[n..]))
  }

  /** The opcodes with a ModR/M byte (Intel SDM Vol. 2D, tables A-2 and A-3), for the integer forms. */
  predicate HasModrm(escape: bool, opcode: Byte) {
    if escape then opcode in {0xAF, 0xB6, 0xB7, 0xBE, 0xBF} || 0x90 <= opcode <= 0x9F
    else (opcode < 0x40 && opcode % 8 < 4)
         || opcode in {0x63, 0x80, 0x81, 0x84, 0x85, 0x88, 0x89, 0x8A, 0x8B, 0x8D, 0x8F, 0xC6, 0xC7, 0xF6, 0xF7, 0xFF}
  }

  /** How many bytes of immediate follow. */
  function ImmediateSize(escape: bool, opcode: Byte, digit: nat, operand16: bool, wide: bool): nat {
    var full := if operand16 then 2 else 4;
    if escape then (if 0x80 <= opcode <= 0x8F then 4 else 0)
    else if opcode in {0x80, 0xC6, 0xEB} || 0x70 <= opcode <= 0x7F then 1
    else if opcode in {0x81, 0xC7} then full
    else if opcode == 0xF6 then (if digit == 0 then 1 else 0)
    else if opcode == 0xF7 then (if digit == 0 then full else 0)
    else if 0xB8 <= opcode <= 0xBF then (if wide then 8 else full)
    else if opcode in {0xE8, 0xE9} then 4
    else 0
  }

  predicate IsRex(b: Byte) {
    b / 16 == 4
  }

  /** The operand-size prefix, then REX right before the opcode (section 2.2.1), the opcode, and what
      the opcode asks for. */
  function Decode(s: seq<Byte>): Option<(Fields, seq<Byte>)> {
    var operand16 := s != [] && s[0] == OPERAND_SIZE;
    var s1 := if operand16 then s[1..] else s;
    if s1 == [] then None else
    var rex: Byte := if IsRex(s1[0]) then s1[0] else 0;
    DecodeOpcode(operand16, rex, if IsRex(s1[0]) then s1[1..] else s1)
  }

  function DecodeOpcode(operand16: bool, rex: Byte, s: seq<Byte>): Option<(Fields, seq<Byte>)> {
    var escape := s != [] && s[0] == ESCAPE;
    var t := if escape then s[1..] else s;
    if t == [] then None else DecodeOperands(operand16, rex, escape, t[0], t[1..])
  }

  /** The opcodes whose reg field is a byte register, and those whose r/m operand is a byte. */
  predicate ByteReg(escape: bool, opcode: Byte) {
    !escape && ((opcode < 0x40 && opcode % 2 == 0) || opcode in {0x84, 0x86, 0x88, 0x8A})
  }

  predicate ByteRm(escape: bool, opcode: Byte) {
    if escape then opcode in {0xB6, 0xBE} || 0x90 <= opcode <= 0x9F
    else ByteReg(false, opcode) || opcode in {0x80, 0xC6, 0xF6, 0xFE}
  }

  /** A byte register by its number: without a REX prefix 4 to 7 are ah, ch, dh and bh (section 2.2.1
      and table 2-2), here numbered 16 to 19 to tell them from spl, bpl, sil and dil. */
  function Named(byte: bool, rex: bool, n: nat): nat {
    if byte && !rex && 4 <= n < 8 then n + 12 else n
  }

  function NamedPlace(byte: bool, rex: bool, p: Place): Place {
    if p.Direct? then Direct(Named(byte, rex, p.reg)) else p
  }

  function DecodeOperands(operand16: bool, rex: Byte, escape: bool, opcode: Byte, s: seq<Byte>): Option<(Fields, seq<Byte>)> {
    var wide, r, x, b := rex / 8 % 2 == 1, rex / 4 % 2 == 1, rex / 2 % 2 == 1, rex % 2 == 1;
    if HasModrm(escape, opcode) then
      var a := DecodeAddress(s, r, x, b);
      if a.None? then None else
      var v := DecodeImmediate(ImmediateSize(escape, opcode, a.value.0 % 8, operand16, wide), a.value.2);
      if v.None? then None
      else Some((Fields(wide, operand16, escape, opcode, Named(ByteReg(escape, opcode), rex != 0, a.value.0),
                        Some(NamedPlace(ByteRm(escape, opcode), rex != 0, a.value.1)), v.value.0), v.value.1))
    else
      var v := DecodeImmediate(ImmediateSize(escape, opcode, 0, operand16, wide), s);
      if v.None? then None
      else if !escape && 0xB8 <= opcode <= 0xBF then
        Some((Fields(wide, operand16, escape, 0xB8, opcode % 8 + 8 * Bit(b), None, v.value.0), v.value.1))
      else Some((Fields(wide, operand16, escape, opcode, 0, None, v.value.0), v.value.1))
  }

  // ---- addresses ---------------------------------------------------------------------------------

  /** What every address the back end builds satisfies: real registers, no rsp as an index (the writer
      aborts on it) and a 32-bit displacement. */
  predicate PlaceOk(p: Place) {
    match p
    case Direct(r) => r < 16
    case At(base, disp) => base < 16 && Fits(disp, 4)
    case Indexed(base, index, scale, disp) => base < 16 && index < 16 && index != RSP && scale < 4 && Fits(disp, 4)
  }

  /** The addresses that come out right. */
  predicate Encodable(p: Place) {
    match p
    case Direct(_) => true
    case At(base, disp) => base % 8 == RSP || disp <= 127
    case Indexed(base, index, _, disp) => index < 8 && (base % 8 == RBP ==> disp != 0)
  }

  lemma ImmediateBack(v: int, n: nat, rest: seq<Byte>)
    requires n > 0
    ensures DecodeImmediate(n, Little(v, n) + rest).Some?
    ensures DecodeImmediate(n, Little(v, n) + rest).value.1 == rest
    ensures DecodeImmediate(n, Little(v, n) + rest).value.0 == v <==> Fits(v, n)
  {
    var s := Little(v, n) + rest;
    assert s[..n] == Little(v, n) && s[n..] == rest;
    SignedRoundTrip(v, n);
  }

  lemma Octet(high: nat, low: nat)
    requires low < 8
    ensures (8 * high + low) / 8 == high && (8 * high + low) % 8 == low
  {
  }

  lemma OctetTwice(m: nat)
    ensures m / 8 / 8 == m / 64
  {
  }

  lemma Packed(a: nat, b: nat, c: nat)
    requires b < 8 && c < 8
    ensures var m := 64 * a + 8 * b + c; m / 64 == a && m / 8 % 8 == b && m % 8 == c
  {
    var m := 64 * a + 8 * b + c;
    assert m == 8 * (8 * a + b) + c;
    Octet(8 * a + b, c);
    Octet(a, b);
    OctetTwice(m);
  }

  lemma ModRmFields(mode: nat, field: nat, rm: nat)
    requires mode < 4 && field < 8 && rm < 8
    ensures var m := ModRm(mode, field, rm); m / 64 == mode && m / 8 % 8 == field && m % 8 == rm
  {
    Packed(mode, field, rm);
  }

  lemma SibFields(scale: nat, index: nat, base: nat)
    requires scale < 4
    ensures var s := Sib(scale, index, base); s / 64 == scale && s / 8 % 8 == index % 8 && s % 8 == base % 8
  {
    Packed(scale, index % 8, base % 8);
  }

  /** The mode field and the displacement bytes the writer chooses next to a SIB byte. */
  function SibMode(sib: Byte, scaled: bool, disp: int): (nat, seq<Byte>) {
    if disp == 0 then
      (if sib % 8 != RBP then (0, []) else if scaled then (0, Little(0, 4)) else (1, Little(0, 1)))
    else if Fits(disp, 1) then (1, Little(disp, 1))
    else (2, Little(disp, 4))
  }

  lemma SibBytes(field: nat, sib: Byte, scaled: bool, disp: int, r: bool, b: bool, rest: seq<Byte>)
    requires field < 8 && Fits(disp, 4)
    ensures var (mode, tail) := SibMode(sib, scaled, disp);
            && mode < 3
            && DecodeAddress(SibAddress(field, sib, scaled, disp) + rest, r, false, b)
               == DecodeSib(mode, field + 8 * Bit(r), sib, tail + rest, false, b)
  {
    hide DecodeSib, Fits;
    var (mode, tail) := SibMode(sib, scaled, disp);
    ModRmFields(mode, field, RSP);
    var s := [ModRm(mode, field, RSP), sib] + tail + rest;
    assert s[2..] == tail + rest;
    assert SibAddress(field, sib, scaled, disp) + rest == s;
  }

  lemma SibBack(field: nat, p: Place, r: bool, rest: seq<Byte>)
    requires field < 8 && PlaceOk(p) && (p.Indexed? || (p.At? && p.base % 8 == RSP))
    ensures DecodeAddress(Address(field, p) + rest, r, false, LowRegister(p) >= 8) == Some((field + 8 * Bit(r), p, rest)) <==> Encodable(p)
    ensures var d := DecodeAddress(Address(field, p) + rest, r, false, LowRegister(p) >= 8);
            !Encodable(p) ==> !p.Direct? && (d.None? || d.value.1 != p)
  {
    hide DecodeAddress, SibAddress, Little, DecodeImmediate;
    var disp := p.disp;
    var sib := if p.At? then Sib(0, RSP, RSP) else Sib(p.scale, p.index, p.base);
    SibFields(if p.At? then 0 else p.scale, if p.At? then RSP else p.index, if p.At? then RSP else p.base);
    SibBytes(field, sib, p.Indexed?, disp, r, LowRegister(p) >= 8, rest);
    assert [] + rest == rest;
    if disp != 0 {
      ImmediateBack(disp, if Fits(disp, 1) then 1 else 4, rest);
    }
  }

  /** The mode field and the displacement bytes the writer chooses next to a plain base. */
  function PlainMode(base: nat, disp: int): (nat, seq<Byte>) {
    if disp == 0 && base % 8 != RBP then (0, [])
    else if disp >= -128 then (1, Little(disp, 1))
    else (2, Little(disp, 4))
  }

  lemma PlainBytes(field: nat, p: Place, r: bool, rest: seq<Byte>)
    requires field < 8 && PlaceOk(p) && p.At? && p.base % 8 != RSP
    ensures var (mode, tail) := PlainMode(p.base, p.disp);
            var d := DecodeDisp(mode, tail + rest);
            DecodeAddress(Address(field, p) + rest, r, false, p.base >= 8)
            == if d.None? then None else Some((field + 8 * Bit(r), At(p.base, d.value.0), d.value.1))
  {
    hide Little, DecodeDisp, DecodeSib, DecodeImmediate;
    var (mode, tail) := PlainMode(p.base, p.disp);
    ModRmFields(mode, field, p.base % 8);
    var s := [ModRm(mode, field, p.base % 8)] + tail + rest;
    assert s[1..] == tail + rest;
    assert Address(field, p) + rest == s by {
      hide ModRm, DecodeAddress;
    }
  }

  lemma PlainBack(field: nat, p: Place, r: bool, rest: seq<Byte>)
    requires field < 8 && PlaceOk(p) && p.At? && p.base % 8 != RSP
    ensures DecodeAddress(Address(field, p) + rest, r, false, LowRegister(p) >= 8) == Some((field + 8 * Bit(r), p, rest)) <==> Encodable(p)
    ensures var d := DecodeAddress(Address(field, p) + rest, r, false, LowRegister(p) >= 8);
            !Encodable(p) ==> !p.Direct? && (d.None? || d.value.1 != p)
  {
    hide DecodeAddress, Address, Little, DecodeImmediate;
    var disp := p.disp;
    PlainBytes(field, p, r, rest);
    assert [] + rest == rest;
    if disp != 0 || p.base % 8 == RBP {
      ImmediateBack(disp, if disp >= -128 then 1 else 4, rest);
    }
  }

  lemma DirectBack(field: nat, p: Place, r: bool, rest: seq<Byte>)
    requires field < 8 && PlaceOk(p) && p.Direct?
    ensures DecodeAddress(Address(field, p) + rest, r, false, p.reg >= 8) == Some((field + 8 * Bit(r), p, rest))
  {
    ModRmFields(3, field, p.reg % 8);
    var s := Address(field, p) + rest;
    assert s[0] == ModRm(3, field, p.reg % 8) && s[1..] == rest;
    hide ModRm;
  }

  /** An address reads back as itself exactly when it is encodable: with a plain base the displacement
      must not exceed 127, and an index must be below 8 and not come with a bare rbp or r13 base. */
  lemma AddressRoundTrip(field: nat, p: Place, r: bool, rest: seq<Byte>)
    requires field < 8 && PlaceOk(p)
    ensures DecodeAddress(Address(field, p) + rest, r, false, LowRegister(p) >= 8) == Some((field + 8 * Bit(r), p, rest)) <==> Encodable(p)
    ensures var d := DecodeAddress(Address(field, p) + rest, r, false, LowRegister(p) >= 8);
            !Encodable(p) ==> !p.Direct? && (d.None? || d.value.1 != p)
  {
    hide DecodeAddress, Address, PlaceOk;
    match p
    case Direct(_) => DirectBack(field, p, r, rest);
    case At(base, _) =>
      if base % 8 == RSP {
        SibBack(field, p, r, rest);
      } else {
        PlainBack(field, p, r, rest);
      }
    case Indexed(_, _, _, _) => SibBack(field, p, r, rest);
  }

  // ---- instructions ------------------------------------------------------------------------------

  /** The row agrees with the processor's opcode map. */
  predicate GoodRow(row: Row) {
    && (HasModrm(row.escape, row.opcode) <==> row.layout.UsesModrm())
    && (row.layout.RmOnly? ==> row.layout.digit < 8 && !ByteReg(row.escape, row.opcode))
    && (row.layout.InOpcode? ==> row.opcode == 0xB8 && !row.escape && row.immediate > 0)
    && (!row.escape ==> !IsRex(row.opcode) && row.opcode != OPERAND_SIZE && row.opcode != ESCAPE)
    && (!row.layout.InOpcode? && !row.escape ==> !(0xB8 <= row.opcode <= 0xBF))
    && (forall d: nat :: d < 8 && (row.layout.RmOnly? ==> d == row.layout.digit) ==> SizedAs(row, d))
  }

  predicate SizedAs(row: Row, digit: nat) {
    ImmediateSize(row.escape, row.opcode, digit, row.size == S16, Wide(row)) == row.immediate
  }

  /** An instruction on a row of the processor's map, with real registers and a 32-bit displacement. */
  predicate Formed(i: Instruction) {
    && GoodRow(i.row) && i.reg < 16
    && (i.row.layout.UsesModrm() ==> PlaceOk(i.rm))
    && (i.row.immediate == 0 ==> i.imm == 0)
    && Writable(i)
  }

  /** Its byte registers are below 4 or come with a REX prefix. */
  predicate BytesNamed(i: Instruction) {
    Rex(i) == 0 ==>
      && (ByteReg(i.row.escape, i.row.opcode) && i.row.layout.RegAndRm? ==> !(4 <= i.reg < 8))
      && (ByteRm(i.row.escape, i.row.opcode) && i.row.layout.UsesModrm() && i.rm.Direct? ==> !(4 <= i.rm.reg < 8))
  }

  /** The instructions that come out right. */
  predicate InDomain(i: Instruction) {
    && Formed(i)
    && (i.row.layout.UsesModrm() ==> Encodable(i.rm))
    && (i.row.layout.InOpcode? ==> i.reg < 8)
    && (i.row.size == S16 ==> Rex(i) == 0)
    && (i.row.immediate > 0 ==> Fits(i.imm, i.row.immediate))
    && BytesNamed(i)
  }

  /** What the processor should see. */
  function FieldsOf(i: Instruction): Fields {
    Fields(Wide(i.row), i.row.size == S16, i.row.escape, i.row.opcode,
           match i.row.layout
           case RegAndRm => i.reg
           case RmOnly(digit) => digit
           case InOpcode => i.reg
           case NoOperand => 0,
           if i.row.layout.UsesModrm() then Some(i.rm) else None, i.imm)
  }

  lemma RexBits(i: Instruction)
    ensures Rex(i) / 8 % 2 == 1 <==> Wide(i.row)
    ensures Rex(i) / 4 % 2 == 1 <==> i.row.layout.RegAndRm? && i.reg >= 8
    ensures Rex(i) / 2 % 2 == 0
    ensures Rex(i) % 2 == 1 <==> i.row.layout.UsesModrm() && LowRegister(i.rm) >= 8
    ensures Rex(i) != 0 ==> IsRex(Rex(i))
  {
  }

  /** The bytes after the opcode. */
  function Operands(i: Instruction): seq<Byte>
    requires Writable(i)
  {
    (if i.row.layout.UsesModrm() then Address(Field(i), i.rm) else []) + Little(i.imm, i.row.immediate)
  }

  /** The opcode with its escape byte, and everything after it. */
  function FromOpcode(i: Instruction): seq<Byte>
    requires Writable(i)
  {
    (if i.row.escape then [ESCAPE] else []) + [OpcodeByte(i)] + Operands(i)
  }

  lemma ImmediateRead(i: Instruction, rest: seq<Byte>)
    requires Formed(i)
    ensures DecodeImmediate(i.row.immediate, Little(i.imm, i.row.immediate) + rest).Some?
    ensures var (v, after) := DecodeImmediate(i.row.immediate, Little(i.imm, i.row.immediate) + rest).value;
            after == rest && (v == i.imm <==> i.row.immediate == 0 || Fits(i.imm, i.row.immediate))
  {
    if i.row.immediate > 0 {
      ImmediateBack(i.imm, i.row.immediate, rest);
    } else {
      assert Little(i.imm, 0) + rest == rest;
    }
  }

  /** What is left to be right once the opcode is reached. */
  predicate OperandsRight(i: Instruction) {
    && (i.row.layout.UsesModrm() ==> Encodable(i.rm))
    && (i.row.layout.InOpcode? ==> i.reg < 8)
    && (i.row.immediate > 0 ==> Fits(i.imm, i.row.immediate))
    && BytesNamed(i)
  }

  lemma OperandsRead(i: Instruction, rest: seq<Byte>)
    requires Formed(i)
    ensures DecodeOperands(i.row.size == S16, Rex(i), i.row.escape, OpcodeByte(i), Operands(i) + rest) == Some((FieldsOf(i), rest))
            <==> OperandsRight(i)
  {
    hide DecodeOperands, Operands, OperandsRight, Formed, FieldsOf, Rex, OpcodeByte;
    if i.row.layout.UsesModrm() {
      ModrmRead(i, rest);
    } else {
      NoModrmRead(i, rest);
    }
  }

  lemma NoModrmRead(i: Instruction, rest: seq<Byte>)
    requires Formed(i) && !i.row.layout.UsesModrm()
    ensures DecodeOperands(i.row.size == S16, Rex(i), i.row.escape, OpcodeByte(i), Operands(i) + rest) == Some((FieldsOf(i), rest))
            <==> OperandsRight(i)
  {
    hide DecodeAddress, Address, DecodeImmediate, Rex, ImmediateSize, HasModrm, Formed, Little, ByteReg, ByteRm, Named, NamedPlace, Fits, Encodable,
      OpcodeByte;
    RexBits(i);
    ImmediateRead(i, rest);
    OpcodeFacts(i);
    FormedWritable(i);
    assert Operands(i) + rest == Little(i.imm, i.row.immediate) + rest;
    assert Bit(Rex(i) % 2 == 1) == 0;
  }

  /** The register field of the instruction: a register or the digit of the opcode. */
  function RegisterField(i: Instruction): nat {
    if i.row.layout.RmOnly? then i.row.layout.digit else i.reg
  }

  lemma ModrmRead(i: Instruction, rest: seq<Byte>)
    requires Formed(i) && i.row.layout.UsesModrm()
    ensures DecodeOperands(i.row.size == S16, Rex(i), i.row.escape, OpcodeByte(i), Operands(i) + rest) == Some((FieldsOf(i), rest))
            <==> OperandsRight(i)
  {
    hide DecodeAddress, Address, DecodeImmediate, Rex, Encodable, ImmediateSize, HasModrm, Formed, Little, ByteReg, ByteRm, Named, NamedPlace,
      BytesNamed, Fits, DecodeOperands, OpcodeByte, Operands;
    ImmediateRead(i, rest);
    var v := DecodeImmediate(i.row.immediate, Little(i.imm, i.row.immediate) + rest).value;
    AddressRead(i, rest);
    NamesRight(i);
  }

  /** The operands as read, if the address is encodable; otherwise some other address or none. */
  lemma AddressRead(i: Instruction, rest: seq<Byte>)
    requires Formed(i) && i.row.layout.UsesModrm()
    ensures var d := DecodeOperands(i.row.size == S16, Rex(i), i.row.escape, OpcodeByte(i), Operands(i) + rest);
            var v := DecodeImmediate(i.row.immediate, Little(i.imm, i.row.immediate) + rest);
            if !Encodable(i.rm) then d.None? || d.value.0.rm != Some(i.rm)
            else if v.None? then d.None?
            else d == Some((Fields(Wide(i.row), i.row.size == S16, i.row.escape, i.row.opcode,
                                   Named(ByteReg(i.row.escape, i.row.opcode), Rex(i) != 0, RegisterField(i)),
                                   Some(NamedPlace(ByteRm(i.row.escape, i.row.opcode), Rex(i) != 0, i.rm)), v.value.0), v.value.1))
  {
    hide DecodeAddress, Address, DecodeImmediate, Rex, Encodable, PlaceOk, ImmediateSize, HasModrm, GoodRow, Little, ByteReg, ByteRm, Named;
    RexBits(i);
    OpcodeFacts(i);
    var tail := Little(i.imm, i.row.immediate) + rest;
    AddressRoundTrip(Field(i), i.rm, i.row.layout.RegAndRm? && i.reg >= 8, tail);
    assert Operands(i) + rest == Address(Field(i), i.rm) + tail;
    if i.row.layout.RmOnly? {
      DigitBelow(i);
    }
    assert Field(i) + 8 * Bit(i.row.layout.RegAndRm? && i.reg >= 8) == RegisterField(i);
  }

  lemma DigitBelow(i: Instruction)
    requires Formed(i) && i.row.layout.RmOnly?
    ensures i.row.layout.digit < 8 && !ByteReg(i.row.escape, i.row.opcode)
  {
  }

  lemma NamesRight(i: Instruction)
    requires Formed(i) && i.row.layout.UsesModrm()
    ensures Named(ByteReg(i.row.escape, i.row.opcode), Rex(i) != 0, RegisterField(i)) == RegisterField(i)
            && NamedPlace(ByteRm(i.row.escape, i.row.opcode), Rex(i) != 0, i.rm) == i.rm
            <==> BytesNamed(i)
  {
    hide ByteReg, ByteRm, Rex, GoodRow, PlaceOk;
    if i.row.layout.RmOnly? {
      DigitBelow(i);
    }
  }

  /** What the map says about the opcode byte that is written. */
  lemma OpcodeFacts(i: Instruction)
    requires Formed(i)
    ensures !i.row.layout.InOpcode? ==> HasModrm(i.row.escape, OpcodeByte(i)) == i.row.layout.UsesModrm()
    ensures !i.row.layout.InOpcode? ==> OpcodeByte(i) == i.row.opcode && !(!i.row.escape && 0xB8 <= i.row.opcode <= 0xBF)
    ensures i.row.layout.InOpcode? ==> OpcodeByte(i) == 0xB8 + i.reg && i.row.opcode == 0xB8 && !i.row.escape
    ensures i.row.layout.InOpcode? && i.reg < 8 ==> !HasModrm(false, OpcodeByte(i))
    ensures i.row.layout.UsesModrm() ==>
              ImmediateSize(i.row.escape, OpcodeByte(i), Field(i), i.row.size == S16, Wide(i.row)) == i.row.immediate
    ensures !i.row.layout.UsesModrm() && (i.row.layout.InOpcode? ==> i.reg < 8) ==>
              ImmediateSize(i.row.escape, OpcodeByte(i), 0, i.row.size == S16, Wide(i.row)) == i.row.immediate
  {
    assert i.row.layout.UsesModrm() ==> SizedAs(i.row, Field(i));
    assert !i.row.layout.UsesModrm() ==> SizedAs(i.row, 0);
  }

  lemma OpcodeRead(i: Instruction, rest: seq<Byte>)
    requires Formed(i)
    ensures DecodeOpcode(i.row.size == S16, Rex(i), FromOpcode(i) + rest) == Some((FieldsOf(i), rest)) <==> OperandsRight(i)
  {
    hide DecodeOperands, Operands, Rex, FieldsOf, OperandsRight;
    OperandsRead(i, rest);
    var s := FromOpcode(i) + rest;
    var t := [OpcodeByte(i)] + Operands(i) + rest;
    assert t[1..] == Operands(i) + rest;
    if i.row.escape {
      assert s == [ESCAPE] + t;
      assert s[1..] == t;
    } else {
      assert s == t;
    }
  }

  /** The bytes of an instruction read back as its own fields, with nothing of what follows, exactly
      when the instruction is in the domain. */
  lemma RoundTripExactly(i: Instruction, rest: seq<Byte>)
    requires Formed(i)
    ensures Decode(Encode(i) + rest) == Some((FieldsOf(i), rest)) <==> InDomain(i)
  {
    hide Decode, Encode, FromOpcode, DecodeOpcode, Rex, FieldsOf, GoodRow, BytesNamed, Encodable, PlaceOk, Fits;
    if i.row.size == S16 && Rex(i) != 0 {
      LateOperandSize(i, rest);
    } else {
      PrefixesRead(i, rest);
      OpcodeRead(i, rest);
    }
  }

  /** The operand-size prefix behind REX is taken for the opcode. */
  lemma LateOperandSize(i: Instruction, rest: seq<Byte>)
    requires Formed(i) && i.row.size == S16 && Rex(i) != 0
    ensures Decode(Encode(i) + rest) != Some((FieldsOf(i), rest))
  {
    hide DecodeOpcode, FromOpcode, Rex, Encode, Formed;
    RexBits(i);
    FormedWritable(i);
    PrefixesThenOpcode(i, rest);
    var s := [Rex(i), OPERAND_SIZE] + (FromOpcode(i) + rest);
    assert s[1..] == [OPERAND_SIZE] + (FromOpcode(i) + rest);
    OperandSizeKept(false, Rex(i), s[1..]);
  }

  lemma FormedWritable(i: Instruction)
    requires Formed(i)
    ensures Writable(i)
  {
  }

  lemma PrefixesRead(i: Instruction, rest: seq<Byte>)
    requires Formed(i) && !(i.row.size == S16 && Rex(i) != 0)
    ensures Decode(Encode(i) + rest) == DecodeOpcode(i.row.size == S16, Rex(i), FromOpcode(i) + rest)
  {
    hide DecodeOpcode, Operands, Rex, Address, GoodRow;
    RexBits(i);
    var t := FromOpcode(i) + rest;
    PrefixesThenOpcode(i, rest);
    FirstByte(i);
    assert t[0] == (if i.row.escape then ESCAPE else OpcodeByte(i));
    assert [] + t == t;
    if i.row.size == S16 {
      assert ([OPERAND_SIZE] + t)[1..] == t;
    } else if Rex(i) != 0 {
      assert ([Rex(i)] + t)[1..] == t;
    }
  }

  lemma FirstByte(i: Instruction)
    requires Formed(i)
    ensures !IsRex(OpcodeByte(i)) || i.row.escape
    ensures OpcodeByte(i) != OPERAND_SIZE || i.row.escape
  {
  }

  lemma OperandSizeKept(operand16: bool, rex: Byte, s: seq<Byte>)
    ensures var d := DecodeOpcode(operand16, rex, s); d.Some? ==> d.value.0.operand16 == operand16
  {
    hide DecodeAddress, DecodeImmediate, HasModrm, ImmediateSize;
  }

  lemma InstructionRoundTrip(i: Instruction, rest: seq<Byte>)
    requires InDomain(i)
    ensures Decode(Encode(i) + rest) == Some((FieldsOf(i), rest))
  {
    RoundTripExactly(i, rest);
  }

  lemma PrefixesThenOpcode(i: Instruction, rest: seq<Byte>)
    requires Writable(i)
    ensures Encode(i) + rest
            == (if i.row.size == S16 && Rex(i) != 0 then [Rex(i), OPERAND_SIZE]
                else if i.row.size == S16 then [OPERAND_SIZE] else if Rex(i) != 0 then [Rex(i)] else []) + (FromOpcode(i) + rest)
  {
    hide Address, Rex;
  }

  // ---- the stream --------------------------------------------------------------------------------

  function EncodeAll(list: seq<Instruction>): seq<Byte>
    requires forall i :: i in list ==> Writable(i)
  {
    if list == [] then [] else Encode(list[0]) + EncodeAll(list[1..])
  }

  function DecodeAll(s: seq<Byte>, n: nat): Option<seq<Fields>>
    decreases n
  {
    if s == [] then Some([])
    else if n == 0 then None
    else
      var first := Decode(s);
      if first.None? then None else
      var rest := DecodeAll(first.value.1, n - 1);
      if rest.None? then None else Some([first.value.0] + rest.value)
  }

  function AllFields(list: seq<Instruction>): seq<Fields> {
    if list == [] then [] else [FieldsOf(list[0])] + AllFields(list[1..])
  }

  /** The concatenated bytes of any list of instructions decode to exactly that list. */
  lemma {:induction false} StreamDecodes(list: seq<Instruction>)
    requires forall i :: i in list ==> InDomain(i) && Writable(i)
    ensures DecodeAll(EncodeAll(list), |list|) == Some(AllFields(list))
    decreases |list|
  {
    hide Decode, Encode, FieldsOf, InDomain;
    if list != [] {
      InstructionRoundTrip(list[0], EncodeAll(list[1..]));
      StreamDecodes(list[1..]);
      SomeBytes(list[0]);
    }
  }

  lemma SomeBytes(i: Instruction)
    requires Writable(i)
    ensures Encode(i) != []
  {
  }

  // ---- the writer as the program runs it ---------------------------------------------------------

  class CodeWriter {
    var bytes: seq<Byte>

    constructor ()
      ensures bytes == []
    {
      bytes := [];
    }

    method Append(more: seq<Byte>)
      modifies this
      ensures bytes == old(bytes) + more
    {
      bytes := bytes + more;
    }

    method WriteAddress(field: nat, p: Place)
      requires field < 8 && (p.Indexed? ==> p.scale < 4)
      modifies this
      ensures bytes == old(bytes) + Address(field, p)
    {
      hide Little, Fits;
      match p
      case Direct(r) =>
        Append([ModRm(3, field, r % 8)]);
      case At(base, disp) =>
        if base % 8 == RSP {
          WriteSib(field, Sib(0, RSP, RSP), false, disp);
        } else if disp == 0 && base % 8 != RBP {
          Append([ModRm(0, field, base % 8)]);
        } else if disp >= -128 {
          Append([ModRm(1, field, base % 8)] + Little(disp, 1));
        } else if Fits(disp, 4) {
          Append([ModRm(2, field, base % 8)] + Little(disp, 4));
        }
      case Indexed(base, index, scale, disp) =>
        WriteSib(field, Sib(scale, index, base), true, disp);
    }

    method WriteSib(field: nat, sib: Byte, scaled: bool, disp: int)
      requires field < 8
      modifies this
      ensures bytes == old(bytes) + SibAddress(field, sib, scaled, disp)
    {
      hide Little, Fits;
      if disp == 0 {
        var mode := if sib % 8 == RBP && !scaled then 1 else 0;
        Append([ModRm(mode, field, RSP), sib]);
        if sib % 8 == RBP {
          Append(Little(0, if scaled then 4 else 1));
        }
      } else if Fits(disp, 1) {
        Append([ModRm(1, field, RSP), sib] + Little(disp, 1));
      } else if Fits(disp, 4) {
        Append([ModRm(2, field, RSP), sib] + Little(disp, 4));
      }
    }

    /** Builds the prefix bit by bit, as the operands turn out to need it. */
    static method RexPrefix(i: Instruction) returns (rex: Byte)
      ensures rex == Rex(i)
    {
      rex := 0;
      if Wide(i.row) {
        rex := 0x48;
      }
      if i.row.layout.RegAndRm? && i.reg >= 8 {
        rex := (if rex == 0 then 0x40 else rex) + 4;
      }
      if i.row.layout.UsesModrm() && LowRegister(i.rm) >= 8 {
        rex := (if rex == 0 then 0x40 else rex) + 1;
      }
    }

    /** The prefixes: REX, operand size, escape. */
    method WritePrefixes(i: Instruction)
      modifies this
      ensures bytes == old(bytes) + Prefixes(i)
    {
      hide Rex;
      var rex := RexPrefix(i);
      if rex != 0 {
        Append([rex]);
      }
      if i.row.size == S16 {
        Append([OPERAND_SIZE]);
      }
      if i.row.escape {
        Append([ESCAPE]);
      }
    }

    /** Writes prefixes, opcode, address and immediate. */
    method WriteInstruction(i: Instruction)
      requires Writable(i)
      modifies this
      ensures bytes == old(bytes) + Encode(i)
    {
      hide Address, Little, Field, OpcodeByte, Prefixes;
      WritePrefixes(i);
      Append([OpcodeByte(i)]);
      if i.row.layout.UsesModrm() {
        WriteAddress(Field(i), i.rm);
      }
      Append(Little(i.imm, i.row.immediate));
    }
  }
}
