/** What the arithmetic operations compute, said with addition, multiplication and order on the operand
    words alone (`src/eval.c:557-622, 645-660`): the wrapped sum, difference and product, the quotient and
    remainder of unsigned and of truncating signed division, and the negative. */
module Arithmetic {
  import opened Wrappers
  import opened Words
  import opened Ir

  /** Two numbers that differ by a multiple of 2^64. */
  predicate Congruent(x: int, y: int) {
    (x - y) % 0x1_0000_0000_0000_0000 == 0
  }

  /** `q` and `r` are quotient and remainder of two unsigned numbers. */
  predicate Divides(a: nat, b: nat, q: nat, r: nat) {
    a == q * b + r && r < b
  }

  function Magnitude(x: int): nat {
    if x < 0 then -x else x
  }

  /** The same for signed numbers, rounding toward zero: the remainder is smaller than the divisor and has
      the sign of the dividend. */
  predicate Truncates(a: int, b: int, q: int, r: int) {
    a == q * b + r && Magnitude(r) < Magnitude(b) && (r == 0 || (r < 0) == (a < 0))
  }

  /** The word read as a two's complement number. */
  function TwosComplement(w: Word): int {
    if w < 0x8000_0000_0000_0000 then w else w - 0x1_0000_0000_0000_0000
  }

  // ---- words -------------------------------------------------------------------------------------

  lemma SumWord(ty: Ty, a: Word, b: Word)
    ensures Arith(Add, ty, a, b).Some? && Congruent(Arith(Add, ty, a, b).value, a + b)
    ensures Arith(Sub, ty, a, b).Some? && Congruent(Arith(Sub, ty, a, b).value, a - b)
    ensures Congruent(a, TwosComplement(a))
  {
  }

  lemma ProductWord(ty: Ty, a: Word, b: Word)
    ensures Arith(Mul, ty, a, b).Some? && Congruent(Arith(Mul, ty, a, b).value, a * b)
  {
    var p := a * b;
    WrapCongruent(p);
  }

  lemma WrapCongruent(x: int)
    ensures Congruent(Wrap(x), x)
  {
  }

  lemma NegativeWord(a: Word)
    ensures Congruent(Negated(a) + a, 0)
  {
  }

  lemma DivMod(a: nat, b: nat)
    requires b > 0
    ensures Divides(a, b, a / b, a % b) && a / b <= a && a % b <= a
  {
    assert a == b * (a / b) + a % b;
    if a / b > a {
      MoreThan(a / b, b);
    }
  }

  lemma MoreThan(q: nat, b: nat)
    requires b > 0
    ensures q * b >= q
  {
  }

  lemma UnsignedWords(ty: Ty, a: Word, b: Word)
    requires ty != I64 && b != 0
    ensures Arith(Div, ty, a, b).Some? && Arith(Mod, ty, a, b).Some?
    ensures Divides(a, b, Arith(Div, ty, a, b).value, Arith(Mod, ty, a, b).value)
  {
    DivMod(a, b);
  }

  /** Truncating division of magnitudes, with the signs put back. */
  lemma TruncatedParts(x: int, y: int)
    requires y != 0
    ensures var q := TruncDiv(x, y); Truncates(x, y, q, x - y * q)
    ensures Magnitude(TruncDiv(x, y)) <= Magnitude(x)
    ensures Magnitude(x - y * TruncDiv(x, y)) <= Magnitude(x)
  {
    var a, b := Abs(x), Abs(y);
    DivMod(a, b);
    var k := a / b;
    if x < 0 && y < 0 {
      SignProduct(k, b);
    } else if x < 0 {
      SignProduct(k, b);
    } else if y < 0 {
      SignProduct(k, b);
    }
  }

  lemma SignProduct(k: int, b: int)
    ensures (-k) * b == -(k * b) && k * (-b) == -(k * b) && (-k) * (-b) == k * b
  {
  }

  lemma WrapSigned(x: int)
    requires -0x8000_0000_0000_0000 <= x < 0x8000_0000_0000_0000
    ensures TwosComplement(Wrap(x)) == x
  {
  }

  lemma SignedWords(a: Word, b: Word)
    requires b != 0 && !(TwosComplement(a) == -0x8000_0000_0000_0000 && TwosComplement(b) == -1)
    ensures Arith(Div, I64, a, b).Some? && Arith(Mod, I64, a, b).Some?
    ensures Truncates(TwosComplement(a), TwosComplement(b), TwosComplement(Arith(Div, I64, a, b).value), TwosComplement(Arith(Mod, I64, a, b).value))
  {
    var x, y := Signed(a), Signed(b);
    TruncatedParts(x, y);
    var q := TruncDiv(x, y);
    QuotientFits(x, y);
    WrapSigned(q);
    WrapSigned(x - y * q);
  }

  /** Only the most negative number over -1 leaves the range. */
  lemma QuotientFits(x: int, y: int)
    requires y != 0 && -0x8000_0000_0000_0000 <= x < 0x8000_0000_0000_0000 && !(x == -0x8000_0000_0000_0000 && y == -1)
    ensures -0x8000_0000_0000_0000 <= TruncDiv(x, y) < 0x8000_0000_0000_0000
    ensures -0x8000_0000_0000_0000 <= x - y * TruncDiv(x, y) < 0x8000_0000_0000_0000
  {
    TruncatedParts(x, y);
    var q := TruncDiv(x, y);
    if q == 0x8000_0000_0000_0000 {
      assert x == -0x8000_0000_0000_0000;
      assert x == q * y + (x - y * q);
    }
  }

  // ---- frames ------------------------------------------------------------------------------------

  /** The operation writes the word to its register and changes nothing else. */
  predicate Writes(f: Frame, g: Option<Frame>, dst: nat, w: Word) {
    g.Some? && g.value.locals == f.locals && |g.value.regs| == |f.regs|
    && (forall r :: 0 <= r < |f.regs| ==> g.value.regs[r] == if r == dst then w else f.regs[r])
  }

  /** Whatever `op` computes from words `x` and `y`, the operation leaves in its register. */
  lemma ComputeWrites(code: Code, f: Frame, op: ArithOp, ty: Ty, dst: nat, a: Operand, b: Operand)
    requires dst < |f.regs|
    ensures var v := Arith(op, ty, Value(code, f, a), Value(code, f, b)); var g := Exec(code, Compute(op, ty, dst, a, b), f);
            if v.None? then g.None? else Writes(f, g, dst, v.value)
  {
  }

  /** ADD: the register holds the sum modulo 2^64. */
  lemma Sum(code: Code, f: Frame, ty: Ty, dst: nat, a: Operand, b: Operand, w: Word)
    requires dst < |f.regs|
    ensures Writes(f, Exec(code, Compute(Add, ty, dst, a, b), f), dst, w) <==> Congruent(w, Value(code, f, a) as int + Value(code, f, b))
  {
    hide Value;
    var x: int, y: int := Value(code, f, a), Value(code, f, b);
    SumWord(ty, x, y);
    ComputedWord(code, f, Add, ty, dst, a, b, x + y, w);
  }

  /** SUB: the difference. */
  lemma Difference(code: Code, f: Frame, ty: Ty, dst: nat, a: Operand, b: Operand, w: Word)
    requires dst < |f.regs|
    ensures Writes(f, Exec(code, Compute(Sub, ty, dst, a, b), f), dst, w) <==> Congruent(w, Value(code, f, a) as int - Value(code, f, b))
  {
    hide Value;
    var x: int, y: int := Value(code, f, a), Value(code, f, b);
    SumWord(ty, x, y);
    ComputedWord(code, f, Sub, ty, dst, a, b, x - y, w);
  }

  /** MUL: the product. */
  lemma Product(code: Code, f: Frame, ty: Ty, dst: nat, a: Operand, b: Operand, w: Word)
    requires dst < |f.regs|
    ensures Writes(f, Exec(code, Compute(Mul, ty, dst, a, b), f), dst, w) <==> Congruent(w, Value(code, f, a) as int * Value(code, f, b))
  {
    hide Value;
    var x: int, y: int := Value(code, f, a), Value(code, f, b);
    ProductWord(ty, x, y);
    ComputedWord(code, f, Mul, ty, dst, a, b, x * y, w);
  }

  lemma ComputedWord(code: Code, f: Frame, op: ArithOp, ty: Ty, dst: nat, a: Operand, b: Operand, n: int, w: Word)
    requires dst < |f.regs|
    requires var v := Arith(op, ty, Value(code, f, a), Value(code, f, b)); v.Some? && Congruent(v.value, n)
    ensures Writes(f, Exec(code, Compute(op, ty, dst, a, b), f), dst, w) <==> Congruent(w, n)
  {
    ComputeWrites(code, f, op, ty, dst, a, b);
    hide Exec, Value, Arith;
    var v := Arith(op, ty, Value(code, f, a), Value(code, f, b)).value;
    OneWord(w, v, n);
    OneWrite(f, Exec(code, Compute(op, ty, dst, a, b), f), dst, v, w);
  }

  lemma OneWord(w: Word, v: Word, x: int)
    requires Congruent(v, x)
    ensures Congruent(w, x) <==> w == v
  {
  }

  lemma OneWrite(f: Frame, g: Option<Frame>, dst: nat, v: Word, w: Word)
    requires dst < |f.regs| && Writes(f, g, dst, v)
    ensures Writes(f, g, dst, w) <==> w == v
  {
    assert g.value.regs[dst] == v;
  }

  /** DIV and MOD on unsigned registers: the hardware faults exactly on a zero divisor, and otherwise the
      two registers hold quotient and remainder. */
  lemma UnsignedDivision(code: Code, f: Frame, ty: Ty, dst: nat, a: Operand, b: Operand) returns (q: Word, r: Word)
    requires dst < |f.regs| && ty != I64
    ensures var (x, y) := (Value(code, f, a), Value(code, f, b));
            var (d, m) := (Exec(code, Compute(Div, ty, dst, a, b), f), Exec(code, Compute(Mod, ty, dst, a, b), f));
            if y == 0 then d.None? && m.None?
            else Writes(f, d, dst, q) && Writes(f, m, dst, r) && Divides(x, y, q, r)
  {
    var (x, y) := (Value(code, f, a), Value(code, f, b));
    ComputeWrites(code, f, Div, ty, dst, a, b);
    ComputeWrites(code, f, Mod, ty, dst, a, b);
    q, r := 0, 0;
    if y != 0 {
      UnsignedWords(ty, x, y);
      hide Exec, Value, Divides;
      q, r := Arith(Div, ty, x, y).value, Arith(Mod, ty, x, y).value;
    }
  }

  /** DIV and MOD on signed registers: a fault exactly on a zero divisor and on the one quotient that does
      not fit, and otherwise quotient and remainder of truncating division. */
  lemma SignedDivision(code: Code, f: Frame, dst: nat, a: Operand, b: Operand) returns (q: Word, r: Word)
    requires dst < |f.regs|
    ensures var (x, y) := (TwosComplement(Value(code, f, a)), TwosComplement(Value(code, f, b)));
            var (d, m) := (Exec(code, Compute(Div, I64, dst, a, b), f), Exec(code, Compute(Mod, I64, dst, a, b), f));
            if y == 0 || (x == -0x8000_0000_0000_0000 && y == -1) then d.None? && m.None?
            else Writes(f, d, dst, q) && Writes(f, m, dst, r) && Truncates(x, y, TwosComplement(q), TwosComplement(r))
  {
    var (v, w) := (Value(code, f, a), Value(code, f, b));
    ComputeWrites(code, f, Div, I64, dst, a, b);
    ComputeWrites(code, f, Mod, I64, dst, a, b);
    q, r := 0, 0;
    if w != 0 && !(TwosComplement(v) == -0x8000_0000_0000_0000 && TwosComplement(w) == -1) {
      SignedWords(v, w);
      hide Exec, Value, Truncates;
      q, r := Arith(Div, I64, v, w).value, Arith(Mod, I64, v, w).value;
    }
  }

  /** NEG: the register holds the word that makes zero with the operand. */
  lemma Negation(code: Code, f: Frame, dst: nat, a: Operand, w: Word)
    requires dst < |f.regs|
    ensures Writes(f, Exec(code, Negate(dst, a), f), dst, w) <==> Congruent(w + Value(code, f, a), 0)
  {
    var x := Value(code, f, a);
    NegativeWord(x);
    OneNegative(x, Negated(x), w);
    OneWrite(f, Exec(code, Negate(dst, a), f), dst, Negated(x), w);
  }

  lemma OneNegative(x: Word, v: Word, w: Word)
    requires Congruent(v + x, 0)
    ensures Congruent(w + x, 0) <==> w == v
  {
  }

  /** The comparisons of two registers: 1 when the words, read as unsigned numbers, are so ordered, and 0
      when they are not. */
  lemma Comparison(code: Code, f: Frame, cmp: CompareOp, dst: nat, p: nat, q: nat, w: Word)
    requires dst < |f.regs| && p < |f.regs| && q < |f.regs|
    ensures var (x, y) := (f.regs[p], f.regs[q]);
            Writes(f, Exec(code, Compare(cmp, dst, Reg(p), Reg(q)), f), dst, w)
            <==> w == match cmp
                      case Eq => (if x < y || y < x then 0 else 1)
                      case Neq => (if x < y || y < x then 1 else 0)
                      case Lt => (if x < y then 1 else 0)
                      case Lte => (if y < x then 0 else 1)
                      case Gt => (if y < x then 1 else 0)
                      case Gte => (if x < y then 0 else 1)
  {
    var v := BoolWord(Ordered(cmp, f.regs[p], f.regs[q]));
    OneWrite(f, Exec(code, Compare(cmp, dst, Reg(p), Reg(q)), f), dst, v, w);
  }
}
