/** The 64-bit values of the constant evaluator and the arithmetic its opcodes perform on them
    (`src/eval.c:557-705`). */
module Words {
  import opened Wrappers

  type Word = w: int | 0 <= w < 0x1_0000_0000_0000_0000

  const WORD_SIZE := 0x1_0000_0000_0000_0000
  const SIGN_BIT := 0x8000_0000_0000_0000
  const ALL_ONES: Word := 0xFFFF_FFFF_FFFF_FFFF

  /** A bank of words: reads outside it are zero and writes outside it are lost. */
  function Read(s: seq<Word>, i: nat): Word {
    if i < |s| then s[i] else 0
  }

  function Write(s: seq<Word>, i: nat, w: Word): (r: seq<Word>)
    ensures |r| == |s|
    ensures forall j :: 0 <= j < |s| && j != i ==> r[j] == s[j]
    ensures i < |s| ==> r[i] == w
  {
    if i < |s| then s[i := w] else s
  }

  datatype Ty = I64 | U64 | Bool

  datatype ArithOp = Add | Sub | Mul | Div | Mod

  datatype CompareOp = Eq | Neq | Gte | Gt | Lte | Lt

  function Wrap(x: int): Word {
    x % 0x1_0000_0000_0000_0000
  }

  function Signed(w: Word): int {
    if w < SIGN_BIT then w else w - WORD_SIZE
  }

  /** C division on signed operands truncates toward zero. */
  function TruncDiv(x: int, y: int): int
    requires y != 0
  {
    if (x < 0) == (y < 0) then Abs(x) / Abs(y) else -(Abs(x) / Abs(y))
  }

  function Abs(x: int): nat {
    if x < 0 then -x else x
  }

  /** ADD, SUB, MUL, DIV and MOD with a destination register of the given type; `None` is the
      hardware divide fault (a zero divisor, or the one signed quotient that does not fit). */
  function Arith(op: ArithOp, ty: Ty, a: Word, b: Word): Option<Word> {
    match op
    case Add => Some(Wrap(a + b))
    case Sub => Some(Wrap(a - b))
    case Mul => Some(Wrap(a * b))
    case _ => if b == 0 then None else if ty == I64 then SignedDivide(op, a, b) else UnsignedDivide(op, a, b)
  }

  function SignedDivide(op: ArithOp, a: Word, b: Word): Option<Word>
    requires b != 0
  {
    if a == SIGN_BIT && b == ALL_ONES then None
    else if op == Div then Some(Wrap(TruncDiv(Signed(a), Signed(b))))
    else Some(Wrap(Signed(a) - Signed(b) * TruncDiv(Signed(a), Signed(b))))
  }

  function UnsignedDivide(op: ArithOp, a: Word, b: Word): Option<Word>
    requires b != 0
  {
    if op == Div then Some(Wrap(a / b)) else Some(Wrap(a % b))
  }

  predicate Ordered(op: CompareOp, a: int, b: int) {
    match op
    case Eq => a == b
    case Neq => a != b
    case Gte => a >= b
    case Gt => a > b
    case Lte => a <= b
    case Lt => a < b
  }

  function BoolWord(b: bool): Word {
    if b then 1 else 0
  }

  /** NEG: the two's complement of the word. */
  function Negated(a: Word): Word {
    Wrap(WORD_SIZE - a)
  }

  /** TEST: an integer becomes all zeros or all ones, a bool is copied as it is. */
  function Tested(ty: Ty, a: Word): Word {
    if ty == Bool then a else if a != 0 then ALL_ONES else 0
  }

  function BitAnd(a: nat, b: nat): (r: nat)
    ensures r <= a && r <= b
  {
    if a == 0 || b == 0 then 0 else (if a % 2 == 1 && b % 2 == 1 then 1 else 0) + 2 * BitAnd(a / 2, b / 2)
  }

  /** The bits of either word, by inclusion and exclusion. */
  function BitOr(a: nat, b: nat): nat {
    a + b - BitAnd(a, b)
  }

  /** `&&` and `||` are the bitwise AND and OR of the two tested operands. */
  function Logical(conjunction: bool, a: Word, b: Word): Word {
    if conjunction then BitAnd(a, b) else Wrap(BitOr(a, b))
  }

  // ---- what the bitwise forms mean -------------------------------------------------------

  /** The words a bool can hold when it comes from a comparison, a literal or a logical operator. */
  predicate CanonicalBool(w: Word) {
    w == 0 || w == 1 || w == ALL_ONES
  }

  /** The word of `n` one bits. */
  function Ones(n: nat): nat {
    if n == 0 then 0 else 2 * Ones(n - 1) + 1
  }

  lemma {:induction false} BitAndOnes(a: nat, n: nat)
    requires a <= Ones(n)
    ensures BitAnd(Ones(n), a) == a
  {
    if n != 0 && a != 0 {
      assert Ones(n) / 2 == Ones(n - 1);
      BitAndOnes(a / 2, n - 1);
    }
  }

  lemma OnesByByte(n: nat)
    ensures Ones(n + 8) == 256 * Ones(n) + 255
  {
    assert Ones(n + 2) == 4 * Ones(n) + 3;
    assert Ones(n + 4) == 4 * Ones(n + 2) + 3;
    assert Ones(n + 6) == 4 * Ones(n + 4) + 3;
    assert Ones(n + 8) == 4 * Ones(n + 6) + 3;
  }

  lemma AllOnesAreOnes() returns (n: nat)
    ensures Ones(n) == ALL_ONES
  {
    n := 0;
    for i := 0 to 8
      invariant n == 8 * i
      invariant Ones(n) == [0, 0xFF, 0xFFFF, 0xFFFFFF, 0xFFFFFFFF, 0xFFFFFFFFFF, 0xFFFFFFFFFFFF, 0xFFFFFFFFFFFFFF, ALL_ONES][i]
    {
      OnesByByte(n);
      n := n + 8;
    }
  }

  lemma BitAndWithOne(a: nat)
    ensures BitAnd(a, 1) == a % 2 && BitAnd(1, a) == a % 2
  {
    if a != 0 {
      assert BitAnd(a / 2, 0) == 0 && BitAnd(0, a / 2) == 0;
    }
  }

  lemma CanonicalAnd(x: Word, y: Word)
    requires CanonicalBool(x) && CanonicalBool(y)
    ensures BitAnd(x, y) == if x == 0 || y == 0 then 0 else if x == 1 then 1 else y
  {
    if x == 1 {
      BitAndWithOne(y);
    } else if x != 0 {
      var n := AllOnesAreOnes();
      BitAndOnes(y, n);
    }
  }

  lemma CanonicalOr(x: Word, y: Word, and: Word)
    requires CanonicalBool(x) && CanonicalBool(y)
    requires and == if x == 0 || y == 0 then 0 else if x == 1 then 1 else y
    ensures Wrap(x + y - and) == x + y - and && CanonicalBool(Wrap(x + y - and))
    ensures x + y - and != 0 <==> x != 0 || y != 0
  {
  }

  /** Bit `k` of a word. */
  predicate BitOf(a: nat, k: nat)
    decreases k
  {
    if k == 0 then a % 2 == 1 else BitOf(a / 2, k - 1)
  }

  /** Some bit is set in both words. */
  ghost predicate ShareBit(a: nat, b: nat) {
    exists k: nat :: BitOf(a, k) && BitOf(b, k)
  }

  lemma {:induction false} AndSharesBit(a: nat, b: nat)
    ensures BitAnd(a, b) != 0 <==> ShareBit(a, b)
    decreases a
  {
    if a == 0 || b == 0 {
      forall k: nat
        ensures !(BitOf(a, k) && BitOf(b, k))
      {
        NoBits(k);
      }
    } else {
      AndSharesBit(a / 2, b / 2);
      if ShareBit(a / 2, b / 2) {
        var k: nat :| BitOf(a / 2, k) && BitOf(b / 2, k);
        assert BitOf(a, k + 1) && BitOf(b, k + 1);
      }
      if a % 2 == 1 && b % 2 == 1 {
        assert BitOf(a, 0) && BitOf(b, 0);
      }
      if ShareBit(a, b) {
        var k: nat :| BitOf(a, k) && BitOf(b, k);
        assert k > 0 ==> BitOf(a / 2, k - 1) && BitOf(b / 2, k - 1);
      }
    }
  }

  lemma {:induction false} NoBits(k: nat)
    ensures !BitOf(0, k)
  {
    if k > 0 {
      NoBits(k - 1);
    }
  }

  lemma {:induction false} BitOrBounded(a: nat, b: nat, n: nat)
    requires a <= Ones(n) && b <= Ones(n)
    ensures BitOr(a, b) <= Ones(n)
    decreases n
  {
    if n > 0 && a != 0 && b != 0 {
      BitOrBounded(a / 2, b / 2, n - 1);
    }
  }

  /** What the operators decide, for all words: `||` always the disjunction, `&&` the conjunction as
      soon as one operand is an integer, and on two bools exactly when one of them is zero or they have
      a one bit in common, since a bool is tested by copying it.  Both operands are always evaluated. */
  lemma LogicalMeaning(ta: Ty, a: Word, tb: Ty, b: Word)
    ensures Logical(false, Tested(ta, a), Tested(tb, b)) != 0 <==> a != 0 || b != 0
    ensures (Logical(true, Tested(ta, a), Tested(tb, b)) != 0 <==> a != 0 && b != 0)
            <==> ta != Bool || tb != Bool || a == 0 || b == 0 || ShareBit(a, b)
  {
    hide BitAnd, ShareBit, BitOr, Wrap;
    var x, y := Tested(ta, a), Tested(tb, b);
    OrDecides(x, y);
    AndSharesBit(x, y);
    AndWithAll(x);
    AndWithAll(y);
  }

  lemma OrDecides(x: Word, y: Word)
    ensures Wrap(BitOr(x, y)) != 0 <==> x != 0 || y != 0
  {
    hide BitAnd, Ones;
    var n := AllOnesAreOnes();
    BitOrBounded(x, y, n);
    var or := BitOr(x, y);
    assert x <= or && y <= or && or < WORD_SIZE;
    assert x == 0 && y == 0 ==> or == 0;
    hide BitOr;
  }

  lemma AndWithAll(y: Word)
    ensures BitAnd(ALL_ONES, y) == y && BitAnd(y, ALL_ONES) == y
  {
    var n := AllOnesAreOnes();
    BitAndOnes(y, n);
    AndCommutes(y, ALL_ONES);
    hide BitAnd, Ones;
  }

  lemma {:induction false} AndCommutes(a: nat, b: nat)
    ensures BitAnd(a, b) == BitAnd(b, a)
    decreases a
  {
    if a != 0 && b != 0 {
      AndCommutes(a / 2, b / 2);
    }
  }

  /** Bools that come from comparisons, literals and logical operators stay canonical, and on them both
      operators are right. */
  lemma CanonicalClosed(conjunction: bool, ta: Ty, a: Word, tb: Ty, b: Word)
    requires ta == Bool ==> CanonicalBool(a)
    requires tb == Bool ==> CanonicalBool(b)
    ensures CanonicalBool(Logical(conjunction, Tested(ta, a), Tested(tb, b)))
    ensures Logical(conjunction, Tested(ta, a), Tested(tb, b)) != 0
            <==> if conjunction then a != 0 && b != 0 else a != 0 || b != 0
  {
    var x, y := Tested(ta, a), Tested(tb, b);
    assert CanonicalBool(x) && CanonicalBool(y);
    CanonicalAnd(x, y);
    if !conjunction {
      CanonicalOr(x, y, BitAnd(x, y));
    }
  }

  /** The evaluator compares registers as unsigned words whatever their type: for the four orderings
      this is the signed order exactly when the operands have equal sign bits. */
  lemma UnsignedOrderIsSignedOrder(op: CompareOp, a: Word, b: Word)
    ensures Ordered(op, a, b) == Ordered(op, Signed(a), Signed(b))
            <==> op == Eq || op == Neq || (a < SIGN_BIT) == (b < SIGN_BIT)
  {
  }
}
