/** Printing a number in base 10 and reading it back (`core/core1.h:751-791`, `src/lexer.c:102-205`). */
module Decimals {
  import opened Wrappers
  import opened Words

  function DigitChar(d: nat): char
    requires d < 10
  {
    '0' + d as char
  }

  /** The decimal digits of a number, most significant first. */
  function Digits(n: nat): (s: string)
    ensures s != []
  {
    if n < 10 then [DigitChar(n)] else Digits(n / 10) + [DigitChar(n % 10)]
  }

  function Power(k: nat): nat {
    if k == 0 then 1 else 10 * Power(k - 1)
  }

  const BUFFER_SIZE := 128

  /** The formatter fills a buffer from its end. */
  method FormatInt(value: Word) returns (text: string)
    ensures text == Digits(value)
  {
    hide Power, Digits;
    if value == 0 {
      NoDigits();
      return "0";
    }
    var buffer := new char[BUFFER_SIZE](_ => ' ');
    var offset := BUFFER_SIZE - 1;
    var left: nat := value;
    ghost var room := 20;
    WordPower();
    assert buffer[offset + 1..] == [];
    while left != 0
      invariant 0 <= room <= 20 && left < Power(room) && offset == BUFFER_SIZE - 1 - (20 - room)
      invariant Digits(value) == DigitsLeft(left) + buffer[offset + 1..]
      decreases left
    {
      ghost var written := buffer[offset + 1..];
      OneDigit(left, room);
      buffer[offset] := DigitChar(left % 10);
      assert buffer[offset..] == [DigitChar(left % 10)] + written;
      left, offset, room := left / 10, offset - 1, room - 1;
    }
    return buffer[offset + 1..];
  }

  function DigitsLeft(n: nat): string {
    if n == 0 then [] else Digits(n)
  }

  lemma NoDigits()
    ensures Digits(0) == "0"
  {
  }

  lemma OneDigit(n: nat, room: nat)
    requires n != 0 && n < Power(room)
    ensures room > 0 && n / 10 < Power(room - 1) && DigitsLeft(n) == DigitsLeft(n / 10) + [DigitChar(n % 10)]
  {
  }

  lemma WordPower()
    ensures WORD_SIZE <= Power(20)
  {
    assert Power(5) == 100000;
    assert Power(10) == 100000 * Power(5);
    assert Power(15) == 100000 * Power(10);
    assert Power(20) == 100000 * Power(15);
  }

  // ---- the scanner -------------------------------------------------------------------------------

  /** Where the scanner of number tokens stands. */
  datatype Scanner = Scanner(pos: nat, integral: Word, base: nat, sawZero: bool, dot: Option<nat>)

  /** What it found: where the token ends, and its value if it is an integer. */
  datatype NumberToken = IntToken(end: nat, value: Word) | FloatToken(end: nat)

  predicate IsDigit(c: char) {
    '0' <= c <= '9'
  }

  /** A base mark after a zero. */
  function MarkedBase(c: char): Option<nat> {
    if c == 'b' || c == 'B' then Some(2) else if c == 'o' then Some(8) else if c == 'x' then Some(16) else None
  }

  /** The value of a letter that may be a digit, if it is looked at as one. */
  function LetterValue(c: char): Option<nat> {
    if 'a' <= c <= 'o' || c == 'x' then Some((c - 'a') as nat + 10)
    else if 'A' <= c <= 'N' then Some((c - 'A') as nat + 10)
    else None
  }

  function Finish(s: Scanner): NumberToken {
    if s.dot.Some? then FloatToken(s.pos) else IntToken(s.pos, s.integral)
  }

  function Take(s: Scanner, value: nat): Scanner {
    s.(pos := s.pos + 1, integral := Wrap(s.integral * s.base + value))
  }

  /** One character: the scanner goes on, or the token is done. */
  datatype Step = Next(scanner: Scanner) | Stop(token: NumberToken)

  function ScanChar(s: Scanner, c: char): Step {
    if c == '.' then
      if s.dot.Some? then Stop(FloatToken(s.dot.value)) else Next(s.(pos := s.pos + 1, dot := Some(s.pos)))
    else if IsDigit(c) then
      var seen := s.(sawZero := s.sawZero || c == '0');
      var value := (c - '0') as nat;
      if value >= s.base then Stop(Finish(seen))
      else if s.dot.Some? then Next(seen.(pos := s.pos + 1))
      else Next(Take(seen, value))
    else if MarkedBase(c).Some? && s.sawZero then
      Next(s.(pos := s.pos + 1, sawZero := false, base := MarkedBase(c).value))
    else if LetterValue(c).Some? then
      if s.dot.Some? then Stop(IntToken(s.dot.value, s.integral))
      else if LetterValue(c).value >= s.base then Stop(Finish(s))
      else Next(Take(s, LetterValue(c).value))
    else Stop(Finish(s))
  }

  function Scan(source: string, s: Scanner): NumberToken
    decreases |source| - s.pos
  {
    if s.pos >= |source| then Finish(s) else
    match ScanChar(s, source[s.pos])
    case Stop(token) => token
    case Next(next) => Scan(source, next)
  }

  /** The token that starts with the digit at `start`. */
  function Lex(source: string, start: nat): NumberToken {
    Scan(source, Scanner(start, 0, 10, false, None))
  }

  class NumberLexer {
    const source: string
    var pos: nat

    constructor (source: string)
      ensures this.source == source && pos == 0
    {
      this.source, pos := source, 0;
    }

    /** The loop over the characters of a number. */
    method NextNumber() returns (token: NumberToken)
      modifies this
      ensures token == Lex(source, old(pos)) && pos == token.end
    {
      hide ScanChar;
      ghost var start := Scanner(pos, 0, 10, false, None);
      var s := Scanner(pos, 0, 10, false, None);
      while s.pos < |source|
        invariant Scan(source, s) == Scan(source, start)
        decreases |source| - s.pos
      {
        var step := ScanChar(s, source[s.pos]);
        if step.Stop? {
          pos := step.token.end;
          return step.token;
        }
        StepsOn(s, source[s.pos]);
        s := step.scanner;
      }
      token := Finish(s);
      pos := s.pos;
    }
  }

  lemma StepsOn(s: Scanner, c: char)
    ensures ScanChar(s, c).Next? ==> ScanChar(s, c).scanner.pos == s.pos + 1
  {
  }

  // ---- the round trip ----------------------------------------------------------------------------

  function DigitValue(c: char): nat {
    if IsDigit(c) then (c - '0') as nat else 0
  }

  /** The number a run of digits adds to. */
  function Value(start: Word, digits: string): Word
  {
    if digits == [] then start
    else Wrap(Value(start, digits[..|digits| - 1]) * 10 + DigitValue(digits[|digits| - 1]))
  }

  lemma {:induction false} DigitsAreDigits(n: nat)
    ensures forall c :: c in Digits(n) ==> IsDigit(c)
  {
    if n >= 10 {
      DigitsAreDigits(n / 10);
    }
  }

  /** The digits of a word add up to the word. */
  lemma {:induction false} DigitsValue(n: nat)
    requires n < WORD_SIZE
    ensures (forall c :: c in Digits(n) ==> IsDigit(c)) && Value(0, Digits(n)) == n
  {
    DigitsAreDigits(n);
    if n < 10 {
      assert Digits(n)[..0] == [];
    } else {
      DigitsValue(n / 10);
      var d := Digits(n);
      assert d[..|d| - 1] == Digits(n / 10);
    }
  }

  /** Digits in base 10 are read one after the other. */
  lemma {:induction false} DigitsRead(source: string, start: nat, digits: string)
    requires start + |digits| <= |source| && source[start..start + |digits|] == digits
    requires forall c :: c in digits ==> IsDigit(c)
    ensures Lex(source, start) == Scan(source, Scanner(start + |digits|, Value(0, digits), 10, '0' in digits, None))
    decreases |digits|
  {
    if digits != [] {
      var init := digits[..|digits| - 1];
      var c := digits[|digits| - 1];
      assert source[start..start + |init|] == init;
      DigitsRead(source, start, init);
      assert source[start + |init|] == c && c in digits;
      assert '0' in digits <==> '0' in init || c == '0' by { assert digits == init + [c]; }
    }
  }

  /** What may not follow a printed number: another digit, or a base mark when the number has a zero in
      it. */
  predicate RunsOn(n: nat, c: char) {
    IsDigit(c) || (MarkedBase(c).Some? && '0' in Digits(n))
  }

  /** A printed word followed by anything but a dot is read back as an integer token of the same value
      that ends where the digits end, exactly when what follows does not run on. */
  lemma PrintedIsRead(before: string, n: nat, rest: string)
    requires n < WORD_SIZE && (rest != [] ==> rest[0] != '.')
    ensures var source := before + Digits(n) + rest;
            Lex(source, |before|) == IntToken(|before| + |Digits(n)|, n) <==> !(rest != [] && RunsOn(n, rest[0]))
  {
    var source := before + Digits(n) + rest;
    var end := |before| + |Digits(n)|;
    DigitsValue(n);
    assert source[|before|..end] == Digits(n);
    DigitsRead(source, |before|, Digits(n));
    var s := Scanner(end, n, 10, '0' in Digits(n), None);
    if rest != [] {
      assert source[end] == rest[0];
      if RunsOn(n, rest[0]) {
        GoesOn(source, ScanChar(s, rest[0]).scanner, end);
      }
    }
  }

  /** Once past a character without a dot, the token ends later. */
  lemma {:induction false} GoesOn(source: string, s: Scanner, end: nat)
    requires s.pos > end && (s.dot.Some? ==> s.dot.value > end)
    ensures Scan(source, s).end > end
    decreases |source| - s.pos
  {
    if s.pos < |source| && ScanChar(s, source[s.pos]).Next? {
      GoesOn(source, ScanChar(s, source[s.pos]).scanner, end);
    }
  }
}
