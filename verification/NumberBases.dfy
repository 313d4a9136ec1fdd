/** Integer literals with a base mark (`src/lexer.c:102-205`): `0b`, `0o` and `0x`, and where a digit of the
    last one is taken for a mark. */
module NumberBases {
  import opened Wrappers
  import opened Words
  import opened Decimals

  /** What a character is worth as a digit, in any base up to 16. */
  function DigitOf(c: char): Option<nat> {
    if '0' <= c <= '9' then Some((c - '0') as nat)
    else if 'a' <= c <= 'f' then Some((c - 'a') as nat + 10)
    else if 'A' <= c <= 'F' then Some((c - 'A') as nat + 10)
    else None
  }

  predicate Base(base: nat) {
    base == 2 || base == 8 || base == 16
  }

  predicate IsMark(base: nat, c: char) {
    (base == 2 && (c == 'b' || c == 'B')) || (base == 8 && c == 'o') || (base == 16 && c == 'x')
  }

  predicate DigitsIn(base: nat, d: string) {
    forall c :: c in d ==> DigitOf(c).Some? && DigitOf(c).value < base
  }

  /** The number that `n` followed by the digit makes. */
  function More(base: nat, n: nat, digit: nat): nat {
    if base == 2 then 2 * n + digit else if base == 8 then 8 * n + digit else 16 * n + digit
  }

  /** The number that `n` followed by the digits makes. */
  function NumberFrom(base: nat, n: nat, d: string): nat
    decreases |d|
  {
    if d == "" then n else NumberFrom(base, More(base, n, if DigitOf(d[0]).Some? then DigitOf(d[0]).value else 0), d[1..])
  }

  /** No `b` or `B` comes after a zero. */
  predicate NoMarkInside(sawZero: bool, d: string)
    decreases |d|
  {
    d == "" || (!(sawZero && (d[0] == 'b' || d[0] == 'B')) && NoMarkInside(sawZero || d[0] == '0', d[1..]))
  }

  /** Neither a letter, a digit nor a dot. */
  predicate Delimiter(c: char) {
    !('0' <= c <= '9') && !('a' <= c <= 'z') && !('A' <= c <= 'Z') && c != '.'
  }

  predicate Stops(rest: string) {
    rest == "" || Delimiter(rest[0])
  }

  /** The scanner stands before `d` and `rest` and has seen no dot. */
  predicate Before(source: string, s: Scanner, d: string, rest: string) {
    s.pos <= |source| && source[s.pos..] == d + rest && s.dot.None? && Stops(rest)
  }

  lemma {:induction false} NumberGrows(base: nat, n: nat, d: string)
    ensures NumberFrom(base, n, d) >= n
    decreases |d|
  {
    if d != "" {
      NumberGrows(base, More(base, n, if DigitOf(d[0]).Some? then DigitOf(d[0]).value else 0), d[1..]);
    }
  }

  lemma AtRest(source: string, s: Scanner, rest: string)
    requires Before(source, s, "", rest)
    ensures Scan(source, s) == IntToken(s.pos, s.integral)
  {
    assert source[s.pos..] == rest;
    if rest != "" {
      assert source[s.pos] == rest[0];
    }
  }

  lemma OnDigit(source: string, s: Scanner, d: string, rest: string)
    requires Before(source, s, d, rest) && d != ""
    ensures s.pos < |source| && source[s.pos] == d[0]
    ensures forall t: Scanner :: t.pos == s.pos + 1 && t.dot.None? ==> Before(source, t, d[1..], rest)
  {
    assert source[s.pos..][1..] == source[s.pos + 1..];
    assert (d + rest)[1..] == d[1..] + rest;
    assert source[s.pos] == source[s.pos..][0] == d[0];
  }

  /** After a digit has been taken for the mark of base 2, the scanner stays behind the number meant. */
  lemma {:induction false} StaysBehind(source: string, s: Scanner, d: string, rest: string, meant: nat)
    requires Before(source, s, d, rest) && DigitsIn(16, d) && s.base == 2 && s.integral < meant
    requires NumberFrom(16, meant, d) < 0x1_0000_0000_0000_0000
    ensures Scan(source, s) != IntToken(s.pos + |d|, NumberFrom(16, meant, d))
    decreases |d|
  {
    if d == "" {
      AtRest(source, s, rest);
    } else {
      OnDigit(source, s, d, rest);
      var c := d[0];
      assert c in d;
      var next := More(16, meant, DigitOf(c).value);
      NumberGrows(16, next, d[1..]);
      match ScanChar(s, c)
      case Next(t) => StaysBehind(source, t, d[1..], rest, next);
      case Stop(token) =>
    }
  }

  lemma DigitTaken(s: Scanner, c: char)
    requires Base(s.base) && s.dot.None? && DigitOf(c).Some? && DigitOf(c).value < s.base
    requires More(s.base, s.integral, DigitOf(c).value) < 0x1_0000_0000_0000_0000 && !(s.sawZero && (c == 'b' || c == 'B'))
    ensures ScanChar(s, c)
            == Next(Scanner(s.pos + 1, More(s.base, s.integral, DigitOf(c).value), s.base, s.sawZero || c == '0', None))
  {
    var n := More(s.base, s.integral, DigitOf(c).value);
    assert n == s.integral * s.base + DigitOf(c).value && Wrap(n) == n;
    hide Wrap;
  }

  lemma BehindAlready(n: nat, digit: nat)
    requires digit > 0
    ensures n < More(16, n, digit)
  {
  }

  lemma MarkTaken(s: Scanner, c: char)
    requires s.base == 16 && s.dot.None? && s.sawZero && (c == 'b' || c == 'B')
    ensures ScanChar(s, c) == Next(s.(pos := s.pos + 1, sawZero := false, base := 2))
  {
  }

  /** The digits of the base are read one after the other, until one is taken for a mark. */
  lemma {:induction false} ScansDigits(source: string, s: Scanner, d: string, rest: string)
    requires Base(s.base) && Before(source, s, d, rest) && DigitsIn(s.base, d)
    requires NumberFrom(s.base, s.integral, d) < 0x1_0000_0000_0000_0000
    ensures Scan(source, s) == IntToken(s.pos + |d|, NumberFrom(s.base, s.integral, d)) <==> NoMarkInside(s.sawZero, d)
    decreases |d|
  {
    if d == "" {
      AtRest(source, s, rest);
    } else {
      OnDigit(source, s, d, rest);
      var c := d[0];
      assert c in d;
      var next := More(s.base, s.integral, DigitOf(c).value);
      NumberGrows(s.base, next, d[1..]);
      hide ScanChar, Before, More;
      if s.sawZero && (c == 'b' || c == 'B') {
        MarkTaken(s, c);
        BehindAlready(s.integral, DigitOf(c).value);
        StaysBehind(source, ScanChar(s, c).scanner, d[1..], rest, next);
      } else {
        DigitTaken(s, c);
        ScansDigits(source, ScanChar(s, c).scanner, d[1..], rest);
      }
    }
  }

  /** A literal with a base mark is read as its number and ends where its digits end, for every number of
      64 bits and anything behind it that is no letter, digit or dot, exactly when no `b` comes after a
      zero among the digits. */
  lemma MarkedIsRead(before: string, base: nat, mark: char, d: string, rest: string)
    requires Base(base) && IsMark(base, mark) && DigitsIn(base, d) && Stops(rest)
    requires NumberFrom(base, 0, d) < 0x1_0000_0000_0000_0000
    ensures Lex(before + "0" + [mark] + d + rest, |before|) == IntToken(|before| + 2 + |d|, NumberFrom(base, 0, d))
            <==> NoMarkInside(false, d)
  {
    var source := before + "0" + [mark] + d + rest;
    var s0 := Scanner(|before|, 0, 10, false, None);
    var s1 := Scanner(|before| + 1, 0, 10, true, None);
    var s2 := Scanner(|before| + 2, 0, base, false, None);
    assert source[|before|] == '0' && source[|before| + 1] == mark;
    assert source[|before| + 2..] == d + rest;
    assert ScanChar(s0, '0') == Next(s1);
    assert ScanChar(s1, mark) == Next(s2);
    assert Scan(source, s0) == Scan(source, s1);
    assert Scan(source, s1) == Scan(source, s2);
    ScansDigits(source, s2, d, rest);
  }

  /** In bases 2 and 8 that is always so. */
  lemma {:induction false} SmallBasesHaveNone(base: nat, sawZero: bool, d: string)
    requires (base == 2 || base == 8) && DigitsIn(base, d)
    ensures NoMarkInside(sawZero, d)
    decreases |d|
  {
    if d != "" {
      assert d[0] in d;
      SmallBasesHaveNone(base, sawZero || d[0] == '0', d[1..]);
    }
  }

  /** `0x0b` is the number 0. */
  lemma ByteIsZero()
    ensures NumberFrom(16, 0, "0b") == 11 && Lex("0x0b", 0) == IntToken(4, 0)
  {
    var source := "0x0b";
    var s := [Scanner(0, 0, 10, false, None), Scanner(1, 0, 10, true, None), Scanner(2, 0, 16, false, None), Scanner(3, 0, 16, true, None),
              Scanner(4, 0, 2, false, None)];
    assert "0b"[1..] == "b" && "b"[1..] == "";
    assert ScanChar(s[0], '0') == Next(s[1]) && ScanChar(s[1], 'x') == Next(s[2]);
    assert ScanChar(s[2], '0') == Next(s[3]) && ScanChar(s[3], 'b') == Next(s[4]);
    assert Scan(source, s[4]) == IntToken(4, 0);
    assert Scan(source, s[3]) == Scan(source, s[4]);
    assert Scan(source, s[2]) == Scan(source, s[3]);
    assert Scan(source, s[1]) == Scan(source, s[2]);
    assert Scan(source, s[0]) == Scan(source, s[1]);
  }
}
