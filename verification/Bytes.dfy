/** Bytes and little-endian fields, as the code writer appends them (`backends/x86_64.c:121-160`). */
module Bytes {

  type Byte = b: int | 0 <= b < 256

  /** The `n` low bytes of a two's complement number, least significant first. */
  function Little(v: int, n: nat): (r: seq<Byte>)
    ensures |r| == n
    decreases n
  {
    if n == 0 then [] else [v % 256] + Little(v / 256, n - 1)
  }

  /** The signed number a field holds; the last byte carries the sign. */
  function Signed(s: seq<Byte>): int
    requires s != []
  {
    if |s| == 1 then (if s[0] < 128 then s[0] else s[0] - 256) else s[0] + 256 * Signed(s[1..])
  }

  function Half(n: nat): (r: nat)
    ensures r > 0
  {
    if n <= 1 then 128 else 256 * Half(n - 1)
  }

  predicate Fits(v: int, n: nat) {
    v < Half(n) && -v <= Half(n)
  }

  /** A signed field gives the number back exactly when the number fits. */
  lemma {:induction false} SignedRoundTrip(v: int, n: nat)
    requires n > 0
    ensures Signed(Little(v, n)) == v <==> Fits(v, n)
    decreases n
  {
    if n > 1 {
      SignedRoundTrip(v / 256, n - 1);
      var f := Little(v, n);
      assert f[1..] == Little(v / 256, n - 1);
      assert v == v % 256 + 256 * (v / 256);
      assert Fits(v, n) <==> Fits(v / 256, n - 1);
    }
  }
}
