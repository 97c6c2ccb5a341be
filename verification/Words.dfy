/**
 256-bit machine words of the Boing VM, and the small stock of nonlinear facts
 that the pool arithmetic needs.
 */
module Words {

  /** How many values n bytes hold. */
  function Pow256(n: nat): (p: int)
    ensures p >= 1
  {
    if n == 0 then 1 else 256 * Pow256(n - 1)
  }

  // The zero of each integer type as it is stored, one element per byte: its length is the type's
  // width. Written this way a bound is a power the proofs can name, not a number of up to 78 digits.

  const ZERO_U64: seq<int> := [0, 0, 0, 0, 0, 0, 0, 0]
  const ZERO_U128: seq<int> := ZERO_U64 + ZERO_U64
  const ZERO_WORD: seq<int> := ZERO_U128 + ZERO_U128

  const U64: int := Pow256(|ZERO_U64|)
  const U128: int := Pow256(|ZERO_U128|)
  const WORD: int := Pow256(|ZERO_WORD|)

  lemma {:induction false} Pow256Adds(m: nat, n: nat)
    ensures Pow256(m + n) == Pow256(m) * Pow256(n)
  {
    if m > 0 {
      Pow256Adds(m - 1, n);
      var p, q := Pow256(m - 1), Pow256(n);
      assert Pow256(m + n) == 256 * Pow256(m - 1 + n);
      assert 256 * (p * q) == (256 * p) * q;
    }
  }

  lemma Pow256Of1()
    ensures Pow256(1) == 256
  {
  }

  lemma Pow256Of4()
    ensures Pow256(4) == 0x1_0000_0000
  {
  }

  /** How the widths relate. */
  lemma Widths()
    ensures 0x1_0000_0000 <= U64
    ensures U64 * U64 == U128 && U128 * U128 == WORD
    ensures 0x1_0000_0000 * U64 <= U128 && 0x1_0000_0000 * U128 <= WORD
  {
    hide Pow256;
    Pow256Of4();
    Pow256Adds(4, 4);
    Pow256Adds(|ZERO_U64|, |ZERO_U64|);
    Pow256Adds(|ZERO_U128|, |ZERO_U128|);
    Doubled(Pow256(4), U64, U128, WORD);
  }

  /** The same order without products of widths. */
  lemma WidthOrder()
    ensures 0x1_0000_0000 <= U64 && 0x1_0000_0000 * U64 <= U128 && 0x1_0000_0000 * U128 <= WORD
  {
    Widths();
  }

  lemma Doubled(a: int, b: int, c: int, d: int)
    requires 1 <= a && b == a * a && c == b * b && d == c * c
    ensures a <= b && a * b <= c && a * c <= d
  {
    MulMono(1, a, a);
    MulMono(1, b, b);
    MulMono(a, b, b);
    MulMono(b, c, c);
    MulMono(a, c, c);
  }

  type Word = x: int | 0 <= x < WORD

  // VM arithmetic wraps modulo 2^256; division by zero is a fault and is guarded at each use.

  function WAdd(x: Word, y: Word): Word {
    if x + y < WORD then x + y else x + y - WORD
  }

  function WSub(x: Word, y: Word): Word {
    if y <= x then x - y else x - y + WORD
  }

  function WMul(x: Word, y: Word): Word {
    (x * y) % WORD
  }

  function WDiv(x: Word, y: Word): Word
    requires y != 0
  {
    QuotientIsWord(x, y);
    x / y
  }

  lemma QuotientIsWord(n: Word, d: int)
    requires 0 < d
    ensures 0 <= n / d < WORD
  {
    DivBounds(n, d);
    if WORD <= n / d { MulMono(1, d, n / d); }
  }

  function Min(x: int, y: int): int {
    if x < y then x else y
  }

  lemma AddExact(x: Word, y: Word)
    ensures x + y < WORD ==> WAdd(x, y) == x + y
    ensures WAdd(x, y) < x <==> x + y >= WORD
  {
  }

  lemma SubExact(x: Word, y: Word)
    requires y <= x
    ensures WSub(x, y) == x - y
  {
  }

  /** Wrapping once is reduction modulo 2^256. */
  lemma WrapsModuloWord(x: Word, y: Word)
    ensures WAdd(x, y) == (x + y) % WORD && WSub(x, y) == (x - y) % WORD
  {
    RemainderIsUnique(x + y, WORD, if x + y < WORD then 0 else 1, WAdd(x, y));
    RemainderIsUnique(x - y, WORD, if y <= x then 0 else -1, WSub(x, y));
  }

  lemma MulExact(x: Word, y: Word, bound: int)
    requires x < bound && y < bound && bound <= U128
    ensures WMul(x, y) == x * y
  {
    MulLess(x, y, bound);
    Widths();
    MulMono(bound, U128, bound);
    MulMono(bound, U128, U128);
    RemainderIsUnique(x * y, WORD, 0, x * y);
  }

  lemma MulLess(x: int, y: int, bound: int)
    requires 0 <= x < bound && 0 <= y < bound
    ensures 0 <= x * y < bound * bound
  {
    MulMono(x, bound - 1, y);
    MulMono(y, bound - 1, bound - 1);
    assert (bound - 1) * (bound - 1) == bound * bound - 2 * bound + 1;
  }

  lemma MulMono(x: int, y: int, z: int)
    requires x <= y && 0 <= z
    ensures x * z <= y * z
    ensures z * x <= z * y
  {
    assert 0 <= (y - x) * z;
  }

  lemma MulNonneg(x: int, y: int)
    requires 0 <= x && 0 <= y
    ensures 0 <= x * y
  {
  }

  lemma MulPos(x: int, y: int)
    requires 0 < x && 0 < y
    ensures 0 < x * y
  {
  }

  /** Cancelling a positive factor. */
  lemma MulCancel(x: int, y: int, z: int)
    requires 0 < z && x * z <= y * z
    ensures x <= y
  {
    if y < x {
      MulPos(x - y, z);
    }
  }

  /** Euclidean division by a positive divisor, as two inequalities. */
  lemma DivBounds(n: int, d: int)
    requires 0 < d
    ensures n / d * d <= n < n / d * d + d
    ensures d * (n / d) <= n
    ensures 0 <= n ==> 0 <= n / d
  {
    assert n == d * (n / d) + n % d;
    if 0 <= n && n / d < 0 {
      MulMono(n / d, -1, d);
    }
  }

  /** The quotient is the largest q with q * d <= n. */
  lemma DivLargest(q: int, n: int, d: int)
    requires 0 < d && q * d <= n
    ensures q <= n / d
  {
    DivBounds(n, d);
    if n / d < q {
      MulMono(n / d + 1, q, d);
    }
  }

  /** Products of two componentwise-dominated pairs. */
  lemma MulBoth(a: int, b: int, c: int, d: int)
    requires 0 <= a <= c && 0 <= b <= d
    ensures a * b <= c * d
  {
    MulMono(a, c, b);
    MulMono(b, d, c);
  }

  lemma RemainderIsUnique(n: int, d: int, q: int, r: int)
    requires d >= 1 && 0 <= r < d && n == d * q + r
    ensures n % d == r
  {
    var q', r' := n / d, n % d;
    assert n == d * q' + r';
    NoLargerQuotient(d, q, r, q', r');
    NoLargerQuotient(d, q', r', q, r);
  }

  lemma NoLargerQuotient(d: int, q: int, r: int, q': int, r': int)
    requires d >= 1 && 0 <= r < d && 0 <= r' && d * q + r == d * q' + r'
    ensures q' <= q
  {
    assert d * (q + 1) == d * q + d;
    if q + 1 <= q' {
      MulMono(q + 1, q', d);
    }
  }
}
