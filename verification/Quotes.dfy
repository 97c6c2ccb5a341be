/**
 The client-side integer quotes: constant-product output with the fee taken from
 the input, slippage minimums, LP minted and paid out, and the LP vault quotes.
 `None` stands for a thrown RangeError or Error.
 */
module Quotes {
  import opened Words
  import opened Options

  /** The custody pool templates; v1..v7 are retired and not modelled. */
  datatype Version = V8 | V9 | V10 | V11

  /** Exclusive bound on amounts and reserves: 2^64 for v8 / v9, 2^128 from v10 on. */
  function Limit(v: Version): int {
    if v == V8 || v == V9 then U64 else U128
  }

  /** v11 binds the account that sets the pair as fee admin; the deployed v8 to v10 bytecode does not. */
  predicate BindsAdmin(v: Version) {
    v == V11
  }

  /** From v9 on a swap returns its output amount. */
  predicate ReturnsOut(v: Version) {
    v != V8
  }

  const BPS: int := 10_000
  const DEFAULT_FEE: int := 30

  function EffectiveFee(stored: int): int {
    if stored == 0 then DEFAULT_FEE else stored
  }

  function AfterFee(amountIn: int, fee: int): int {
    amountIn * (BPS - fee) / BPS
  }

  /** Fee-on-input constant product, both roundings down. */
  function AmountOut(reserveIn: int, reserveOut: int, amountIn: int, fee: int): int {
    var net := AfterFee(amountIn, fee);
    if net == 0 || reserveIn + net == 0 then 0
    else reserveOut * net / (reserveIn + net)
  }

  function QuoteAmountOut(v: Version, reserveIn: int, reserveOut: int, amountIn: int, fee: int): Option<int> {
    if   (0 <= reserveIn < Limit(v) && 0 <= reserveOut < Limit(v) && 0 <= amountIn < Limit(v))
      && 0 <= fee <= BPS
    then Some(AmountOut(reserveIn, reserveOut, amountIn, fee))
    else None
  }

  lemma AfterFeeBounds(amountIn: int, fee: int)
    requires 0 <= amountIn && 0 <= fee <= BPS
    ensures 0 <= AfterFee(amountIn, fee) <= amountIn
  {
    MulNonneg(amountIn, BPS - fee);
    MulMono(BPS - fee, BPS, amountIn);
  }

  /** A trade never drains the output reserve and never shrinks the reserve product. */
  lemma OutKeepsProduct(ri: int, ro: int, ain: int, fee: int)
    requires 0 < ri && 0 < ro && 0 <= ain && 0 <= fee <= BPS
    ensures 0 <= AmountOut(ri, ro, ain, fee) < ro
    ensures ri * ro <= (ri + ain) * (ro - AmountOut(ri, ro, ain, fee))
  {
    AfterFeeBounds(ain, fee);
    var net := AfterFee(ain, fee);
    var out := AmountOut(ri, ro, ain, fee);
    MulNonneg(ro, net);
    DivBounds(ro * net, ri + net);
    if ro <= out && net != 0 {
      MulMono(ro, out, ri + net);
      MulPos(ro, ri);
    }
    assert (ri + net) * (ro - out) == ri * ro + ro * net - out * (ri + net);
    MulMono(ri + net, ri + ain, ro - out);
  }

  /** A larger input never yields a smaller output. */
  lemma OutMonotone(ri: int, ro: int, x: int, y: int, fee: int)
    requires 0 <= ri && 0 <= ro && 0 <= x <= y && 0 <= fee <= BPS
    ensures AmountOut(ri, ro, x, fee) <= AmountOut(ri, ro, y, fee)
  {
    AfterFeeBounds(x, fee);
    AfterFeeMonotone(x, y, fee);
    var m, n := AfterFee(x, fee), AfterFee(y, fee);
    hide AfterFee;
    MulNonneg(ro, n);
    if m != 0 {
      ShareMonotone(ri, ro, m, n);
    } else if n != 0 {
      DivBounds(ro * n, ri + n);
    }
  }

  lemma AfterFeeMonotone(x: int, y: int, fee: int)
    requires 0 <= x <= y && 0 <= fee <= BPS
    ensures AfterFee(x, fee) <= AfterFee(y, fee)
  {
    MulMono(x, y, BPS - fee);
  }

  /** ro * m / (ri + m) grows with m. */
  lemma ShareMonotone(ri: int, ro: int, m: int, n: int)
    requires 0 <= ri && 0 <= ro && 0 < m <= n
    ensures ro * m / (ri + m) <= ro * n / (ri + n)
  {
    var q := ro * m / (ri + m);
    DivBounds(ro * m, ri + m);
    MulMono(m, ri + m, ro);
    MulCancel(q, ro, ri + m);
    MulMono(q, ro, n - m);
    assert q * (ri + n) == q * (ri + m) + q * (n - m);
    assert ro * n == ro * m + ro * (n - m);
    DivLargest(q, ro * n, ri + n);
  }

  // ---- slippage minimum ----

  function MinOutWithSlippage(quote: int, slippage: int): Option<int> {
    if !(0 <= slippage <= BPS) then None
    else
      var m := quote * (BPS - slippage) / BPS;
      Some(if m < 1 then 1 else m)
  }

  /** m is what is left of x after giving up `slippage` ten-thousandths of it, rounded down. */
  predicate LeftAfter(x: int, slippage: int, m: int) {
    m * 10_000 <= x * (10_000 - slippage) < (m + 1) * 10_000
  }

  /** No more than the slippage is given up: the minimum is the part of the quote that is left, but never below 1. */
  lemma MinOutIsAttainable(quote: int, slippage: int)
    requires 1 <= quote
    ensures MinOutWithSlippage(quote, slippage).Some? <==> 0 <= slippage <= 10_000
    ensures 0 <= slippage <= 10_000 ==>
              var m := MinOutWithSlippage(quote, slippage).value;
              1 <= m <= quote && (LeftAfter(quote, slippage, m) || (m == 1 && LeftAfter(quote, slippage, 0)))
  {
    if 0 <= slippage <= 10_000 {
      PartIsLeft(quote, slippage);
      MulMono(BPS - slippage, BPS, quote);
    }
  }

  lemma PartIsLeft(x: int, slippage: int)
    requires 0 <= x && 0 <= slippage <= BPS
    ensures LeftAfter(x, slippage, x * (BPS - slippage) / BPS)
    ensures 0 <= x * (BPS - slippage) / BPS <= x
  {
    MulNonneg(x, BPS - slippage);
    MulMono(BPS - slippage, BPS, x);
  }

  // ---- integer square root ----

  /** Reference definition, one unit at a time. */
  function Isqrt(y: nat): (z: nat)
    ensures z * z <= y < (z + 1) * (z + 1)
  {
    if y == 0 then 0
    else
      var r := Isqrt(y - 1);
      if (r + 1) * (r + 1) <= y then r + 1 else r
  }

  lemma IsqrtUnique(y: nat, z: nat)
    requires z * z <= y < (z + 1) * (z + 1)
    ensures z == Isqrt(y)
  {
    var r := Isqrt(y);
    if z < r { MulBoth(z + 1, z + 1, r, r); }
    if r < z { MulBoth(r + 1, r + 1, z, z); }
  }

  /** A Newton step from any positive point stays at or above the root. */
  lemma NewtonStaysAbove(y: nat, x: int, root: nat)
    requires 0 < x && root * root <= y
    ensures root <= (y / x + x) / 2
  {
    assert (2 * root - x) * x <= root * root by {
      SquareNonneg(root - x);
      assert (root - x) * (root - x) == root * root - (2 * root - x) * x;
    }
    DivLargest(2 * root - x, y, x);
    var q := y / x;
    assert 2 * root - x <= q;
  }

  lemma SquareNonneg(x: int)
    ensures 0 <= x * x
  {
  }

  /** The loop's first candidate is above the root too, and below y. */
  lemma FirstCandidate(y: nat, root: nat)
    requires 4 <= y && root * root <= y
    ensures root <= y / 2 + 1 < y
  {
    SquareNonneg(root - 1);
    assert (root - 1) * (root - 1) == root * root - 2 * root + 1;
  }

  /** A point at or above the root from which a Newton step does not descend is the root. */
  lemma NoProgressMeansRoot(y: nat, z: int, root: nat)
    requires 0 < z && z <= (y / z + z) / 2
    requires root * root <= y < (root + 1) * (root + 1) && root <= z
    ensures z == root
  {
    var q := y / z;
    assert z <= q;
    DivBounds(y, z);
    MulMono(z, q, z);
    if root < z { MulBoth(root + 1, root + 1, z, z); }
  }

  /** The Babylonian loop; its first candidate y / 2 + 1 is not a Newton step of z = y. */
  method BabylonianIsqrt(y: int) returns (r: Option<nat>)
    ensures r == if y < 0 then None else Some(Isqrt(y))
  {
    if y < 0 { return None; }
    if y == 0 { return Some(0); }
    if y <= 3 {
      IsqrtUnique(y, 1);
      return Some(1);
    }
    var z, x := y, y / 2 + 1;
    ghost var root := Isqrt(y);
    assert 0 < root;
    FirstCandidate(y, root);
    while x < z
      invariant 0 < root <= x && root <= z
      invariant x < z || x == (y / z + z) / 2
      decreases z
    {
      z := x;
      x := y / x + x;
      x := x / 2;
      NewtonStaysAbove(y, z, root);
    }
    NoProgressMeansRoot(y, z, root);
    r := Some(z);
  }

  // ---- LP minted and paid out ----

  function ProRata(ra: int, rb: int, totalLp: int, a: int, b: int): int
    requires ra != 0 && rb != 0
  {
    Min(a * totalLp / ra, b * totalLp / rb)
  }

  function LpMinted(ra: int, rb: int, totalLp: int, a: int, b: int): int {
    if a == 0 || b == 0 then 0
    else if totalLp == 0 then Min(a, b)
    else if ra == 0 || rb == 0 then 0
    else ProRata(ra, rb, totalLp, a, b)
  }

  function LpMintedV11(ra: int, rb: int, totalLp: int, a: int, b: int): int {
    if a == 0 || b == 0 then 0
    else if totalLp == 0 then if a * b < 0 then 0 else Isqrt(a * b)
    else if ra == 0 || rb == 0 then 0
    else ProRata(ra, rb, totalLp, a, b)
  }

  function RemoveAmounts(ra: int, rb: int, totalLp: int, burn: int): (int, int) {
    if totalLp == 0 then (0, 0)
    else (burn * ra / totalLp, burn * rb / totalLp)
  }

  // ---- LP vault quotes ----

  datatype DepositQuote = DepositQuote(amountA: int, amountB: int, shares: int, minShares: int)

  function VaultDepositQuote(ra: int, rb: int, totalLp: int, amountA: int, slippage: int): Option<DepositQuote> {
    if amountA <= 0 || ra == 0 || rb == 0 || totalLp == 0 then None
    else
      var amountB := (amountA * rb + ra - 1) / ra;
      var shares := LpMinted(ra, rb, totalLp, amountA, amountB);
      if shares <= 0 then None
      else
        var m := shares * (BPS - slippage) / BPS;
        Some(DepositQuote(amountA, amountB, shares, if m < 1 then 1 else m))
  }

  /**
   The balanced deposit rounds side B up, so side A alone decides the mint, and
   the minimum it asks for is one the pool will meet. It is rejected exactly when
   side A is worth less than one LP unit.
   */
  lemma VaultDepositIsBalanced(ra: int, rb: int, totalLp: int, amountA: int, slippage: int)
    requires 0 < ra && 0 < rb && 0 < totalLp && 0 < amountA && 0 <= slippage <= BPS
    ensures var q := VaultDepositQuote(ra, rb, totalLp, amountA, slippage);
            && (q.Some? <==> ra <= amountA * totalLp)
            && (q.Some? ==>
                  && q.value.shares == amountA * totalLp / ra
                  && 1 <= q.value.minShares <= q.value.shares
                  && (LeftAfter(q.value.shares, slippage, q.value.minShares)
                      || (q.value.minShares == 1 && LeftAfter(q.value.shares, slippage, 0)))
                  && q.value.amountA == amountA && 0 < q.value.amountB
                  // B is the least amount not below the pool's ratio
                  && amountA * rb <= q.value.amountB * ra < amountA * rb + ra)
  {
    var amountB := BalancedSide(ra, rb, amountA);
    SideADecides(ra, rb, totalLp, amountA, amountB);
    var x := amountA * totalLp / ra;
    AtLeastOne(amountA * totalLp, ra);
    if 1 <= x {
      PartIsLeft(x, slippage);
    }
    hide LeftAfter;
  }

  lemma AtLeastOne(n: int, d: int)
    requires 0 <= n && 0 < d
    ensures 1 <= n / d <==> d <= n
  {
    DivBounds(n, d);
    if d <= n { DivLargest(1, n, d); }
    if 1 <= n / d { MulMono(1, n / d, d); }
  }

  lemma BalancedSide(ra: int, rb: int, amountA: int) returns (amountB: int)
    requires 0 < ra && 0 < rb && 0 < amountA
    ensures amountB == (amountA * rb + ra - 1) / ra
    ensures 0 < amountB && amountA * rb <= amountB * ra < amountA * rb + ra
  {
    MulPos(amountA, rb);
    var n := amountA * rb + ra - 1;
    amountB := n / ra;
    DivBounds(n, ra);
    if amountB <= 0 { MulMono(amountB, 0, ra); }
  }

  lemma SideADecides(ra: int, rb: int, totalLp: int, amountA: int, amountB: int)
    requires 0 < ra && 0 < rb && 0 < totalLp && 0 < amountA
    requires amountA * rb <= amountB * ra
    ensures 0 < amountA * totalLp
    ensures amountA * totalLp / ra <= amountB * totalLp / rb
  {
    MulPos(amountA, totalLp);
    var x := amountA * totalLp / ra;
    DivBounds(amountA * totalLp, ra);
    CrossBound(x, amountA, amountB, totalLp, ra, rb);
    DivLargest(x, amountB * totalLp, rb);
  }

  lemma CrossBound(x: int, a: int, b: int, t: int, ra: int, rb: int)
    requires 0 < t && 0 < ra && 0 < rb && x * ra <= a * t && a * rb <= b * ra
    ensures x * rb <= b * t
  {
    MulMono(x * ra, a * t, rb);
    MulMono(a * rb, b * ra, t);
    SwapFactors(x, ra, rb);
    SwapFactors(a, t, rb);
    SwapFactors(b, ra, t);
    MulCancel(x * rb, b * t, ra);
  }

  lemma SwapFactors(x: int, y: int, z: int)
    ensures x * y * z == x * z * y
  {
  }

  datatype WithdrawQuote = WithdrawQuote(outA: int, outB: int, minA: int, minB: int)

  function VaultWithdrawQuote(ra: int, rb: int, totalLp: int, shares: int, slippage: int): WithdrawQuote
    requires totalLp != 0
  {
    var a, b := shares * ra / totalLp, shares * rb / totalLp;
    WithdrawQuote(a, b, a * (BPS - slippage) / BPS, b * (BPS - slippage) / BPS)
  }

  // ---- what the client has a quote for ----

  /** A pool that stores no fee charges 0.3%: of every 10000 units of input 9970 are traded. */
  lemma DefaultFeeQuote(ri: int, ro: int, ain: int)
    requires 0 < ri && 0 < ro && 0 <= ain
    ensures var net, out := ain * 9_970 / 10_000, AmountOut(ri, ro, ain, EffectiveFee(0));
            out * (ri + net) <= ro * net < (out + 1) * (ri + net)
  {
    var net := ain * 9_970 / 10_000;
    assert net == AfterFee(ain, EffectiveFee(0));
    QuotientBounds(ro * net, ri + net);
  }

  lemma QuotientBounds(n: int, d: int)
    requires 0 < d
    ensures n / d * d <= n < (n / d + 1) * d
  {
    DivBounds(n, d);
  }
}
