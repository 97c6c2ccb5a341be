/**
 One pool's storage and its three pricing steps, with exact integers. `None` is a
 fault. The token movements that go with each step are in module World; the form
 on storage slots, with words that wrap modulo 2^256, is in module PoolStorage.
 */
module Curve {
  import opened Words
  import opened Options
  import opened Balances
  import opened Quotes

  datatype Pool = Pool(
    version: Version,
    configured: bool, tokenA: Id, tokenB: Id,
    ra: int, rb: int, t: int,
    fee: int, feeAdmin: Id,
    lp: map<Id, int>)

  function FirstMint(v: Version, a: nat, b: nat): int {
    if v == V11 then Isqrt(a * b) else Min(a, b)
  }

  function LpFor(s: Pool, a: nat, b: nat): int
    requires s.t != 0 ==> s.ra != 0 && s.rb != 0
  {
    if s.t == 0 then FirstMint(s.version, a, b) else ProRata(s.ra, s.rb, s.t, a, b)
  }

  function Add(s: Pool, caller: Id, a: nat, b: nat, min: nat): Option<(Pool, int)> {
    var lim := Limit(s.version);
    if   !s.configured || a == 0 || b == 0 || a >= lim || b >= lim
      || s.ra + a >= lim || s.rb + b >= lim
      || (s.t != 0 && (s.ra == 0 || s.rb == 0)) then None
    else
      var lp := LpFor(s, a, b);
      if lp == 0 || lp < min || (lim == U128 && s.t + lp >= lim) then None
      else Some((s.(ra := s.ra + a, rb := s.rb + b, t := s.t + lp,
                    fee := if s.t == 0 then EffectiveFee(s.fee) else s.fee,
                    lp := s.lp[caller := Get(s.lp, caller) + lp]),
                 lp))
  }

  function Remove(s: Pool, caller: Id, burn: nat, minA: nat, minB: nat): Option<(Pool, int, int)> {
    if burn == 0 || Get(s.lp, caller) < burn || s.t == 0 then None
    else
      var outA, outB := burn * s.ra / s.t, burn * s.rb / s.t;
      if outA < minA || outB < minB || (outA == 0 && outB == 0) then None
      else Some((s.(ra := s.ra - outA, rb := s.rb - outB, t := s.t - burn,
                    lp := s.lp[caller := Get(s.lp, caller) - burn]),
                 outA, outB))
  }

  function ReserveIn(s: Pool, dir: nat): int {
    if dir == 0 then s.ra else s.rb
  }

  function ReserveOut(s: Pool, dir: nat): int {
    if dir == 0 then s.rb else s.ra
  }

  function TokenIn(s: Pool, dir: nat): Id {
    if dir == 0 then s.tokenA else s.tokenB
  }

  function TokenOut(s: Pool, dir: nat): Id {
    if dir == 0 then s.tokenB else s.tokenA
  }

  function WithReserves(s: Pool, dir: nat, ri: int, ro: int): Pool {
    if dir == 0 then s.(ra := ri, rb := ro) else s.(ra := ro, rb := ri)
  }

  function Swap(s: Pool, dir: nat, ain: nat, min: nat): Option<(Pool, int)> {
    var ri, ro, lim, fee := ReserveIn(s, dir), ReserveOut(s, dir), Limit(s.version), EffectiveFee(s.fee);
    if   !s.configured || dir > 1 || ain == 0 || ri == 0 || ro == 0
      || ain >= lim || ri + ain >= lim || fee > BPS then None
    else
      var net := AfterFee(ain, fee);
      if net == 0 || ri + net == 0 then None
      else
        var out := ro * net / (ri + net);
        if out == 0 || out < min then None
        else Some((WithReserves(s, dir, ri + ain, ro - out), out))
  }

  // ---- what every step keeps ----

  /** Reserves and LP supply of every reachable pool. */
  ghost predicate PoolOk(s: Pool) {
    && 0 <= s.ra < Limit(s.version) && 0 <= s.rb < Limit(s.version) && 0 <= s.t
    && s.t * s.t <= s.ra * s.rb
    && (s.t == 0 <==> s.ra == 0) && (s.t == 0 <==> s.rb == 0)
    && Nonneg(s.lp) && Sum(s.lp) == s.t
    && 0 <= s.fee <= BPS
    && (s.configured ==> s.tokenA != s.tokenB)
    && (0 < s.t ==> s.configured)
  }

  /** reserveA * reserveB / totalLp^2 does not decrease from s to s', cross-multiplied. */
  ghost predicate Grows(s: Pool, s': Pool) {
    s.ra * s.rb * (s'.t * s'.t) <= s'.ra * s'.rb * (s.t * s.t)
  }

  /** The LP supply stays below the reserve limit even where no code checks it (v8 / v9). */
  lemma SupplyBelowLimit(s: Pool)
    requires PoolOk(s)
    ensures s.t < Limit(s.version)
  {
    var lim := Limit(s.version);
    MulLess(s.ra, s.rb, lim);
    if lim <= s.t { MulBoth(lim, lim, s.t, s.t); }
  }

  /** (T * x' and T' * x compared on both sides) gives growth of the product per LP^2. */
  lemma GrowsFromSides(ra: int, rb: int, t: int, ra': int, rb': int, t': int)
    requires 0 <= ra && 0 <= rb && 0 <= t && 0 <= ra' && 0 <= rb' && 0 <= t'
    requires t' * ra <= t * ra' && t' * rb <= t * rb'
    ensures ra * rb * (t' * t') <= ra' * rb' * (t * t)
  {
    MulNonneg(t', ra);
    MulNonneg(t', rb);
    MulBoth(t' * ra, t' * rb, t * ra', t * rb');
    assert t' * ra * (t' * rb) == ra * rb * (t' * t') by { Rearrange(t', ra, rb); }
    assert t * ra' * (t * rb') == ra' * rb' * (t * t) by { Rearrange(t, ra', rb'); }
  }

  lemma Rearrange(t: int, x: int, y: int)
    ensures t * x * (t * y) == x * y * (t * t)
  {
    assert t * x * (t * y) == x * y * (t * t);
  }

  /** Growth carries T^2 <= reserveA * reserveB forward. */
  lemma GrowsKeepsBound(ra: int, rb: int, t: int, ra': int, rb': int, t': int)
    requires 0 < t && t * t <= ra * rb
    requires ra * rb * (t' * t') <= ra' * rb' * (t * t)
    ensures t' * t' <= ra' * rb'
  {
    SquareNonneg(t');
    MulMono(t * t, ra * rb, t' * t');
    assert t * t * (t' * t') == t' * t' * (t * t);
    MulPos(t, t);
    MulCancel(t' * t', ra' * rb', t * t);
  }

  lemma FirstMintBound(v: Version, a: nat, b: nat)
    requires 0 < a && 0 < b
    ensures FirstMint(v, a, b) * FirstMint(v, a, b) <= a * b
    ensures 0 < FirstMint(v, a, b)
  {
    MulPos(a, b);
    var m := Min(a, b);
    MulBoth(m, m, a, b);
  }

  /** In a sound state the client's LP quote is what the pool mints; its zero-reserve branch is never taken. */
  lemma MintMatchesQuote(s: Pool, a: nat, b: nat)
    requires PoolOk(s) && 0 < a && 0 < b
    ensures 0 < s.t ==> 0 < s.ra && 0 < s.rb
    ensures LpFor(s, a, b) == if s.version == V11 then LpMintedV11(s.ra, s.rb, s.t, a, b) else LpMinted(s.ra, s.rb, s.t, a, b)
  {
    MulPos(a, b);
  }

  /** Each deposited side covers its share of the mint. */
  lemma ProRataSides(ra: int, rb: int, t: int, a: int, b: int)
    requires 0 < ra && 0 < rb && 0 < t && 0 <= a && 0 <= b
    ensures var lp := ProRata(ra, rb, t, a, b);
            0 <= lp && lp * ra <= a * t && lp * rb <= b * t
  {
    var lp := ProRata(ra, rb, t, a, b);
    MulNonneg(a, t);
    MulNonneg(b, t);
    DivBounds(a * t, ra);
    DivBounds(b * t, rb);
    MulMono(lp, a * t / ra, ra);
    MulMono(lp, b * t / rb, rb);
  }

  lemma MintSide(r: int, t: int, x: int, lp: int)
    requires lp * r <= x * t
    ensures (t + lp) * r <= t * (r + x)
  {
    assert (t + lp) * r == t * r + lp * r;
    assert t * (r + x) == t * r + x * t;
  }

  lemma AddGrows(s: Pool, caller: Id, a: nat, b: nat, min: nat)
    requires PoolOk(s) && Add(s, caller, a, b, min).Some?
    ensures var s' := Add(s, caller, a, b, min).value.0;
            0 < s'.t - s.t && s'.t * s'.t <= s'.ra * s'.rb && Grows(s, s')
  {
    var s', lp := Add(s, caller, a, b, min).value.0, Add(s, caller, a, b, min).value.1;
    assert s'.ra == s.ra + a && s'.rb == s.rb + b && s'.t == s.t + lp && lp == LpFor(s, a, b) && 0 < lp;
    hide Add, Limit;
    if s.t == 0 {
      FirstMintBound(s.version, a, b);
    } else {
      ProRataSides(s.ra, s.rb, s.t, a, b);
      MintSide(s.ra, s.t, a, lp);
      MintSide(s.rb, s.t, b, lp);
      GrowsFromSides(s.ra, s.rb, s.t, s'.ra, s'.rb, s'.t);
      GrowsKeepsBound(s.ra, s.rb, s.t, s'.ra, s'.rb, s'.t);
    }
  }

  lemma AddKeeps(s: Pool, caller: Id, a: nat, b: nat, min: nat)
    requires PoolOk(s) && Add(s, caller, a, b, min).Some?
    ensures PoolOk(Add(s, caller, a, b, min).value.0)
    ensures Grows(s, Add(s, caller, a, b, min).value.0)
  {
    AddGrows(s, caller, a, b, min);
    SumUpdate(s.lp, caller, Get(s.lp, caller) + Add(s, caller, a, b, min).value.1);
  }

  /** What is left after a pro-rata burn is at least the remaining holders' part. */
  lemma BurnSide(r: int, t: int, burn: int)
    requires 0 < r && 0 < burn <= t
    ensures var out := burn * r / t;
            0 <= out <= r && (t - burn) * r <= t * (r - out) && (out == r <==> burn == t)
  {
    var n, out := burn * r, burn * r / t;
    MulPos(burn, r);
    DivBounds(n, t);
    assert (t - burn) * r == t * r - n;
    assert t * (r - out) == t * r - out * t;
    if burn == t {
      DivLargest(r, n, t);
    } else {
      MulPos(t - burn, r);
    }
    MulMono(burn, t, r);
    AtMostFactor(out, r, t);
  }

  lemma AtMostFactor(x: int, y: int, t: int)
    requires 0 < t && x * t <= t * y
    ensures x <= y
  {
    MulCancel(x, y, t);
  }

  lemma RemoveKeeps(s: Pool, caller: Id, burn: nat, minA: nat, minB: nat)
    requires PoolOk(s) && Remove(s, caller, burn, minA, minB).Some?
    ensures PoolOk(Remove(s, caller, burn, minA, minB).value.0)
    ensures Grows(s, Remove(s, caller, burn, minA, minB).value.0)
  {
    var s' := Remove(s, caller, burn, minA, minB).value.0;
    EntryAtMostSum(s.lp, caller);
    BurnSide(s.ra, s.t, burn);
    BurnSide(s.rb, s.t, burn);
    GrowsFromSides(s.ra, s.rb, s.t, s'.ra, s'.rb, s'.t);
    GrowsKeepsBound(s.ra, s.rb, s.t, s'.ra, s'.rb, s'.t);
    SumUpdate(s.lp, caller, Get(s.lp, caller) - burn);
  }

  lemma SwapOut(s: Pool, dir: nat, ain: nat, min: nat)
    requires PoolOk(s) && Swap(s, dir, ain, min).Some?
    ensures var out := Swap(s, dir, ain, min).value.1;
            && out == AmountOut(ReserveIn(s, dir), ReserveOut(s, dir), ain, EffectiveFee(s.fee))
            && 0 < out < ReserveOut(s, dir)
            && s.ra * s.rb <= (ReserveIn(s, dir) + ain) * (ReserveOut(s, dir) - out)
  {
    OutKeepsProduct(ReserveIn(s, dir), ReserveOut(s, dir), ain, EffectiveFee(s.fee));
  }

  /**
   Exactly when a swap goes through, in terms of the client's quote at the fee in
   force: 0.3% where none is stored. The ledger of a v8 or v9 pool is 64 bits
   wide, from v10 on 128.
   */
  lemma SwapIff(s: Pool, dir: nat, ain: nat, min: nat)
    requires s.configured && dir <= 1 && s.fee <= 10_000
    ensures var fee := if s.fee == 0 then 30 else s.fee;
            var lim := if s.version.V8? || s.version.V9? then U64 else U128;
            var ri, q := ReserveIn(s, dir), AmountOut(ReserveIn(s, dir), ReserveOut(s, dir), ain, fee);
            && (Swap(s, dir, ain, min).Some? <==>
                  && ain != 0 && ri != 0 && ReserveOut(s, dir) != 0 && ri + ain < lim && ain < lim
                  && q != 0 && min <= q)
            && (Swap(s, dir, ain, min).Some? ==> Swap(s, dir, ain, min).value.1 == q)
  {
    hide AfterFee;
  }

  /** Exactly when a deposit goes through from a sound state, in terms of the client's quote and the width of the ledger. */
  lemma AddIff(s: Pool, caller: Id, a: nat, b: nat, min: nat)
    requires PoolOk(s) && 0 < a && 0 < b
    ensures var wide := s.version.V10? || s.version.V11?;
            var lim, r := if wide then U128 else U64, Add(s, caller, a, b, min);
            var q := if s.version.V11? then LpMintedV11(s.ra, s.rb, s.t, a, b) else LpMinted(s.ra, s.rb, s.t, a, b);
            && (r.Some? <==>
                  && s.configured && s.ra + a < lim && s.rb + b < lim
                  && 0 < q && min <= q && (wide ==> s.t + q < lim))
            && (r.Some? ==> r.value.1 == q)
  {
    WidthOrder();
    MintMatchesQuote(s, a, b);
    if s.t == 0 {
      FirstMintBound(s.version, a, b);
    } else {
      ProRataSides(s.ra, s.rb, s.t, a, b);
    }
  }

  /** Exactly when a burn goes through from a sound state: the pool's both-outputs-zero check never decides. */
  lemma RemoveIff(s: Pool, caller: Id, burn: nat, minA: nat, minB: nat)
    requires PoolOk(s) && 0 < s.t
    ensures var r, (a, b) := Remove(s, caller, burn, minA, minB), RemoveAmounts(s.ra, s.rb, s.t, burn);
            && (r.Some? <==> 0 < burn <= Get(s.lp, caller) && minA <= a && minB <= b)
            && (r.Some? ==> r.value.1 == a && r.value.2 == b)
  {
    if 0 < burn <= Get(s.lp, caller) {
      ExitIsOpen(s, caller, burn);
    }
  }

  lemma SwapKeeps(s: Pool, dir: nat, ain: nat, min: nat)
    requires PoolOk(s) && Swap(s, dir, ain, min).Some?
    ensures PoolOk(Swap(s, dir, ain, min).value.0)
    ensures Grows(s, Swap(s, dir, ain, min).value.0)
    ensures Swap(s, dir, ain, min).value.0.t == s.t
  {
    SwapOut(s, dir, ain, min);
    var s' := Swap(s, dir, ain, min).value.0;
    MulCommutes(s'.ra, s'.rb);
    SameSupplyGrows(s.ra * s.rb, s'.ra * s'.rb, s.t);
  }

  lemma MulCommutes(x: int, y: int)
    ensures x * y == y * x
  {
  }

  lemma SameSupplyGrows(k: int, k': int, t: int)
    requires 0 <= k <= k' && 0 <= t
    ensures k * (t * t) <= k' * (t * t)
    ensures t * t <= k ==> t * t <= k'
  {
    SquareNonneg(t);
    MulMono(k, k', t * t);
  }

  // ---- consequences ----

  /** Growth composes as long as the supply in the middle is positive. */
  lemma GrowsTransitive(p: Pool, q: Pool, r: Pool)
    requires Grows(p, q) && Grows(q, r) && 0 < q.t
    requires 0 <= p.ra * p.rb && 0 <= r.ra * r.rb
    ensures Grows(p, r)
  {
    var kp, kq, kr := p.ra * p.rb, q.ra * q.rb, r.ra * r.rb;
    var tp, tq, tr := p.t * p.t, q.t * q.t, r.t * r.t;
    SquareNonneg(p.t);
    SquareNonneg(r.t);
    MulPos(q.t, q.t);
    calc <= {
      kp * tr * tq;
      { assert kp * tr * tq == kp * tq * tr; MulMono(kp * tq, kq * tp, tr); }
      kq * tp * tr;
      { assert kq * tp * tr == kq * tr * tp; MulMono(kq * tr, kr * tq, tp); }
      kr * tq * tp;
      { assert kr * tq * tp == kr * tp * tq; }
      kr * tp * tq;
    }
    MulCancel(kp * tr, kr * tp, tq);
  }

  /**
   A holder can always leave: burning any positive amount of their LP, with no
   minimums, never meets the both-outputs-zero fault, and burning the whole
   supply empties both reserves exactly.
   */
  lemma ExitIsOpen(s: Pool, caller: Id, burn: nat)
    requires PoolOk(s) && 0 < burn <= Get(s.lp, caller)
    ensures var r := Remove(s, caller, burn, 0, 0);
            && r.Some?
            && (burn <= r.value.1 || burn <= r.value.2)
            && (burn == s.t ==> r.value.1 == s.ra && r.value.2 == s.rb)
            && (burn < s.t ==> r.value.1 < s.ra && r.value.2 < s.rb)
  {
    EntryAtMostSum(s.lp, caller);
    BurnSide(s.ra, s.t, burn);
    BurnSide(s.rb, s.t, burn);
    LargerSide(s.ra, s.rb, s.t);
    if s.t <= s.ra {
      PaysAtLeastBurn(s.ra, s.t, burn);
    } else {
      PaysAtLeastBurn(s.rb, s.t, burn);
    }
  }

  lemma LargerSide(ra: int, rb: int, t: int)
    requires 0 < t && 0 <= ra && 0 <= rb && t * t <= ra * rb
    ensures t <= ra || t <= rb
  {
    assert (t - 1) * (t - 1) == t * t - 2 * t + 1;
    if ra < t && rb < t {
      MulBoth(ra, rb, t - 1, t - 1);
    }
  }

  lemma PaysAtLeastBurn(r: int, t: int, burn: int)
    requires 0 < t <= r && 0 < burn
    ensures burn <= burn * r / t
  {
    MulMono(t, r, burn);
    DivLargest(burn, burn * r, t);
  }

  /** Depositing and burning the minted LP at once returns at most what was deposited. */
  lemma AddThenRemoveNeverProfits(s: Pool, caller: Id, a: nat, b: nat, min: nat)
    requires PoolOk(s) && Add(s, caller, a, b, min).Some?
    ensures var (s', lp) := Add(s, caller, a, b, min).value;
            var r := Remove(s', caller, lp, 0, 0);
            && 0 < lp && r.Some? && r.value.1 <= a && r.value.2 <= b
            && r.value.0.t == s.t && Get(r.value.0.lp, caller) == Get(s.lp, caller)
            && (s.t == 0 ==> r.value.1 == a && r.value.2 == b)
  {
    var s', lp := Add(s, caller, a, b, min).value.0, Add(s, caller, a, b, min).value.1;
    AddGrows(s, caller, a, b, min);
    AddKeeps(s, caller, a, b, min);
    EntryAtMostSum(s.lp, caller);
    ExitIsOpen(s', caller, lp);
    if s.t != 0 {
      ProRataSides(s.ra, s.rb, s.t, a, b);
      ReturnedSide(s.ra, s.t, a, lp);
      ReturnedSide(s.rb, s.t, b, lp);
    }
  }

  lemma ReturnedSide(r: int, t: int, x: int, lp: int)
    requires 0 < t && 0 < lp && lp * r <= x * t
    ensures lp * (r + x) / (t + lp) <= x
  {
    var q := lp * (r + x) / (t + lp);
    DivBounds(lp * (r + x), t + lp);
    assert q * (t + lp) <= x * (t + lp);
    MulCancel(q, x, t + lp);
  }

  /** A run that restores the LP supply cannot have taken from one side and added to neither. */
  lemma NoFreeDrain(s: Pool, s': Pool)
    requires PoolOk(s) && PoolOk(s') && 0 < s.t == s'.t && Grows(s, s')
    ensures s.ra * s.rb <= s'.ra * s'.rb
    ensures s'.ra <= s.ra && s'.rb <= s.rb ==> s'.ra == s.ra && s'.rb == s.rb
  {
    MulPos(s.t, s.t);
    MulCancel(s.ra * s.rb, s'.ra * s'.rb, s.t * s.t);
    if s'.ra <= s.ra && s'.rb <= s.rb {
      DominatedProduct(s.ra, s.rb, s'.ra, s'.rb);
    }
  }

  lemma DominatedProduct(x: int, y: int, x': int, y': int)
    requires 0 <= x' <= x && 0 <= y' <= y && 0 < x && 0 < y
    requires x * y <= x' * y'
    ensures x == x' && y == y'
  {
    assert (x - 1) * y == x * y - y;
    assert x * (y - 1) == x * y - x;
    if x' < x {
      MulBoth(x', y', x - 1, y);
    }
    if y' < y {
      MulBoth(x', y', x, y - 1);
    }
  }

  /** Trading the proceeds straight back never returns more than was put in. */
  lemma SwapBackNeverProfits(s: Pool, dir: nat, ain: nat, min: nat, min': nat)
    requires PoolOk(s) && Swap(s, dir, ain, min).Some?
    requires var (s1, out) := Swap(s, dir, ain, min).value; 0 < out && Swap(s1, 1 - dir, out, min').Some?
    ensures var (s1, out) := Swap(s, dir, ain, min).value;
            Swap(s1, 1 - dir, out, min').value.1 <= ain
  {
    var s1, out := Swap(s, dir, ain, min).value.0, Swap(s, dir, ain, min).value.1;
    SwapKeeps(s, dir, ain, min);
    SwapKeeps(s1, 1 - dir, out, min');
    var s2 := Swap(s1, 1 - dir, out, min').value.0;
    MulNonneg(s.ra, s.rb);
    MulNonneg(s2.ra, s2.rb);
    GrowsTransitive(s, s1, s2);
    NoFreeDrain(s, s2);
  }
}
