/**
 The pool as its bytecode runs it: fixed slots, one slot per liquidity provider,
 and words that wrap. From a sound pool nothing wraps, and on ids that are apart
 each call is the pricing step of module Curve.
 */
module PoolStorage {
  import opened Words
  import opened Options
  import opened Balances
  import opened Quotes
  import opened Curve
  import opened Slots

  const FIRST_FEE: Word := DEFAULT_FEE

  function Root(y: Word): Word {
    RootIsWord(y);
    Isqrt(y)
  }

  lemma RootIsWord(y: nat)
    requires y < WORD
    ensures Isqrt(y) < WORD
  {
    var r := Isqrt(y);
    if r > 0 { MulMono(1, r, r); }
  }

  // ---- pricing, on the loaded words ----

  function MintOf(v: Version, ra: Word, rb: Word, t: Word, a: Word, b: Word): Option<Word> {
    if t == 0 then Some(if v == V11 then Root(WMul(a, b)) else if a < b then a else b)
    else if ra == 0 || rb == 0 then None
    else
      var x, y := WDiv(WMul(a, t), ra), WDiv(WMul(b, t), rb);
      Some(if x < y then x else y)
  }

  function PriceAdd(v: Version, sl: Slots, a: Word, b: Word, min: Word): Option<Word> {
    var ra, rb, t, lim := Load(sl, RESERVE_A), Load(sl, RESERVE_B), Load(sl, LP_TOTAL), Limit(v);
    if   Load(sl, TOKENS_SET) == 0 || a == 0 || b == 0 || a >= lim || b >= lim
      || WAdd(ra, a) >= lim || WAdd(rb, b) >= lim then None
    else
      match MintOf(v, ra, rb, t, a, b)
      case None => None
      case Some(lp) => if lp == 0 || lp < min || (lim == U128 && WAdd(t, lp) >= lim) then None else Some(lp)
  }

  function PriceRemove(sl: Slots, caller: Word, burn: Word, minA: Word, minB: Word): Option<(Word, Word)> {
    var ra, rb, t := Load(sl, RESERVE_A), Load(sl, RESERVE_B), Load(sl, LP_TOTAL);
    if burn == 0 || Load(sl, LpKey(caller)) < burn || t == 0 then None
    else
      var outA, outB := WDiv(WMul(burn, ra), t), WDiv(WMul(burn, rb), t);
      if outA < minA || outB < minB || (outA == 0 && outB == 0) then None else Some((outA, outB))
  }

  function KeyIn(dir: nat): int {
    if dir == 0 then RESERVE_A else RESERVE_B
  }

  function KeyOut(dir: nat): int {
    if dir == 0 then RESERVE_B else RESERVE_A
  }

  function NetOf(ain: Word, fee: Word): Word {
    WidthOrder();
    WDiv(WMul(ain, WSub(BPS, fee)), BPS)
  }

  function PriceSwap(v: Version, sl: Slots, dir: nat, ain: Word, min: Word): Option<Word> {
    var ri, ro, lim := Load(sl, KeyIn(dir)), Load(sl, KeyOut(dir)), Limit(v);
    if   Load(sl, TOKENS_SET) == 0 || dir > 1 || ain == 0 || ri == 0 || ro == 0
      || ain >= lim || WAdd(ri, ain) >= lim then None
    else
      var net := NetOf(ain, if Load(sl, SWAP_FEE) == 0 then FIRST_FEE else Load(sl, SWAP_FEE));
      if net == 0 || WAdd(ri, net) == 0 then None
      else
        var out := WDiv(WMul(ro, net), WAdd(ri, net));
        if out == 0 || out < min then None else Some(out)
  }

  // ---- the stores ----

  function RecordPair(sl: Slots, a: Word, b: Word): Slots {
    sl[TOKEN_A := a][TOKEN_B := b][TOKENS_SET := ONE]
  }

  function RecordAdd(sl: Slots, caller: Word, a: Word, b: Word, lp: Word): Slots {
    var ra, rb, t := Load(sl, RESERVE_A), Load(sl, RESERVE_B), Load(sl, LP_TOTAL);
    var f := if t == 0 && Load(sl, SWAP_FEE) == 0 then sl[SWAP_FEE := FIRST_FEE] else sl;
    var g := f[RESERVE_A := WAdd(ra, a)][RESERVE_B := WAdd(rb, b)][LP_TOTAL := WAdd(t, lp)];
    g[LpKey(caller) := WAdd(Load(g, LpKey(caller)), lp)]
  }

  function RecordRemove(sl: Slots, caller: Word, burn: Word, outA: Word, outB: Word): Slots {
    var ra, rb, t := Load(sl, RESERVE_A), Load(sl, RESERVE_B), Load(sl, LP_TOTAL);
    sl[LpKey(caller) := WSub(Load(sl, LpKey(caller)), burn)]
      [LP_TOTAL := WSub(t, burn)][RESERVE_A := WSub(ra, outA)][RESERVE_B := WSub(rb, outB)]
  }

  function RecordSwap(sl: Slots, dir: nat, ain: Word, out: Word): Slots {
    var ri, ro := Load(sl, KeyIn(dir)), Load(sl, KeyOut(dir));
    sl[KeyIn(dir) := WAdd(ri, ain)][KeyOut(dir) := WSub(ro, out)]
  }

  // ---- what the slots say of a set of ids ----

  ghost function HoldingsOf(sl: Slots, ids: set<Id>): map<Id, int>
    requires forall x :: x in ids ==> 0 <= x < WORD
  {
    map x | x in ids :: Load(sl, LpKey(x))
  }

  ghost function PoolAt(v: Version, sl: Slots, ids: set<Id>): Pool
    requires forall x :: x in ids ==> 0 <= x < WORD
  {
    Pool(v, Load(sl, TOKENS_SET) != 0, Load(sl, TOKEN_A), Load(sl, TOKEN_B),
         Load(sl, RESERVE_A), Load(sl, RESERVE_B), Load(sl, LP_TOTAL),
         Load(sl, SWAP_FEE), Load(sl, FEE_ADMIN), HoldingsOf(sl, ids))
  }

  lemma StoreFixed(sl: Slots, ids: set<Id>, key: int, v: Word)
    requires Apart(ids) && PoolReserved(key)
    ensures HoldingsOf(sl[key := v], ids) == HoldingsOf(sl, ids)
  {
    hide Xor, BalKey, AllowKey, LpKey, ShareKey, TokenReserved, PoolReserved, VaultReserved, Clear;
    forall x | x in ids ensures LpKey(x) != key {
      assert Free(x);
    }
  }

  lemma StoreLp(sl: Slots, ids: set<Id>, h: Word, v: Word)
    requires Apart(ids) && h in ids
    ensures HoldingsOf(sl[LpKey(h) := v], ids) == HoldingsOf(sl, ids)[h := v]
    ensures !PoolReserved(LpKey(h))
    ensures h in HoldingsOf(sl, ids) && HoldingsOf(sl, ids)[h] == Load(sl, LpKey(h))
  {
    hide Xor, BalKey, AllowKey, LpKey, ShareKey, TokenReserved, PoolReserved, VaultReserved, Clear;
    assert Free(h);
    forall x | x in ids ensures LpKey(x) == LpKey(h) <==> x == h {
      LpKeysDiffer(x, h);
    }
  }

  lemma LpKeysDiffer(x: nat, y: nat)
    ensures LpKey(x) == LpKey(y) <==> x == y
  {
    MaskedKeysDiffer(x, y, LpMask());
  }

  // ---- from a sound pool the words are exact ----

  lemma MintRefines(s: Pool, a: Word, b: Word)
    requires PoolOk(s) && 0 < a < Limit(s.version) && 0 < b < Limit(s.version)
    requires s.ra < WORD && s.rb < WORD && s.t < WORD
    ensures MintOf(s.version, s.ra, s.rb, s.t, a, b) == Some(LpFor(s, a, b))
  {
    WidthOrder();
    var lim := Limit(s.version);
    if s.t == 0 {
      MulExact(a, b, U128);
    } else {
      SupplyBelowLimit(s);
      MulExact(a, s.t, lim);
      MulExact(b, s.t, lim);
    }
  }

  /** Minting never wraps the supply, even where the code does not check it. */
  lemma MintFits(s: Pool, a: nat, b: nat)
    requires PoolOk(s) && 0 < a && 0 < b && s.ra + a < Limit(s.version) && s.rb + b < Limit(s.version)
    ensures 0 <= LpFor(s, a, b) && s.t + LpFor(s, a, b) < WORD
  {
    WidthOrder();
    if s.t == 0 {
      FirstMintIsWord(s.version, a, b);
    } else {
      SupplyBelowLimit(s);
      ProRataSides(s.ra, s.rb, s.t, a, b);
      var lp := ProRata(s.ra, s.rb, s.t, a, b);
      MulMono(1, s.ra, lp);
      MulLess(a + 1, s.t, Limit(s.version));
      assert (a + 1) * s.t == a * s.t + s.t;
      Widths();
    }
  }

  lemma FirstMintIsWord(v: Version, a: nat, b: nat)
    requires 0 < a < Limit(v) && 0 < b < Limit(v)
    ensures 0 <= FirstMint(v, a, b) < WORD
  {
    MulLess(a, b, Limit(v));
    Widths();
    if v == V11 { RootIsWord(a * b); }
  }

  lemma PriceAddRefines(v: Version, sl: Slots, ids: set<Id>, caller: Word, a: Word, b: Word, min: Word)
    requires Apart(ids) && PoolOk(PoolAt(v, sl, ids))
    ensures var r, q := PriceAdd(v, sl, a, b, min), Add(PoolAt(v, sl, ids), caller, a, b, min);
            && (r.Some? <==> q.Some?)
            && (r.Some? ==> r.value == q.value.1)
  {
    hide Apart, HoldingsOf, MintOf, LpFor, Pow256, PoolOk;
    IdsAreWords(ids);
    var s := PoolAt(v, sl, ids);
    PoolFields(s);
    AddExact(s.ra, a);
    AddExact(s.rb, b);
    if 0 < a < Limit(v) && 0 < b < Limit(v) {
      MintRefines(s, a, b);
      if s.ra + a < Limit(v) && s.rb + b < Limit(v) {
        MintFits(s, a, b);
        AddExact(s.t, LpFor(s, a, b));
      }
    }
  }

  lemma PoolFields(s: Pool)
    requires PoolOk(s)
    ensures 0 <= s.ra < Limit(s.version) && 0 <= s.rb < Limit(s.version) && 0 <= s.t < Limit(s.version)
    ensures (s.t != 0 ==> s.ra != 0 && s.rb != 0) && Limit(s.version) + Limit(s.version) < WORD
  {
    SupplyBelowLimit(s);
    WidthOrder();
  }

  /** What a deposit stores, and that none of its four sums wraps. */
  lemma AddRecords(s: Pool, caller: Id, a: Word, b: Word, min: nat)
    requires PoolOk(s) && Add(s, caller, a, b, min).Some?
    ensures var (s', lp) := Add(s, caller, a, b, min).value;
            && s' == s.(ra := s.ra + a, rb := s.rb + b, t := s.t + lp,
                        fee := if s.t == 0 && s.fee == 0 then DEFAULT_FEE else s.fee,
                        lp := s.lp[caller := Get(s.lp, caller) + lp])
            && 0 <= lp && s.ra + a < WORD && s.rb + b < WORD && s.t + lp < WORD
            && 0 <= Get(s.lp, caller) <= s.t && 0 <= s.ra && 0 <= s.rb
  {
    WidthOrder();
    MintFits(s, a, b);
    EntryAtMostSum(s.lp, caller);
    hide LpFor;
  }

  lemma RecordAddRefines(v: Version, sl: Slots, ids: set<Id>, caller: Word, a: Word, b: Word, min: Word, lp: Word)
    requires Apart(ids) && caller in ids && PoolOk(PoolAt(v, sl, ids))
    requires var q := Add(PoolAt(v, sl, ids), caller, a, b, min); q.Some? && lp == q.value.1
    ensures PoolAt(v, RecordAdd(sl, caller, a, b, lp), ids) == Add(PoolAt(v, sl, ids), caller, a, b, min).value.0
  {
    hide Apart, HoldingsOf, Add, PoolOk, LpKey, Pow256;
    IdsAreWords(ids);
    var s := PoolAt(v, sl, ids);
    AddRecords(s, caller, a, b, min);
    var f := if s.t == 0 && s.fee == 0 then sl[SWAP_FEE := FIRST_FEE] else sl;
    StoreFixed(sl, ids, SWAP_FEE, FIRST_FEE);
    var g := f[RESERVE_A := WAdd(s.ra, a)];
    StoreFixed(f, ids, RESERVE_A, WAdd(s.ra, a));
    var h := g[RESERVE_B := WAdd(s.rb, b)];
    StoreFixed(g, ids, RESERVE_B, WAdd(s.rb, b));
    var i := h[LP_TOTAL := WAdd(s.t, lp)];
    StoreFixed(h, ids, LP_TOTAL, WAdd(s.t, lp));
    StoreLp(i, ids, caller, WAdd(Load(i, LpKey(caller)), lp));
  }

  lemma PriceRemoveRefines(v: Version, sl: Slots, ids: set<Id>, caller: Word, burn: Word, minA: Word, minB: Word)
    requires Apart(ids) && caller in ids && PoolOk(PoolAt(v, sl, ids))
    ensures var r, q := PriceRemove(sl, caller, burn, minA, minB), Remove(PoolAt(v, sl, ids), caller, burn, minA, minB);
            && (r.Some? <==> q.Some?)
            && (r.Some? ==> r.value == (q.value.1, q.value.2))
  {
    var s := PoolAt(v, sl, ids);
    StoreLp(sl, ids, caller, 0);
    hide Apart, HoldingsOf, LpKey, Pow256;
    WidthOrder();
    EntryAtMostSum(s.lp, caller);
    if 0 < burn <= Get(s.lp, caller) {
      SupplyBelowLimit(s);
      MulExact(burn, s.ra, Limit(v));
      MulExact(burn, s.rb, Limit(v));
    }
  }

  lemma RecordRemoveRefines(v: Version, sl: Slots, ids: set<Id>, caller: Word, burn: Word, minA: Word, minB: Word, outA: Word, outB: Word)
    requires Apart(ids) && caller in ids && PoolOk(PoolAt(v, sl, ids))
    requires var q := Remove(PoolAt(v, sl, ids), caller, burn, minA, minB); q.Some? && (outA, outB) == (q.value.1, q.value.2)
    ensures PoolAt(v, RecordRemove(sl, caller, burn, outA, outB), ids) == Remove(PoolAt(v, sl, ids), caller, burn, minA, minB).value.0
  {
    hide Apart, HoldingsOf, LpKey, Pow256, PoolOk;
    IdsAreWords(ids);
    var s := PoolAt(v, sl, ids);
    RemoveFits(s, caller, burn, minA, minB);
    var d := WSub(Load(sl, LpKey(caller)), burn);
    var e := sl[LpKey(caller) := d];
    StoreLp(sl, ids, caller, d);
    var f := e[LP_TOTAL := WSub(s.t, burn)];
    StoreFixed(e, ids, LP_TOTAL, WSub(s.t, burn));
    var g := f[RESERVE_A := WSub(s.ra, outA)];
    StoreFixed(f, ids, RESERVE_A, WSub(s.ra, outA));
    StoreFixed(g, ids, RESERVE_B, WSub(s.rb, outB));
  }

  lemma RemoveFits(s: Pool, caller: Id, burn: nat, minA: nat, minB: nat)
    requires PoolOk(s) && Remove(s, caller, burn, minA, minB).Some?
    ensures var r := Remove(s, caller, burn, minA, minB).value;
            burn <= Get(s.lp, caller) <= s.t && r.1 <= s.ra && r.2 <= s.rb
  {
    EntryAtMostSum(s.lp, caller);
    BurnSide(s.ra, s.t, burn);
    BurnSide(s.rb, s.t, burn);
  }

  lemma NetRefines(ain: Word, fee: Word)
    requires fee <= BPS && ain < U128
    ensures NetOf(ain, fee) == AfterFee(ain, fee)
  {
    WidthOrder();
    SubExact(BPS, fee);
    MulExact(ain, BPS - fee, U128);
  }

  lemma PriceSwapRefines(v: Version, sl: Slots, ids: set<Id>, dir: nat, ain: Word, min: Word)
    requires Apart(ids) && PoolOk(PoolAt(v, sl, ids))
    ensures var r, q := PriceSwap(v, sl, dir, ain, min), Swap(PoolAt(v, sl, ids), dir, ain, min);
            && (r.Some? <==> q.Some?)
            && (r.Some? ==> r.value == q.value.1)
  {
    hide Apart, HoldingsOf, NetOf, AfterFee, Pow256, Nonneg;
    IdsAreWords(ids);
    var s := PoolAt(v, sl, ids);
    WidthOrder();
    var ri, ro: Word, fee := ReserveIn(s, dir), ReserveOut(s, dir), EffectiveFee(s.fee);
    AddExact(ri, ain);
    if ain < Limit(v) && ri + ain < Limit(v) {
      NetRefines(ain, fee);
      AfterFeeBounds(ain, fee);
      var net := NetOf(ain, fee);
      MulExact(ro, net, Limit(v));
      AddExact(ri, net);
    }
  }

  /** What a swap stores, and that neither sum wraps. */
  lemma SwapFits(s: Pool, dir: nat, ain: nat, min: nat)
    requires PoolOk(s) && Swap(s, dir, ain, min).Some?
    ensures var r, ri, ro := Swap(s, dir, ain, min).value, ReserveIn(s, dir), ReserveOut(s, dir);
            dir <= 1 && ri + ain < WORD && 0 <= r.1 <= ro && r.0 == WithReserves(s, dir, ri + ain, ro - r.1)
  {
    WidthOrder();
    SwapOut(s, dir, ain, min);
    hide AfterFee, AmountOut;
  }

  lemma RecordSwapRefines(v: Version, sl: Slots, ids: set<Id>, dir: nat, ain: Word, min: Word, out: Word)
    requires Apart(ids) && PoolOk(PoolAt(v, sl, ids))
    requires var q := Swap(PoolAt(v, sl, ids), dir, ain, min); q.Some? && out == q.value.1
    ensures PoolAt(v, RecordSwap(sl, dir, ain, out), ids) == Swap(PoolAt(v, sl, ids), dir, ain, min).value.0
  {
    hide Apart, PoolAt, Pow256, Swap, PoolOk, KeyIn, KeyOut, ReserveIn, ReserveOut, WithReserves;
    IdsAreWords(ids);
    SwapFits(PoolAt(v, sl, ids), dir, ain, min);
    var ri, ro := Load(sl, KeyIn(dir)), Load(sl, KeyOut(dir));
    ReservesStored(v, sl, ids, dir, WAdd(ri, ain), WSub(ro, out));
  }

  lemma ReservesStored(v: Version, sl: Slots, ids: set<Id>, dir: nat, x: Word, y: Word)
    requires Apart(ids)
    ensures PoolAt(v, sl[KeyIn(dir) := x][KeyOut(dir) := y], ids) == WithReserves(PoolAt(v, sl, ids), dir, x, y)
    ensures ReserveIn(PoolAt(v, sl, ids), dir) == Load(sl, KeyIn(dir)) && ReserveOut(PoolAt(v, sl, ids), dir) == Load(sl, KeyOut(dir))
  {
    hide Apart, HoldingsOf;
    IdsAreWords(ids);
    StoreFixed(sl, ids, KeyIn(dir), x);
    StoreFixed(sl[KeyIn(dir) := x], ids, KeyOut(dir), y);
  }
}
