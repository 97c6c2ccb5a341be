/**
 The contracts as they run: slots that each call loads and stores one by one,
 arithmetic on 256-bit words that wraps, locks, calls between contracts, and an
 executor that restores its checkpoint on a fault. Each method is proved, in
 every state, against the function of module Machine it carries out.
 */
module Chain {
  import opened Words
  import opened Options
  import opened Balances
  import opened Quotes
  import opened Slots
  import opened World
  import opened Deployed
  import M = Machine
  import TS = TokenStorage
  import PS = PoolStorage
  import VS = VaultStorage

  class Chain {
    var height: nat
    var tokens: map<Id, Slots>
    var pools: map<Id, M.PoolCode>
    var vaults: map<Id, Slots>
    var routers: set<Id>

    ghost function State(): M.Store
      reads this
    {
      M.Store(height, tokens, pools, vaults, routers)
    }

    constructor (tokenIds: set<Id>, poolVersions: map<Id, Version>, vaultIds: set<Id>, routerIds: set<Id>)
      requires 0 !in tokenIds && 0 !in poolVersions && 0 !in vaultIds && 0 !in routerIds
      requires tokenIds !! poolVersions.Keys !! vaultIds !! routerIds
      ensures Fresh(State()) && height == 0
      ensures tokens.Keys == tokenIds && pools.Keys == poolVersions.Keys && vaults.Keys == vaultIds && routers == routerIds
      ensures forall p :: p in poolVersions ==> pools[p].version == poolVersions[p]
    {
      height := 0;
      tokens := map k | k in tokenIds :: map[];
      pools := map p | p in poolVersions :: M.PoolCode(poolVersions[p], map[]);
      vaults := map v | v in vaultIds :: map[];
      routers := routerIds;
    }

    // ---- single stores ----

    method StoreToken(k: Id, key: int, v: Word)
      requires k in tokens
      modifies this`tokens
      ensures tokens == old(tokens)[k := Put(old(tokens[k]), key, v)]
    {
      tokens := tokens[k := Put(tokens[k], key, v)];
    }

    method StorePool(p: Id, key: int, v: Word)
      requires p in pools
      modifies this`pools
      ensures State() == M.WithPool(old(State()), p, old(pools[p].slots)[key := v])
    {
      pools := pools[p := pools[p].(slots := pools[p].slots[key := v])];
    }

    method StoreVault(v: Id, key: int, x: Word)
      requires v in vaults
      modifies this`vaults
      ensures State() == M.WithVault(old(State()), v, old(vaults[v])[key := x])
    {
      vaults := vaults[v := Put(vaults[v], key, x)];
    }

    // ---- token ----

    /** The first caller of any selector takes the admin slot. */
    method Claim(k: Id, caller: Word)
      requires k in tokens
      modifies this`tokens
      ensures tokens == old(tokens)[k := TS.Claimed(old(tokens[k]), caller)]
    {
      if Load(tokens[k], ADMIN) == 0 { StoreToken(k, ADMIN, caller); }
    }

    /** Debit and credit; false, and no store, if the balance is short or the credit wraps. */
    method MoveBalance(k: Id, from: Word, to: Word, amt: Word) returns (ok: bool)
      requires k in tokens && from != to
      modifies this`tokens
      ensures var r := TS.Moved(old(tokens[k]), from, to, amt);
              ok == r.Some? && tokens == old(tokens)[k := if ok then r.value else old(tokens[k])]
    {
      hide BalKey;
      var held := Load(tokens[k], BalKey(from));
      if held < amt { return false; }
      var bal := Load(tokens[k], BalKey(to));
      var sum := WAdd(bal, amt);
      if sum < bal { return false; }
      StoreToken(k, BalKey(from), WSub(held, amt));
      StoreToken(k, BalKey(to), sum);
      return true;
    }

    method Transfer(k: Id, caller: Word, to: Word, amt: Word)
      requires k in tokens
      modifies this`tokens
      ensures tokens == old(tokens)[k := TS.Transferred(old(tokens[k]), caller, to, amt)]
    {
      hide TS.Claimed, TS.Moved;
      Claim(k, caller);
      if amt == 0 || to == caller { return; }
      var _ := MoveBalance(k, caller, to, amt);
    }

    method TransferFrom(k: Id, caller: Word, from: Word, to: Word, amt: Word) returns (ret: Word)
      requires k in tokens
      modifies this`tokens
      ensures var r := TS.TransferredFrom(old(tokens[k]), caller, from, to, amt);
              tokens == old(tokens)[k := r.0] && ret == if r.1 then 1 else 0
    {
      hide TS.Claimed, TS.Moved, AllowKey;
      Claim(k, caller);
      if amt == 0 || from == to { return 0; }
      var alw := Load(tokens[k], AllowKey(from, caller));
      if alw < amt { return 0; }
      var ok := MoveBalance(k, from, to, amt);
      if !ok { return 0; }
      StoreToken(k, AllowKey(from, caller), WSub(alw, amt));
      return ONE;
    }

    method Approve(k: Id, caller: Word, spender: Word, amt: Word) returns (ret: Word)
      requires k in tokens
      modifies this`tokens
      ensures tokens == old(tokens)[k := TS.Approved(old(tokens[k]), caller, spender, amt)] && ret == 1
    {
      hide TS.Claimed, AllowKey;
      Claim(k, caller);
      StoreToken(k, AllowKey(caller, spender), amt);
      return ONE;
    }

    method MintFirst(k: Id, caller: Word, to: Word, amt: Word)
      requires k in tokens
      modifies this`tokens
      ensures tokens == old(tokens)[k := TS.Minted(old(tokens[k]), caller, to, amt)]
    {
      hide TS.Claimed, BalKey;
      Claim(k, caller);
      if Load(tokens[k], MINTED) != 0 || Load(tokens[k], ADMIN) != caller || amt == 0 { return; }
      var held := Load(tokens[k], BalKey(to));
      var sum := WAdd(amt, held);
      if sum < held { return; }
      StoreToken(k, BalKey(to), sum);
      StoreToken(k, MINTED, ONE);
    }

    // ---- calls from a contract ----

    method PullCall(k: Id, self: Word, from: Word, amt: Word) returns (ok: bool)
      modifies this`tokens
      ensures var r := M.Pull(old(State()), k, self, from, amt);
              ok == r.Some? && (ok ==> State() == r.value)
    {
      hide TS.TransferredFrom;
      if k !in tokens { return false; }
      var ret := TransferFrom(k, self, from, self, amt);
      return ret == 1;
    }

    method ApproveCall(k: Id, self: Word, spender: Word, amt: Word) returns (ok: bool)
      modifies this`tokens
      ensures var r := M.Approve(old(State()), k, self, spender, amt);
              ok == r.Some? && (ok ==> State() == r.value)
    {
      hide TS.Approved;
      if k !in tokens { return false; }
      var ret := Approve(k, self, spender, amt);
      return ret == 1;
    }

    method PayCall(k: Id, self: Word, to: Word, amt: Word) returns (ok: bool)
      modifies this`tokens
      ensures var r := M.Pay(old(State()), k, self, to, amt);
              ok == r.Some? && (ok ==> State() == r.value)
    {
      hide TS.Transferred;
      if amt == 0 { return true; }
      if k in tokens {
        Transfer(k, self, to, amt);
        return true;
      }
      return !(k in pools || k in vaults || k in routers);
    }

    /** A pool selector sent to something that is not a pool. */
    method CallOther(target: Id, caller: Word) returns (ok: bool)
      modifies this`tokens
      ensures var r := M.CallNonPool(old(State()), target, caller);
              ok == r.Returned? && (ok ==> r == M.Returned(State(), 0))
    {
      hide TS.Claimed;
      if target in vaults || target in routers { return false; }
      if target in tokens { Claim(target, caller); }
      return true;
    }

    // ---- pool pricing ----

    /** The v11 first mint: the pool's square-root loop, in which no sum wraps. */
    method RootOfProduct(a: Word, b: Word) returns (root: Word)
      requires 0 < a < U128 && 0 < b < U128
      ensures root == PS.Root(WMul(a, b))
    {
      MulExact(a, b, U128);
      ProductHasRoom(a, b);
      root := RootOfWord(WMul(a, b));
    }

    method RootOfWord(y: Word) returns (root: Word)
      requires 0 < y && y + 2 < WORD
      ensures root == Isqrt(y)
    {
      if y <= 3 {
        IsqrtUnique(y, 1);
        return 1;
      }
      ghost var r := Isqrt(y);
      RootAboveOne(y);
      FirstCandidate(y, r);
      hide Isqrt, WAdd;
      AddExact(y / 2, 1);
      var z, x := y, WAdd(y / 2, 1);
      while x < z
        invariant 2 <= r <= x <= y / 2 + 1 && r <= z
        invariant x < z || x == (y / z + z) / 2
        decreases z
      {
        z := x;
        StepFits(y, x, r);
        x := WAdd(y / x, x) / 2;
      }
      NoProgressMeansRoot(y, z, r);
      root := z;
    }

    method PriceAdd(p: Id, a: Word, b: Word, min: Word) returns (r: Option<Word>)
      requires p in pools
      ensures r == PS.PriceAdd(pools[p].version, pools[p].slots, a, b, min)
    {
      hide PS.Root, Pow256;
      WidthOrder();
      var v, sl := pools[p].version, pools[p].slots;
      var lim := Limit(v);
      if Load(sl, TOKENS_SET) == 0 || a == 0 || b == 0 || a >= lim || b >= lim { return None; }
      var t, ra, rb := Load(sl, LP_TOTAL), Load(sl, RESERVE_A), Load(sl, RESERVE_B);
      if WAdd(ra, a) >= lim || WAdd(rb, b) >= lim { return None; }
      var lp: Word;
      if t == 0 {
        if v == V11 { lp := RootOfProduct(a, b); } else { lp := if a < b then a else b; }
      } else {
        if ra == 0 || rb == 0 { return None; }
        var x, y := WDiv(WMul(a, t), ra), WDiv(WMul(b, t), rb);
        lp := if x < y then x else y;
      }
      if lp == 0 || lp < min { return None; }
      if lim == U128 && WAdd(t, lp) >= lim { return None; }
      return Some(lp);
    }

    method PriceRemove(p: Id, caller: Word, burn: Word, minA: Word, minB: Word) returns (r: Option<(Word, Word)>)
      requires p in pools
      ensures r == PS.PriceRemove(pools[p].slots, caller, burn, minA, minB)
    {
      hide LpKey;
      var sl := pools[p].slots;
      if burn == 0 || Load(sl, LpKey(caller)) < burn { return None; }
      var t, ra, rb := Load(sl, LP_TOTAL), Load(sl, RESERVE_A), Load(sl, RESERVE_B);
      if t == 0 { return None; }
      var outA, outB := WDiv(WMul(burn, ra), t), WDiv(WMul(burn, rb), t);
      if outA < minA || outB < minB || (outA == 0 && outB == 0) { return None; }
      return Some((outA, outB));
    }

    method PriceSwap(p: Id, dir: nat, ain: Word, min: Word) returns (r: Option<Word>)
      requires p in pools
      ensures r == PS.PriceSwap(pools[p].version, pools[p].slots, dir, ain, min)
    {
      var sl, lim := pools[p].slots, Limit(pools[p].version);
      if Load(sl, TOKENS_SET) == 0 || dir > 1 { return None; }
      var ri, ro := Load(sl, if dir == 0 then RESERVE_A else RESERVE_B), Load(sl, if dir == 0 then RESERVE_B else RESERVE_A);
      if ain == 0 || ri == 0 || ro == 0 || ain >= lim || WAdd(ri, ain) >= lim { return None; }
      var fee := Load(sl, SWAP_FEE);
      if fee == 0 { fee := PS.FIRST_FEE; }
      var net := PS.NetOf(ain, fee);
      hide PS.NetOf;
      if net == 0 || WAdd(ri, net) == 0 { return None; }
      var out := WDiv(WMul(ro, net), WAdd(ri, net));
      if out == 0 || out < min { return None; }
      return Some(out);
    }

    // ---- pool stores ----

    method RecordPair(p: Id, a: Word, b: Word)
      requires p in pools
      modifies this`pools
      ensures State() == M.WithPool(old(State()), p, PS.RecordPair(old(pools[p].slots), a, b))
    {
      StorePool(p, TOKEN_A, a);
      StorePool(p, TOKEN_B, b);
      StorePool(p, TOKENS_SET, ONE);
    }

    method RecordAdd(p: Id, caller: Word, a: Word, b: Word, lp: Word)
      requires p in pools
      modifies this`pools
      ensures State() == M.WithPool(old(State()), p, PS.RecordAdd(old(pools[p].slots), caller, a, b, lp))
    {
      hide LpKey;
      var sl := pools[p].slots;
      var t, ra, rb := Load(sl, LP_TOTAL), Load(sl, RESERVE_A), Load(sl, RESERVE_B);
      if t == 0 && Load(sl, SWAP_FEE) == 0 { StorePool(p, SWAP_FEE, PS.FIRST_FEE); }
      StorePool(p, RESERVE_A, WAdd(ra, a));
      StorePool(p, RESERVE_B, WAdd(rb, b));
      StorePool(p, LP_TOTAL, WAdd(t, lp));
      StorePool(p, LpKey(caller), WAdd(Load(pools[p].slots, LpKey(caller)), lp));
    }

    method RecordRemove(p: Id, caller: Word, burn: Word, outA: Word, outB: Word)
      requires p in pools
      modifies this`pools
      ensures State() == M.WithPool(old(State()), p, PS.RecordRemove(old(pools[p].slots), caller, burn, outA, outB))
    {
      hide LpKey;
      var sl := pools[p].slots;
      var t, ra, rb := Load(sl, LP_TOTAL), Load(sl, RESERVE_A), Load(sl, RESERVE_B);
      StorePool(p, LpKey(caller), WSub(Load(sl, LpKey(caller)), burn));
      StorePool(p, LP_TOTAL, WSub(t, burn));
      StorePool(p, RESERVE_A, WSub(ra, outA));
      StorePool(p, RESERVE_B, WSub(rb, outB));
    }

    method RecordSwap(p: Id, dir: nat, ain: Word, out: Word)
      requires p in pools
      modifies this`pools
      ensures State() == M.WithPool(old(State()), p, PS.RecordSwap(old(pools[p].slots), dir, ain, out))
    {
      var sl := pools[p].slots;
      if dir == 0 {
        StorePool(p, RESERVE_A, WAdd(Load(sl, RESERVE_A), ain));
        StorePool(p, RESERVE_B, WSub(Load(sl, RESERVE_B), out));
      } else {
        StorePool(p, RESERVE_B, WAdd(Load(sl, RESERVE_B), ain));
        StorePool(p, RESERVE_A, WSub(Load(sl, RESERVE_A), out));
      }
    }

    // ---- pool calls ----

    method EnterPool(p: Id) returns (ok: bool)
      requires p in pools
      modifies this`pools
      ensures var r := Enter(old(pools[p].slots), POOL_LOCK);
              ok == r.Some? && State() == if ok then M.WithPool(old(State()), p, r.value) else old(State())
    {
      if Load(pools[p].slots, POOL_LOCK) != 0 { return false; }
      StorePool(p, POOL_LOCK, ONE);
      return true;
    }

    method AddLiquidity(p: Word, caller: Word, a: Word, b: Word, min: Word, deadline: Word) returns (ok: bool, lp: Word)
      modifies this`tokens, this`pools
      ensures var r := M.AddLiquidity(old(State()), p, caller, a, b, min, deadline);
              ok == r.Returned? && (ok ==> r == M.Returned(State(), lp))
    {
      hide PS.PriceAdd, PS.RecordAdd, M.Pull;
      ok, lp := false, 0;
      if p !in pools || (deadline != 0 && height > deadline) { return; }
      var entered := EnterPool(p);
      if !entered { return; }
      var priced := PriceAdd(p, a, b, min);
      if priced == None { return; }
      var kA, kB := Load(pools[p].slots, TOKEN_A), Load(pools[p].slots, TOKEN_B);
      var pulled := PullCall(kA, p, caller, a);
      if !pulled { return; }
      pulled := PullCall(kB, p, caller, b);
      if !pulled { return; }
      RecordAdd(p, caller, a, b, priced.value);
      StorePool(p, POOL_LOCK, 0);
      ok, lp := true, priced.value;
    }

    method RemoveLiquidity(p: Word, caller: Word, burn: Word, minA: Word, minB: Word, toA: Word, toB: Word, deadline: Word) returns (ok: bool)
      modifies this`tokens, this`pools
      ensures var r := M.RemoveLiquidity(old(State()), p, caller, burn, minA, minB, toA, toB, deadline);
              ok == r.Returned? && (ok ==> r == M.Returned(State(), 0))
    {
      hide PS.PriceRemove, PS.RecordRemove, M.Pay;
      if p !in pools || toA == 0 || toB == 0 || (deadline != 0 && height > deadline) { return false; }
      var entered := EnterPool(p);
      if !entered { return false; }
      var priced := PriceRemove(p, caller, burn, minA, minB);
      if priced == None { return false; }
      var (outA, outB) := priced.value;
      RecordRemove(p, caller, burn, outA, outB);
      assert State() == M.WithPool(old(State()), p, pools[p].slots);
      var kA, kB := Load(pools[p].slots, TOKEN_A), Load(pools[p].slots, TOKEN_B);
      var paid := PayCall(kA, p, toA, outA);
      if !paid { return false; }
      paid := PayCall(kB, p, toB, outB);
      if !paid { return false; }
      StorePool(p, POOL_LOCK, 0);
      return true;
    }

    method SwapTo(p: Word, caller: Word, dir: nat, ain: Word, min: Word, to: Word, deadline: Word) returns (ok: bool, ret: Word)
      modifies this`tokens, this`pools
      ensures var r := M.SwapTo(old(State()), p, caller, dir, ain, min, to, deadline);
              ok == r.Returned? && (ok ==> r == M.Returned(State(), ret))
    {
      hide PS.PriceSwap, PS.RecordSwap, M.Pull, M.Pay;
      ok, ret := false, 0;
      if p !in pools || to == 0 || (deadline != 0 && height > deadline) { return; }
      var entered := EnterPool(p);
      if !entered { return; }
      var priced := PriceSwap(p, dir, ain, min);
      if priced == None { return; }
      var sl := pools[p].slots;
      var kIn, kOut := Load(sl, if dir == 0 then TOKEN_A else TOKEN_B), Load(sl, if dir == 0 then TOKEN_B else TOKEN_A);
      var pulled := PullCall(kIn, p, caller, ain);
      if !pulled { return; }
      RecordSwap(p, dir, ain, priced.value);
      var paid := PayCall(kOut, p, to, priced.value);
      if !paid { return; }
      StorePool(p, POOL_LOCK, 0);
      ok, ret := true, if ReturnsOut(pools[p].version) then priced.value else 0;
    }

    method SetTokens(p: Word, caller: Word, a: Word, b: Word) returns (ok: bool)
      modifies this`pools
      ensures var r := M.SetTokens(old(State()), p, caller, a, b);
              ok == r.Returned? && (ok ==> r == M.Returned(State(), 0))
    {
      hide PS.RecordPair;
      if p !in pools { return false; }
      var entered := EnterPool(p);
      if !entered || Load(pools[p].slots, TOKENS_SET) != 0 || a == 0 || b == 0 || a == b { return false; }
      RecordPair(p, a, b);
      if BindsAdmin(pools[p].version) { StorePool(p, FEE_ADMIN, caller); }
      StorePool(p, POOL_LOCK, 0);
      return true;
    }

    method SetFee(p: Word, caller: Word, fee: Word) returns (ok: bool)
      modifies this`pools
      ensures var r := M.SetFee(old(State()), p, caller, fee);
              ok == r.Returned? && (ok ==> r == M.Returned(State(), 0))
    {
      if p !in pools { return false; }
      var entered := EnterPool(p);
      if !entered { return false; }
      var sl := pools[p].slots;
      if caller != Load(sl, FEE_ADMIN) && (BindsAdmin(pools[p].version) || Load(sl, LP_TOTAL) != 0) { return false; }
      if fee == 0 || fee > BPS { return false; }
      StorePool(p, SWAP_FEE, fee);
      StorePool(p, POOL_LOCK, 0);
      return true;
    }

    method SetFeeAdmin(p: Word, caller: Word, admin: Word) returns (ok: bool)
      modifies this`pools
      ensures var r := M.SetAdmin(old(State()), p, caller, admin);
              ok == r.Returned? && (ok ==> r == M.Returned(State(), 0))
    {
      if p !in pools { return false; }
      var entered := EnterPool(p);
      if !entered || Load(pools[p].slots, LP_TOTAL) != 0 { return false; }
      if BindsAdmin(pools[p].version) && caller != Load(pools[p].slots, FEE_ADMIN) { return false; }
      StorePool(p, FEE_ADMIN, admin);
      StorePool(p, POOL_LOCK, 0);
      return true;
    }

    // ---- router ----

    /** One hop: approve the pool for the amount, then swap_to on whatever the hop names. */
    method HopOnce(router: Word, h: Hop, amt: Word, min: Word, to: Word, deadline: Word) returns (ok: bool, out: Word)
      requires 0 <= h.pool < WORD
      modifies this`tokens, this`pools
      ensures var r := M.HopCall(old(State()), router, h, amt, min, to, deadline);
              ok == r.Returned? && (ok ==> r == M.Returned(State(), out))
    {
      hide M.Approve, M.SwapTo, M.CallNonPool;
      out := 0;
      ok := ApproveCall(h.tokenIn, router, h.pool, amt);
      if !ok { return; }
      if h.pool in pools {
        ok, out := SwapTo(h.pool, router, h.dir, amt, min, to, deadline);
      } else {
        ok := CallOther(h.pool, router);
      }
    }

    method Route(router: Word, caller: Word, hops: seq<Hop>, ain: Word, min: Word, to: Word, deadline: Word) returns (ok: bool, ret: Word)
      requires M.HopsInWords(hops)
      modifies this`tokens, this`pools
      ensures var r := M.Route(old(State()), router, caller, hops, ain, min, to, deadline);
              ok == r.Returned? && (ok ==> r == M.Returned(State(), ret))
    {
      hide M.Pull, M.Hops, M.HopsInWords;
      ok, ret := false, 0;
      if router !in routers || |hops| == 0 || |hops| > MAX_HOPS || ain == 0 || to == 0 { return; }
      var pulled := PullCall(hops[0].tokenIn, router, caller, ain);
      if !pulled { return; }
      ok, ret := RunHops(router, hops, ain, min, to, deadline);
    }

    /** The loop over the hops, each feeding the next what it returned. */
    method RunHops(router: Word, hops: seq<Hop>, ain: Word, min: Word, to: Word, deadline: Word) returns (ok: bool, ret: Word)
      requires M.HopsInWords(hops) && |hops| >= 1
      modifies this`tokens, this`pools
      ensures var r := M.Hops(old(State()), router, hops, ain, min, to, deadline);
              ok == r.Returned? && (ok ==> r == M.Returned(State(), ret))
    {
      hide M.HopCall;
      var amt, i := ain, 0;
      assert hops[0..] == hops;
      while true
        invariant 0 <= i < |hops| && M.HopsInWords(hops[i..])
        invariant M.Hops(old(State()), router, hops, ain, min, to, deadline)
               == M.Hops(State(), router, hops[i..], amt, min, to, deadline)
        decreases |hops| - i
      {
        assert hops[i..][0] == hops[i] && hops[i..][1..] == hops[i + 1..];
        if i + 1 == |hops| {
          ok, ret := HopOnce(router, hops[i], amt, min, to, deadline);
          return;
        }
        ok, ret := HopOnce(router, hops[i], amt, ONE, router, deadline);
        if !ok || ret == 0 { return false, 0; }
        amt, i := ret, i + 1;
      }
    }

    // ---- vault ----

    method EnterVault(v: Id) returns (ok: bool)
      requires v in vaults
      modifies this`vaults
      ensures var r := Enter(old(vaults[v]), VAULT_LOCK);
              ok == r.Some? && State() == if ok then M.WithVault(old(State()), v, r.value) else old(State())
    {
      if Load(vaults[v], VAULT_LOCK) != 0 { return false; }
      StoreVault(v, VAULT_LOCK, ONE);
      return true;
    }

    method Configure(v: Word, pool: Word, a: Word, b: Word) returns (ok: bool)
      modifies this`vaults
      ensures var r := M.Configure(old(State()), v, pool, a, b);
              ok == r.Returned? && (ok ==> r == M.Returned(State(), 0))
    {
      hide VS.SetUpAs;
      if v !in vaults { return false; }
      var entered := EnterVault(v);
      if !entered || Load(vaults[v], VAULT_SET) != 0 || pool == 0 || a == 0 || b == 0 || a == b { return false; }
      RecordSetUp(v, pool, a, b);
      StoreVault(v, VAULT_LOCK, 0);
      return true;
    }

    method RecordSetUp(v: Id, pool: Word, a: Word, b: Word)
      requires v in vaults
      modifies this`vaults
      ensures State() == M.WithVault(old(State()), v, VS.SetUpAs(old(vaults[v]), pool, a, b))
    {
      StoreVault(v, VAULT_POOL, pool);
      StoreVault(v, VAULT_A, a);
      assert State() == M.WithVault(old(State()), v, vaults[v]);
      StoreVault(v, VAULT_B, b);
      StoreVault(v, VAULT_SET, ONE);
    }

    /** The token calls of a deposit: pull both sides, then approve both to the pool. */
    method FundDeposit(v: Word, pool: Word, kA: Id, kB: Id, caller: Word, a: Word, b: Word) returns (ok: bool)
      modifies this`tokens
      ensures var r := M.Fund(old(State()), v, pool, kA, kB, caller, a, b);
              ok == r.Some? && (ok ==> State() == r.value)
    {
      hide M.Pull, M.Approve;
      ok := PullCall(kA, v, caller, a);
      if !ok { return; }
      ok := PullCall(kB, v, caller, b);
      if !ok { return; }
      ok := ApproveCall(kA, v, pool, a);
      if !ok { return; }
      ok := ApproveCall(kB, v, pool, b);
    }

    method Deposit(v: Word, caller: Word, a: Word, b: Word, min: Word, deadline: Word) returns (ok: bool, ret: Word)
      modifies this`tokens, this`pools, this`vaults
      ensures var r := M.Deposit(old(State()), v, caller, a, b, min, deadline);
              ok == r.Returned? && (ok ==> r == M.Returned(State(), ret))
    {
      hide M.Fund, M.AddLiquidity, VS.SharesMinted;
      ok, ret := false, 0;
      if v !in vaults { return; }
      var entered := EnterVault(v);
      if !entered || Load(vaults[v], VAULT_SET) == 0 || a == 0 || b == 0 { return; }
      var pool, kA, kB := Load(vaults[v], VAULT_POOL), Load(vaults[v], VAULT_A), Load(vaults[v], VAULT_B);
      var funded := FundDeposit(v, pool, kA, kB, caller, a, b);
      if !funded { return; }
      var added, s := AddLiquidity(pool, v, a, b, min, deadline);
      if !added || s == 0 || s < min { return; }
      RecordShares(v, caller, s);
      StoreVault(v, VAULT_LOCK, 0);
      ok, ret := true, s;
    }

    method RecordShares(v: Id, caller: Word, s: Word)
      requires v in vaults
      modifies this`vaults
      ensures State() == M.WithVault(old(State()), v, VS.SharesMinted(old(vaults[v]), caller, s))
    {
      hide ShareKey;
      StoreVault(v, ShareKey(caller), WAdd(Load(vaults[v], ShareKey(caller)), s));
      StoreVault(v, SHARE_TOTAL, WAdd(Load(vaults[v], SHARE_TOTAL), s));
    }

    method Withdraw(v: Word, caller: Word, s: Word, minA: Word, minB: Word, deadline: Word) returns (ok: bool)
      modifies this`tokens, this`pools, this`vaults
      ensures var r := M.Withdraw(old(State()), v, caller, s, minA, minB, deadline);
              ok == r.Returned? && (ok ==> r == M.Returned(State(), 0))
    {
      hide M.RemoveLiquidity, M.CallNonPool, ShareKey;
      if v !in vaults { return false; }
      var entered := EnterVault(v);
      if !entered || Load(vaults[v], VAULT_SET) == 0 || s == 0 { return false; }
      var held := Load(vaults[v], ShareKey(caller));
      if held < s { return false; }
      StoreVault(v, ShareKey(caller), WSub(held, s));
      StoreVault(v, SHARE_TOTAL, WSub(Load(vaults[v], SHARE_TOTAL), s));
      assert State() == M.WithVault(old(State()), v, vaults[v]);
      var pool := Load(vaults[v], VAULT_POOL);
      if pool in pools {
        ok := RemoveLiquidity(pool, v, s, minA, minB, caller, caller, deadline);
      } else {
        ok := CallOther(pool, v);
      }
      if ok { StoreVault(v, VAULT_LOCK, 0); }
    }

    method TransferShares(v: Word, caller: Word, to: Word, s: Word) returns (ok: bool)
      modifies this`vaults
      ensures var r := M.TransferShares(old(State()), v, caller, to, s);
              ok == r.Returned? && (ok ==> r == M.Returned(State(), 0))
    {
      hide ShareKey;
      if v !in vaults || to == 0 || s == 0 { return false; }
      var entered := EnterVault(v);
      if !entered { return false; }
      var held := Load(vaults[v], ShareKey(caller));
      if held < s { return false; }
      if to != caller {
        StoreVault(v, ShareKey(caller), WSub(held, s));
        StoreVault(v, ShareKey(to), WAdd(Load(vaults[v], ShareKey(to)), s));
      }
      StoreVault(v, VAULT_LOCK, 0);
      return true;
    }

    // ---- the block executor ----

    /** Runs the call of a transaction; what it leaves behind on a fault is for the executor to undo. */
    method Dispatch(c: Cmd) returns (ok: bool, ret: Word)
      requires M.InWords(c) && M.Signed(State(), c)
      modifies this
      ensures var r := M.Exec(old(State()), c);
              ok == r.Returned? && (ok ==> r == M.Returned(State(), ret))
    {
      hide M.SetTokens, M.SetFee, M.SetAdmin, M.AddLiquidity, M.RemoveLiquidity, M.SwapTo, M.Route, M.Configure, M.Deposit, M.Withdraw,
           M.TransferShares, TS.Minted, TS.Transferred, TS.Approved, TS.TransferredFrom, M.Signed, M.HopsInWords;
      ok, ret := true, 0;
      match c
      case Mine(n) => height := height + n;
      case TokenMint(k, caller, to, amt) =>
        if k !in tokens { ok := false; return; }
        MintFirst(k, caller, to, amt);
      case TokenTransfer(k, caller, to, amt) =>
        if k !in tokens { ok := false; return; }
        Transfer(k, caller, to, amt);
      case TokenApprove(k, caller, spender, amt) =>
        if k !in tokens { ok := false; return; }
        ret := Approve(k, caller, spender, amt);
      case TokenTransferFrom(k, caller, from, to, amt) =>
        if k !in tokens { ok := false; return; }
        ret := TransferFrom(k, caller, from, to, amt);
      case PoolSetTokens(p, caller, a, b) => ok := SetTokens(p, caller, a, b);
      case PoolSetFee(p, caller, fee) => ok := SetFee(p, caller, fee);
      case PoolSetAdmin(p, caller, admin) => ok := SetFeeAdmin(p, caller, admin);
      case PoolAdd(p, caller, a, b, min, d) => ok, ret := AddLiquidity(p, caller, a, b, min, d);
      case PoolRemove(p, caller, burn, minA, minB, toA, toB, d) => ok := RemoveLiquidity(p, caller, burn, minA, minB, toA, toB, d);
      case PoolSwap(p, caller, dir, ain, min, to, d) => ok, ret := SwapTo(p, caller, dir, ain, min, to, d);
      case RouterSwap(r, caller, hops, ain, min, to, d) => ok, ret := Route(r, caller, hops, ain, min, to, d);
      case VaultConfigure(v, _, p, a, b) => ok := Configure(v, p, a, b);
      case VaultDeposit(v, caller, a, b, min, d) => ok, ret := Deposit(v, caller, a, b, min, d);
      case VaultWithdraw(v, caller, s, minA, minB, d) => ok := Withdraw(v, caller, s, minA, minB, d);
      case VaultTransferShares(v, caller, to, s) => ok := TransferShares(v, caller, to, s);
    }

    /** One transaction: checkpoint, run, and restore the checkpoint on a fault. */
    method Execute(c: Cmd) returns (ok: bool, ret: Word)
      requires M.InWords(c)
      modifies this
      ensures State() == M.Step(old(State()), c)
      ensures ok <==> M.Exec(old(State()), c).Returned?
      ensures ok ==> ret == M.Exec(old(State()), c).ret
    {
      ok, ret := false, 0;
      if !c.Mine? && (c.caller == 0 || c.caller in tokens || c.caller in pools || c.caller in vaults || c.caller in routers) {
        return;
      }
      var height', tokens', pools', vaults', routers' := height, tokens, pools, vaults, routers;
      ok, ret := Dispatch(c);
      if !ok {
        height, tokens, pools, vaults, routers := height', tokens', pools', vaults', routers';
      }
    }

    /** A block of transactions in order. */
    method ExecuteAll(cs: seq<Cmd>)
      requires forall c :: c in cs ==> M.InWords(c)
      modifies this
      ensures State() == M.Run(old(State()), cs)
    {
      hide M.Step, M.InWords;
      var i := 0;
      assert cs[0..] == cs;
      while i < |cs|
        invariant 0 <= i <= |cs| && (forall c :: c in cs[i..] ==> M.InWords(c))
        invariant M.Run(State(), cs[i..]) == M.Run(old(State()), cs)
      {
        assert cs[i..][0] == cs[i] && cs[i..][1..] == cs[i + 1..];
        var _, _ := Execute(cs[i]);
        i := i + 1;
      }
    }
  }

  lemma ProductHasRoom(a: int, b: int)
    requires 0 < a < U128 && 0 < b < U128
    ensures 0 < a * b && a * b + 2 < WORD
  {
    Widths();
    hide Pow256;
    SquareHasRoom(a, b, U128, WORD);
  }

  lemma SquareHasRoom(a: int, b: int, u: int, square: int)
    requires 0 < a < u && 0 < b < u && 4 <= u && square == u * u
    ensures 0 < a * b && a * b + 2 < square
  {
    MulBoth(a, b, u - 1, u - 1);
    MulPos(a, b);
    assert (u - 1) * (u - 1) == u * u - 2 * u + 1;
  }

  lemma RootAboveOne(y: nat)
    requires 4 <= y
    ensures 2 <= Isqrt(y)
  {
    var r := Isqrt(y);
    if r < 2 {
      MulBoth(r + 1, r + 1, 2, 2);
    }
  }

  /** A Newton step from between the root and y / 2 + 1 wraps nothing and stays between them. */
  lemma StepFits(y: Word, x: Word, r: nat)
    requires y + 2 < WORD && 2 <= r <= x <= y / 2 + 1 && r * r <= y
    ensures 0 <= y / x < WORD && WAdd(y / x, x) == y / x + x
    ensures r <= (y / x + x) / 2 <= y / 2 + 1
  {
    NewtonStaysAbove(y, x, r);
    DivBounds(y, x);
    var q := y / x;
    MulMono(2, x, q);
    DivLargest(q, y, 2);
    AddExact(q, x);
  }
}
