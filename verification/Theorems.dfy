/**
 What holds over every run of transactions from a sound state of the ledger.
 */
module Theorems {
  import opened Words
  import opened Options
  import opened Balances
  import opened Quotes
  import opened Curve
  import opened World
  import opened Safety
  import opened Vaults
  import opened Runs
  import T = Tokens

  lemma {:induction false} RunKeeps(w: World, cs: seq<Cmd>)
    requires Inv(w)
    ensures Inv(Run(w, cs)) && SupplyKept(w, Run(w, cs))
    decreases |cs|
  {
    hide Inv, SupplyKept, Step, Good;
    KeptAlong(w, w, w);
    if cs != [] {
      StepGood(w, cs[0]);
      KeptAlong(w, Step(w, cs[0]), w);
      RunKeeps(Step(w, cs[0]), cs[1..]);
      KeptAlong(w, Step(w, cs[0]), Run(w, cs));
    }
  }

  /** Glue for RunKeeps: reflexivity, one step, and transitivity of SupplyKept. */
  lemma KeptAlong(w: World, w1: World, w2: World)
    ensures SupplyKept(w, w)
    ensures forall S :: Good(w, w1, S) ==> Inv(w1) && SupplyKept(w, w1)
    ensures SupplyKept(w, w1) && SupplyKept(w1, w2) ==> SupplyKept(w, w2)
  {
  }

  // ---- no run extracts value ----

  /** Pool p has liquidity at every point of the run. */
  ghost predicate StaysLive(w: World, cs: seq<Cmd>, p: Id)
    decreases |cs|
  {
    p in w.pools && 0 < w.pools[p].t && (cs != [] ==> StaysLive(Step(w, cs[0]), cs[1..], p))
  }

  lemma {:induction false} RunGrows(w: World, cs: seq<Cmd>, p: Id)
    requires Inv(w) && StaysLive(w, cs, p)
    ensures p in Run(w, cs).pools && 0 < Run(w, cs).pools[p].t
    ensures Grows(w.pools[p], Run(w, cs).pools[p])
    decreases |cs|
  {
    if cs != [] {
      var w1 := Step(w, cs[0]);
      StepGood(w, cs[0]);
      RunGrows(w1, cs[1..], p);
      RunKeeps(w1, cs[1..]);
      var s, s1, s2 := w.pools[p], w1.pools[p], Run(w, cs).pools[p];
      assert PoolOk(s) && PoolOk(s1) && PoolOk(s2);
      hide Step, Run;
      MulNonneg(s.ra, s.rb);
      MulNonneg(s2.ra, s2.rb);
      GrowsTransitive(s, s1, s2);
    }
  }

  /**
   Whatever users, routers and vaults do, as long as the pool is never emptied
   the reserve product per squared LP unit never falls; and a run that ends with
   the LP supply it began with cannot have lowered one reserve without raising
   the other.
   */
  lemma NoRunExtractsValue(w: World, cs: seq<Cmd>, p: Id)
    requires Inv(w) && StaysLive(w, cs, p)
    ensures p in Run(w, cs).pools
    ensures var s, s' := w.pools[p], Run(w, cs).pools[p];
            && Grows(s, s')
            && (s'.t == s.t ==> s.ra * s.rb <= s'.ra * s'.rb)
            && (s'.t == s.t && s'.ra <= s.ra && s'.rb <= s.rb ==> s'.ra == s.ra && s'.rb == s.rb)
  {
    RunGrows(w, cs, p);
    RunKeeps(w, cs);
    var s, s' := w.pools[p], Run(w, cs).pools[p];
    assert PoolOk(s) && PoolOk(s');
    if s'.t == s.t {
      NoFreeDrain(s, s');
    }
  }

  // ---- exit ----

  /** Paid in full: who receives exactly a of kA and b of kB, out of p. */
  ghost predicate PaidOut(w: World, w': World, p: Id, who: Id, kA: Id, a: int, kB: Id, b: int) {
    && BalOf(w', kA, who) == BalOf(w, kA, who) + a && BalOf(w', kB, who) == BalOf(w, kB, who) + b
    && BalOf(w', kA, p) == BalOf(w, kA, p) - a && BalOf(w', kB, p) == BalOf(w, kB, p) - b
  }

  /**
   In every sound state any LP holder can burn any part of their LP: the call
   does not fault, pays the quoted amounts in full, at least one of which is no
   smaller than the burn, and burning the last LP empties the pool's record.
   */
  lemma HolderCanExit(w: World, p: Id, holder: Id, burn: Word)
    requires Inv(w) && IsUser(w, holder) && 0 < burn <= LpOf(w, p, holder)
    ensures var s, r := w.pools[p], Exec(w, PoolRemove(p, holder, burn, 0, 0, holder, holder, 0));
            var (a, b) := RemoveAmounts(s.ra, s.rb, s.t, burn);
            && r.Done? && Inv(r.w)
            && PaidOut(w, r.w, p, holder, s.tokenA, a, s.tokenB, b)
            && (burn <= a || burn <= b)
            && LpOf(r.w, p, holder) == LpOf(w, p, holder) - burn
            && (burn == s.t ==> r.w.pools[p].ra == 0 == r.w.pools[p].rb && r.w.pools[p].t == 0)
  {
    var s := w.pools[p];
    assert PoolOk(s);
    ExitIsOpen(s, holder, burn);
    LpMeansLiquidity(s, holder);
    var c := PoolRemove(p, holder, burn, 0, 0, holder, holder, 0);
    assert Exec(w, c) == DoRemove(w, p, holder, burn, 0, 0, holder, holder, 0);
    RemoveEffect(w, p, holder, burn, 0, 0, holder, holder, 0);
    RemoveGood(w, p, holder, burn, 0, 0, holder, holder, 0);
    LiveTokens(w, p);
  }

  lemma LpMeansLiquidity(s: Pool, holder: Id)
    requires PoolOk(s) && 0 < Get(s.lp, holder)
    ensures 0 < s.t
  {
    EntryAtMostSum(s.lp, holder);
  }

  /** The same through a vault: every share can be redeemed for its part of the pool. */
  lemma ShareholderCanExit(w: World, v: Id, holder: Id, n: Word)
    requires Inv(w) && IsUser(w, holder) && v in w.vaults && 0 < n <= Get(w.vaults[v].shares, holder)
    ensures var u, r := w.vaults[v], Exec(w, VaultWithdraw(v, holder, n, 0, 0, 0));
            && u.pool in w.pools && r.Done? && Inv(r.w)
            && var s := w.pools[u.pool];
               var (a, b) := RemoveAmounts(s.ra, s.rb, s.t, n);
               PaidOut(w, r.w, u.pool, holder, s.tokenA, a, s.tokenB, b) && (n <= a || n <= b)
  {
    SharePrice(w, v, holder, n);
    hide *;
    WithdrawPays(w, v, holder, n, 0, 0, 0);
    WithdrawTransaction(w, v, holder, n, 0, 0, 0);
  }

  /** A withdrawal whose words a transaction can carry is that transaction; a deadline of 0 never passes. */
  lemma WithdrawTransaction(w: World, v: Id, holder: Id, n: Word, minA: Word, minB: Word, d: Word)
    requires IsUser(w, holder)
    ensures Exec(w, VaultWithdraw(v, holder, n, minA, minB, d)) == DoWithdraw(w, v, holder, n, minA, minB, d)
    ensures !Late(w, 0)
  {
    hide DoWithdraw;
  }

  /** What backs a holding of n shares: a live pool that prices a burn of n LP at its quote, one side at n or more. */
  lemma SharePrice(w: World, v: Id, holder: Id, n: nat)
    requires Inv(w) && v in w.vaults && 0 < n <= Get(w.vaults[v].shares, holder)
    ensures var u := w.vaults[v];
            && u.configured && u.pool in w.pools && 0 < w.pools[u.pool].t && n <= Get(w.pools[u.pool].lp, v)
            && var s := w.pools[u.pool];
               var (a, b) := RemoveAmounts(s.ra, s.rb, s.t, n);
               0 <= a && 0 <= b && (n <= a || n <= b)
  {
    ShareIsBacked(w, v, holder);
    var u := w.vaults[v];
    var s := w.pools[u.pool];
    assert PoolOk(s) && Get(u.shares, holder) <= Get(s.lp, v);
    hide Core, VaultsOk, PoolOk;
    ExitIsOpen(s, v, n);
    RemoveIff(s, v, n, 0, 0);
  }

  /** A withdrawal goes through exactly when in time, covered by shares, and quoted no less than its minimums; it then pays the quote. */
  lemma WithdrawPays(w: World, v: Id, holder: Id, n: nat, minA: nat, minB: nat, d: nat)
    requires Inv(w) && IsUser(w, holder) && v in w.vaults
    requires var u := w.vaults[v]; u.configured && u.pool in w.pools && 0 < w.pools[u.pool].t
    ensures var s, r := w.pools[w.vaults[v].pool], DoWithdraw(w, v, holder, n, minA, minB, d);
            var (a, b) := RemoveAmounts(s.ra, s.rb, s.t, n);
            && (r.Done? <==> 0 < n <= Get(w.vaults[v].shares, holder) && !Late(w, d) && minA <= a && minB <= b)
            && (r.Done? ==> Inv(r.w) && PaidOut(w, r.w, w.vaults[v].pool, holder, s.tokenA, a, s.tokenB, b))
  {
    WithdrawUnfolds(w, v, holder, n, minA, minB, d);
    var u := w.vaults[v];
    var s := w.pools[u.pool];
    assert PoolOk(s);
    RemoveIff(s, v, n, minA, minB);
    if 0 < n <= Get(u.shares, holder) {
      SharePrice(w, v, holder, n);
    }
    if DoWithdraw(w, v, holder, n, minA, minB, d).Done? {
      LiveTokens(w, u.pool);
      var u' := u.(total := u.total - n, shares := u.shares[holder := Get(u.shares, holder) - n]);
      hide Core, VaultsOk, Conserves, Spares, PoolOk, DoWithdraw, DoRemove, Remove, RemoveAmounts;
      VaultUpdateKeeps(w, v, u');
      RemovePays(WithVault(w, v, u'), u.pool, v, n, minA, minB, holder, d);
      WithdrawGood(w, v, holder, n, minA, minB, d);
    }
  }

  /** A burn that goes through pays the quoted amounts to its recipient, out of the pool. */
  lemma RemovePays(w: World, p: Id, caller: Id, burn: nat, minA: nat, minB: nat, to: Id, d: nat)
    requires Core(w) && p in w.pools && to != p && w.pools[p].tokenA != w.pools[p].tokenB
    requires DoRemove(w, p, caller, burn, minA, minB, to, to, d).Done?
    ensures var s, (a, b) := w.pools[p], RemoveAmounts(w.pools[p].ra, w.pools[p].rb, w.pools[p].t, burn);
            PaidOut(w, DoRemove(w, p, caller, burn, minA, minB, to, to, d).w, p, to, s.tokenA, a, s.tokenB, b)
  {
    RemoveEffect(w, p, caller, burn, minA, minB, to, to, d);
    var s := w.pools[p];
    assert Remove(s, caller, burn, minA, minB).value.1 == RemoveAmounts(s.ra, s.rb, s.t, burn).0;
    assert Remove(s, caller, burn, minA, minB).value.2 == RemoveAmounts(s.ra, s.rb, s.t, burn).1;
    hide Core, Conserves, Spares, DoRemove, Remove, RemoveAmounts;
  }

  /** A withdrawal is the vault's own checks, then the pool's. */
  lemma WithdrawUnfolds(w: World, v: Id, holder: Id, n: nat, minA: nat, minB: nat, d: nat)
    requires IsUser(w, holder) && v in w.vaults && w.vaults[v].configured && w.vaults[v].pool in w.pools
    ensures var u, r := w.vaults[v], DoWithdraw(w, v, holder, n, minA, minB, d);
            && (r.Done? <==> 0 < n <= Get(u.shares, holder) && !Late(w, d) && Remove(w.pools[u.pool], v, n, minA, minB).Some?)
            && (r.Done? ==>
                  r == DoRemove(WithVault(w, v, u.(total := u.total - n, shares := u.shares[holder := Get(u.shares, holder) - n])),
                                u.pool, v, n, minA, minB, holder, holder, d))
  {
    hide Remove, Pay;
  }

  // ---- no theft ----

  /**
   A user's balance falls only in a transaction they signed, or in a
   transfer_from by a party they had allowed at least that much, whose allowance
   falls with it. Approvals granted to a router, a vault or a pool cannot be
   spent by anyone else.
   */
  lemma OnlyTheOwnerSpends(w: World, c: Cmd, u: Id, k: Id)
    requires Inv(w) && IsUser(w, u) && BalOf(Step(w, c), k, u) < BalOf(w, k, u)
    ensures !c.Mine?
    ensures c.caller == u
            || (&& c.TokenTransferFrom? && c.from == u && c.token == k
                && 0 < c.amt <= AllowOf(w, k, u, c.caller)
                && BalOf(Step(w, c), k, u) >= BalOf(w, k, u) - c.amt
                && AllowOf(Step(w, c), k, u, c.caller) == AllowOf(w, k, u, c.caller) - c.amt)
  {
    StepGood(w, c);
    assert u in MayPay(w, c);
    if !c.Mine? && c.caller != u {
      TransferFromGood(w, c.token, c.caller, c.from, c.to, c.amt);
      T.TransferFromEffect(w.tokens[c.token], c.caller, c.from, c.to, c.amt);
    }
  }
}
