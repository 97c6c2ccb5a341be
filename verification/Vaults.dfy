/**
 Vault deposits and withdrawals, and the 1:1 backing of vault shares by the
 vault's own LP.
 */
module Vaults {
  import opened Words
  import opened Options
  import opened Balances
  import opened Quotes
  import opened Curve
  import opened World
  import opened Safety

  /**
   Shares are 1:1 with the vault's own LP: the share balances add up to the
   total, the total is the LP the configured pool credits to the vault, no other
   pool credits it anything, and the vault leaves no allowance behind.
   */
  ghost predicate VaultOk(w: World, v: Id)
    requires v in w.vaults
  {
    var u := w.vaults[v];
    && Nonneg(u.shares) && Sum(u.shares) == u.total
    && (u.configured ==> u.tokenA != u.tokenB)
    && (!u.configured ==> u.total == 0)
    && (forall p :: LpOf(w, p, v) == if u.configured && p == u.pool then u.total else 0)
    && (forall k, s :: AllowOf(w, k, v, s) == 0)
  }

  ghost predicate VaultsOk(w: World) {
    forall v :: v in w.vaults ==> VaultOk(w, v)
  }

  /** Everything a step of other accounts must leave alone for the vaults to stay in order. */
  lemma VaultsFramed(w: World, w': World)
    requires VaultsOk(w) && w'.vaults == w.vaults
    requires forall v, p :: v in w.vaults ==> LpOf(w', p, v) == LpOf(w, p, v)
    requires forall v, k, s :: v in w.vaults ==> AllowOf(w', k, v, s) == AllowOf(w, k, v, s)
    ensures VaultsOk(w')
  {
    forall v | v in w'.vaults ensures VaultOk(w', v) {
      assert VaultOk(w, v);
      forall k, s ensures AllowOf(w', k, v, s) == 0 { assert AllowOf(w, k, v, s) == 0; }
      forall p ensures LpOf(w', p, v) == if w'.vaults[v].configured && p == w'.vaults[v].pool then w'.vaults[v].total else 0 {
        assert LpOf(w', p, v) == LpOf(w, p, v);
      }
    }
  }

  lemma VaultUpdateKeeps(w: World, v: Id, u: Vault)
    requires Core(w) && v in w.vaults
    ensures var w' := WithVault(w, v, u);
            && Core(w') && Conserves(w, w') && w'.pools == w.pools && w'.tokens == w.tokens
            && (forall k, x :: BalOf(w', k, x) == BalOf(w, k, x))
            && (forall k, o, s :: AllowOf(w', k, o, s) == AllowOf(w, k, o, s))
            && (forall p, x :: LpOf(w', p, x) == LpOf(w, p, x))
            && Spares(w, w', {}) && w'.vaults == w.vaults[v := u]
  {
    var w' := WithVault(w, v, u);
    assert w'.vaults.Keys == w.vaults.Keys;
    forall p | p in w'.pools ensures Covered(w', p) {
      assert Covered(w, p);
      forall k ensures Owed(w'.pools[p], k) <= BalOf(w', k, p) { assert Owed(w.pools[p], k) <= BalOf(w, k, p); }
    }
    forall k, p, s | p in w'.pools ensures AllowOf(w', k, p, s) == 0 { assert AllowOf(w, k, p, s) == 0; }
  }

  ghost predicate TwoShifts(w: World, w': World, kA: Id, kB: Id, from: Id, to: Id, a: int, b: int) {
    forall k, x :: BalOf(w', k, x) == BalOf(w, k, x)
      + (if k == kA then Delta(x, from, to, a) else 0)
      + (if k == kB then Delta(x, from, to, b) else 0)
  }

  /** A vault's two pulls from the depositor. */
  lemma PullBoth(w: World, v: Id, caller: Id, kA: Id, kB: Id, a: nat, b: nat) returns (w': World)
    requires Core(w) && caller !in w.pools && caller != v && kA != kB
    requires Pull(w, kA, v, caller, a).Some? && Pull(Pull(w, kA, v, caller, a).value, kB, v, caller, b).Some?
    ensures w' == Pull(Pull(w, kA, v, caller, a).value, kB, v, caller, b).value
    ensures kA in w'.tokens && kB in w'.tokens
    ensures forall k, s :: AllowOf(w', k, v, s) == AllowOf(w, k, v, s)
    ensures Core(w') && Conserves(w, w') && SameContracts(w, w') && Spares(w, w', {caller})
    ensures TwoShifts(w, w', kA, kB, caller, v, a, b)
  {
    PullEffect(w, kA, v, caller, a);
    var w1 := Pull(w, kA, v, caller, a).value;
    PullEffect(w1, kB, v, caller, b);
    w' := Pull(w1, kB, v, caller, b).value;
  }

  /** The vault's two approvals to its pool. */
  lemma ApproveBoth(w: World, v: Id, kA: Id, kB: Id, pool: Id, a: nat, b: nat) returns (w': World)
    requires Core(w) && v !in w.pools && kA != kB && kA in w.tokens && kB in w.tokens && a < WORD && b < WORD
    ensures ApproveCall(ApproveCall(w, kA, v, pool, a).value, kB, v, pool, b) == Some(w')
    ensures Core(w') && Conserves(w, w') && SameContracts(w, w') && Spares(w, w', {v})
    ensures forall k, x :: BalOf(w', k, x) == BalOf(w, k, x)
    ensures forall k, s :: AllowOf(w', k, v, s) ==
                  if k == kA && s == pool then a else if k == kB && s == pool then b else AllowOf(w, k, v, s)
  {
    ApproveEffect(w, kA, v, pool, a);
    var w1 := ApproveCall(w, kA, v, pool, a).value;
    ApproveEffect(w1, kB, v, pool, b);
    w' := ApproveCall(w1, kB, v, pool, b).value;
  }

  lemma Compose(w: World, w1: World, w2: World, S1: set<Id>, S2: set<Id>)
    requires Conserves(w, w1) && Conserves(w1, w2) && Spares(w, w1, S1) && Spares(w1, w2, S2)
    ensures Conserves(w, w2) && Spares(w, w2, S1 + S2)
  {
    forall k, x | x !in S1 + S2 ensures BalOf(w, k, x) <= BalOf(w2, k, x) {
      assert BalOf(w, k, x) <= BalOf(w1, k, x) <= BalOf(w2, k, x);
    }
    forall k, o, s | o !in S1 + S2 ensures AllowOf(w2, k, o, s) == AllowOf(w, k, o, s) {
      assert AllowOf(w2, k, o, s) == AllowOf(w1, k, o, s) == AllowOf(w, k, o, s);
    }
  }

  ghost predicate Approved(w: World, v: Id, u: Vault, a: nat, b: nat) {
    forall k, s :: AllowOf(w, k, v, s) ==
      if k == u.tokenA && s == u.pool then a else if k == u.tokenB && s == u.pool then b else 0
  }

  lemma PreludeEffect(w: World, v: Id, caller: Id, a: nat, b: nat)
    requires Core(w) && IsUser(w, caller) && v in w.vaults && a < WORD && b < WORD
    requires w.vaults[v].tokenA != w.vaults[v].tokenB && DepositPrelude(w, v, caller, a, b).Some?
    requires forall k, s :: AllowOf(w, k, v, s) == 0
    ensures var w', u := DepositPrelude(w, v, caller, a, b).value, w.vaults[v];
            && Core(w') && Conserves(w, w') && SameContracts(w, w') && Spares(w, w', {caller, v})
            && TwoShifts(w, w', u.tokenA, u.tokenB, caller, v, a, b)
            && Approved(w', v, u, a, b)
  {
    var u := w.vaults[v];
    assert v !in w.pools && caller !in w.pools && caller != v;
    hide Core, Conserves, Spares, Pull, ApproveCall, TwoShifts, BalOf, AllowOf, Approved;
    var w2 := PullBoth(w, v, caller, u.tokenA, u.tokenB, a, b);
    var w3 := ApproveBoth(w2, v, u.tokenA, u.tokenB, u.pool, a, b);
    Compose(w, w2, w3, {caller}, {v});
    assert {caller} + {v} == {caller, v};
    OnlyThese(w, w2, w3, v, u, a, b);
    SameShifts(w, w2, w3, u, caller, v, a, b);
  }

  lemma OnlyThese(w: World, w2: World, w3: World, v: Id, u: Vault, a: nat, b: nat)
    requires forall k, s :: AllowOf(w, k, v, s) == 0
    requires forall k, s :: AllowOf(w2, k, v, s) == AllowOf(w, k, v, s)
    requires forall k, s :: AllowOf(w3, k, v, s) ==
               if k == u.tokenA && s == u.pool then a else if k == u.tokenB && s == u.pool then b else AllowOf(w2, k, v, s)
    ensures Approved(w3, v, u, a, b)
  {
    hide AllowOf;
  }

  lemma SameShifts(w: World, w2: World, w3: World, u: Vault, caller: Id, v: Id, a: nat, b: nat)
    requires TwoShifts(w, w2, u.tokenA, u.tokenB, caller, v, a, b) && forall k, x :: BalOf(w3, k, x) == BalOf(w2, k, x)
    ensures TwoShifts(w, w3, u.tokenA, u.tokenB, caller, v, a, b)
  {
    hide BalOf;
  }

  /**
   The pool can only have pulled what the vault had approved, so its tokens are
   the vault's (possibly crossed, and then a == b) and nothing is left over.
   */
  lemma NothingLeft(w: World, w1: World, w2: World, v: Id, u: Vault, s: Pool, a: nat, b: nat, caller: Id)
    requires v != caller && v != u.pool && 0 < a && 0 < b
    requires u.tokenA != u.tokenB && s.tokenA != s.tokenB
    requires Approved(w1, v, u, a, b) && TwoShifts(w, w1, u.tokenA, u.tokenB, caller, v, a, b)
    requires a <= AllowOf(w1, s.tokenA, v, u.pool) && b <= AllowOf(w1, s.tokenB, v, u.pool)
    requires TwoShifts(w1, w2, s.tokenA, s.tokenB, v, u.pool, a, b)
    requires forall k, o, z :: AllowOf(w2, k, o, z) == AllowOf(w1, k, o, z)
                  - (if (k, o, z) == (s.tokenA, v, u.pool) then a else 0)
                  - (if (k, o, z) == (s.tokenB, v, u.pool) then b else 0)
    ensures forall k :: BalOf(w2, k, v) == BalOf(w, k, v)
    ensures forall k, z :: AllowOf(w2, k, v, z) == 0
  {
  }

  /** The pool call inside a deposit, seen from before the deposit. */
  lemma DepositSettles(w: World, v: Id, caller: Id, a: nat, b: nat, min: nat, d: nat) returns (w2: World)
    requires Core(w) && VaultsOk(w) && IsUser(w, caller) && a < WORD && b < WORD
    requires DoDeposit(w, v, caller, a, b, min, d).Done?
    ensures var u := w.vaults[v];
            && u.pool in w.pools && Add(w.pools[u.pool], v, a, b, min).Some?
            && DoAdd(DepositPrelude(w, v, caller, a, b).value, u.pool, v, a, b, min, d)
               == Done(w2, Add(w.pools[u.pool], v, a, b, min).value.1)
            && Add(w.pools[u.pool], v, a, b, min).value.1 > 0
            && w2.pools == w.pools[u.pool := Add(w.pools[u.pool], v, a, b, min).value.0]
            && w2.vaults == w.vaults
    ensures Core(w2) && Conserves(w, w2) && Spares(w, w2, {caller, v})
    ensures forall k :: BalOf(w2, k, v) == BalOf(w, k, v)
    ensures forall k, s :: AllowOf(w2, k, v, s) == 0
  {
    DepositUnfolds(w, v, caller, a, b, min, d);
    var u := w.vaults[v];
    assert VaultOk(w, v) && v !in w.pools;
    var w1 := DepositPrelude(w, v, caller, a, b).value;
    hide DoDeposit, DepositPrelude, DoAdd, Add, Conserves, Spares, TwoShifts, Approved;
    PreludeEffect(w, v, caller, a, b);
    hide *;
    AddPulled(w1, u.pool, v, a, b, min, d);
    AddEffect(w1, u.pool, v, a, b, min, d);
    w2 := DoAdd(w1, u.pool, v, a, b, min, d).w;
    Compose(w, w1, w2, {caller, v}, {v});
    assert {caller, v} + {v} == {caller, v};
    NothingLeft(w, w1, w2, v, u, w.pools[u.pool], a, b, caller);
  }

  lemma DepositUnfolds(w: World, v: Id, caller: Id, a: nat, b: nat, min: nat, d: nat)
    requires DoDeposit(w, v, caller, a, b, min, d).Done?
    ensures v in w.vaults && w.vaults[v].configured && 0 < a && 0 < b && DepositPrelude(w, v, caller, a, b).Some?
    ensures DoAdd(DepositPrelude(w, v, caller, a, b).value, w.vaults[v].pool, v, a, b, min, d).Done?
  {
    hide DepositPrelude, DoAdd;
  }

  /**
   A deposit that goes through: LP and shares both grow by the return word, the
   vault's own token balances end where they began, and no allowance is left.
   */
  lemma DepositEffect(w: World, v: Id, caller: Id, a: nat, b: nat, min: nat, d: nat)
    requires Core(w) && VaultsOk(w) && IsUser(w, caller) && a < WORD && b < WORD
    requires DoDeposit(w, v, caller, a, b, min, d).Done?
    ensures v in w.vaults && w.vaults[v].configured
    ensures var w', n := DoDeposit(w, v, caller, a, b, min, d).w, DoDeposit(w, v, caller, a, b, min, d).ret;
            var u := w.vaults[v];
            && Core(w') && Conserves(w, w') && Spares(w, w', {caller, v})
            && u.pool in w.pools && Add(w.pools[u.pool], v, a, b, min).Some?
            && w'.pools == w.pools[u.pool := Add(w.pools[u.pool], v, a, b, min).value.0]
            && n == Add(w.pools[u.pool], v, a, b, min).value.1 > 0
            && w'.vaults == w.vaults[v := u.(total := u.total + n, shares := u.shares[caller := Get(u.shares, caller) + n])]
            && (forall k :: BalOf(w', k, v) == BalOf(w, k, v))
            && (forall k, s :: AllowOf(w', k, v, s) == 0)
  {
    hide Core, VaultsOk, DoAdd, DepositPrelude, Add;
    var u := w.vaults[v];
    var w2 := DepositSettles(w, v, caller, a, b, min, d);
    var n := Add(w.pools[u.pool], v, a, b, min).value.1;
    var u' := u.(total := u.total + n, shares := u.shares[caller := Get(u.shares, caller) + n]);
    assert DoDeposit(w, v, caller, a, b, min, d) == Done(WithVault(w2, v, u'), n);
    VaultUpdateKeeps(w2, v, u');
  }

  /** A withdrawal burns the vault's LP along with the shares and the pool pays the holder directly. */
  lemma WithdrawEffect(w: World, v: Id, caller: Id, n: nat, minA: nat, minB: nat, d: nat)
    requires Core(w) && VaultsOk(w) && IsUser(w, caller)
    requires DoWithdraw(w, v, caller, n, minA, minB, d).Done?
    ensures v in w.vaults && w.vaults[v].configured && n <= Get(w.vaults[v].shares, caller)
    ensures var w', u := DoWithdraw(w, v, caller, n, minA, minB, d).w, w.vaults[v];
            && u.pool in w.pools && Remove(w.pools[u.pool], v, n, minA, minB).Some?
            && Core(w') && Conserves(w, w') && Spares(w, w', {u.pool})
            && w'.pools == w.pools[u.pool := Remove(w.pools[u.pool], v, n, minA, minB).value.0]
            && w'.vaults == w.vaults[v := u.(total := u.total - n, shares := u.shares[caller := Get(u.shares, caller) - n])]
            && (forall k, o, s :: AllowOf(w', k, o, s) == AllowOf(w, k, o, s))
  {
    hide *;
    WithdrawChecks(w, v, caller, n, minA, minB, d);
    var u := w.vaults[v];
    ShareIsBacked(w, v, caller);
    WithdrawCallsPool(w, v, caller, n, minA, minB, d);
    var u' := u.(total := u.total - n, shares := u.shares[caller := Get(u.shares, caller) - n]);
    var w1 := WithVault(w, v, u');
    VaultUpdateKeeps(w, v, u');
    RemoveEffect(w1, u.pool, v, n, minA, minB, caller, caller, d);
    var w2 := DoRemove(w1, u.pool, v, n, minA, minB, caller, caller, d).w;
    Compose(w, w1, w2, {}, {u.pool});
    assert {} + {u.pool} == {u.pool};
  }

  lemma WithdrawChecks(w: World, v: Id, caller: Id, n: nat, minA: nat, minB: nat, d: nat)
    requires DoWithdraw(w, v, caller, n, minA, minB, d).Done?
    ensures v in w.vaults && w.vaults[v].configured && 0 < n <= Get(w.vaults[v].shares, caller)
  {
    hide DoRemove, CallNonPool;
  }

  lemma WithdrawCallsPool(w: World, v: Id, caller: Id, n: nat, minA: nat, minB: nat, d: nat)
    requires v in w.vaults && w.vaults[v].pool in w.pools && DoWithdraw(w, v, caller, n, minA, minB, d).Done?
    ensures var u := w.vaults[v];
            DoWithdraw(w, v, caller, n, minA, minB, d)
            == DoRemove(WithVault(w, v, u.(total := u.total - n, shares := u.shares[caller := Get(u.shares, caller) - n])),
                        u.pool, v, n, minA, minB, caller, caller, d)
  {
    hide DoRemove, CallNonPool;
  }

  /** Whoever holds shares holds them in a vault whose pool is live and credits at least as much LP. */
  lemma ShareIsBacked(w: World, v: Id, holder: Id)
    requires Core(w) && VaultsOk(w) && v in w.vaults && 0 < Get(w.vaults[v].shares, holder)
    ensures var u := w.vaults[v];
            && u.configured && u.pool in w.pools
            && Get(u.shares, holder) <= u.total == LpOf(w, u.pool, v) <= w.pools[u.pool].t
  {
    var u := w.vaults[v];
    assert VaultOk(w, v);
    EntryAtMostSum(u.shares, holder);
    assert LpOf(w, u.pool, v) == u.total;
    assert PoolOk(w.pools[u.pool]);
    EntryAtMostSum(w.pools[u.pool].lp, v);
  }
}
