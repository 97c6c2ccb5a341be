/**
 What no run can change: the pair of a configured pool, the pool and pair of a
 configured vault, and, without the fee admin, the fee of a pool with liquidity.
 */
module Settings {
  import opened Words
  import opened Options
  import opened Balances
  import opened Quotes
  import opened Curve
  import opened World
  import opened Safety
  import opened Routes
  import opened Vaults
  import opened Runs
  import opened Theorems

  /** From s to s' template, pair and fee admin are the same, and so is the fee, unless a first deposit set it to 0.3%. */
  ghost predicate PoolSettled(s: Pool, s': Pool) {
    && s'.version == s.version && s'.configured == s.configured && s'.tokenA == s.tokenA && s'.tokenB == s.tokenB
    && s'.feeAdmin == s.feeAdmin
    && (s'.fee == s.fee || (s.t == 0 && s.fee == 0 && s'.fee == 30 && 0 < s'.t))
  }

  /** The three calls that set something, each as the pool's version demands: v11 binds and asks for its admin throughout. */
  ghost predicate Reset(w: World, c: Cmd, w': World) {
    && (c.PoolSetFee? || c.PoolSetAdmin? || c.PoolSetTokens?) && c.pool in w.pools
    && var s := w.pools[c.pool];
       && (c.PoolSetFee? ==>
             && (0 < s.t || s.version.V11? ==> c.caller == s.feeAdmin) && 1 <= c.fee <= 10_000
             && w'.pools == w.pools[c.pool := s.(fee := c.fee)])
       && (c.PoolSetAdmin? ==>
             && s.t == 0 && (s.version.V11? ==> c.caller == s.feeAdmin)
             && w'.pools == w.pools[c.pool := s.(feeAdmin := c.admin)])
       && (c.PoolSetTokens? ==>
             && !s.configured
             && w'.pools == w.pools[c.pool := s.(configured := true, tokenA := c.a, tokenB := c.b,
                                                 feeAdmin := if s.version.V11? then c.caller else s.feeAdmin)])
  }

  ghost predicate VaultSettled(u: Vault, u': Vault) {
    u.configured ==> u'.configured && u'.pool == u.pool && u'.tokenA == u.tokenA && u'.tokenB == u.tokenB
  }

  ghost predicate PoolsSettled(w: World, w': World) {
    w'.pools.Keys == w.pools.Keys && forall p :: p in w.pools ==> PoolSettled(w.pools[p], w'.pools[p])
  }

  ghost predicate VaultsSettled(w: World, w': World) {
    w'.vaults.Keys == w.vaults.Keys && forall v :: v in w.vaults ==> VaultSettled(w.vaults[v], w'.vaults[v])
  }

  lemma PriceStepsSettle(s: Pool)
    requires PoolOk(s)
    ensures forall caller, a: nat, b: nat, min: nat :: Add(s, caller, a, b, min).Some? ==> PoolSettled(s, Add(s, caller, a, b, min).value.0)
    ensures forall caller, n: nat, minA: nat, minB: nat ::
              Remove(s, caller, n, minA, minB).Some? ==> PoolSettled(s, Remove(s, caller, n, minA, minB).value.0)
    ensures forall dir: nat, ain: nat, min: nat :: Swap(s, dir, ain, min).Some? ==> PoolSettled(s, Swap(s, dir, ain, min).value.0)
  {
    forall caller, a: nat, b: nat, min: nat | Add(s, caller, a, b, min).Some?
      ensures PoolSettled(s, Add(s, caller, a, b, min).value.0)
    {
      AddGrows(s, caller, a, b, min);
    }
    hide LpFor, AfterFee;
  }

  lemma OnePoolSettles(w: World, w': World, p: Id, s: Pool)
    requires p in w.pools && w'.pools == w.pools[p := s] && PoolSettled(w.pools[p], s)
    ensures PoolsSettled(w, w')
  {
  }

  lemma TradedSettles(w: World, w': World)
    requires w'.pools.Keys == w.pools.Keys && AllTraded(w, w')
    ensures PoolsSettled(w, w')
  {
    forall p | p in w.pools ensures PoolSettled(w.pools[p], w'.pools[p]) {
      assert Traded(w.pools[p], w'.pools[p]);
    }
  }

  lemma PoolCmdSettles(w: World, c: Cmd)
    requires Inv(w) && Signed(w, c) && Exec(w, c).Done?
    requires c.PoolAdd? || c.PoolRemove? || c.PoolSwap?
    ensures PoolsSettled(w, Exec(w, c).w) && Exec(w, c).w.vaults == w.vaults
  {
    var p, w' := c.pool, Exec(w, c).w;
    var s := w.pools[p];
    assert PoolOk(s);
    PriceStepsSettle(s);
    hide Add, Remove, Swap;
    match c
    case PoolAdd(_, caller, a, b, min, d) =>
      AddEffect(w, p, caller, a, b, min, d);
      OnePoolSettles(w, w', p, Add(s, caller, a, b, min).value.0);
    case PoolRemove(_, caller, n, minA, minB, toA, toB, d) =>
      RemoveEffect(w, p, caller, n, minA, minB, toA, toB, d);
      OnePoolSettles(w, w', p, Remove(s, caller, n, minA, minB).value.0);
    case PoolSwap(_, caller, dir, ain, min, to, d) =>
      SwapEffect(w, p, caller, dir, ain, min, to, d);
      OnePoolSettles(w, w', p, Swap(s, dir, ain, min).value.0);
    case _ =>
  }

  lemma VaultCmdSettles(w: World, c: Cmd)
    requires Inv(w) && Signed(w, c) && Exec(w, c).Done?
    requires c.VaultConfigure? || c.VaultDeposit? || c.VaultWithdraw? || c.VaultTransferShares?
    ensures PoolsSettled(w, Exec(w, c).w) && VaultsSettled(w, Exec(w, c).w)
  {
    var v, w' := c.vault, Exec(w, c).w;
    match c
    case VaultDeposit(_, caller, a, b, min, d) =>
      hide DoDeposit;
      DepositEffect(w, v, caller, a, b, min, d);
      var p := w.vaults[v].pool;
      assert PoolOk(w.pools[p]);
      PriceStepsSettle(w.pools[p]);
      hide Add;
      OnePoolSettles(w, w', p, Add(w.pools[p], v, a, b, min).value.0);
    case VaultWithdraw(_, caller, n, minA, minB, d) =>
      hide DoWithdraw;
      WithdrawEffect(w, v, caller, n, minA, minB, d);
      var p := w.vaults[v].pool;
      assert PoolOk(w.pools[p]);
      PriceStepsSettle(w.pools[p]);
      hide Remove;
      OnePoolSettles(w, w', p, Remove(w.pools[p], v, n, minA, minB).value.0);
    case _ =>
  }

  /** Every transaction settles every vault, and every pool but one that it resets as that pool demands. */
  lemma StepSettles(w: World, c: Cmd)
    requires Inv(w)
    ensures VaultsSettled(w, Step(w, c))
    ensures PoolsSettled(w, Step(w, c)) || Reset(w, c, Step(w, c))
  {
    if Exec(w, c).Done? {
      if c.RouterSwap? {
        hide DoRoute;
        RouteKeeps(w, c.router, c.caller, c.hops, c.ain, c.min, c.to, c.deadline);
        TradedSettles(w, Step(w, c));
      } else if c.VaultConfigure? || c.VaultDeposit? || c.VaultWithdraw? || c.VaultTransferShares? {
        VaultCmdSettles(w, c);
      } else if c.PoolAdd? || c.PoolRemove? || c.PoolSwap? {
        PoolCmdSettles(w, c);
      }
    }
  }

  /** Who can set the fee: its admin always, and anyone while a v8, v9 or v10 pool is empty. */
  lemma FeeIsOpenIff(w: World, p: Id, caller: Id, fee: Word)
    ensures Exec(w, PoolSetFee(p, caller, fee)).Done? <==>
            && IsUser(w, caller) && p in w.pools && 1 <= fee <= 10_000
            && (caller == w.pools[p].feeAdmin || (w.pools[p].t == 0 && !w.pools[p].version.V11?))
  {
  }

  /** In every run, a configured pool keeps its pair and a configured vault its pool and pair. */
  lemma {:induction false} PairsAreFixed(w: World, cs: seq<Cmd>, p: Id, v: Id)
    requires Inv(w)
    ensures p in w.pools && w.pools[p].configured ==>
              && p in Run(w, cs).pools && Run(w, cs).pools[p].configured
              && Run(w, cs).pools[p].tokenA == w.pools[p].tokenA && Run(w, cs).pools[p].tokenB == w.pools[p].tokenB
    ensures v in w.vaults ==> v in Run(w, cs).vaults && VaultSettled(w.vaults[v], Run(w, cs).vaults[v])
    decreases |cs|
  {
    if cs != [] {
      StepSettles(w, cs[0]);
      StepGood(w, cs[0]);
      hide Step, Core, VaultsOk;
      PairsAreFixed(Step(w, cs[0]), cs[1..], p, v);
    }
  }

  /** In every run that keeps a pool live, its fee admin stays, and its fee changes only if that admin sets it. */
  lemma {:induction false} FeeNeedsAdmin(w: World, cs: seq<Cmd>, p: Id)
    requires Inv(w) && StaysLive(w, cs, p)
    ensures p in Run(w, cs).pools && Run(w, cs).pools[p].feeAdmin == w.pools[p].feeAdmin
    ensures Run(w, cs).pools[p].fee != w.pools[p].fee ==>
            exists i :: 0 <= i < |cs| && cs[i].PoolSetFee? && cs[i].pool == p && cs[i].caller == w.pools[p].feeAdmin
    decreases |cs|
  {
    if cs != [] {
      var w1 := Step(w, cs[0]);
      StepSettles(w, cs[0]);
      StepGood(w, cs[0]);
      hide Step, Core, VaultsOk;
      FeeNeedsAdmin(w1, cs[1..], p);
      if w1.pools[p].fee != w.pools[p].fee {
        assert cs[0].PoolSetFee? && cs[0].pool == p && cs[0].caller == w.pools[p].feeAdmin;
      } else if Run(w, cs).pools[p].fee != w.pools[p].fee {
        var i :| 0 <= i < |cs[1..]| && cs[1..][i].PoolSetFee? && cs[1..][i].pool == p && cs[1..][i].caller == w1.pools[p].feeAdmin;
        assert cs[i + 1] == cs[1..][i];
      }
    }
  }
}
