/**
 Every transaction, and so every run from a fresh deployment, keeps all the
 contracts sound; no run extracts value from a pool; no one can be robbed.
 */
module Runs {
  import opened Words
  import opened Options
  import opened Balances
  import opened Quotes
  import opened Curve
  import opened World
  import opened Safety
  import opened Routes
  import opened Vaults
  import T = Tokens

  ghost predicate Inv(w: World) {
    Core(w) && VaultsOk(w)
  }

  /** Same contracts; the supply of a minted token is fixed for good. */
  ghost predicate SupplyKept(w: World, w': World) {
    && w'.tokens.Keys == w.tokens.Keys && w'.pools.Keys == w.pools.Keys
    && w'.vaults.Keys == w.vaults.Keys && w'.routers == w.routers
    && (forall k :: k in w.tokens && w.tokens[k].minted ==>
          w'.tokens[k].minted && Sum(w'.tokens[k].bal) == Sum(w.tokens[k].bal))
  }

  ghost predicate AllGrow(w: World, w': World)
    requires w'.pools.Keys == w.pools.Keys
  {
    forall p :: p in w.pools ==> Grows(w.pools[p], w'.pools[p])
  }

  /** The verdict on one transaction: S are the accounts it may take tokens from. */
  ghost predicate Good(w: World, w': World, S: set<Id>) {
    Core(w') && VaultsOk(w') && SupplyKept(w, w') && AllGrow(w, w') && Spares(w, w', S)
  }

  // ---- one lemma per kind of transaction ----

  lemma SamePoolsGrow(w: World, w': World)
    requires w'.pools == w.pools
    ensures AllGrow(w, w')
  {
  }

  lemma OnePoolGrows(w: World, w': World, p: Id, s: Pool)
    requires p in w.pools && w'.pools == w.pools[p := s] && Grows(w.pools[p], s)
    ensures w'.pools.Keys == w.pools.Keys && AllGrow(w, w')
  {
  }

  /** A pool step by a caller that is no vault leaves every vault in order. */
  lemma VaultsUntouched(w: World, w': World, p: Id, s: Pool, S: set<Id>, caller: Id)
    requires VaultsOk(w) && Ids(w) && w'.vaults == w.vaults && Spares(w, w', S) && S !! w.vaults.Keys
    requires p in w.pools && w'.pools == w.pools[p := s] && caller !in w.vaults
    requires forall x :: x != caller ==> Get(s.lp, x) == Get(w.pools[p].lp, x)
    ensures VaultsOk(w')
  {
    VaultsFramed(w, w');
  }

  lemma TokenStepGood(w: World, k: Id, t: Token, from: Id, to: Id, amt: int, S: set<Id>)
    requires Inv(w) && k in w.tokens && T.TokenOk(t) && 0 <= amt
    requires T.Moved(w.tokens[k], t, from, to, amt) && from !in w.pools && from in S && S !! w.vaults.Keys && S !! w.pools.Keys
    requires forall o, s :: o !in S ==> T.Allow(t, o, s) == T.Allow(w.tokens[k], o, s)
    ensures Good(w, WithToken(w, k, t), S)
  {
    var w' := WithToken(w, k, t);
    forall p, s | p in w.pools ensures T.Allow(t, p, s) == 0 {
      assert AllowOf(w, k, p, s) == 0;
    }
    TokenUpdateKeeps(w, k, t, from, to, amt);
    VaultsFramed(w, w');
    SamePoolsGrow(w, w');
  }

  lemma TransferGood(w: World, k: Id, caller: Id, to: Id, amt: nat)
    requires Inv(w) && IsUser(w, caller) && k in w.tokens
    ensures Good(w, WithToken(w, k, T.Transfer(w.tokens[k], caller, to, amt)), {caller})
  {
    var t := w.tokens[k];
    if amt <= T.Bal(t, caller) {
      T.TransferEffect(t, caller, to, amt);
      TokenStepGood(w, k, T.Transfer(t, caller, to, amt), caller, to, amt, {caller});
    } else {
      T.TransferShort(t, caller, to, amt);
      TokenStepGood(w, k, T.Touch(t, caller), caller, caller, 0, {caller});
    }
  }

  lemma ApproveGood(w: World, k: Id, caller: Id, spender: Id, amt: nat)
    requires Inv(w) && IsUser(w, caller) && k in w.tokens && amt < WORD
    ensures Good(w, WithToken(w, k, T.Approve(w.tokens[k], caller, spender, amt)), {caller})
  {
    TokenStepGood(w, k, T.Approve(w.tokens[k], caller, spender, amt), caller, caller, 0, {caller});
  }

  /** transfer_from by a third party can only take what the owner has allowed that party. */
  lemma TransferFromGood(w: World, k: Id, caller: Id, from: Id, to: Id, amt: nat)
    requires Inv(w) && IsUser(w, caller) && k in w.tokens
    ensures var r := T.TransferFrom(w.tokens[k], caller, from, to, amt);
            && Good(w, WithToken(w, k, r.0), {caller, from})
            && (r.1 ==> amt <= AllowOf(w, k, from, caller))
            && (r.1 ==> AllowOf(WithToken(w, k, r.0), k, from, caller) == AllowOf(w, k, from, caller) - amt)
            && (!r.1 ==> forall j, x :: BalOf(WithToken(w, k, r.0), j, x) == BalOf(w, j, x))
  {
    var t := w.tokens[k];
    var r := T.TransferFrom(t, caller, from, to, amt);
    T.TransferFromEffect(t, caller, from, to, amt);
    if r.1 {
      // the owner granted an allowance, so it is neither a pool nor a vault
      assert AllowOf(w, k, from, caller) > 0;
      assert from in w.vaults ==> VaultOk(w, from);
      TokenStepGood(w, k, r.0, from, to, amt, {caller, from});
    } else {
      TokenStepGood(w, k, r.0, caller, caller, 0, {caller});
    }
  }

  lemma MintGood(w: World, k: Id, caller: Id, to: Id, amt: nat)
    requires Inv(w) && IsUser(w, caller) && k in w.tokens && amt < WORD
    ensures Good(w, WithToken(w, k, T.MintFirst(w.tokens[k], caller, to, amt)), {caller})
  {
    var t := w.tokens[k];
    var t' := T.MintFirst(t, caller, to, amt);
    T.MintEffect(t, caller, to, amt);
    var w' := WithToken(w, k, t');
    assert forall j, x :: BalOf(w, j, x) <= BalOf(w', j, x);
    assert forall j, o, s :: AllowOf(w', j, o, s) == AllowOf(w, j, o, s);
    forall p | p in w'.pools ensures Covered(w', p) {
      assert Covered(w, p);
      forall j ensures Owed(w'.pools[p], j) <= BalOf(w', j, p) { assert Owed(w.pools[p], j) <= BalOf(w, j, p); }
    }
    VaultsFramed(w, w');
  }

  /** Changing only a pool's settings. */
  lemma SettingsGood(w: World, p: Id, s: Pool, S: set<Id>)
    requires Inv(w) && p in w.pools
    requires PoolOk(s) && s.lp == w.pools[p].lp && s.ra == w.pools[p].ra && s.rb == w.pools[p].rb && s.t == w.pools[p].t
    requires s.t == 0 || (s.tokenA == w.pools[p].tokenA && s.tokenB == w.pools[p].tokenB)
    ensures Good(w, WithPool(w, p, s), S)
  {
    assert PoolOk(w.pools[p]) && Covered(w, p);
    forall k ensures Owed(s, k) <= BalOf(w, k, p) {
      assert Owed(w.pools[p], k) <= BalOf(w, k, p);
      BalNonneg(w, k, p);
    }
    PoolUpdateKeeps(w, p, s);
    OnePoolGrows(w, WithPool(w, p, s), p, s);
    VaultsFramed(w, WithPool(w, p, s));
  }

  lemma AddGood(w: World, p: Id, caller: Id, a: nat, b: nat, min: nat, d: nat)
    requires Inv(w) && IsUser(w, caller) && DoAdd(w, p, caller, a, b, min, d).Done?
    ensures Good(w, DoAdd(w, p, caller, a, b, min, d).w, {caller})
  {
    AddEffect(w, p, caller, a, b, min, d);
    AddKeeps(w.pools[p], caller, a, b, min);
    var s := Add(w.pools[p], caller, a, b, min).value.0;
    var w' := DoAdd(w, p, caller, a, b, min, d).w;
    VaultsUntouched(w, w', p, s, {caller}, caller);
    OnePoolGrows(w, w', p, s);
  }

  lemma RemoveGood(w: World, p: Id, caller: Id, burn: nat, minA: nat, minB: nat, toA: Id, toB: Id, d: nat)
    requires Inv(w) && IsUser(w, caller) && DoRemove(w, p, caller, burn, minA, minB, toA, toB, d).Done?
    ensures Good(w, DoRemove(w, p, caller, burn, minA, minB, toA, toB, d).w, {p})
  {
    RemoveEffect(w, p, caller, burn, minA, minB, toA, toB, d);
    RemoveKeeps(w.pools[p], caller, burn, minA, minB);
    var s := Remove(w.pools[p], caller, burn, minA, minB).value.0;
    var w' := DoRemove(w, p, caller, burn, minA, minB, toA, toB, d).w;
    VaultsUntouched(w, w', p, s, {p}, caller);
    OnePoolGrows(w, w', p, s);
  }

  lemma SwapGood(w: World, p: Id, caller: Id, dir: nat, ain: nat, min: nat, to: Id, d: nat)
    requires Inv(w) && IsUser(w, caller) && DoSwap(w, p, caller, dir, ain, min, to, d).Done?
    ensures Good(w, DoSwap(w, p, caller, dir, ain, min, to, d).w, {caller, p})
  {
    SwapEffect(w, p, caller, dir, ain, min, to, d);
    SwapKeeps(w.pools[p], dir, ain, min);
    var s := Swap(w.pools[p], dir, ain, min).value.0;
    var w' := DoSwap(w, p, caller, dir, ain, min, to, d).w;
    VaultsUntouched(w, w', p, s, {caller, p}, caller);
    OnePoolGrows(w, w', p, s);
  }

  lemma RouteGood(w: World, router: Id, caller: Id, hops: seq<Hop>, ain: nat, min: nat, to: Id, d: nat)
    requires Inv(w) && IsUser(w, caller) && ain < WORD && DoRoute(w, router, caller, hops, ain, min, to, d).Done?
    ensures Good(w, DoRoute(w, router, caller, hops, ain, min, to, d).w, {caller, router} + w.pools.Keys)
  {
    RouteKeeps(w, router, caller, hops, ain, min, to, d);
    var w' := DoRoute(w, router, caller, hops, ain, min, to, d).w;
    VaultsFramed(w, w');
    forall p | p in w.pools ensures Grows(w.pools[p], w'.pools[p]) {
      var s, s' := w.pools[p], w'.pools[p];
      assert PoolOk(s) && Traded(s, s');
      MulNonneg(s.ra, s.rb);
      SameSupplyGrows(s.ra * s.rb, s'.ra * s'.rb, s.t);
    }
  }

  /** A vault step whose own vault ends in order and which leaves the others' LP and allowances alone. */
  lemma OneVaultChanges(w: World, w': World, v: Id)
    requires VaultsOk(w) && v in w.vaults && w'.vaults.Keys == w.vaults.Keys && VaultOk(w', v)
    requires forall u :: u in w.vaults && u != v ==> w'.vaults[u] == w.vaults[u]
    requires forall u, p :: u in w.vaults && u != v ==> LpOf(w', p, u) == LpOf(w, p, u)
    requires forall u, k, s :: u in w.vaults && u != v ==> AllowOf(w', k, u, s) == AllowOf(w, k, u, s)
    ensures VaultsOk(w')
  {
    forall u | u in w'.vaults ensures VaultOk(w', u) {
      if u != v {
        assert VaultOk(w, u);
        forall k, s ensures AllowOf(w', k, u, s) == 0 { assert AllowOf(w, k, u, s) == 0; }
        forall p ensures LpOf(w', p, u) == if w.vaults[u].configured && p == w.vaults[u].pool then w.vaults[u].total else 0 {
          assert LpOf(w', p, u) == LpOf(w, p, u);
        }
      }
    }
  }

  /** Steps that touch one vault's own records only. */
  lemma VaultRecordGood(w: World, v: Id, u: Vault, S: set<Id>)
    requires Inv(w) && v in w.vaults && VaultOk(WithVault(w, v, u), v)
    ensures Good(w, WithVault(w, v, u), S)
  {
    VaultUpdateKeeps(w, v, u);
    OneVaultChanges(w, WithVault(w, v, u), v);
  }

  lemma ConfigureGood(w: World, v: Id, pool: Id, a: Id, b: Id, S: set<Id>)
    requires Inv(w) && DoConfigure(w, v, pool, a, b).Done?
    ensures Good(w, DoConfigure(w, v, pool, a, b).w, S)
  {
    var u := w.vaults[v].(configured := true, pool := pool, tokenA := a, tokenB := b);
    assert VaultOk(w, v);
    VaultUpdateKeeps(w, v, u);
    assert VaultOk(WithVault(w, v, u), v);
    VaultRecordGood(w, v, u, S);
  }

  lemma TransferSharesGood(w: World, v: Id, caller: Id, to: Id, n: nat, S: set<Id>)
    requires Inv(w) && DoTransferShares(w, v, caller, to, n).Done?
    ensures Good(w, DoTransferShares(w, v, caller, to, n).w, S)
  {
    if to != caller {
      var u := w.vaults[v];
      assert VaultOk(w, v);
      var debited := u.shares[caller := Get(u.shares, caller) - n];
      SumUpdate(u.shares, caller, Get(u.shares, caller) - n);
      SumUpdate(debited, to, Get(debited, to) + n);
      var u' := u.(shares := debited[to := Get(debited, to) + n]);
      VaultUpdateKeeps(w, v, u');
      assert VaultOk(WithVault(w, v, u'), v);
      VaultRecordGood(w, v, u', S);
    }
  }

  /** Shares and the vault's LP moving together by n keep the backing exact. */
  lemma BackingMoves(w: World, w': World, v: Id, holder: Id, n: int, s: Pool)
    requires Ids(w) && VaultsOk(w) && v in w.vaults && w.vaults[v].configured && w.vaults[v].pool in w.pools
    requires 0 <= Get(w.vaults[v].shares, holder) + n
    requires w'.vaults == w.vaults[v := w.vaults[v].(total := w.vaults[v].total + n,
                                                     shares := w.vaults[v].shares[holder := Get(w.vaults[v].shares, holder) + n])]
    requires w'.pools == w.pools[w.vaults[v].pool := s]
    requires forall x :: Get(s.lp, x) == LpOf(w, w.vaults[v].pool, x) + if x == v then n else 0
    requires forall u, k, z :: u in w.vaults ==> AllowOf(w', k, u, z) == AllowOf(w, k, u, z)
    ensures VaultsOk(w')
  {
    var u := w.vaults[v];
    assert VaultOk(w, v);
    SumUpdate(u.shares, holder, Get(u.shares, holder) + n);
    assert VaultOk(w', v) by {
      forall k, z ensures AllowOf(w', k, v, z) == 0 { assert AllowOf(w, k, v, z) == 0; }
      forall p ensures LpOf(w', p, v) == if p == u.pool then u.total + n else 0 {
        assert LpOf(w, p, v) == if p == u.pool then u.total else 0;
      }
    }
    OneVaultChanges(w, w', v);
  }

  lemma DepositGood(w: World, v: Id, caller: Id, a: nat, b: nat, min: nat, d: nat)
    requires Inv(w) && IsUser(w, caller) && a < WORD && b < WORD && DoDeposit(w, v, caller, a, b, min, d).Done?
    ensures Good(w, DoDeposit(w, v, caller, a, b, min, d).w, {caller, v})
  {
    hide DoDeposit;
    DepositEffect(w, v, caller, a, b, min, d);
    var r := DoDeposit(w, v, caller, a, b, min, d);
    var u := w.vaults[v];
    var s := Add(w.pools[u.pool], v, a, b, min).value.0;
    assert VaultOk(w, v) && PoolOk(w.pools[u.pool]);
    AddKeeps(w.pools[u.pool], v, a, b, min);
    OnePoolGrows(w, r.w, u.pool, s);
    EntryAtMostSum(u.shares, caller);
    BackingMoves(w, r.w, v, caller, r.ret, s);
  }

  lemma WithdrawGood(w: World, v: Id, caller: Id, n: nat, minA: nat, minB: nat, d: nat)
    requires Inv(w) && IsUser(w, caller) && DoWithdraw(w, v, caller, n, minA, minB, d).Done?
    ensures Good(w, DoWithdraw(w, v, caller, n, minA, minB, d).w, {w.vaults[v].pool})
  {
    assert v in w.vaults;
    hide DoWithdraw;
    WithdrawEffect(w, v, caller, n, minA, minB, d);
    var w', u := DoWithdraw(w, v, caller, n, minA, minB, d).w, w.vaults[v];
    var s := Remove(w.pools[u.pool], v, n, minA, minB).value.0;
    assert PoolOk(w.pools[u.pool]);
    RemoveKeeps(w.pools[u.pool], v, n, minA, minB);
    OnePoolGrows(w, w', u.pool, s);
    BackingMoves(w, w', v, caller, 0 - n, s);
  }

  // ---- every transaction ----

  function Contracts(w: World): set<Id> {
    w.tokens.Keys + w.pools.Keys + w.vaults.Keys + w.routers
  }

  /** The accounts a transaction may take tokens from: contracts, the signer, and a transfer_from's owner. */
  function MayPay(w: World, c: Cmd): set<Id> {
    Contracts(w) + (if c.Mine? then {} else {c.caller}) + (if c.TokenTransferFrom? then {c.from} else {})
  }

  lemma GoodMore(w: World, w': World, S: set<Id>, S': set<Id>)
    requires Good(w, w', S) && S <= S'
    ensures Good(w, w', S')
  {
  }

  lemma NothingIsGood(w: World, S: set<Id>)
    requires Inv(w)
    ensures Good(w, w, S)
  {
  }

  lemma MineGood(w: World, n: nat, S: set<Id>)
    requires Inv(w)
    ensures Good(w, w.(height := w.height + n), S)
  {
    var w' := w.(height := w.height + n);
    assert forall j, x :: BalOf(w, j, x) == BalOf(w', j, x);
    assert forall j, o, s :: AllowOf(w', j, o, s) == AllowOf(w, j, o, s);
    forall p | p in w'.pools ensures Covered(w', p) {
      assert Covered(w, p);
      forall j ensures Owed(w'.pools[p], j) <= BalOf(w', j, p) { assert Owed(w.pools[p], j) <= BalOf(w, j, p); }
    }
    VaultsFramed(w, w');
  }

  lemma TokenCmdGood(w: World, c: Cmd)
    requires Inv(w) && Signed(w, c) && Exec(w, c).Done?
    requires c.TokenMint? || c.TokenTransfer? || c.TokenApprove? || c.TokenTransferFrom?
    ensures Good(w, Exec(w, c).w, {c.caller} + if c.TokenTransferFrom? then {c.from} else {})
  {
    var S := {c.caller} + if c.TokenTransferFrom? then {c.from} else {};
    match c
    case TokenMint(k, caller, to, amt) =>
      MintGood(w, k, caller, to, amt);
    case TokenTransfer(k, caller, to, amt) =>
      TransferGood(w, k, caller, to, amt);
    case TokenApprove(k, caller, spender, amt) =>
      ApproveGood(w, k, caller, spender, amt);
    case TokenTransferFrom(k, caller, from, to, amt) =>
      TransferFromGood(w, k, caller, from, to, amt);
      assert S == {caller, from};
    case _ =>
  }

  lemma PoolCmdGood(w: World, c: Cmd)
    requires Inv(w) && Signed(w, c) && Exec(w, c).Done?
    requires c.PoolSetTokens? || c.PoolSetFee? || c.PoolSetAdmin? || c.PoolAdd? || c.PoolRemove? || c.PoolSwap?
    ensures c.pool in w.pools && Good(w, Exec(w, c).w, {c.caller, c.pool})
  {
    var p := c.pool;
    assert PoolOk(w.pools[p]);
    match c
    case PoolSetTokens(_, caller, a, b) =>
      SettingsGood(w, p, DoSetTokens(w, p, caller, a, b).w.pools[p], {caller, p});
    case PoolSetFee(_, caller, fee) =>
      SettingsGood(w, p, w.pools[p].(fee := fee), {caller, p});
    case PoolSetAdmin(_, caller, admin) =>
      SettingsGood(w, p, w.pools[p].(feeAdmin := admin), {caller, p});
    case PoolAdd(_, caller, a, b, min, d) =>
      AddGood(w, p, caller, a, b, min, d);
    case PoolRemove(_, caller, burn, minA, minB, toA, toB, d) =>
      RemoveGood(w, p, caller, burn, minA, minB, toA, toB, d);
    case PoolSwap(_, caller, dir, ain, min, to, d) =>
      SwapGood(w, p, caller, dir, ain, min, to, d);
    case _ =>
  }

  lemma VaultCmdGood(w: World, c: Cmd)
    requires Inv(w) && Signed(w, c) && Exec(w, c).Done?
    requires c.VaultConfigure? || c.VaultDeposit? || c.VaultWithdraw? || c.VaultTransferShares?
    ensures Good(w, Exec(w, c).w, {c.caller} + Contracts(w))
  {
    var S := {c.caller} + Contracts(w);
    match c
    case VaultConfigure(v, _, p, a, b) =>
      ConfigureGood(w, v, p, a, b, S);
    case VaultDeposit(v, caller, a, b, min, d) =>
      DepositGood(w, v, caller, a, b, min, d);
      GoodMore(w, Exec(w, c).w, {caller, v}, S);
    case VaultWithdraw(v, caller, n, minA, minB, d) =>
      WithdrawGood(w, v, caller, n, minA, minB, d);
      WithdrawEffect(w, v, caller, n, minA, minB, d);
      GoodMore(w, Exec(w, c).w, {w.vaults[v].pool}, S);
    case VaultTransferShares(v, caller, to, n) =>
      TransferSharesGood(w, v, caller, to, n, S);
    case _ =>
  }

  /** Every transaction, faulting or not, is good. */
  lemma StepGood(w: World, c: Cmd)
    requires Inv(w)
    ensures Good(w, Step(w, c), MayPay(w, c))
  {
    var S := MayPay(w, c);
    NothingIsGood(w, S);
    if Exec(w, c).Done? {
      var w' := Exec(w, c).w;
      if c.Mine? {
        MineGood(w, c.blocks, S);
      } else if c.TokenMint? || c.TokenTransfer? || c.TokenApprove? || c.TokenTransferFrom? {
        TokenCmdGood(w, c);
        GoodMore(w, w', {c.caller} + if c.TokenTransferFrom? then {c.from} else {}, S);
      } else if c.RouterSwap? {
        RouteGood(w, c.router, c.caller, c.hops, c.ain, c.min, c.to, c.deadline);
        GoodMore(w, w', {c.caller, c.router} + w.pools.Keys, S);
      } else if c.VaultConfigure? || c.VaultDeposit? || c.VaultWithdraw? || c.VaultTransferShares? {
        VaultCmdGood(w, c);
        GoodMore(w, w', {c.caller} + Contracts(w), S);
      } else {
        PoolCmdGood(w, c);
        GoodMore(w, w', {c.caller, c.pool}, S);
      }
    }
  }
}
