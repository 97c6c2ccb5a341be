/**
 The promises of the exchange about the storage itself, over every run whose
 transactions name ids that are apart; and what happens on ids that are not.
 */
module Deployed {
  import opened Words
  import opened Options
  import opened Balances
  import opened Quotes
  import opened Curve
  import opened Slots
  import opened World
  import opened Safety
  import opened Vaults
  import opened Runs
  import opened Theorems
  import opened Settings
  import opened TokenStorage
  import opened PoolStorage
  import opened VaultStorage
  import opened Refinement
  import T = Tokens
  import M = Machine

  /** Every transaction fits its calldata and names ids of the set. */
  ghost predicate Named(cs: seq<Cmd>, ids: set<Id>) {
    forall c :: c in cs ==> M.InWords(c) && Holders(c) <= ids
  }

  /** No contract has been called yet. */
  ghost predicate Fresh(m: Store) {
    && 0 !in m.tokens && 0 !in m.pools && 0 !in m.vaults && 0 !in m.routers
    && m.tokens.Keys !! m.pools.Keys !! m.vaults.Keys !! m.routers
    && (forall k :: k in m.tokens ==> m.tokens[k] == map[])
    && (forall p :: p in m.pools ==> m.pools[p].slots == map[])
    && (forall v :: v in m.vaults ==> m.vaults[v] == map[])
  }

  /** Storage that a run from a fresh deployment can reach with these ids. */
  ghost predicate Sound(m: Store, ids: set<Id>) {
    Fits(m, ids) && Idle(m) && Inv(WorldAt(m, ids))
  }

  /** Slots that were never written show nothing. */
  lemma EmptyShows(v: Version, ids: set<Id>)
    requires forall x :: x in ids ==> 0 <= x < WORD
    ensures var t := TokenAt(map[], ids); T.TokenOk(t) && (forall x :: T.Bal(t, x) == 0) && (forall o, s :: T.Allow(t, o, s) == 0)
    ensures var s := PoolAt(v, map[], ids); PoolOk(s) && s.ra == s.rb == 0 && forall x :: Get(s.lp, x) == 0
    ensures var u := VaultAt(map[], ids); !u.configured && u.total == 0 && Nonneg(u.shares) && Sum(u.shares) == 0
  {
    hide BalKey, AllowKey, LpKey, ShareKey;
    ZeroSum(BalancesOf(map[], ids));
    ZeroSum(HoldingsOf(map[], ids));
    ZeroSum(SharesOf(map[], ids));
  }

  ghost predicate NothingYet(w: World) {
    && (forall k, x :: BalOf(w, k, x) == 0)
    && (forall k, o, s :: AllowOf(w, k, o, s) == 0)
    && (forall p, x :: LpOf(w, p, x) == 0)
    && (forall p :: p in w.pools ==> w.pools[p].ra == w.pools[p].rb == 0)
    && (forall v :: v in w.vaults ==> !w.vaults[v].configured && w.vaults[v].total == 0)
  }

  lemma FreshShows(m: Store, ids: set<Id>)
    requires Fresh(m) && forall x :: x in ids ==> 0 <= x < WORD
    ensures var w := WorldAt(m, ids);
            && Ids(w) && TokensOk(w) && PoolsOk(w) && NothingYet(w)
            && forall v :: v in w.vaults ==> Nonneg(w.vaults[v].shares) && Sum(w.vaults[v].shares) == 0
  {
    hide TokenAt, PoolAt, VaultAt, T.TokenOk, PoolOk, Nonneg, Sum, T.Bal, T.Allow;
    forall v: Version { EmptyShows(v, ids); }
    EmptyShows(V8, ids);
  }

  lemma NothingIsSound(w: World)
    requires Ids(w) && TokensOk(w) && PoolsOk(w) && NothingYet(w)
    requires forall v :: v in w.vaults ==> Nonneg(w.vaults[v].shares) && Sum(w.vaults[v].shares) == 0
    ensures Inv(w)
  {
    hide T.TokenOk, PoolOk, Nonneg, Sum, BalOf, AllowOf, LpOf, Ids;
    forall p | p in w.pools ensures Covered(w, p) {
    }
    forall v | v in w.vaults ensures VaultOk(w, v) {
    }
  }

  /** A fresh deployment is sound for every set of ids that are apart and hold its contracts. */
  lemma FreshIsSound(m: Store, ids: set<Id>)
    requires Fresh(m) && Apart(ids) && m.pools.Keys <= ids && m.vaults.Keys <= ids && m.routers <= ids
    ensures Sound(m, ids)
  {
    hide Apart, WorldAt, Inv, NothingYet;
    IdsAreWords(ids);
    FreshShows(m, ids);
    NothingIsSound(WorldAt(m, ids));
  }

  /** Over a whole run, what the storage shows is the run of what it showed. */
  lemma {:induction false} RunRefines(m: Store, ids: set<Id>, cs: seq<Cmd>)
    requires Sound(m, ids) && Named(cs, ids)
    ensures Sound(M.Run(m, cs), ids) && WorldAt(M.Run(m, cs), ids) == Run(WorldAt(m, ids), cs)
    decreases |cs|
  {
    if cs != [] {
      assert M.InWords(cs[0]) && Holders(cs[0]) <= ids;
      StepRefines(m, ids, cs[0]);
      hide Sound, WorldAt, M.Step, Step, Holders, M.InWords;
      RunRefines(M.Step(m, cs[0]), ids, cs[1..]);
    }
  }

  lemma StepRefines(m: Store, ids: set<Id>, c: Cmd)
    requires Sound(m, ids) && M.InWords(c) && Holders(c) <= ids
    ensures Sound(M.Step(m, c), ids) && WorldAt(M.Step(m, c), ids) == Step(WorldAt(m, ids), c)
  {
    hide WorldAt, Fits, Idle, Inv, M.Exec, Exec, Holders, M.InWords, Good;
    FitsApart(m, ids);
    IdsAreWords(ids);
    ExecRefines(m, ids, c);
    StepGood(WorldAt(m, ids), c);
    GoodKeepsInv(WorldAt(m, ids), Step(WorldAt(m, ids), c), MayPay(WorldAt(m, ids), c));
  }

  // ---- reading the storage ----

  /** An account that can sign: not the zero id and not a contract of the exchange. */
  predicate Account(m: Store, x: Id) {
    x != 0 && x !in m.tokens && x !in m.pools && x !in m.vaults && x !in m.routers
  }

  lemma AccountShown(m: Store, ids: set<Id>, x: Id)
    requires forall y :: y in ids ==> 0 <= y < WORD
    ensures Account(m, x) <==> IsUser(WorldAt(m, ids), x)
  {
    hide TokenAt, PoolAt, VaultAt;
  }

  function BalSlot(m: Store, k: Id, x: Word): Word {
    if k in m.tokens then Load(m.tokens[k], BalKey(x)) else 0
  }

  function AllowSlot(m: Store, k: Id, o: Word, s: Word): Word {
    if k in m.tokens then Load(m.tokens[k], AllowKey(o, s)) else 0
  }

  function LpSlot(m: Store, p: Id, x: Word): Word {
    if p in m.pools then Load(m.pools[p].slots, LpKey(x)) else 0
  }

  function ShareSlot(m: Store, v: Id, x: Word): Word {
    if v in m.vaults then Load(m.vaults[v], ShareKey(x)) else 0
  }

  lemma BalShown(m: Store, ids: set<Id>, k: Id, x: Word)
    requires x in ids && forall x :: x in ids ==> 0 <= x < WORD
    ensures BalOf(WorldAt(m, ids), k, x) == BalSlot(m, k, x)
  {
    hide BalKey, AllowancesOf, PoolAt, VaultAt;
  }

  lemma AllowShown(m: Store, ids: set<Id>, k: Id, o: Word, s: Word)
    requires o in ids && s in ids && forall x :: x in ids ==> 0 <= x < WORD
    ensures AllowOf(WorldAt(m, ids), k, o, s) == AllowSlot(m, k, o, s)
  {
    hide AllowKey, BalancesOf, PoolAt, VaultAt;
  }

  lemma LpShown(m: Store, ids: set<Id>, p: Id, x: Word)
    requires x in ids && forall x :: x in ids ==> 0 <= x < WORD
    ensures LpOf(WorldAt(m, ids), p, x) == LpSlot(m, p, x)
  {
    hide LpKey, TokenAt, VaultAt;
  }

  lemma ShareShown(m: Store, ids: set<Id>, v: Id, x: Word)
    requires x in ids && v in m.vaults && forall x :: x in ids ==> 0 <= x < WORD
    ensures Get(WorldAt(m, ids).vaults[v].shares, x) == ShareSlot(m, v, x)
  {
    hide ShareKey, TokenAt, PoolAt;
  }

  // ---- the promises ----

  /** A pool's fixed slots and its providers' slots are those of a sound pool. */
  ghost predicate PoolInOrder(c: M.PoolCode, ids: set<Id>)
    requires forall x :: x in ids ==> 0 <= x < WORD
  {
    var ra, rb, t := Load(c.slots, RESERVE_A), Load(c.slots, RESERVE_B), Load(c.slots, LP_TOTAL);
    && t * t <= ra * rb && (t == 0 <==> ra == 0) && (t == 0 <==> rb == 0)
    && Sum(HoldingsOf(c.slots, ids)) == t < Limit(c.version)
  }

  /** The token holds under the pool's id at least what the pool's reserve slots say. */
  ghost predicate Backed(m: Store, p: Id)
    requires p in m.pools && 0 <= p < WORD
  {
    var sl := m.pools[p].slots;
    && Load(sl, RESERVE_A) <= BalSlot(m, Load(sl, TOKEN_A), p)
    && Load(sl, RESERVE_B) <= BalSlot(m, Load(sl, TOKEN_B), p)
  }

  lemma ShownBacked(m: Store, ids: set<Id>, p: Id)
    requires Sound(m, ids) && p in m.pools
    ensures 0 <= p < WORD && Backed(m, p)
  {
    hide Apart, TokenAt, HoldingsOf, VaultAt, VaultsOk, TokensOk, Shut, BalSlot, BalOf;
    IdsAreWords(ids);
    var w, sl := WorldAt(m, ids), m.pools[p].slots;
    var s := w.pools[p];
    assert Covered(w, p) && PoolOk(s);
    assert Owed(s, s.tokenA) <= BalOf(w, s.tokenA, p) && Owed(s, s.tokenB) <= BalOf(w, s.tokenB, p);
    BalShown(m, ids, s.tokenA, p);
    BalShown(m, ids, s.tokenB, p);
    ReserveOwed(s);
  }

  lemma ReserveOwed(s: Pool)
    requires PoolOk(s)
    ensures s.ra == Owed(s, s.tokenA) && s.rb == Owed(s, s.tokenB)
  {
  }

  lemma ShownInOrder(m: Store, ids: set<Id>, p: Id)
    requires Sound(m, ids) && p in m.pools
    ensures PoolInOrder(m.pools[p], ids)
  {
    hide Apart, TokenAt, HoldingsOf, VaultAt, VaultsOk, TokensOk, Shut, Solvent;
    IdsAreWords(ids);
    var s := WorldAt(m, ids).pools[p];
    assert PoolOk(s);
    SupplyBelowLimit(s);
  }

  /** The vault's share slots add up to its total, which is the LP its pool has for it. */
  lemma ShownShares(m: Store, ids: set<Id>, v: Id)
    requires Sound(m, ids) && v in m.vaults
    ensures var sl := m.vaults[v];
            0 <= v < WORD && Sum(SharesOf(sl, ids)) == Load(sl, SHARE_TOTAL) == LpSlot(m, Load(sl, VAULT_POOL), v)
  {
    hide Apart, TokenAt, PoolAt, SharesOf, Core, LpSlot, LpOf, AllowOf;
    IdsAreWords(ids);
    var w := WorldAt(m, ids);
    var u := w.vaults[v];
    assert VaultOk(w, v);
    assert LpOf(w, u.pool, v) == if u.configured then u.total else 0;
    LpShown(m, ids, u.pool, v);
  }

  lemma ShownSupply(m: Store, ids: set<Id>, k: Id)
    requires Sound(m, ids) && k in m.tokens
    ensures Sum(BalancesOf(m.tokens[k], ids)) < WORD
  {
    hide Apart, BalancesOf, PoolAt, VaultAt, VaultsOk, PoolsOk, Shut, Solvent;
    IdsAreWords(ids);
    assert T.TokenOk(WorldAt(m, ids).tokens[k]);
  }

  /**
   Solvency and conservation. After any run on ids that are apart: under each
   pool's id every token has at least the pool's reserve slot; balance slots add
   up to less than 2^256; provider slots add up to a supply T with
   T^2 <= reserveA * reserveB that vanishes with either reserve; and share slots
   add up to the vault's own LP slot.
   */
  lemma RunIsSolvent(m: Store, ids: set<Id>, cs: seq<Cmd>)
    requires Fresh(m) && Apart(ids) && m.pools.Keys <= ids && m.vaults.Keys <= ids && m.routers <= ids
    requires Named(cs, ids)
    ensures var m' := M.Run(m, cs);
            && Sound(m', ids)
            && m'.tokens.Keys == m.tokens.Keys && m'.pools.Keys == m.pools.Keys && m'.vaults.Keys == m.vaults.Keys
            && (forall p :: p in m.pools ==> PoolInOrder(m'.pools[p], ids) && Backed(m', p))
            && (forall k :: k in m.tokens ==> Sum(BalancesOf(m'.tokens[k], ids)) < WORD)
            && (forall v :: v in m.vaults ==>
                  var sl := m'.vaults[v];
                  Sum(SharesOf(sl, ids)) == Load(sl, SHARE_TOTAL) == LpSlot(m', Load(sl, VAULT_POOL), v))
  {
    hide Apart, Sound, WorldAt, PoolInOrder, Backed, BalancesOf, SharesOf, LpSlot, Inv, SupplyKept;
    IdsAreWords(ids);
    FreshIsSound(m, ids);
    RunRefines(m, ids, cs);
    SameContractsShown(m, ids, cs);
    var m' := M.Run(m, cs);
    forall p | p in m'.pools ensures PoolInOrder(m'.pools[p], ids) && 0 <= p < WORD && Backed(m', p) {
      ShownInOrder(m', ids, p);
      ShownBacked(m', ids, p);
    }
    forall k | k in m'.tokens ensures Sum(BalancesOf(m'.tokens[k], ids)) < WORD {
      ShownSupply(m', ids, k);
    }
    forall v | v in m'.vaults
      ensures var sl := m'.vaults[v];
              0 <= v < WORD && Sum(SharesOf(sl, ids)) == Load(sl, SHARE_TOTAL) == LpSlot(m', Load(sl, VAULT_POOL), v)
    {
      ShownShares(m', ids, v);
    }
  }

  lemma SameContractsShown(m: Store, ids: set<Id>, cs: seq<Cmd>)
    requires Sound(m, ids) && Named(cs, ids)
    ensures var m' := M.Run(m, cs);
            m'.tokens.Keys == m.tokens.Keys && m'.pools.Keys == m.pools.Keys && m'.vaults.Keys == m.vaults.Keys
  {
    hide Apart, TokenAt, PoolAt, VaultAt, Inv, Fits, Run;
    FitsApart(m, ids);
    IdsAreWords(ids);
    RunRefines(m, ids, cs);
    RunKeeps(WorldAt(m, ids), cs);
    KeysShown(m, ids);
    KeysShown(M.Run(m, cs), ids);
  }

  /** Once the minted slot is set, balance slots add up to the same after every run. */
  lemma SupplyIsKept(m: Store, ids: set<Id>, cs: seq<Cmd>, k: Id)
    requires Sound(m, ids) && Named(cs, ids) && k in m.tokens && Load(m.tokens[k], MINTED) != 0
    ensures var m' := M.Run(m, cs);
            k in m'.tokens && Load(m'.tokens[k], MINTED) != 0
            && Sum(BalancesOf(m'.tokens[k], ids)) == Sum(BalancesOf(m.tokens[k], ids))
  {
    hide Apart, BalancesOf, AllowancesOf, PoolAt, VaultAt, Inv, Fits, Run;
    FitsApart(m, ids);
    IdsAreWords(ids);
    RunRefines(m, ids, cs);
    RunKeeps(WorldAt(m, ids), cs);
    KeysShown(m, ids);
    KeysShown(M.Run(m, cs), ids);
  }

  // ---- exit ----

  /** Balance slots say that who received a of kA and b of kB, out of p. */
  ghost predicate PaidInSlots(m: Store, m': Store, p: Word, who: Word, kA: Id, a: int, kB: Id, b: int) {
    && BalSlot(m', kA, who) == BalSlot(m, kA, who) + a && BalSlot(m', kB, who) == BalSlot(m, kB, who) + b
    && BalSlot(m', kA, p) == BalSlot(m, kA, p) - a && BalSlot(m', kB, p) == BalSlot(m, kB, p) - b
  }

  lemma PaidShown(m: Store, m': Store, ids: set<Id>, p: Word, who: Word, kA: Id, a: int, kB: Id, b: int)
    requires Apart(ids) && p in ids && who in ids
    ensures PaidOut(WorldAt(m, ids), WorldAt(m', ids), p, who, kA, a, kB, b) <==> PaidInSlots(m, m', p, who, kA, a, kB, b)
  {
    hide Apart, WorldAt, BalSlot, BalOf;
    IdsAreWords(ids);
    BalShown(m, ids, kA, who);
    BalShown(m, ids, kB, who);
    BalShown(m, ids, kA, p);
    BalShown(m, ids, kB, p);
    BalShown(m', ids, kA, who);
    BalShown(m', ids, kB, who);
    BalShown(m', ids, kA, p);
    BalShown(m', ids, kB, p);
  }

  /** The quote for burning LP of a pool, from its slots. */
  function BurnQuote(sl: Slots, burn: Word): (int, int) {
    RemoveAmounts(Load(sl, RESERVE_A), Load(sl, RESERVE_B), Load(sl, LP_TOTAL), burn)
  }

  /**
   In every reachable storage a provider can burn any part of their LP slot: the
   transaction returns, pays the quoted amounts in full, at least one of them no
   smaller than the burn, and burning the last LP empties the reserve slots.
   */
  lemma ProviderCanExit(m: Store, ids: set<Id>, p: Id, holder: Word, burn: Word)
    requires Sound(m, ids) && holder in ids && Account(m, holder) && 0 < burn <= LpSlot(m, p, holder)
    ensures p in m.pools && 0 <= p < WORD
    ensures var sl, r := m.pools[p].slots, M.Exec(m, PoolRemove(p, holder, burn, 0, 0, holder, holder, 0));
            var (a, b) := BurnQuote(sl, burn);
            && r.Returned? && Sound(r.m, ids) && p in r.m.pools
            && PaidInSlots(m, r.m, p, holder, Load(sl, TOKEN_A), a, Load(sl, TOKEN_B), b)
            && (burn <= a || burn <= b)
            && LpSlot(r.m, p, holder) == LpSlot(m, p, holder) - burn
            && (burn == Load(sl, LP_TOTAL) ==>
                  var sl' := r.m.pools[p].slots; Load(sl', RESERVE_A) == Load(sl', RESERVE_B) == Load(sl', LP_TOTAL) == 0)
  {
    hide Apart, TokenAt, VaultAt, HoldingsOf, Fits, Inv, Exec, M.Exec, BalSlot, IsUser, PaidOut, PaidInSlots, LpOf, RemoveAmounts;
    FitsApart(m, ids);
    IdsAreWords(ids);
    PoolIds(m, ids);
    AccountShown(m, ids, holder);
    LpShown(m, ids, p, holder);
    var c := PoolRemove(p, holder, burn, 0, 0, holder, holder, 0);
    HolderCanExit(WorldAt(m, ids), p, holder, burn);
    ExecRefines(m, ids, c);
    var m' := M.Exec(m, c).m;
    KeysShown(m', ids);
    KeysShown(m, ids);
    ExecKeepsPools(WorldAt(m, ids), c);
    LpShown(m', ids, p, holder);
    PaidShown(m, m', ids, p, holder, Load(m.pools[p].slots, TOKEN_A), BurnQuote(m.pools[p].slots, burn).0,
              Load(m.pools[p].slots, TOKEN_B), BurnQuote(m.pools[p].slots, burn).1);
  }

  lemma PoolIds(m: Store, ids: set<Id>)
    requires Fits(m, ids)
    ensures m.pools.Keys <= ids && m.vaults.Keys <= ids
    ensures forall v :: v in m.vaults ==> Load(m.vaults[v], VAULT_SET) == 0 || Load(m.vaults[v], VAULT_POOL) in ids
  {
  }

  lemma ExecKeepsPools(w: World, c: Cmd)
    requires Inv(w) && Exec(w, c).Done?
    ensures Exec(w, c).w.pools.Keys == w.pools.Keys
  {
    StepGood(w, c);
  }

  /** The same through a vault: every share slot can be redeemed for its part of the pool. */
  lemma SharesCanExit(m: Store, ids: set<Id>, v: Id, holder: Word, n: Word)
    requires Sound(m, ids) && holder in ids && Account(m, holder) && 0 < n <= ShareSlot(m, v, holder)
    ensures v in m.vaults && 0 <= v < WORD && Load(m.vaults[v], VAULT_POOL) in m.pools
    ensures var p := Load(m.vaults[v], VAULT_POOL);
            var sl, r := m.pools[p].slots, M.Exec(m, VaultWithdraw(v, holder, n, 0, 0, 0));
            var (a, b) := BurnQuote(sl, n);
            && r.Returned? && Sound(r.m, ids)
            && PaidInSlots(m, r.m, p, holder, Load(sl, TOKEN_A), a, Load(sl, TOKEN_B), b) && (n <= a || n <= b)
  {
    hide Apart, TokenAt, SharesOf, HoldingsOf, Fits, Inv, Exec, M.Exec, BalSlot, IsUser, PaidOut, PaidInSlots, RemoveAmounts, ShareKey;
    FitsApart(m, ids);
    IdsAreWords(ids);
    PoolIds(m, ids);
    AccountShown(m, ids, holder);
    ShareShown(m, ids, v, holder);
    KeysShown(m, ids);
    var c := VaultWithdraw(v, holder, n, 0, 0, 0);
    ShareholderCanExit(WorldAt(m, ids), v, holder, n);
    ExecRefines(m, ids, c);
    var p := Load(m.vaults[v], VAULT_POOL);
    PaidShown(m, M.Exec(m, c).m, ids, p, holder, Load(m.pools[p].slots, TOKEN_A), BurnQuote(m.pools[p].slots, n).0,
              Load(m.pools[p].slots, TOKEN_B), BurnQuote(m.pools[p].slots, n).1);
  }

  // ---- no theft ----

  /**
   An account's balance slot falls only in a transaction it signed, or in a
   transfer_from by a party whose allowance slot had at least that much, and
   falls with it.
   */
  lemma OnlyOwnersSpend(m: Store, ids: set<Id>, c: Cmd, u: Word, k: Id)
    requires Sound(m, ids) && M.InWords(c) && Holders(c) <= ids && u in ids && Account(m, u)
    requires BalSlot(M.Step(m, c), k, u) < BalSlot(m, k, u)
    ensures !c.Mine?
    ensures c.caller == u
            || (&& c.TokenTransferFrom? && c.from == u && c.token == k
                && 0 < c.amt <= AllowSlot(m, k, u, c.caller)
                && BalSlot(M.Step(m, c), k, u) >= BalSlot(m, k, u) - c.amt
                && AllowSlot(M.Step(m, c), k, u, c.caller) == AllowSlot(m, k, u, c.caller) - c.amt)
  {
    hide Apart, WorldAt, Fits, Inv, Step, M.Step, BalSlot, BalOf, AllowSlot, AllowOf, IsUser, Account;
    FitsApart(m, ids);
    IdsAreWords(ids);
    AccountShown(m, ids, u);
    StepRefines(m, ids, c);
    BalShown(m, ids, k, u);
    BalShown(M.Step(m, c), ids, k, u);
    OnlyTheOwnerSpends(WorldAt(m, ids), c, u, k);
    if c.caller != u {
      AllowShown(m, ids, k, u, c.caller);
      AllowShown(M.Step(m, c), ids, k, u, c.caller);
    }
  }

  // ---- settings ----

  /** In every run a configured pool keeps its pair slots, and a configured vault its pool and pair slots. */
  lemma PairSlotsAreFixed(m: Store, ids: set<Id>, cs: seq<Cmd>, p: Id, v: Id)
    requires Sound(m, ids) && Named(cs, ids)
    ensures p in m.pools && Load(m.pools[p].slots, TOKENS_SET) != 0 ==>
              && p in M.Run(m, cs).pools
              && var sl, sl' := m.pools[p].slots, M.Run(m, cs).pools[p].slots;
                 Load(sl', TOKENS_SET) != 0 && Load(sl', TOKEN_A) == Load(sl, TOKEN_A) && Load(sl', TOKEN_B) == Load(sl, TOKEN_B)
    ensures v in m.vaults && Load(m.vaults[v], VAULT_SET) != 0 ==>
              && v in M.Run(m, cs).vaults
              && var sl, sl' := m.vaults[v], M.Run(m, cs).vaults[v];
                 && Load(sl', VAULT_SET) != 0 && Load(sl', VAULT_POOL) == Load(sl, VAULT_POOL)
                 && Load(sl', VAULT_A) == Load(sl, VAULT_A) && Load(sl', VAULT_B) == Load(sl, VAULT_B)
  {
    hide Apart, TokenAt, HoldingsOf, SharesOf, Inv, Fits, Run, M.Run;
    FitsApart(m, ids);
    IdsAreWords(ids);
    RunRefines(m, ids, cs);
    PairsAreFixed(WorldAt(m, ids), cs, p, v);
    KeysShown(m, ids);
    KeysShown(M.Run(m, cs), ids);
  }

  // ---- no run extracts value ----

  /** The pool's supply slot is not zero at any point of the run. */
  ghost predicate LiveThroughout(m: Store, cs: seq<Cmd>, p: Id)
    requires forall c :: c in cs ==> M.InWords(c)
    decreases |cs|
  {
    p in m.pools && Load(m.pools[p].slots, LP_TOTAL) != 0 && (cs != [] ==> LiveThroughout(M.Step(m, cs[0]), cs[1..], p))
  }

  lemma {:induction false} LiveShown(m: Store, ids: set<Id>, cs: seq<Cmd>, p: Id)
    requires Sound(m, ids) && Named(cs, ids) && LiveThroughout(m, cs, p)
    ensures StaysLive(WorldAt(m, ids), cs, p)
    decreases |cs|
  {
    hide Apart, Fits, Inv, Step, M.Step, TokenAt, VaultAt, HoldingsOf, Holders, M.InWords;
    FitsApart(m, ids);
    IdsAreWords(ids);
    if cs != [] {
      assert M.InWords(cs[0]) && Holders(cs[0]) <= ids;
      StepRefines(m, ids, cs[0]);
      LiveShown(M.Step(m, cs[0]), ids, cs[1..], p);
    }
  }

  /**
   While a pool is never emptied, reserveA * reserveB / totalLp^2 over its slots
   never falls, and a run that ends on the supply it began with cannot have
   lowered one reserve slot without raising the other.
   */
  lemma NoValueLeaves(m: Store, ids: set<Id>, cs: seq<Cmd>, p: Id)
    requires Sound(m, ids) && Named(cs, ids) && LiveThroughout(m, cs, p)
    ensures p in M.Run(m, cs).pools
    ensures var sl, sl' := m.pools[p].slots, M.Run(m, cs).pools[p].slots;
            var ra, rb, t := Load(sl, RESERVE_A), Load(sl, RESERVE_B), Load(sl, LP_TOTAL);
            var ra', rb', t' := Load(sl', RESERVE_A), Load(sl', RESERVE_B), Load(sl', LP_TOTAL);
            && ra * rb * (t' * t') <= ra' * rb' * (t * t)
            && (t' == t && ra' <= ra && rb' <= rb ==> ra' == ra && rb' == rb)
  {
    hide Apart, TokenAt, HoldingsOf, VaultAt, Inv, Fits, Run, M.Run, StaysLive;
    FitsApart(m, ids);
    IdsAreWords(ids);
    RunRefines(m, ids, cs);
    LiveShown(m, ids, cs, p);
    NoRunExtractsValue(WorldAt(m, ids), cs, p);
    KeysShown(m, ids);
    KeysShown(M.Run(m, cs), ids);
  }

  /** While a pool is never emptied its fee admin slot stays, and its fee slot changes only if that admin sets it. */
  lemma FeeSlotNeedsAdmin(m: Store, ids: set<Id>, cs: seq<Cmd>, p: Id)
    requires Sound(m, ids) && Named(cs, ids) && LiveThroughout(m, cs, p)
    ensures p in M.Run(m, cs).pools
    ensures var sl, sl' := m.pools[p].slots, M.Run(m, cs).pools[p].slots;
            && Load(sl', FEE_ADMIN) == Load(sl, FEE_ADMIN)
            && (Load(sl', SWAP_FEE) != Load(sl, SWAP_FEE) ==>
                  exists i :: 0 <= i < |cs| && cs[i].PoolSetFee? && cs[i].pool == p && cs[i].caller == Load(sl, FEE_ADMIN))
  {
    hide Apart, TokenAt, HoldingsOf, VaultAt, Inv, Fits, Run, M.Run, StaysLive;
    FitsApart(m, ids);
    IdsAreWords(ids);
    RunRefines(m, ids, cs);
    LiveShown(m, ids, cs, p);
    FeeNeedsAdmin(WorldAt(m, ids), cs, p);
    KeysShown(m, ids);
    KeysShown(M.Run(m, cs), ids);
  }
}
