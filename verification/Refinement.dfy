/**
 What the storage says of a set of ids is a world, and on ids that are apart every
 call on the storage is the call of module World on it: same fault, same return
 word, same new state.
 */
module Refinement {
  import opened Words
  import opened Options
  import opened Balances
  import opened Quotes
  import opened Curve
  import opened Slots
  import opened World
  import opened Safety
  import opened Routes
  import opened Vaults
  import opened Runs
  import opened TokenStorage
  import opened PoolStorage
  import opened VaultStorage
  import opened Routing
  import T = Tokens
  import M = Machine

  type Store = M.Store

  ghost function WorldAt(m: Store, ids: set<Id>): World
    requires forall x :: x in ids ==> 0 <= x < WORD
  {
    World(m.height,
          map k | k in m.tokens :: TokenAt(m.tokens[k], ids),
          map p | p in m.pools :: PoolAt(m.pools[p].version, m.pools[p].slots, ids),
          map v | v in m.vaults :: VaultAt(m.vaults[v], ids),
          m.routers)
  }

  /** The ids are apart, contracts hold funds under some of them, and no pool is in a call. */
  ghost predicate Fits(m: Store, ids: set<Id>) {
    && Apart(ids)
    && m.pools.Keys <= ids && m.vaults.Keys <= ids && m.routers <= ids
    && (forall p :: p in m.pools ==> Load(m.pools[p].slots, POOL_LOCK) == 0)
    && (forall v :: v in m.vaults ==> Load(m.vaults[v], VAULT_SET) == 0 || Load(m.vaults[v], VAULT_POOL) in ids)
  }

  /** No vault is in a call. */
  ghost predicate Idle(m: Store) {
    forall v :: v in m.vaults ==> Load(m.vaults[v], VAULT_LOCK) == 0
  }

  /** The two results are a fault, or one return word and one new state. */
  ghost predicate Agree(r: M.Result, o: Outcome, ids: set<Id>)
    requires forall x :: x in ids ==> 0 <= x < WORD
  {
    match r
    case Reverted => o == Fault
    case Returned(m, ret) => o == Done(WorldAt(m, ids), ret)
  }

  ghost predicate Same(r: Option<Store>, o: Option<World>, ids: set<Id>)
    requires forall x :: x in ids ==> 0 <= x < WORD
  {
    match r
    case None => o == None
    case Some(m) => o == Some(WorldAt(m, ids))
  }

  lemma TokenReplaced(m: Store, ids: set<Id>, k: Id, sl: Slots)
    requires forall x :: x in ids ==> 0 <= x < WORD
    ensures WorldAt(M.WithToken(m, k, sl), ids) == WithToken(WorldAt(m, ids), k, TokenAt(sl, ids))
  {
    hide TokenAt, PoolAt, VaultAt;
  }

  lemma PoolReplaced(m: Store, ids: set<Id>, p: Id, sl: Slots)
    requires p in m.pools && forall x :: x in ids ==> 0 <= x < WORD
    ensures WorldAt(M.WithPool(m, p, sl), ids) == WithPool(WorldAt(m, ids), p, PoolAt(m.pools[p].version, sl, ids))
  {
    hide TokenAt, PoolAt, VaultAt;
  }

  lemma VaultReplaced(m: Store, ids: set<Id>, v: Id, sl: Slots)
    requires forall x :: x in ids ==> 0 <= x < WORD
    ensures WorldAt(M.WithVault(m, v, sl), ids) == WithVault(WorldAt(m, ids), v, VaultAt(sl, ids))
  {
    hide TokenAt, PoolAt, VaultAt;
  }

  lemma KeysShown(m: Store, ids: set<Id>)
    requires forall x :: x in ids ==> 0 <= x < WORD
    ensures var w := WorldAt(m, ids);
            w.tokens.Keys == m.tokens.Keys && w.pools.Keys == m.pools.Keys && w.vaults.Keys == m.vaults.Keys && w.routers == m.routers && w.height == m.height
  {
    hide TokenAt, PoolAt, VaultAt;
  }

  lemma PoolLockIsUnseen(v: Version, sl: Slots, ids: set<Id>, x: Word)
    requires Apart(ids)
    ensures PoolAt(v, sl[POOL_LOCK := x], ids) == PoolAt(v, sl, ids)
  {
    hide Apart, HoldingsOf;
    IdsAreWords(ids);
    PoolStorage.StoreFixed(sl, ids, POOL_LOCK, x);
  }

  lemma VaultLockIsUnseen(sl: Slots, ids: set<Id>, x: Word)
    requires Apart(ids)
    ensures VaultAt(sl[VAULT_LOCK := x], ids) == VaultAt(sl, ids)
  {
    hide Apart, SharesOf;
    IdsAreWords(ids);
    VaultStorage.StoreFixed(sl, ids, VAULT_LOCK, x);
  }

  // ---- calls on tokens ----

  lemma PullRefines(m: Store, ids: set<Id>, k: Id, self: Word, from: Word, amt: Word)
    requires Apart(ids) && self in ids && from in ids
    ensures Same(M.Pull(m, k, self, from, amt), Pull(WorldAt(m, ids), k, self, from, amt), ids)
  {
    hide Apart, TokenAt, PoolAt, VaultAt, TransferredFrom, T.TransferFrom;
    IdsAreWords(ids);
    if k in m.tokens {
      TransferFromRefines(m.tokens[k], ids, self, from, self, amt);
      TokenReplaced(m, ids, k, TransferredFrom(m.tokens[k], self, from, self, amt).0);
    }
  }

  lemma ApproveRefines(m: Store, ids: set<Id>, k: Id, self: Word, spender: Word, amt: Word)
    requires Apart(ids) && self in ids && spender in ids
    ensures Same(M.Approve(m, k, self, spender, amt), ApproveCall(WorldAt(m, ids), k, self, spender, amt), ids)
  {
    hide Apart, TokenAt, PoolAt, VaultAt, TokenStorage.Approved, T.Approve;
    IdsAreWords(ids);
    if k in m.tokens {
      TokenStorage.ApproveRefines(m.tokens[k], ids, self, spender, amt);
      TokenReplaced(m, ids, k, TokenStorage.Approved(m.tokens[k], self, spender, amt));
    }
  }

  lemma PayRefines(m: Store, ids: set<Id>, k: Id, self: Word, to: Word, amt: Word)
    requires Apart(ids) && self in ids && to in ids && k in m.tokens
    ensures Same(M.Pay(m, k, self, to, amt), Some(Pay(WorldAt(m, ids), k, self, to, amt)), ids)
  {
    hide Apart, TokenAt, PoolAt, VaultAt, Transferred, T.Transfer;
    IdsAreWords(ids);
    TransferRefines(m.tokens[k], ids, self, to, amt);
    TokenReplaced(m, ids, k, Transferred(m.tokens[k], self, to, amt));
  }

  lemma CallNonPoolRefines(m: Store, ids: set<Id>, target: Id, caller: Word)
    requires Apart(ids)
    ensures Agree(M.CallNonPool(m, target, caller), CallNonPool(WorldAt(m, ids), target, caller), ids)
  {
    hide Apart, TokenAt, PoolAt, VaultAt, Claimed, T.Touch;
    IdsAreWords(ids);
    if target in m.tokens {
      ClaimedRefines(m.tokens[target], ids, caller);
      TokenReplaced(m, ids, target, Claimed(m.tokens[target], caller));
    }
  }

  // ---- pool ----

  /** What a call on pool p may do besides its own state: move tokens. */
  ghost predicate Framed(m: Store, m': Store) {
    && m'.height == m.height && m'.vaults == m.vaults && m'.routers == m.routers
    && m'.tokens.Keys == m.tokens.Keys && m'.pools.Keys == m.pools.Keys
  }

  lemma StillFits(m: Store, m': Store, ids: set<Id>, p: Id, sl: Slots)
    requires Fits(m, ids) && Framed(m, m') && p in m.pools
    requires m'.pools == m.pools[p := m.pools[p].(slots := Leave(sl, POOL_LOCK))]
    ensures Fits(m', ids)
  {
  }

  /** The pool as a call finds it, lock taken. */
  lemma Entered(m: Store, ids: set<Id>, p: Id)
    requires Fits(m, ids) && p in m.pools
    ensures var sl := m.pools[p].slots; Enter(sl, POOL_LOCK) == Some(sl[POOL_LOCK := ONE])
    ensures WorldAt(m, ids).pools[p] == PoolAt(m.pools[p].version, m.pools[p].slots[POOL_LOCK := ONE], ids)
  {
    hide PoolAt, TokenAt, VaultAt;
    PoolLockIsUnseen(m.pools[p].version, m.pools[p].slots, ids, ONE);
  }

  lemma EnteredUnseen(m: Store, ids: set<Id>, p: Id)
    requires Fits(m, ids) && p in m.pools
    ensures WorldAt(M.WithPool(m, p, m.pools[p].slots[POOL_LOCK := ONE]), ids) == WorldAt(m, ids)
  {
    hide PoolAt, TokenAt, VaultAt, Apart;
    IdsAreWords(ids);
    PoolLockIsUnseen(m.pools[p].version, m.pools[p].slots, ids, ONE);
    PoolReplaced(m, ids, p, m.pools[p].slots[POOL_LOCK := ONE]);
  }

  /** The pool as a call leaves it, lock released. */
  lemma Left(m: Store, m': Store, ids: set<Id>, p: Id, e: Slots, sl: Slots)
    requires Fits(m, ids) && Framed(m, m') && p in m.pools && m'.pools == M.WithPool(m, p, e).pools
    ensures var m'' := M.WithPool(m', p, Leave(sl, POOL_LOCK));
            && WorldAt(m'', ids) == WithPool(WorldAt(m', ids), p, PoolAt(m.pools[p].version, sl, ids))
            && Fits(m'', ids) && Framed(m, m'')
  {
    hide PoolAt, TokenAt, VaultAt, Apart;
    IdsAreWords(ids);
    PoolLockIsUnseen(m.pools[p].version, sl, ids, 0);
    PoolReplaced(m', ids, p, Leave(sl, POOL_LOCK));
    StillFits(m, M.WithPool(m', p, Leave(sl, POOL_LOCK)), ids, p, sl);
  }

  ghost function PullBothSides(w: World, kA: Id, kB: Id, self: Id, from: Id, a: nat, b: nat): Option<World> {
    match Pull(w, kA, self, from, a)
    case None => None
    case Some(w1) => Pull(w1, kB, self, from, b)
  }

  lemma PullTwoRefines(m: Store, ids: set<Id>, kA: Id, kB: Id, self: Word, from: Word, a: Word, b: Word)
    requires Apart(ids) && self in ids && from in ids
    ensures var r := M.PullTwo(m, kA, kB, self, from, a, b);
            && Same(r, PullBothSides(WorldAt(m, ids), kA, kB, self, from, a, b), ids)
            && (r.Some? ==> Framed(m, r.value) && r.value.pools == m.pools)
  {
    hide Apart, WorldAt, Pull, TransferredFrom;
    IdsAreWords(ids);
    PullRefines(m, ids, kA, self, from, a);
    if M.Pull(m, kA, self, from, a).Some? {
      PullRefines(M.Pull(m, kA, self, from, a).value, ids, kB, self, from, b);
    }
  }

  /** Which pool call the machine and the ledger agree on, and that the storage stays in order. */
  ghost predicate Refines(r: M.Result, o: Outcome, m: Store, ids: set<Id>)
    requires forall x :: x in ids ==> 0 <= x < WORD
  {
    && Agree(r, o, ids)
    && (r.Returned? ==> Fits(r.m, ids) && Framed(m, r.m))
  }

  lemma AddUnfolds(w: World, p: Id, caller: Id, a: nat, b: nat, min: nat, d: nat)
    ensures DoAdd(w, p, caller, a, b, min, d) ==
            if p !in w.pools || Late(w, d) then Fault
            else
              var s := w.pools[p]; var r := Add(s, caller, a, b, min);
              var q := PullBothSides(w, s.tokenA, s.tokenB, p, caller, a, b);
              if r.None? || q.None? then Fault else Done(WithPool(q.value, p, r.value.0), r.value.1)
  {
    hide Add, Pull;
  }

  lemma AddRefines(m: Store, ids: set<Id>, p: Word, caller: Word, a: Word, b: Word, min: Word, d: Word)
    requires Fits(m, ids) && caller in ids && PoolsOk(WorldAt(m, ids))
    ensures Refines(M.AddLiquidity(m, p, caller, a, b, min, d), DoAdd(WorldAt(m, ids), p, caller, a, b, min, d), m, ids)
  {
    hide Apart, TokenAt, HoldingsOf, VaultAt, DoAdd, Add, PoolOk, Pull, PriceAdd, RecordAdd, M.PullTwo, PullBothSides;
    IdsAreWords(ids);
    var w := WorldAt(m, ids);
    AddUnfolds(w, p, caller, a, b, min, d);
    if p in m.pools && !Late(w, d) {
      var v, e := m.pools[p].version, m.pools[p].slots[POOL_LOCK := ONE];
      Entered(m, ids, p);
      PriceAddRefines(v, e, ids, caller, a, b, min);
      var m0 := M.WithPool(m, p, e);
      EnteredUnseen(m, ids, p);
      PullTwoRefines(m0, ids, Load(e, TOKEN_A), Load(e, TOKEN_B), p, caller, a, b);
      var lp, m1 := PriceAdd(v, e, a, b, min), M.PullTwo(m0, Load(e, TOKEN_A), Load(e, TOKEN_B), p, caller, a, b);
      if lp.Some? && m1.Some? {
        RecordAddRefines(v, e, ids, caller, a, b, min, lp.value);
        Left(m, m1.value, ids, p, e, RecordAdd(e, caller, a, b, lp.value));
      }
    }
  }

  lemma PayTwoRefines(m: Store, ids: set<Id>, kA: Id, kB: Id, self: Word, toA: Word, toB: Word, a: Word, b: Word)
    requires Apart(ids) && self in ids && toA in ids && toB in ids && kA in m.tokens && kB in m.tokens
    ensures var r := M.PayTwo(m, kA, kB, self, toA, toB, a, b);
            && Same(r, Some(Pay(Pay(WorldAt(m, ids), kA, self, toA, a), kB, self, toB, b)), ids)
            && Framed(m, r.value) && r.value.pools == m.pools
  {
    hide Apart, WorldAt, Pay, Transferred;
    IdsAreWords(ids);
    PayRefines(m, ids, kA, self, toA, a);
    PayRefines(M.Pay(m, kA, self, toA, a).value, ids, kB, self, toB, b);
  }

  lemma RemoveUnfolds(w: World, p: Id, caller: Id, burn: nat, minA: nat, minB: nat, toA: Id, toB: Id, d: nat)
    ensures DoRemove(w, p, caller, burn, minA, minB, toA, toB, d) ==
            if p !in w.pools || toA == 0 || toB == 0 || Late(w, d) then Fault
            else
              var s := w.pools[p]; var r := Remove(s, caller, burn, minA, minB);
              if r.None? then Fault
              else Done(Pay(Pay(WithPool(w, p, r.value.0), s.tokenA, p, toA, r.value.1), s.tokenB, p, toB, r.value.2), 0)
    ensures p in w.pools && Remove(w.pools[p], caller, burn, minA, minB).Some? ==>
              var s, s' := w.pools[p], Remove(w.pools[p], caller, burn, minA, minB).value.0;
              s.t != 0 && s'.tokenA == s.tokenA && s'.tokenB == s.tokenB
  {
    hide Pay;
  }

  lemma RemoveRefines(m: Store, ids: set<Id>, p: Word, caller: Word, burn: Word, minA: Word, minB: Word, toA: Word, toB: Word, d: Word)
    requires Fits(m, ids) && caller in ids && toA in ids && toB in ids && Core(WorldAt(m, ids))
    ensures Refines(M.RemoveLiquidity(m, p, caller, burn, minA, minB, toA, toB, d),
                    DoRemove(WorldAt(m, ids), p, caller, burn, minA, minB, toA, toB, d), m, ids)
  {
    hide Apart, WorldAt, HoldingsOf, DoRemove, Remove, PoolOk, Pay, PriceRemove, RecordRemove, M.PayTwo, Core, Fits, Framed, M.WithPool;
    FitsApart(m, ids);
    IdsAreWords(ids);
    KeysShown(m, ids);
    var w := WorldAt(m, ids);
    RemoveUnfolds(w, p, caller, burn, minA, minB, toA, toB, d);
    if p in m.pools && toA != 0 && toB != 0 && !Late(w, d) {
      var v, e := m.pools[p].version, m.pools[p].slots[POOL_LOCK := ONE];
      Entered(m, ids, p);
      CoreAt(w, p);
      PriceRemoveRefines(v, e, ids, caller, burn, minA, minB);
      var outs := PriceRemove(e, caller, burn, minA, minB);
      if outs.Some? {
        RemoveEnds(m, ids, p, caller, burn, minA, minB, toA, toB, outs.value.0, outs.value.1);
      }
    }
  }

  /** The stores, the payments and the release of the lock that end a removal. */
  lemma RemoveEnds(m: Store, ids: set<Id>, p: Word, caller: Word, burn: Word, minA: Word, minB: Word, toA: Word, toB: Word, outA: Word, outB: Word)
    requires Fits(m, ids) && p in m.pools && caller in ids && toA in ids && toB in ids && Core(WorldAt(m, ids))
    requires var q := Remove(WorldAt(m, ids).pools[p], caller, burn, minA, minB); q.Some? && (outA, outB) == (q.value.1, q.value.2)
    ensures var e, s := m.pools[p].slots[POOL_LOCK := ONE], WorldAt(m, ids).pools[p];
            var f := RecordRemove(e, caller, burn, outA, outB);
            var r := M.PayTwo(M.WithPool(m, p, f), Load(f, TOKEN_A), Load(f, TOKEN_B), p, toA, toB, outA, outB);
            && r.Some? && p in r.value.pools
            && var m3 := M.WithPool(r.value, p, Leave(f, POOL_LOCK));
               && Fits(m3, ids) && Framed(m, m3)
               && WorldAt(m3, ids) == Pay(Pay(WithPool(WorldAt(m, ids), p, Remove(s, caller, burn, minA, minB).value.0),
                                              s.tokenA, p, toA, outA), s.tokenB, p, toB, outB)
  {
    hide Apart, WorldAt, HoldingsOf, Remove, PoolOk, Pay, RecordRemove, M.PayTwo, Core, Fits, M.WithPool;
    FitsApart(m, ids);
    IdsAreWords(ids);
    KeysShown(m, ids);
    PoolInIds(m, ids, p);
    var w := WorldAt(m, ids);
    var v, e := m.pools[p].version, m.pools[p].slots[POOL_LOCK := ONE];
    var f := RecordRemove(e, caller, burn, outA, outB);
    Entered(m, ids, p);
    CoreAt(w, p);
    RemoveUnfolds(w, p, caller, burn, minA, minB, toA, toB, 0);
    RecordRemoveRefines(v, e, ids, caller, burn, minA, minB, outA, outB);
    LiveTokens(w, p);
    StoredOnce(m, p, f);
    PoolReplaced(m, ids, p, f);
    PayTwoRefines(M.WithPool(m, p, f), ids, Load(f, TOKEN_A), Load(f, TOKEN_B), p, toA, toB, outA, outB);
    LeftRecorded(m, M.PayTwo(M.WithPool(m, p, f), Load(f, TOKEN_A), Load(f, TOKEN_B), p, toA, toB, outA, outB).value, ids, p, f);
  }

  /** The pool as a call leaves it that stored before it paid. */
  lemma LeftRecorded(m: Store, m': Store, ids: set<Id>, p: Id, sl: Slots)
    requires Fits(m, ids) && p in m.pools && Framed(m, m') && m'.pools == M.WithPool(m, p, sl).pools
    ensures var m'' := M.WithPool(m', p, Leave(sl, POOL_LOCK));
            WorldAt(m'', ids) == WorldAt(m', ids) && Fits(m'', ids) && Framed(m, m'')
  {
    hide PoolAt, TokenAt, VaultAt, Apart;
    IdsAreWords(ids);
    PoolLockIsUnseen(m.pools[p].version, sl, ids, 0);
    PoolReplaced(m', ids, p, Leave(sl, POOL_LOCK));
    StillFits(m, M.WithPool(m', p, Leave(sl, POOL_LOCK)), ids, p, sl);
  }

  lemma SwapUnfolds(w: World, p: Id, caller: Id, dir: nat, ain: nat, min: nat, to: Id, d: nat)
    ensures DoSwap(w, p, caller, dir, ain, min, to, d) ==
            if p !in w.pools || to == 0 || Late(w, d) then Fault
            else
              var s := w.pools[p]; var r := Swap(s, dir, ain, min);
              var q := Pull(w, TokenIn(s, dir), p, caller, ain);
              if r.None? || q.None? then Fault
              else Done(Pay(WithPool(q.value, p, r.value.0), TokenOut(s, dir), p, to, r.value.1),
                        if ReturnsOut(s.version) then r.value.1 else 0)
  {
    hide Pay, Pull, Swap;
  }

  /** A swap of a sound pool pays a deployed token. */
  lemma SwapPaysToken(w: World, p: Id, dir: nat, ain: nat, min: nat)
    requires Core(w) && p in w.pools && Swap(w.pools[p], dir, ain, min).Some?
    ensures TokenOut(w.pools[p], dir) in w.tokens
  {
    assert PoolOk(w.pools[p]);
    LiveTokens(w, p);
  }

  /** The stores, the payment and the release of the lock that end a swap. */
  lemma SwapEnds(m: Store, ids: set<Id>, p: Word, dir: nat, ain: Word, min: Word, to: Word, m1: Store, out: Word)
    requires Fits(m, ids) && p in m.pools && to in ids && Core(WorldAt(m, ids))
    requires Framed(m, m1) && m1.pools == M.WithPool(m, p, m.pools[p].slots[POOL_LOCK := ONE]).pools
    requires var q := Swap(WorldAt(m, ids).pools[p], dir, ain, min); q.Some? && out == q.value.1
    ensures var e, s := m.pools[p].slots[POOL_LOCK := ONE], WorldAt(m, ids).pools[p];
            var f := RecordSwap(e, dir, ain, out);
            var r := M.Pay(M.WithPool(m1, p, f), M.PairOut(e, dir), p, to, out);
            && r.Some?
            && var m3 := M.WithPool(r.value, p, Leave(f, POOL_LOCK));
               && Fits(m3, ids) && Framed(m, m3)
               && WorldAt(m3, ids) == Pay(WithPool(WorldAt(m1, ids), p, Swap(s, dir, ain, min).value.0), TokenOut(s, dir), p, to, out)
  {
    hide Apart, WorldAt, HoldingsOf, Swap, Core, Pay, RecordSwap, M.Pay, Fits, PoolOk, M.WithPool;
    FitsApart(m, ids);
    IdsAreWords(ids);
    KeysShown(m, ids);
    KeysShown(m1, ids);
    var w := WorldAt(m, ids);
    var v, e := m.pools[p].version, m.pools[p].slots[POOL_LOCK := ONE];
    var f := RecordSwap(e, dir, ain, out);
    Entered(m, ids, p);
    CoreAt(w, p);
    RecordSwapRefines(v, e, ids, dir, ain, min, out);
    SwapPaysToken(w, p, dir, ain, min);
    PoolInIds(m, ids, p);
    StoredTwice(m, m1, p, e, f);
    PoolReplaced(m1, ids, p, f);
    PayRefines(M.WithPool(m1, p, f), ids, M.PairOut(e, dir), p, to, out);
    LeftRecorded(m, M.Pay(M.WithPool(m1, p, f), M.PairOut(e, dir), p, to, out).value, ids, p, f);
  }

  lemma CoreAt(w: World, p: Id)
    requires Core(w) && p in w.pools
    ensures PoolOk(w.pools[p])
  {
  }

  lemma PoolInIds(m: Store, ids: set<Id>, p: Id)
    requires Fits(m, ids) && p in m.pools
    ensures p in ids
  {
  }

  lemma StoredOnce(m: Store, p: Id, f: Slots)
    requires p in m.pools
    ensures Framed(m, M.WithPool(m, p, f)) && M.WithPool(m, p, f).tokens == m.tokens
  {
  }

  lemma StoredTwice(m: Store, m1: Store, p: Id, e: Slots, f: Slots)
    requires Framed(m, m1) && p in m.pools && m1.pools == M.WithPool(m, p, e).pools
    ensures p in m1.pools && M.WithPool(m1, p, f).pools == M.WithPool(m, p, f).pools && Framed(m, M.WithPool(m1, p, f))
    ensures M.WithPool(m1, p, f).tokens == m1.tokens && m1.pools[p].version == m.pools[p].version
  {
  }

  lemma SwapRefines(m: Store, ids: set<Id>, p: Word, caller: Word, dir: nat, ain: Word, min: Word, to: Word, d: Word)
    requires Fits(m, ids) && caller in ids && to in ids && Core(WorldAt(m, ids))
    ensures Refines(M.SwapTo(m, p, caller, dir, ain, min, to, d),
                    DoSwap(WorldAt(m, ids), p, caller, dir, ain, min, to, d), m, ids)
  {
    hide Apart, WorldAt, HoldingsOf, DoSwap, Swap, PoolOk, Pull, Pay, PriceSwap, RecordSwap, Core, Fits, M.Pay, M.Pull;
    FitsApart(m, ids);
    IdsAreWords(ids);
    KeysShown(m, ids);
    var w := WorldAt(m, ids);
    SwapUnfolds(w, p, caller, dir, ain, min, to, d);
    if p in m.pools && to != 0 && !Late(w, d) {
      var v, e := m.pools[p].version, m.pools[p].slots[POOL_LOCK := ONE];
      Entered(m, ids, p);
      CoreAt(w, p);
      PoolInIds(m, ids, p);
      PriceSwapRefines(v, e, ids, dir, ain, min);
      var m0 := M.WithPool(m, p, e);
      EnteredUnseen(m, ids, p);
      PullRefines(m0, ids, M.PairIn(e, dir), p, caller, ain);
      var out, m1 := PriceSwap(v, e, dir, ain, min), M.Pull(m0, M.PairIn(e, dir), p, caller, ain);
      if out.Some? && m1.Some? {
        SwapEnds(m, ids, p, dir, ain, min, to, m1.value, out.value);
      }
    }
  }

  /** The stores of set_tokens, seen through the ids. */
  lemma PairStored(v: Version, e: Slots, ids: set<Id>, a: Word, b: Word)
    requires Apart(ids)
    ensures PoolAt(v, RecordPair(e, a, b), ids) == PoolAt(v, e, ids).(configured := true, tokenA := a, tokenB := b)
  {
    hide Apart, HoldingsOf;
    IdsAreWords(ids);
    var f := e[TOKEN_A := a];
    PoolStorage.StoreFixed(e, ids, TOKEN_A, a);
    var g := f[TOKEN_B := b];
    PoolStorage.StoreFixed(f, ids, TOKEN_B, b);
    PoolStorage.StoreFixed(g, ids, TOKENS_SET, ONE);
  }

  lemma AdminStored(v: Version, e: Slots, ids: set<Id>, admin: Word)
    requires Apart(ids)
    ensures PoolAt(v, e[FEE_ADMIN := admin], ids) == PoolAt(v, e, ids).(feeAdmin := admin)
  {
    hide Apart, HoldingsOf;
    IdsAreWords(ids);
    PoolStorage.StoreFixed(e, ids, FEE_ADMIN, admin);
  }

  lemma SetTokensRefines(m: Store, ids: set<Id>, p: Word, caller: Word, a: Word, b: Word)
    requires Fits(m, ids)
    ensures Refines(M.SetTokens(m, p, caller, a, b), DoSetTokens(WorldAt(m, ids), p, caller, a, b), m, ids)
  {
    hide Apart, WorldAt, HoldingsOf, Fits, Framed, RecordPair;
    FitsApart(m, ids);
    IdsAreWords(ids);
    KeysShown(m, ids);
    if p in m.pools {
      var v, e := m.pools[p].version, m.pools[p].slots[POOL_LOCK := ONE];
      Entered(m, ids, p);
      var f := RecordPair(e, a, b);
      PairStored(v, e, ids, a, b);
      AdminStored(v, f, ids, caller);
      FramedItself(m);
      Left(m, m, ids, p, m.pools[p].slots, if BindsAdmin(v) then f[FEE_ADMIN := caller] else f);
    }
  }

  lemma FramedItself(m: Store)
    ensures Framed(m, m)
  {
  }

  lemma SetFeeRefines(m: Store, ids: set<Id>, p: Word, caller: Word, fee: Word)
    requires Fits(m, ids)
    ensures Refines(M.SetFee(m, p, caller, fee), DoSetFee(WorldAt(m, ids), p, caller, fee), m, ids)
  {
    hide Apart, TokenAt, HoldingsOf, VaultAt;
    IdsAreWords(ids);
    if p in m.pools {
      var e := m.pools[p].slots[POOL_LOCK := ONE];
      Entered(m, ids, p);
      PoolStorage.StoreFixed(e, ids, SWAP_FEE, fee);
      Left(m, m, ids, p, m.pools[p].slots, e[SWAP_FEE := fee]);
    }
  }

  lemma SetAdminRefines(m: Store, ids: set<Id>, p: Word, caller: Word, admin: Word)
    requires Fits(m, ids)
    ensures Refines(M.SetAdmin(m, p, caller, admin), DoSetAdmin(WorldAt(m, ids), p, caller, admin), m, ids)
  {
    hide Apart, TokenAt, HoldingsOf, VaultAt;
    IdsAreWords(ids);
    if p in m.pools {
      var e := m.pools[p].slots[POOL_LOCK := ONE];
      Entered(m, ids, p);
      PoolStorage.StoreFixed(e, ids, FEE_ADMIN, admin);
      Left(m, m, ids, p, m.pools[p].slots, e[FEE_ADMIN := admin]);
    }
  }

  // ---- router ----

  lemma CallSwapToRefines(m: Store, ids: set<Id>, target: Word, caller: Word, dir: nat, ain: Word, min: Word, to: Word, d: Word)
    requires Fits(m, ids) && caller in ids && to in ids && Core(WorldAt(m, ids))
    ensures Refines(M.CallSwapTo(m, target, caller, dir, ain, min, to, d),
                    SwapToCall(WorldAt(m, ids), target, caller, dir, ain, min, to, d), m, ids)
  {
    hide Apart, DoSwap, M.SwapTo, CallNonPool, Core, TokenAt, PoolAt, VaultAt, Claimed;
    IdsAreWords(ids);
    if target in m.pools {
      SwapRefines(m, ids, target, caller, dir, ain, min, to, d);
    } else {
      CallNonPoolRefines(m, ids, target, caller);
    }
  }

  lemma HopRefines(m: Store, ids: set<Id>, router: Word, h: Hop, amt: Word, min: Word, to: Word, d: Word)
    requires Fits(m, ids) && router in ids && h.pool in ids && to in ids
    requires Core(WorldAt(m, ids)) && router !in m.pools
    ensures var r, o := M.HopCall(m, router, h, amt, min, to, d), HopCall(WorldAt(m, ids), router, h, amt, min, to, d);
            Refines(r, o, m, ids) && (r.Returned? ==> Core(WorldAt(r.m, ids)))
  {
    hide Apart, ApproveCall, M.Approve, SwapToCall, M.CallSwapTo, Core, TokenAt, PoolAt, VaultAt;
    IdsAreWords(ids);
    var w := WorldAt(m, ids);
    ApproveRefines(m, ids, h.tokenIn, router, h.pool, amt);
    var m1 := M.Approve(m, h.tokenIn, router, h.pool, amt);
    if m1.Some? {
      ApproveEffect(w, h.tokenIn, router, h.pool, amt);
      CallSwapToRefines(m1.value, ids, h.pool, router, h.dir, amt, min, to, d);
      if M.CallSwapTo(m1.value, h.pool, router, h.dir, amt, min, to, d).Returned? {
        SwapToCallKeeps(WorldAt(m1.value, ids), h.pool, router, h.dir, amt, min, to, d);
      }
    }
  }

  lemma {:induction false} HopsRefine(m: Store, ids: set<Id>, router: Word, hops: seq<Hop>, amt: Word, min: Word, to: Word, d: Word)
    requires Fits(m, ids) && router in ids && to in ids && |hops| >= 1
    requires forall h :: h in hops ==> h.pool in ids
    requires Core(WorldAt(m, ids)) && router !in m.pools
    ensures M.HopsInWords(hops)
    ensures Refines(M.Hops(m, router, hops, amt, min, to, d), DoHops(WorldAt(m, ids), router, hops, amt, min, to, d), m, ids)
    decreases |hops|
  {
    hide Apart, DoHops, HopCall, M.HopCall, Core, WorldAt, Fits;
    assert Apart(ids) by { FitsApart(m, ids); }
    IdsAreWords(ids);
    HopsUnfold(WorldAt(m, ids), router, hops, amt, min, to, d);
    if |hops| == 1 {
      HopRefines(m, ids, router, hops[0], amt, min, to, d);
    } else {
      HopRefines(m, ids, router, hops[0], amt, ONE, router, d);
      var r := M.HopCall(m, router, hops[0], amt, ONE, router, d);
      if r.Returned? && r.ret != 0 {
        HopsRefine(r.m, ids, router, hops[1..], r.ret, min, to, d);
      }
    }
  }

  lemma FitsApart(m: Store, ids: set<Id>)
    requires Fits(m, ids)
    ensures Apart(ids)
  {
  }

  lemma RouteRefines(m: Store, ids: set<Id>, router: Word, caller: Word, hops: seq<Hop>, ain: Word, min: Word, to: Word, d: Word)
    requires Fits(m, ids) && caller in ids && to in ids && (forall h :: h in hops ==> h.pool in ids)
    requires Core(WorldAt(m, ids)) && IsUser(WorldAt(m, ids), caller)
    ensures M.HopsInWords(hops)
    ensures Refines(M.Route(m, router, caller, hops, ain, min, to, d),
                    DoRoute(WorldAt(m, ids), router, caller, hops, ain, min, to, d), m, ids)
  {
    hide Apart, Pull, M.Pull, DoHops, M.Hops, TokensOk, PoolsOk, Shut, Solvent, TokenAt, PoolAt, VaultAt;
    IdsAreWords(ids);
    var w := WorldAt(m, ids);
    if router in m.routers && 1 <= |hops| <= MAX_HOPS && ain != 0 && to != 0 {
      PullRefines(m, ids, hops[0].tokenIn, router, caller, ain);
      var m1 := M.Pull(m, hops[0].tokenIn, router, caller, ain);
      if m1.Some? {
        PullEffect(w, hops[0].tokenIn, router, caller, ain);
        HopsRefine(m1.value, ids, router, hops, ain, min, to, d);
      }
    }
  }

  // ---- vault ----

  lemma VaultEntered(m: Store, ids: set<Id>, v: Id)
    requires Fits(m, ids) && Idle(m) && v in m.vaults
    ensures var sl := m.vaults[v]; Enter(sl, VAULT_LOCK) == Some(sl[VAULT_LOCK := ONE])
    ensures WorldAt(m, ids).vaults[v] == VaultAt(m.vaults[v][VAULT_LOCK := ONE], ids)
  {
    hide PoolAt, TokenAt, VaultAt;
    VaultLockIsUnseen(m.vaults[v], ids, ONE);
  }

  lemma VaultEnteredUnseen(m: Store, ids: set<Id>, v: Id)
    requires Fits(m, ids) && v in m.vaults
    ensures var m0 := M.WithVault(m, v, m.vaults[v][VAULT_LOCK := ONE]); WorldAt(m0, ids) == WorldAt(m, ids) && Fits(m0, ids)
  {
    hide PoolAt, TokenAt, VaultAt, Apart;
    IdsAreWords(ids);
    VaultLockIsUnseen(m.vaults[v], ids, ONE);
    VaultReplaced(m, ids, v, m.vaults[v][VAULT_LOCK := ONE]);
  }

  /** The vault as a call leaves it, lock released, other contracts as in m'. */
  lemma VaultLeft(m: Store, m': Store, ids: set<Id>, v: Id, e: Slots, sl: Slots)
    requires Idle(m) && Fits(m', ids) && v in m.vaults && m'.vaults == m.vaults[v := e]
    requires Load(sl, VAULT_SET) == 0 || Load(sl, VAULT_POOL) in ids
    ensures var m'' := M.WithVault(m', v, Leave(sl, VAULT_LOCK));
            && WorldAt(m'', ids) == WithVault(WorldAt(m', ids), v, VaultAt(sl, ids))
            && Fits(m'', ids) && Idle(m'')
  {
    hide PoolAt, TokenAt, VaultAt, Apart;
    IdsAreWords(ids);
    VaultLockIsUnseen(sl, ids, 0);
    VaultReplaced(m', ids, v, Leave(sl, VAULT_LOCK));
  }

  lemma ConfigureRefines(m: Store, ids: set<Id>, v: Word, pool: Word, a: Word, b: Word)
    requires Fits(m, ids) && Idle(m) && pool in ids
    ensures Settles(M.Configure(m, v, pool, a, b), DoConfigure(WorldAt(m, ids), v, pool, a, b), m, ids)
  {
    hide Apart, TokenAt, PoolAt, SharesOf;
    IdsAreWords(ids);
    if v in m.vaults {
      var e := m.vaults[v][VAULT_LOCK := ONE];
      VaultEntered(m, ids, v);
      ConfiguredRefines(e, ids, pool, a, b);
      if Configured(e, pool, a, b).Some? {
        VaultLeft(m, m, ids, v, m.vaults[v], Configured(e, pool, a, b).value);
      }
    }
  }

  /** As Refines, for calls that may also change vaults. */
  ghost predicate Settles(r: M.Result, o: Outcome, m: Store, ids: set<Id>)
    requires forall x :: x in ids ==> 0 <= x < WORD
  {
    && Agree(r, o, ids)
    && (r.Returned? ==> Fits(r.m, ids) && Idle(r.m))
  }

  lemma TransferSharesRefines(m: Store, ids: set<Id>, v: Word, caller: Word, to: Word, s: Word)
    requires Fits(m, ids) && Idle(m) && caller in ids && to in ids && Inv(WorldAt(m, ids))
    ensures Settles(M.TransferShares(m, v, caller, to, s), DoTransferShares(WorldAt(m, ids), v, caller, to, s), m, ids)
  {
    hide Apart, WorldAt, SharesOf, Inv, SharesMoved, ShareKey, Fits, Idle;
    FitsApart(m, ids);
    IdsAreWords(ids);
    KeysShown(m, ids);
    var w := WorldAt(m, ids);
    if v in m.vaults {
      var e := m.vaults[v][VAULT_LOCK := ONE];
      VaultEntered(m, ids, v);
      StoreShare(e, ids, caller, 0);
      StoreShare(e, ids, to, 0);
      WidthOrder();
      if to != caller { TwoHoldings(w, v, caller, to); }
      SharesMovedRefines(e, ids, caller, to, s);
      if SharesMoved(e, caller, to, s).Some? {
        MoveKeepsSetup(e, ids, caller, to, s);
        SetupFits(m, ids, v);
        VaultLeft(m, m, ids, v, m.vaults[v], SharesMoved(e, caller, to, s).value);
      }
    }
  }

  lemma MoveKeepsSetup(e: Slots, ids: set<Id>, caller: Word, to: Word, s: Word)
    requires Apart(ids) && caller in ids && to in ids && SharesMoved(e, caller, to, s).Some?
    ensures var f := SharesMoved(e, caller, to, s).value;
            Load(f, VAULT_SET) == Load(e, VAULT_SET) && Load(f, VAULT_POOL) == Load(e, VAULT_POOL)
  {
    hide Apart, ShareKey, SharesOf;
    IdsAreWords(ids);
    StoreShare(e, ids, caller, 0);
    StoreShare(e, ids, to, 0);
  }

  lemma SetupFits(m: Store, ids: set<Id>, v: Id)
    requires Fits(m, ids) && v in m.vaults
    ensures Load(m.vaults[v], VAULT_SET) == 0 || Load(m.vaults[v], VAULT_POOL) in ids
    ensures v in ids
  {
  }

  lemma VaultShown(m: Store, ids: set<Id>, v: Id)
    requires v in m.vaults && forall x :: x in ids ==> 0 <= x < WORD
    ensures WithVault(WorldAt(m, ids), v, VaultAt(m.vaults[v], ids)) == WorldAt(m, ids)
  {
    hide TokenAt, PoolAt, VaultAt;
  }

  lemma StoredFits(m: Store, ids: set<Id>, v: Id, f: Slots)
    requires Fits(m, ids) && v in m.vaults && (Load(f, VAULT_SET) == 0 || Load(f, VAULT_POOL) in ids)
    ensures Fits(M.WithVault(m, v, f), ids)
  {
    hide Apart;
  }

  /** Share balances and totals are bounded by the pool's LP supply. */
  lemma SharesAreWords(w: World, v: Id, holder: Id)
    requires Inv(w) && v in w.vaults
    ensures 0 <= Get(w.vaults[v].shares, holder) <= w.vaults[v].total < U128
  {
    WidthOrder();
    var u := w.vaults[v];
    assert VaultOk(w, v);
    EntryAtMostSum(u.shares, holder);
    if 0 < u.total {
      assert LpOf(w, u.pool, v) == u.total;
      assert PoolOk(w.pools[u.pool]);
      EntryAtMostSum(w.pools[u.pool].lp, v);
      SupplyBelowLimit(w.pools[u.pool]);
    }
  }

  lemma TwoHoldings(w: World, v: Id, x: Id, y: Id)
    requires Inv(w) && v in w.vaults && x != y
    ensures Get(w.vaults[v].shares, x) + Get(w.vaults[v].shares, y) < U128
  {
    assert VaultOk(w, v);
    SharesAreWords(w, v, x);
    TwoEntriesAtMostSum(w.vaults[v].shares, x, y);
  }

  lemma FundRefines(m: Store, ids: set<Id>, v: Word, e: Slots, caller: Word, a: Word, b: Word)
    requires Apart(ids) && v in ids && caller in ids && v in m.vaults && Load(e, VAULT_POOL) in ids
    requires WorldAt(m, ids).vaults[v] == VaultAt(e, ids)
    ensures var r := M.Fund(m, v, Load(e, VAULT_POOL), Load(e, VAULT_A), Load(e, VAULT_B), caller, a, b);
            && Same(r, DepositPrelude(WorldAt(m, ids), v, caller, a, b), ids)
            && (r.Some? ==> Framed(m, r.value) && r.value.pools == m.pools)
  {
    hide Apart, WorldAt, Pull, ApproveCall, M.Pull, M.Approve, SharesOf;
    IdsAreWords(ids);
    var pool, kA, kB := Load(e, VAULT_POOL), Load(e, VAULT_A), Load(e, VAULT_B);
    PullTwoRefines(m, ids, kA, kB, v, caller, a, b);
    var m1 := M.PullTwo(m, kA, kB, v, caller, a, b);
    if m1.Some? {
      ApproveRefines(m1.value, ids, kA, v, pool, a);
      var m2 := M.Approve(m1.value, kA, v, pool, a);
      if m2.Some? {
        ApproveRefines(m2.value, ids, kB, v, pool, b);
      }
    }
  }

  /** What a deposit's pool call returns, and that crediting it wraps nothing. */
  lemma DepositReturns(w: World, v: Id, caller: Id, a: Word, b: Word, min: Word, d: nat)
    requires Inv(w) && IsUser(w, caller) && v in w.vaults && DepositPrelude(w, v, caller, a, b).Some?
    requires w.vaults[v].configured && a != 0 && b != 0
    requires var r := DoAdd(DepositPrelude(w, v, caller, a, b).value, w.vaults[v].pool, v, a, b, min, d);
             r.Done? && r.ret != 0 && r.ret >= min
    ensures var u, r := w.vaults[v], DoAdd(DepositPrelude(w, v, caller, a, b).value, w.vaults[v].pool, v, a, b, min, d);
            && DoDeposit(w, v, caller, a, b, min, d)
               == Done(WithVault(r.w, v, u.(total := u.total + r.ret, shares := u.shares[caller := Get(u.shares, caller) + r.ret])), r.ret)
            && u.total + r.ret < WORD && r.w.vaults == w.vaults
  {
    WidthOrder();
    hide Core, VaultsOk, DoAdd, DepositPrelude, Good, Add;
    assert DoDeposit(w, v, caller, a, b, min, d).Done?;
    DepositGood(w, v, caller, a, b, min, d);
    GoodKeepsInv(w, DoDeposit(w, v, caller, a, b, min, d).w, {caller, v});
    DepositEffect(w, v, caller, a, b, min, d);
    SharesAreWords(DoDeposit(w, v, caller, a, b, min, d).w, v, caller);
    AddKeepsVaults(DepositPrelude(w, v, caller, a, b).value, w.vaults[v].pool, v, a, b, min, d);
    PreludeKeepsVaults(w, v, caller, a, b);
  }

  lemma GoodKeepsInv(w: World, w': World, S: set<Id>)
    requires Good(w, w', S)
    ensures Inv(w')
  {
  }

  lemma AddKeepsVaults(w: World, p: Id, caller: Id, a: nat, b: nat, min: nat, d: nat)
    requires DoAdd(w, p, caller, a, b, min, d).Done?
    ensures DoAdd(w, p, caller, a, b, min, d).w.vaults == w.vaults
  {
  }

  lemma PreludeKeepsVaults(w: World, v: Id, caller: Id, a: nat, b: nat)
    requires v in w.vaults && DepositPrelude(w, v, caller, a, b).Some?
    ensures DepositPrelude(w, v, caller, a, b).value.vaults == w.vaults
  {
  }

  lemma PreludeKeepsCore(w: World, v: Id, caller: Id, a: Word, b: Word)
    requires Inv(w) && IsUser(w, caller) && v in w.vaults && w.vaults[v].configured
    requires DepositPrelude(w, v, caller, a, b).Some?
    ensures Core(DepositPrelude(w, v, caller, a, b).value)
  {
    assert VaultOk(w, v);
    PreludeEffect(w, v, caller, a, b);
  }

  lemma DepositUnfoldsTo(w: World, v: Id, caller: Id, a: nat, b: nat, min: nat, d: nat)
    requires v in w.vaults && w.vaults[v].configured && a != 0 && b != 0
    ensures var q := DepositPrelude(w, v, caller, a, b);
            DoDeposit(w, v, caller, a, b, min, d).Fault? <==>
            q.None? || var r := DoAdd(q.value, w.vaults[v].pool, v, a, b, min, d); r.Fault? || r.ret == 0 || r.ret < min
  {
    hide DepositPrelude, DoAdd;
  }

  lemma DepositRefines(m: Store, ids: set<Id>, v: Word, caller: Word, a: Word, b: Word, min: Word, d: Word)
    requires Fits(m, ids) && Idle(m) && caller in ids
    requires Inv(WorldAt(m, ids)) && IsUser(WorldAt(m, ids), caller)
    ensures Settles(M.Deposit(m, v, caller, a, b, min, d), DoDeposit(WorldAt(m, ids), v, caller, a, b, min, d), m, ids)
  {
    hide Apart, TokenAt, PoolAt, SharesOf, Inv, DoAdd, DepositPrelude, M.Fund, M.AddLiquidity, SharesMinted;
    IdsAreWords(ids);
    var w := WorldAt(m, ids);
    if v in m.vaults {
      var e := m.vaults[v][VAULT_LOCK := ONE];
      VaultEntered(m, ids, v);
      if Load(e, VAULT_SET) != 0 && a != 0 && b != 0 {
        var m0 := M.WithVault(m, v, e);
        VaultEnteredUnseen(m, ids, v);
        FundRefines(m0, ids, v, e, caller, a, b);
        DepositUnfoldsTo(w, v, caller, a, b, min, d);
        var m1 := M.Fund(m0, v, Load(e, VAULT_POOL), Load(e, VAULT_A), Load(e, VAULT_B), caller, a, b);
        if m1.Some? {
          DepositEnds(m, m1.value, ids, v, e, caller, a, b, min, d);
        }
      }
    }
  }

  /** The pool call and the share stores that end a deposit. */
  lemma DepositEnds(m: Store, m1: Store, ids: set<Id>, v: Word, e: Slots, caller: Word, a: Word, b: Word, min: Word, d: Word)
    requires Fits(m, ids) && Idle(m) && v in m.vaults && caller in ids && a != 0 && b != 0
    requires Inv(WorldAt(m, ids)) && IsUser(WorldAt(m, ids), caller)
    requires e == m.vaults[v][VAULT_LOCK := ONE] && Load(e, VAULT_SET) != 0
    requires DepositPrelude(WorldAt(m, ids), v, caller, a, b) == Some(WorldAt(m1, ids))
    requires Framed(M.WithVault(m, v, e), m1) && m1.pools == m.pools
    ensures var r := M.AddLiquidity(m1, Load(e, VAULT_POOL), v, a, b, min, d);
            var o := DoAdd(WorldAt(m1, ids), Load(e, VAULT_POOL), v, a, b, min, d);
            && Refines(r, o, m1, ids)
            && (r.Returned? && r.ret != 0 && min <= r.ret ==>
                  Settles(M.Returned(M.WithVault(r.m, v, Leave(SharesMinted(e, caller, r.ret), VAULT_LOCK)), r.ret),
                          DoDeposit(WorldAt(m, ids), v, caller, a, b, min, d), m, ids))
  {
    hide Apart, WorldAt, SharesOf, Inv, DoAdd, DepositPrelude, M.AddLiquidity, DoDeposit, ShareKey, Core, Fits, Idle;
    FitsApart(m, ids);
    IdsAreWords(ids);
    KeysShown(m, ids);
    SetupFits(m, ids, v);
    FundedFits(m, m1, ids, v, e);
    var w := WorldAt(m, ids);
    VaultEntered(m, ids, v);
    PreludeKeepsCore(w, v, caller, a, b);
    CorePools(WorldAt(m1, ids));
    AddRefines(m1, ids, Load(e, VAULT_POOL), v, a, b, min, d);
    var r := M.AddLiquidity(m1, Load(e, VAULT_POOL), v, a, b, min, d);
    if r.Returned? && r.ret != 0 && min <= r.ret {
      DepositReturns(w, v, caller, a, b, min, d);
      SharesAreWords(w, v, caller);
      StoreShare(e, ids, caller, 0);
      MintedRefines(e, ids, caller, r.ret);
      MintKeepsSetup(e, ids, caller, r.ret);
      VaultLeft(m, r.m, ids, v, e, SharesMinted(e, caller, r.ret));
    }
  }

  lemma FundedFits(m: Store, m1: Store, ids: set<Id>, v: Id, e: Slots)
    requires Fits(m, ids) && v in m.vaults && e == m.vaults[v][VAULT_LOCK := ONE]
    requires Framed(M.WithVault(m, v, e), m1) && m1.pools == m.pools
    ensures Fits(m1, ids)
  {
    hide Apart;
  }

  lemma CorePools(w: World)
    requires Core(w)
    ensures PoolsOk(w)
  {
  }

  lemma MintKeepsSetup(e: Slots, ids: set<Id>, caller: Word, s: Word)
    requires Apart(ids) && caller in ids
    ensures var f := SharesMinted(e, caller, s);
            Load(f, VAULT_SET) == Load(e, VAULT_SET) && Load(f, VAULT_POOL) == Load(e, VAULT_POOL)
  {
    hide Apart, ShareKey, SharesOf;
    IdsAreWords(ids);
    StoreShare(e, ids, caller, 0);
  }

  ghost function RemoveCall(w: World, target: Id, caller: Id, burn: nat, minA: nat, minB: nat, to: Id, d: nat): Outcome {
    if target in w.pools then DoRemove(w, target, caller, burn, minA, minB, to, to, d) else CallNonPool(w, target, caller)
  }

  lemma CallRemoveRefines(m: Store, ids: set<Id>, target: Word, caller: Word, burn: Word, minA: Word, minB: Word, to: Word, d: Word)
    requires Fits(m, ids) && caller in ids && to in ids && Core(WorldAt(m, ids))
    ensures Refines(M.CallRemove(m, target, caller, burn, minA, minB, to, d),
                    RemoveCall(WorldAt(m, ids), target, caller, burn, minA, minB, to, d), m, ids)
  {
    hide Apart, DoRemove, M.RemoveLiquidity, CallNonPool, Core, TokenAt, PoolAt, VaultAt, Claimed;
    IdsAreWords(ids);
    if target in m.pools {
      RemoveRefines(m, ids, target, caller, burn, minA, minB, to, to, d);
    } else {
      CallNonPoolRefines(m, ids, target, caller);
    }
  }

  lemma WithdrawUnfoldsTo(w: World, v: Id, caller: Id, s: nat, minA: nat, minB: nat, d: nat)
    ensures DoWithdraw(w, v, caller, s, minA, minB, d) ==
            if v !in w.vaults || !w.vaults[v].configured || s == 0 || Get(w.vaults[v].shares, caller) < s then Fault
            else
              var u := w.vaults[v];
              var u' := u.(total := u.total - s, shares := u.shares[caller := Get(u.shares, caller) - s]);
              RemoveCall(WithVault(w, v, u'), u.pool, v, s, minA, minB, caller, d)
  {
    hide DoRemove, CallNonPool;
  }

  lemma BurnKeepsSetup(e: Slots, ids: set<Id>, caller: Word, s: Word)
    requires Apart(ids) && caller in ids && SharesBurnt(e, caller, s).Some?
    ensures var f := SharesBurnt(e, caller, s).value;
            Load(f, VAULT_SET) == Load(e, VAULT_SET) && Load(f, VAULT_POOL) == Load(e, VAULT_POOL)
  {
    hide Apart, ShareKey, SharesOf;
    IdsAreWords(ids);
    StoreShare(e, ids, caller, 0);
  }

  lemma WithdrawRefines(m: Store, ids: set<Id>, v: Word, caller: Word, s: Word, minA: Word, minB: Word, d: Word)
    requires Fits(m, ids) && Idle(m) && caller in ids && Inv(WorldAt(m, ids))
    ensures Settles(M.Withdraw(m, v, caller, s, minA, minB, d), DoWithdraw(WorldAt(m, ids), v, caller, s, minA, minB, d), m, ids)
  {
    hide Apart, TokenAt, PoolAt, SharesOf, Inv, DoWithdraw, M.CallRemove, RemoveCall, SharesBurnt, ShareKey;
    IdsAreWords(ids);
    var w := WorldAt(m, ids);
    WithdrawUnfoldsTo(w, v, caller, s, minA, minB, d);
    if v in m.vaults {
      var e := m.vaults[v][VAULT_LOCK := ONE];
      VaultEntered(m, ids, v);
      SharesAreWords(w, v, caller);
      StoreShare(e, ids, caller, 0);
      BurntRefines(e, ids, caller, s);
      if SharesBurnt(e, caller, s).Some? {
        WithdrawEnds(m, ids, v, e, caller, s, minA, minB, d);
      }
    }
  }

  /** The pool call that ends a withdrawal, and the release of the lock. */
  lemma WithdrawEnds(m: Store, ids: set<Id>, v: Word, e: Slots, caller: Word, s: Word, minA: Word, minB: Word, d: Word)
    requires Fits(m, ids) && Idle(m) && caller in ids && Inv(WorldAt(m, ids)) && v in m.vaults
    requires e == m.vaults[v][VAULT_LOCK := ONE] && SharesBurnt(e, caller, s).Some?
    ensures var f := SharesBurnt(e, caller, s).value;
            var r := M.CallRemove(M.WithVault(m, v, f), Load(f, VAULT_POOL), v, s, minA, minB, caller, d);
            var o := RemoveCall(WithVault(WorldAt(m, ids), v, VaultAt(f, ids)), Load(e, VAULT_POOL), v, s, minA, minB, caller, d);
            && (r.Reverted? <==> o.Fault?)
            && (r.Returned? ==>
                  var m' := M.WithVault(r.m, v, Leave(f, VAULT_LOCK));
                  o == Done(WorldAt(m', ids), r.ret) && Fits(m', ids) && Idle(m'))
  {
    hide Apart, WorldAt, VaultAt, Inv, Core, M.CallRemove, RemoveCall, SharesBurnt, Fits, Idle;
    FitsApart(m, ids);
    IdsAreWords(ids);
    KeysShown(m, ids);
    SetupFits(m, ids, v);
    InvCore(WorldAt(m, ids));
    var f := SharesBurnt(e, caller, s).value;
    var m1 := M.WithVault(m, v, f);
    BurnKeepsSetup(e, ids, caller, s);
    VaultReplaced(m, ids, v, f);
    VaultUpdateKeeps(WorldAt(m, ids), v, VaultAt(f, ids));
    StoredFits(m, ids, v, f);
    KeysShown(m1, ids);
    CallRemoveRefines(m1, ids, Load(f, VAULT_POOL), v, s, minA, minB, caller, d);
    var r := M.CallRemove(m1, Load(f, VAULT_POOL), v, s, minA, minB, caller, d);
    if r.Returned? {
      VaultLeft(m, r.m, ids, v, f, f);
      VaultShown(r.m, ids, v);
    }
  }

  // ---- one transaction, and a run ----

  /** The ids a transaction names as holders of tokens, liquidity or shares. */
  function Holders(c: Cmd): set<Id> {
    match c
    case Mine(_) => {}
    case TokenMint(_, caller, to, _) => {caller, to}
    case TokenTransfer(_, caller, to, _) => {caller, to}
    case TokenApprove(_, caller, spender, _) => {caller, spender}
    case TokenTransferFrom(_, caller, from, to, _) => {caller, from, to}
    case PoolSetTokens(_, caller, _, _) => {caller}
    case PoolSetFee(_, caller, _) => {caller}
    case PoolSetAdmin(_, caller, _) => {caller}
    case PoolAdd(_, caller, _, _, _, _) => {caller}
    case PoolRemove(_, caller, _, _, _, toA, toB, _) => {caller, toA, toB}
    case PoolSwap(_, caller, _, _, _, to, _) => {caller, to}
    case RouterSwap(_, caller, hops, _, _, to, _) => {caller, to} + set h | h in hops :: h.pool
    case VaultConfigure(_, caller, pool, _, _) => {caller, pool}
    case VaultDeposit(_, caller, _, _, _, _) => {caller}
    case VaultWithdraw(_, caller, _, _, _, _) => {caller}
    case VaultTransferShares(_, caller, to, _) => {caller, to}
  }

  lemma SignedRefines(m: Store, ids: set<Id>, c: Cmd)
    requires Apart(ids)
    ensures M.Signed(m, c) <==> Signed(WorldAt(m, ids), c)
  {
    hide TokenAt, PoolAt, VaultAt, Apart;
    IdsAreWords(ids);
  }

  predicate IsTokenCall(c: Cmd) {
    c.TokenMint? || c.TokenTransfer? || c.TokenApprove? || c.TokenTransferFrom?
  }

  lemma TokenCallRefines(m: Store, ids: set<Id>, c: Cmd)
    requires Fits(m, ids) && Idle(m) && M.InWords(c) && Holders(c) <= ids && M.Signed(m, c) && IsTokenCall(c)
    ensures Settles(M.TokenCall(m, c), Exec(WorldAt(m, ids), c), m, ids)
  {
    hide TokenAt, PoolAt, VaultAt, Apart, Minted, Transferred, TransferredFrom, TokenStorage.Approved,
         T.MintFirst, T.Transfer, T.TransferFrom, T.Approve;
    IdsAreWords(ids);
    SignedRefines(m, ids, c);
    if c.token in m.tokens {
      var sl := m.tokens[c.token];
      match c
      case TokenMint(k, caller, to, amt) =>
        TokenStorage.MintRefines(sl, ids, caller, to, amt);
        TokenReplaced(m, ids, k, Minted(sl, caller, to, amt));
      case TokenTransfer(k, caller, to, amt) =>
        TransferRefines(sl, ids, caller, to, amt);
        TokenReplaced(m, ids, k, Transferred(sl, caller, to, amt));
      case TokenApprove(k, caller, spender, amt) =>
        TokenStorage.ApproveRefines(sl, ids, caller, spender, amt);
        TokenReplaced(m, ids, k, TokenStorage.Approved(sl, caller, spender, amt));
      case TokenTransferFrom(k, caller, from, to, amt) =>
        TransferFromRefines(sl, ids, caller, from, to, amt);
        TokenReplaced(m, ids, k, TransferredFrom(sl, caller, from, to, amt).0);
    }
  }

  lemma RefinesSettles(r: M.Result, o: Outcome, m: Store, ids: set<Id>)
    requires Apart(ids) && Idle(m) && Refines(r, o, m, ids)
    ensures Settles(r, o, m, ids)
  {
  }

  predicate IsPoolCall(c: Cmd) {
    c.PoolSetTokens? || c.PoolSetFee? || c.PoolSetAdmin? || c.PoolAdd? || c.PoolRemove? || c.PoolSwap? || c.RouterSwap?
  }

  lemma PoolCallRefines(m: Store, ids: set<Id>, c: Cmd)
    requires Fits(m, ids) && Idle(m) && M.InWords(c) && Holders(c) <= ids && M.Signed(m, c) && IsPoolCall(c)
    requires Core(WorldAt(m, ids))
    ensures Settles(M.Exec(m, c), Exec(WorldAt(m, ids), c), m, ids)
  {
    hide Fits, Idle, Apart, WorldAt, Core, Settles, Refines, M.SetTokens, M.SetFee, M.SetAdmin, M.AddLiquidity, M.RemoveLiquidity, M.SwapTo, M.Route,
         DoSetTokens, DoSetFee, DoSetAdmin, DoAdd, DoRemove, DoSwap, DoRoute, M.HopsInWords, M.Signed, Signed;
    FitsApart(m, ids);
    IdsAreWords(ids);
    SignedRefines(m, ids, c);
    PoolCallAgrees(m, ids, c);
    RefinesSettles(M.Exec(m, c), Exec(WorldAt(m, ids), c), m, ids);
  }

  lemma PoolCallAgrees(m: Store, ids: set<Id>, c: Cmd)
    requires Fits(m, ids) && M.InWords(c) && Holders(c) <= ids && M.Signed(m, c) && IsPoolCall(c)
    requires Core(WorldAt(m, ids))
    ensures Refines(M.Exec(m, c), Exec(WorldAt(m, ids), c), m, ids)
  {
    hide Fits, Idle, Apart, WorldAt, Core, Refines, M.SetTokens, M.SetFee, M.SetAdmin, M.AddLiquidity, M.RemoveLiquidity, M.SwapTo, M.Route,
         DoSetTokens, DoSetFee, DoSetAdmin, DoAdd, DoRemove, DoSwap, DoRoute, M.HopsInWords, M.Signed, IsUser;
    FitsApart(m, ids);
    IdsAreWords(ids);
    SignedRefines(m, ids, c);
    match c
    case PoolSetTokens(p, caller, a, b) => SetTokensRefines(m, ids, p, caller, a, b);
    case PoolSetFee(p, caller, fee) => SetFeeRefines(m, ids, p, caller, fee);
    case PoolSetAdmin(p, caller, admin) => SetAdminRefines(m, ids, p, caller, admin);
    case PoolAdd(p, caller, a, b, min, d) =>
      CorePools(WorldAt(m, ids));
      AddRefines(m, ids, p, caller, a, b, min, d);
    case PoolRemove(p, caller, burn, minA, minB, toA, toB, d) =>
      RemoveRefines(m, ids, p, caller, burn, minA, minB, toA, toB, d);
    case PoolSwap(p, caller, dir, ain, min, to, d) => SwapRefines(m, ids, p, caller, dir, ain, min, to, d);
    case RouterSwap(r, caller, hops, ain, min, to, d) =>
      HopPools(c, ids);
      RouteRefines(m, ids, r, caller, hops, ain, min, to, d);
  }

  lemma HopPools(c: Cmd, ids: set<Id>)
    requires c.RouterSwap? && Holders(c) <= ids
    ensures forall h :: h in c.hops ==> h.pool in ids
  {
    forall h | h in c.hops ensures h.pool in ids {
      assert h.pool in Holders(c);
    }
  }

  lemma VaultCallRefines(m: Store, ids: set<Id>, c: Cmd)
    requires Fits(m, ids) && Idle(m) && M.InWords(c) && Holders(c) <= ids && M.Signed(m, c)
    requires c.VaultConfigure? || c.VaultDeposit? || c.VaultWithdraw? || c.VaultTransferShares?
    requires Inv(WorldAt(m, ids))
    ensures Settles(M.Exec(m, c), Exec(WorldAt(m, ids), c), m, ids)
  {
    hide Fits, Idle, Apart, WorldAt, Inv, Settles, M.Configure, M.Deposit, M.Withdraw, M.TransferShares,
         DoConfigure, DoDeposit, DoWithdraw, DoTransferShares, M.Signed, IsUser;
    FitsApart(m, ids);
    IdsAreWords(ids);
    SignedRefines(m, ids, c);
    match c
    case VaultConfigure(v, _, pool, a, b) => ConfigureRefines(m, ids, v, pool, a, b);
    case VaultDeposit(v, caller, a, b, min, d) => DepositRefines(m, ids, v, caller, a, b, min, d);
    case VaultWithdraw(v, caller, s, minA, minB, d) => WithdrawRefines(m, ids, v, caller, s, minA, minB, d);
    case VaultTransferShares(v, caller, to, s) => TransferSharesRefines(m, ids, v, caller, to, s);
  }

  /** A transaction on the storage is the transaction on the world it shows. */
  lemma ExecRefines(m: Store, ids: set<Id>, c: Cmd)
    requires Fits(m, ids) && Idle(m) && M.InWords(c) && Holders(c) <= ids && Inv(WorldAt(m, ids))
    ensures Settles(M.Exec(m, c), Exec(WorldAt(m, ids), c), m, ids)
  {
    hide Apart, WorldAt, Inv, Fits, Idle, M.TokenCall, Holders;
    FitsApart(m, ids);
    IdsAreWords(ids);
    SignedRefines(m, ids, c);
    if M.Signed(m, c) {
      if c.Mine? {
        MineRefines(m, ids, c);
      } else if IsTokenCall(c) {
        TokenCallRefines(m, ids, c);
        assert M.Exec(m, c) == M.TokenCall(m, c);
      } else if IsPoolCall(c) {
        InvCore(WorldAt(m, ids));
        PoolCallRefines(m, ids, c);
      } else {
        VaultCallRefines(m, ids, c);
      }
    }
  }

  lemma InvCore(w: World)
    requires Inv(w)
    ensures Core(w)
  {
  }

  lemma MineRefines(m: Store, ids: set<Id>, c: Cmd)
    requires Fits(m, ids) && Idle(m) && c.Mine?
    ensures Settles(M.Exec(m, c), Exec(WorldAt(m, ids), c), m, ids)
  {
    hide Apart, TokenAt, PoolAt, VaultAt;
  }
}
