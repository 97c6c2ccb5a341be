/**
 The vault as its bytecode runs it: six fixed slots and one slot per shareholder
 in one key space. On ids that are apart it is the vault of the ledger; a share
 transfer to the one id whose slot is a fixed slot rewrites the configuration.
 */
module VaultStorage {
  import opened Words
  import opened Options
  import opened Balances
  import opened Slots
  import opened World

  // ---- the stores of each call, from the state it entered ----

  function Configured(sl: Slots, pool: Word, a: Word, b: Word): Option<Slots> {
    if Load(sl, VAULT_SET) != 0 || pool == 0 || a == 0 || b == 0 || a == b then None
    else Some(SetUpAs(sl, pool, a, b))
  }

  function SetUpAs(sl: Slots, pool: Word, a: Word, b: Word): Slots {
    sl[VAULT_POOL := pool][VAULT_A := a][VAULT_B := b][VAULT_SET := ONE]
  }

  function SharesMinted(sl: Slots, caller: Word, s: Word): Slots {
    var d := sl[ShareKey(caller) := WAdd(Load(sl, ShareKey(caller)), s)];
    d[SHARE_TOTAL := WAdd(Load(d, SHARE_TOTAL), s)]
  }

  function SharesBurnt(sl: Slots, caller: Word, s: Word): Option<Slots> {
    var held := Load(sl, ShareKey(caller));
    if Load(sl, VAULT_SET) == 0 || s == 0 || held < s then None
    else
      var d := sl[ShareKey(caller) := WSub(held, s)];
      Some(d[SHARE_TOTAL := WSub(Load(d, SHARE_TOTAL), s)])
  }

  function SharesMoved(sl: Slots, caller: Word, to: Word, s: Word): Option<Slots> {
    var held := Load(sl, ShareKey(caller));
    if to == 0 || s == 0 || held < s then None
    else if to == caller then Some(sl)
    else
      var d := sl[ShareKey(caller) := WSub(held, s)];
      Some(d[ShareKey(to) := WAdd(Load(d, ShareKey(to)), s)])
  }

  /** transfer_shares, from lock to lock. */
  function TransferredShares(sl: Slots, caller: Word, to: Word, s: Word): Option<Slots> {
    match Enter(sl, VAULT_LOCK)
    case None => None
    case Some(e) =>
      match SharesMoved(e, caller, to, s)
      case None => None
      case Some(d) => Some(Leave(d, VAULT_LOCK))
  }

  // ---- what the slots say of a set of ids ----

  ghost function SharesOf(sl: Slots, ids: set<Id>): map<Id, int>
    requires forall x :: x in ids ==> 0 <= x < WORD
  {
    map x | x in ids :: Load(sl, ShareKey(x))
  }

  ghost function VaultAt(sl: Slots, ids: set<Id>): Vault
    requires forall x :: x in ids ==> 0 <= x < WORD
  {
    Vault(Load(sl, VAULT_SET) != 0, Load(sl, VAULT_POOL), Load(sl, VAULT_A), Load(sl, VAULT_B),
          Load(sl, SHARE_TOTAL), SharesOf(sl, ids))
  }

  lemma StoreFixed(sl: Slots, ids: set<Id>, key: int, v: Word)
    requires Apart(ids) && VaultReserved(key)
    ensures SharesOf(sl[key := v], ids) == SharesOf(sl, ids)
  {
    hide Xor, BalKey, AllowKey, LpKey, ShareKey, TokenReserved, PoolReserved, VaultReserved, Clear;
    forall x | x in ids ensures ShareKey(x) != key {
      assert Free(x);
    }
  }

  lemma StoreShare(sl: Slots, ids: set<Id>, h: Word, v: Word)
    requires Apart(ids) && h in ids
    ensures SharesOf(sl[ShareKey(h) := v], ids) == SharesOf(sl, ids)[h := v]
    ensures !VaultReserved(ShareKey(h))
    ensures h in SharesOf(sl, ids) && SharesOf(sl, ids)[h] == Load(sl, ShareKey(h))
  {
    hide Xor, BalKey, AllowKey, LpKey, ShareKey, TokenReserved, PoolReserved, VaultReserved, Clear;
    assert Free(h);
    forall x | x in ids ensures ShareKey(x) == ShareKey(h) <==> x == h {
      ShareKeysDiffer(x, h);
    }
  }

  lemma ShareKeysDiffer(x: nat, y: nat)
    ensures ShareKey(x) == ShareKey(y) <==> x == y
  {
    MaskedKeysDiffer(x, y, ShareMask());
  }

  // ---- on ids that are apart, the slots are a vault ----

  lemma ConfiguredRefines(sl: Slots, ids: set<Id>, pool: Word, a: Word, b: Word)
    requires Apart(ids)
    ensures var u, r := VaultAt(sl, ids), Configured(sl, pool, a, b);
            && (r.Some? <==> !u.configured && pool != 0 && a != 0 && b != 0 && a != b)
            && (r.Some? ==> VaultAt(r.value, ids) == u.(configured := true, pool := pool, tokenA := a, tokenB := b))
  {
    hide Apart, SharesOf;
    IdsAreWords(ids);
    var d := sl[VAULT_POOL := pool];
    StoreFixed(sl, ids, VAULT_POOL, pool);
    var e := d[VAULT_A := a];
    StoreFixed(d, ids, VAULT_A, a);
    var f := e[VAULT_B := b];
    StoreFixed(e, ids, VAULT_B, b);
    StoreFixed(f, ids, VAULT_SET, ONE);
  }

  lemma MintedRefines(sl: Slots, ids: set<Id>, caller: Word, s: Word)
    requires Apart(ids) && caller in ids
    requires Load(sl, ShareKey(caller)) + s < WORD && Load(sl, SHARE_TOTAL) + s < WORD
    ensures var u := VaultAt(sl, ids);
            VaultAt(SharesMinted(sl, caller, s), ids) ==
            u.(total := u.total + s, shares := u.shares[caller := Get(u.shares, caller) + s])
  {
    hide Apart, SharesOf, ShareKey, Pow256;
    IdsAreWords(ids);
    var n := WAdd(Load(sl, ShareKey(caller)), s);
    var d := sl[ShareKey(caller) := n];
    StoreShare(sl, ids, caller, n);
    StoreFixed(d, ids, SHARE_TOTAL, WAdd(Load(d, SHARE_TOTAL), s));
  }

  lemma BurntRefines(sl: Slots, ids: set<Id>, caller: Word, s: Word)
    requires Apart(ids) && caller in ids && Load(sl, ShareKey(caller)) <= Load(sl, SHARE_TOTAL)
    ensures var u, r := VaultAt(sl, ids), SharesBurnt(sl, caller, s);
            && (r.Some? <==> u.configured && s != 0 && s <= Get(u.shares, caller))
            && (r.Some? ==> VaultAt(r.value, ids) ==
                            u.(total := u.total - s, shares := u.shares[caller := Get(u.shares, caller) - s]))
  {
    hide Apart, SharesOf, ShareKey, Pow256;
    IdsAreWords(ids);
    var n := WSub(Load(sl, ShareKey(caller)), s);
    var d := sl[ShareKey(caller) := n];
    StoreShare(sl, ids, caller, n);
    StoreFixed(d, ids, SHARE_TOTAL, WSub(Load(d, SHARE_TOTAL), s));
  }

  lemma SharesMovedRefines(sl: Slots, ids: set<Id>, caller: Word, to: Word, s: Word)
    requires Apart(ids) && caller in ids && to in ids
    requires caller != to ==> Load(sl, ShareKey(caller)) + Load(sl, ShareKey(to)) < WORD
    ensures var u, r := VaultAt(sl, ids), SharesMoved(sl, caller, to, s);
            && (r.Some? <==> to != 0 && s != 0 && s <= Get(u.shares, caller))
            && (r.Some? ==> VaultAt(r.value, ids) ==
                            if to == caller then u
                            else var debited := u.shares[caller := Get(u.shares, caller) - s];
                                 u.(shares := debited[to := Get(debited, to) + s]))
  {
    hide Apart, SharesOf, ShareKey, Pow256;
    IdsAreWords(ids);
    var n := WSub(Load(sl, ShareKey(caller)), s);
    var d := sl[ShareKey(caller) := n];
    StoreShare(sl, ids, caller, n);
    ShareKeysDiffer(caller, to);
    StoreShare(sl, ids, to, n);
    StoreShare(d, ids, to, WAdd(Load(d, ShareKey(to)), s));
  }

  // ---- a share transfer and the configuration ----

  /** The slots that say what the vault is: set flag, pool, pair and total. */
  predicate ConfigKey(key: int) {
    VAULT_SET <= key <= SHARE_TOTAL
  }

  predicate SameConfig(sl: Slots, sl': Slots) {
    && Load(sl', VAULT_SET) == Load(sl, VAULT_SET) && Load(sl', VAULT_POOL) == Load(sl, VAULT_POOL)
    && Load(sl', VAULT_A) == Load(sl, VAULT_A) && Load(sl', VAULT_B) == Load(sl, VAULT_B)
    && Load(sl', SHARE_TOTAL) == Load(sl, SHARE_TOTAL)
  }

  /** A share transfer leaves the configuration alone exactly when neither party's slot is part of it. */
  lemma ShareTransferKeepsConfigIff(sl: Slots, caller: Word, to: Word, s: Word)
    requires TransferredShares(sl, caller, to, s).Some? && to != caller
    ensures SameConfig(sl, TransferredShares(sl, caller, to, s).value) <==>
            !ConfigKey(ShareKey(caller)) && !ConfigKey(ShareKey(to))
  {
    hide ShareKey, Pow256;
    ShareKeysDiffer(caller, to);
  }

  /** The id whose share slot is the vault's pool slot. */
  function PoolSlotHolder(): nat {
    Xor(VAULT_POOL, ShareMask())
  }

  lemma PoolSlotHolderIsAnId()
    ensures 0 < PoolSlotHolder() < WORD && ShareKey(PoolSlotHolder()) == VAULT_POOL
  {
    hide Xor, Half, Pack, Pow256;
    WidthOrder();
    MaskIsWord("BOING_LP_VAULT_V", "2_SHARES");
    HolderOfKey(PoolSlotHolder(), ShareMask(), VAULT_POOL);
    HolderOfKey(VAULT_POOL, ShareMask(), 0);
    XorZero(ShareMask());
    XorBound(VAULT_POOL, ShareMask(), |ZERO_WORD|);
  }

  /** Sending shares to it moves the vault to another pool. */
  lemma ShareTransferMovesPool(sl: Slots, caller: Word, s: Word)
    requires Load(sl, VAULT_LOCK) == 0 && 0 < s <= Load(sl, ShareKey(caller))
    requires !VaultReserved(ShareKey(caller))
    ensures 0 < PoolSlotHolder() < WORD
    ensures var r := TransferredShares(sl, caller, PoolSlotHolder(), s);
            r.Some? && Load(r.value, VAULT_POOL) == WAdd(Load(sl, VAULT_POOL), s) != Load(sl, VAULT_POOL)
  {
    PoolSlotHolderIsAnId();
    hide ShareKey, Pow256, PoolSlotHolder;
  }
}
