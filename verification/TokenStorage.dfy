/**
 The token as its bytecode runs it: every selector on one table of slots, in the
 order of its loads and stores. On ids that are apart it is the token of the
 ledger; on others an approval can be a balance and a credit an allowance.
 */
module TokenStorage {
  import opened Words
  import opened Options
  import opened Balances
  import opened Slots
  import T = Tokens

  /** The first caller of any selector takes the admin slot. */
  function Claimed(sl: Slots, caller: Word): Slots {
    if Load(sl, ADMIN) == 0 then sl[ADMIN := caller] else sl
  }

  function Moved(sl: Slots, from: Word, to: Word, amt: Word): Option<Slots> {
    var held, bal := Load(sl, BalKey(from)), Load(sl, BalKey(to));
    if held < amt || WAdd(bal, amt) < bal then None
    else Some(sl[BalKey(from) := WSub(held, amt)][BalKey(to) := WAdd(bal, amt)])
  }

  function Transferred(sl: Slots, caller: Word, to: Word, amt: Word): Slots {
    var c := Claimed(sl, caller);
    if amt == 0 || to == caller then c
    else
      match Moved(c, caller, to, amt)
      case None => c
      case Some(d) => d
  }

  /** The flag says whether the call returned 1. */
  function TransferredFrom(sl: Slots, caller: Word, from: Word, to: Word, amt: Word): (Slots, bool) {
    var c := Claimed(sl, caller);
    var alw := Load(c, AllowKey(from, caller));
    if amt == 0 || from == to || alw < amt then (c, false)
    else
      match Moved(c, from, to, amt)
      case None => (c, false)
      case Some(d) => (d[AllowKey(from, caller) := WSub(alw, amt)], true)
  }

  function Approved(sl: Slots, caller: Word, spender: Word, amt: Word): Slots {
    Claimed(sl, caller)[AllowKey(caller, spender) := amt]
  }

  function Minted(sl: Slots, caller: Word, to: Word, amt: Word): Slots {
    var c := Claimed(sl, caller);
    var held := Load(c, BalKey(to));
    if Load(c, MINTED) != 0 || Load(c, ADMIN) != caller || amt == 0 || WAdd(amt, held) < held then c
    else c[BalKey(to) := WAdd(amt, held)][MINTED := ONE]
  }

  // ---- what the slots say of a set of ids ----

  ghost function BalancesOf(sl: Slots, ids: set<Id>): map<Id, int>
    requires forall x :: x in ids ==> 0 <= x < WORD
  {
    map x | x in ids :: Load(sl, BalKey(x))
  }

  ghost function AllowancesOf(sl: Slots, ids: set<Id>): map<(Id, Id), int>
    requires forall x :: x in ids ==> 0 <= x < WORD
  {
    map o, s | o in ids && s in ids :: (o, s) := Load(sl, AllowKey(o, s))
  }

  ghost function TokenAt(sl: Slots, ids: set<Id>): T.Token
    requires forall x :: x in ids ==> 0 <= x < WORD
  {
    T.Token(Load(sl, ADMIN), Load(sl, MINTED) != 0, BalancesOf(sl, ids), AllowancesOf(sl, ids))
  }

  // ---- on ids that are apart, the slots are a token ----

  lemma ClaimedRefines(sl: Slots, ids: set<Id>, caller: Word)
    requires Apart(ids)
    ensures TokenAt(Claimed(sl, caller), ids) == T.Touch(TokenAt(sl, ids), caller)
  {
    hide BalKey, AllowKey, BalancesOf, AllowancesOf, Apart;
    StoreFixed(sl, ids, ADMIN, caller);
  }

  lemma BalancesKept(sl: Slots, ids: set<Id>, key: int, v: Word)
    requires forall x :: x in ids ==> 0 <= x < WORD && BalKey(x) != key
    ensures BalancesOf(sl[key := v], ids) == BalancesOf(sl, ids)
  {
    hide BalKey;
  }

  lemma AllowancesKept(sl: Slots, ids: set<Id>, key: int, v: Word)
    requires forall x :: x in ids ==> 0 <= x < WORD
    requires forall o, s :: o in ids && s in ids ==> AllowKey(o, s) != key
    ensures AllowancesOf(sl[key := v], ids) == AllowancesOf(sl, ids)
  {
    hide AllowKey;
  }

  lemma StoreFixed(sl: Slots, ids: set<Id>, key: int, v: Word)
    requires Apart(ids) && TokenReserved(key)
    ensures BalancesOf(sl[key := v], ids) == BalancesOf(sl, ids)
    ensures AllowancesOf(sl[key := v], ids) == AllowancesOf(sl, ids)
  {
    hide Xor, Hi, Lo, BalKey, AllowKey, LpKey, ShareKey, TokenReserved, PoolReserved, VaultReserved, BalancesOf, AllowancesOf;
    forall x | x in ids ensures BalKey(x) != key {
      assert Free(x);
    }
    forall o, s | o in ids && s in ids ensures AllowKey(o, s) != key {
      assert Clear(o, s);
    }
    BalancesKept(sl, ids, key, v);
    AllowancesKept(sl, ids, key, v);
  }

  lemma StoreBalance(sl: Slots, ids: set<Id>, h: Word, v: Word)
    requires Apart(ids) && h in ids
    ensures BalancesOf(sl[BalKey(h) := v], ids) == BalancesOf(sl, ids)[h := v]
    ensures AllowancesOf(sl[BalKey(h) := v], ids) == AllowancesOf(sl, ids)
    ensures !TokenReserved(BalKey(h))
  {
    hide Xor, Hi, Lo, BalKey, AllowKey, LpKey, ShareKey, TokenReserved, PoolReserved, VaultReserved, AllowancesOf, MaskGap;
    assert Free(h);
    forall o, s | o in ids && s in ids ensures AllowKey(o, s) != BalKey(h) {
      BalanceMeetsAllowance(h, o, s);
      assert Clear(h, o) && Clear(h, s);
    }
    AllowancesKept(sl, ids, BalKey(h), v);
    forall x | x in ids ensures BalKey(x) == BalKey(h) <==> x == h {
      MaskedBalances(x, h);
    }
  }

  lemma StoreAllowance(sl: Slots, ids: set<Id>, o: Word, s: Word, v: Word)
    requires Apart(ids) && o in ids && s in ids
    ensures BalancesOf(sl[AllowKey(o, s) := v], ids) == BalancesOf(sl, ids)
    ensures AllowancesOf(sl[AllowKey(o, s) := v], ids) == AllowancesOf(sl, ids)[(o, s) := v]
    ensures !TokenReserved(AllowKey(o, s))
  {
    hide Xor, Hi, Lo, BalKey, AllowKey, LpKey, ShareKey, TokenReserved, PoolReserved, VaultReserved, BalancesOf, MaskGap;
    assert Clear(o, s);
    forall h | h in ids ensures AllowKey(o, s) != BalKey(h) {
      BalanceMeetsAllowance(h, o, s);
      assert Clear(h, o) && Clear(h, s);
    }
    BalancesKept(sl, ids, AllowKey(o, s), v);
    forall o', s' | o' in ids && s' in ids ensures AllowKey(o', s') == AllowKey(o, s) <==> (o', s') == (o, s) {
      AllowancesMeet(o, s, o', s');
      assert Clear(o, o') && Clear(s, s');
    }
  }

  lemma ReadBalance(sl: Slots, ids: set<Id>, h: Word)
    requires h in ids && forall x :: x in ids ==> 0 <= x < WORD
    ensures T.Bal(TokenAt(sl, ids), h) == Load(sl, BalKey(h))
  {
    hide BalKey, AllowancesOf;
  }

  lemma ReadAllowance(sl: Slots, ids: set<Id>, o: Word, s: Word)
    requires o in ids && s in ids && forall x :: x in ids ==> 0 <= x < WORD
    ensures T.Allow(TokenAt(sl, ids), o, s) == Load(sl, AllowKey(o, s))
  {
    hide AllowKey, BalancesOf;
  }

  lemma MovedRefines(sl: Slots, ids: set<Id>, from: Word, to: Word, amt: Word)
    requires Apart(ids) && from in ids && to in ids && from != to
    ensures Moved(sl, from, to, amt).Some? <==> T.Move(TokenAt(sl, ids), from, to, amt).Some?
    ensures Moved(sl, from, to, amt).Some? ==>
              TokenAt(Moved(sl, from, to, amt).value, ids) == T.Move(TokenAt(sl, ids), from, to, amt).value
  {
    hide Apart, BalKey, AllowKey, BalancesOf, AllowancesOf, Pow256, T.Bal;
    IdsAreWords(ids);
    ReadBalance(sl, ids, from);
    ReadBalance(sl, ids, to);
    var held, bal := Load(sl, BalKey(from)), Load(sl, BalKey(to));
    var d := WSub(held, amt);
    StoreBalance(sl, ids, from, d);
    StoreBalance(sl[BalKey(from) := d], ids, to, WAdd(bal, amt));
  }

  lemma TransferRefines(sl: Slots, ids: set<Id>, caller: Word, to: Word, amt: Word)
    requires Apart(ids) && caller in ids && to in ids
    ensures TokenAt(Transferred(sl, caller, to, amt), ids) == T.Transfer(TokenAt(sl, ids), caller, to, amt)
  {
    hide TokenAt, Moved, Apart, Claimed, T.Touch, T.Move;
    IdsAreWords(ids);
    ClaimedRefines(sl, ids, caller);
    if to != caller { MovedRefines(Claimed(sl, caller), ids, caller, to, amt); }
  }

  lemma TransferFromRefines(sl: Slots, ids: set<Id>, caller: Word, from: Word, to: Word, amt: Word)
    requires Apart(ids) && caller in ids && from in ids && to in ids
    ensures var (sl', ok) := TransferredFrom(sl, caller, from, to, amt);
            (TokenAt(sl', ids), ok) == T.TransferFrom(TokenAt(sl, ids), caller, from, to, amt)
  {
    hide BalKey, AllowKey, BalancesOf, AllowancesOf, Apart, Claimed, Moved, T.Touch, T.Move, T.Allow, Pow256;
    IdsAreWords(ids);
    var c := Claimed(sl, caller);
    var alw := Load(c, AllowKey(from, caller));
    ReadAllowance(c, ids, from, caller);
    ClaimedRefines(sl, ids, caller);
    if from != to {
      MovedRefines(c, ids, from, to, amt);
      if alw >= amt && Moved(c, from, to, amt).Some? {
        StoreAllowance(Moved(c, from, to, amt).value, ids, from, caller, WSub(alw, amt));
      }
    }
  }

  lemma ApproveRefines(sl: Slots, ids: set<Id>, caller: Word, spender: Word, amt: Word)
    requires Apart(ids) && caller in ids && spender in ids
    ensures TokenAt(Approved(sl, caller, spender, amt), ids) == T.Approve(TokenAt(sl, ids), caller, spender, amt)
  {
    hide BalKey, AllowKey, BalancesOf, AllowancesOf, Apart, Claimed, T.Touch;
    IdsAreWords(ids);
    ClaimedRefines(sl, ids, caller);
    StoreAllowance(Claimed(sl, caller), ids, caller, spender, amt);
  }

  lemma MintRefines(sl: Slots, ids: set<Id>, caller: Word, to: Word, amt: Word)
    requires Apart(ids) && caller in ids && to in ids
    ensures TokenAt(Minted(sl, caller, to, amt), ids) == T.MintFirst(TokenAt(sl, ids), caller, to, amt)
  {
    hide BalKey, AllowKey, BalancesOf, AllowancesOf, Apart, Claimed, T.Touch, T.Bal, Pow256;
    IdsAreWords(ids);
    var c := Claimed(sl, caller);
    var held := Load(c, BalKey(to));
    ReadBalance(c, ids, to);
    ClaimedRefines(sl, ids, caller);
    StoreBalance(c, ids, to, WAdd(amt, held));
    StoreFixed(c[BalKey(to) := WAdd(amt, held)], ids, MINTED, ONE);
  }

  // ---- on ids that are not apart, they are not ----

  /** The balance of h and the allowance of s from o, told from the ids. */
  predicate Meets(h: Word, o: Word, s: Word) {
    Hi(h) == Hi(o) && Hi(s) == Xor(Lo(h), MaskGap())
  }

  /** Approving overwrites the balances that meet the approval, and no others. */
  lemma ApproveOverwrites(sl: Slots, caller: Word, spender: Word, amt: Word, h: Word)
    ensures Load(Approved(sl, caller, spender, amt), BalKey(h)) ==
            if Meets(h, caller, spender) then amt else Load(Claimed(sl, caller), BalKey(h))
  {
    hide Xor, Hi, Lo, BalKey, AllowKey, MaskGap, Claimed;
    BalanceMeetsAllowance(h, caller, spender);
  }

  /** So approving leaves a set of balances alone exactly when none of them meets it, or already is the amount. */
  lemma ApproveKeepsBalancesIff(sl: Slots, ids: set<Id>, caller: Word, spender: Word, amt: Word)
    requires forall x :: x in ids ==> 0 <= x < WORD
    ensures BalancesOf(Approved(sl, caller, spender, amt), ids) == BalancesOf(Claimed(sl, caller), ids) <==>
            forall h :: h in ids && Meets(h, caller, spender) ==> Load(Claimed(sl, caller), BalKey(h)) == amt
  {
    hide Meets, BalKey, Claimed, Approved;
    forall h | h in ids
      ensures Load(Approved(sl, caller, spender, amt), BalKey(h)) ==
              if Meets(h, caller, spender) then amt else Load(Claimed(sl, caller), BalKey(h))
    {
      ApproveOverwrites(sl, caller, spender, amt, h);
    }
    var was, now := BalancesOf(Claimed(sl, caller), ids), BalancesOf(Approved(sl, caller, spender, amt), ids);
    if was == now {
      forall h | h in ids && Meets(h, caller, spender) ensures Load(Claimed(sl, caller), BalKey(h)) == amt {
        assert was[h] == now[h];
      }
    }
  }

  /** A transfer that is covered and fits. */
  predicate GoesThrough(sl: Slots, caller: Word, to: Word, amt: Word) {
    && 0 < amt <= Load(sl, BalKey(caller))
    && to != caller
    && Load(sl, BalKey(to)) + amt < WORD
  }

  function When(b: bool, amt: int): int {
    if b then amt else 0
  }

  /** What a move leaves in any slot. */
  lemma MovedAt(sl: Slots, from: Word, to: Word, amt: Word, key: int)
    requires from != to
    ensures Moved(sl, from, to, amt).Some? <==>
            amt <= Load(sl, BalKey(from)) && Load(sl, BalKey(to)) + amt < WORD
    ensures Moved(sl, from, to, amt).Some? ==>
              Load(Moved(sl, from, to, amt).value, key) ==
              Load(sl, key) + When(key == BalKey(to), amt) - When(key == BalKey(from), amt)
  {
    hide BalKey, Pow256;
    MaskedBalances(from, to);
  }

  /** A transfer adds to the allowances that meet its recipient and takes from those that meet its sender. */
  lemma TransferShiftsAllowance(sl: Slots, caller: Word, to: Word, amt: Word, o: Word, s: Word)
    ensures var c := Claimed(sl, caller); var through := GoesThrough(c, caller, to, amt);
            Load(Transferred(sl, caller, to, amt), AllowKey(o, s)) == Load(c, AllowKey(o, s))
            + When(through && Meets(to, o, s), amt) - When(through && Meets(caller, o, s), amt)
    ensures Meets(to, o, s) && Meets(caller, o, s) ==> to == caller
  {
    hide Xor, Hi, Lo, BalKey, AllowKey, MaskGap, Claimed, Pow256, Moved;
    BalanceMeetsAllowance(to, o, s);
    BalanceMeetsAllowance(caller, o, s);
    MaskedBalances(caller, to);
    if to != caller { MovedAt(Claimed(sl, caller), caller, to, amt, AllowKey(o, s)); }
  }

  /** So an allowance survives a transfer exactly when the transfer fails or neither party's balance meets it. */
  lemma TransferKeepsAllowanceIff(sl: Slots, caller: Word, to: Word, amt: Word, o: Word, s: Word)
    ensures var c := Claimed(sl, caller);
            Load(Transferred(sl, caller, to, amt), AllowKey(o, s)) == Load(c, AllowKey(o, s)) <==>
            !GoesThrough(c, caller, to, amt) || !(Meets(to, o, s) || Meets(caller, o, s))
  {
    hide AllowKey, Claimed, Transferred, Meets;
    TransferShiftsAllowance(sl, caller, to, amt, o, s);
  }
}
