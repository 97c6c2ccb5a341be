/**
 What every transaction keeps: token supply is conserved, pool arithmetic stays
 sound, no pool ever grants an allowance, and each pool holds at least the
 reserves it has recorded.
 */
module Safety {
  import opened Words
  import opened Options
  import opened Balances
  import opened Quotes
  import opened Curve
  import opened World
  import T = Tokens

  ghost predicate TokensOk(w: World) {
    forall k :: k in w.tokens ==> T.TokenOk(w.tokens[k])
  }

  ghost predicate PoolsOk(w: World) {
    forall p :: p in w.pools ==> PoolOk(w.pools[p])
  }

  /** No pool has granted an allowance on any token. */
  ghost predicate Shut(w: World) {
    forall k, p, s :: p in w.pools ==> AllowOf(w, k, p, s) == 0
  }

  /** The reserve a pool has on record for token k. */
  function Owed(s: Pool, k: Id): int {
    if k == s.tokenA then s.ra else if k == s.tokenB then s.rb else 0
  }

  ghost predicate Covered(w: World, p: Id)
    requires p in w.pools
  {
    forall k :: Owed(w.pools[p], k) <= BalOf(w, k, p)
  }

  ghost predicate Solvent(w: World) {
    forall p :: p in w.pools ==> Covered(w, p)
  }

  ghost predicate Core(w: World) {
    Ids(w) && TokensOk(w) && PoolsOk(w) && Shut(w) && Solvent(w)
  }

  // ---- how a step changes the token side ----

  function Delta(x: Id, from: Id, to: Id, amt: int): int {
    (if x == to then amt else 0) - (if x == from then amt else 0)
  }

  /** Exactly one movement of token k happened. */
  ghost predicate Shifted(w: World, w': World, k: Id, from: Id, to: Id, amt: int) {
    forall j, x :: BalOf(w', j, x) == BalOf(w, j, x) + (if j == k then Delta(x, from, to, amt) else 0)
  }

  /** Same contracts, and the supply of every token is unchanged. */
  ghost predicate Conserves(w: World, w': World) {
    && w'.height == w.height
    && w'.tokens.Keys == w.tokens.Keys && w'.pools.Keys == w.pools.Keys
    && w'.vaults.Keys == w.vaults.Keys && w'.routers == w.routers
    && (forall k :: k in w.tokens ==>
          w'.tokens[k].minted == w.tokens[k].minted && Sum(w'.tokens[k].bal) == Sum(w.tokens[k].bal))
  }

  /** Accounts outside S lose no tokens and their allowances are untouched. */
  ghost predicate Spares(w: World, w': World, S: set<Id>) {
    && (forall k, x :: x !in S ==> BalOf(w, k, x) <= BalOf(w', k, x))
    && (forall k, o, s :: o !in S ==> AllowOf(w', k, o, s) == AllowOf(w, k, o, s))
  }

  lemma BalNonneg(w: World, k: Id, x: Id)
    requires TokensOk(w)
    ensures 0 <= BalOf(w, k, x) < WORD
  {
    if k in w.tokens { T.BalIsWord(w.tokens[k], x); }
  }

  /** Replacing a token's state by one that differs by a single covered movement. */
  lemma TokenUpdateKeeps(w: World, k: Id, t: Token, from: Id, to: Id, amt: int)
    requires Core(w) && k in w.tokens && T.TokenOk(t) && T.Moved(w.tokens[k], t, from, to, amt) && 0 <= amt
    requires forall p, s :: p in w.pools ==> T.Allow(t, p, s) == 0
    requires from in w.pools ==> from == to || Owed(w.pools[from], k) <= BalOf(w, k, from) - amt
    ensures var w' := WithToken(w, k, t);
            Core(w') && Shifted(w, w', k, from, to, amt) && Conserves(w, w')
  {
    var w' := WithToken(w, k, t);
    assert Shifted(w, w', k, from, to, amt);
    forall p | p in w'.pools ensures Covered(w', p) {
      assert Covered(w, p);
      forall j ensures Owed(w'.pools[p], j) <= BalOf(w', j, p) {
        assert Owed(w.pools[p], j) <= BalOf(w, j, p);
      }
    }
    assert Shut(w') by {
      forall j, p, s | p in w'.pools ensures AllowOf(w', j, p, s) == 0 {
        assert AllowOf(w, j, p, s) == 0;
      }
    }
  }

  ghost predicate AllowanceSpent(w: World, w': World, k: Id, owner: Id, spender: Id, amt: int) {
    && AllowOf(w', k, owner, spender) == AllowOf(w, k, owner, spender) - amt
    && forall j, o, s :: (j, o, s) != (k, owner, spender) ==> AllowOf(w', j, o, s) == AllowOf(w, j, o, s)
  }

  ghost predicate SameContracts(w: World, w': World) {
    w'.height == w.height && w'.pools == w.pools && w'.vaults == w.vaults && w'.routers == w.routers
  }

  /** A pull succeeds exactly when it is positive and covered, and moves exactly amt. */
  lemma PullEffect(w: World, k: Id, self: Id, from: Id, amt: int)
    requires Core(w) && from !in w.pools && from != self && 0 <= amt
    ensures var r := Pull(w, k, self, from, amt);
            && (r.Some? <==> 0 < amt <= AllowOf(w, k, from, self) && amt <= BalOf(w, k, from))
            && (r.Some? ==> Core(r.value) && Shifted(w, r.value, k, from, self, amt)
                            && Conserves(w, r.value) && SameContracts(w, r.value)
                            && AllowanceSpent(w, r.value, k, from, self, amt)
                            && Spares(w, r.value, {from}))
  {
    if k in w.tokens {
      var t := w.tokens[k];
      T.TransferFromEffect(t, self, from, self, amt);
      var r := T.TransferFrom(t, self, from, self, amt);
      if r.1 {
        forall p, s | p in w.pools ensures T.Allow(r.0, p, s) == 0 {
          assert AllowOf(w, k, p, s) == 0;
        }
        TokenUpdateKeeps(w, k, r.0, from, self, amt);
      }
    }
  }

  /** A payment within what the pool holds beyond its record arrives in full. */
  lemma PayEffect(w: World, k: Id, self: Id, to: Id, amt: int)
    requires Core(w) && self in w.pools && k in w.tokens
    requires 0 <= amt && Owed(w.pools[self], k) <= BalOf(w, k, self) - amt
    ensures var w' := Pay(w, k, self, to, amt);
            && Core(w') && Shifted(w, w', k, self, to, amt) && Conserves(w, w') && SameContracts(w, w')
            && (forall j, o, s :: AllowOf(w', j, o, s) == AllowOf(w, j, o, s))
            && Spares(w, w', {self})
  {
    if amt != 0 {
      var t := w.tokens[k];
      assert PoolOk(w.pools[self]);
      T.TransferEffect(t, self, to, amt);
      var u := T.Transfer(t, self, to, amt);
      forall p, s | p in w.pools ensures T.Allow(u, p, s) == 0 {
        assert AllowOf(w, k, p, s) == 0;
      }
      TokenUpdateKeeps(w, k, u, self, to, amt);
    }
  }

  lemma ApproveEffect(w: World, k: Id, owner: Id, spender: Id, amt: int)
    requires Core(w) && owner !in w.pools && 0 <= amt < WORD && k in w.tokens
    ensures var w' := ApproveCall(w, k, owner, spender, amt).value;
            && Core(w') && Conserves(w, w') && SameContracts(w, w') && Spares(w, w', {owner})
            && (forall j, x :: BalOf(w', j, x) == BalOf(w, j, x))
            && AllowOf(w', k, owner, spender) == amt
            && (forall j, o, s :: (j, o, s) != (k, owner, spender) ==> AllowOf(w', j, o, s) == AllowOf(w, j, o, s))
  {
    var t := w.tokens[k];
    var u := T.Approve(t, owner, spender, amt);
    forall p, s | p in w.pools ensures T.Allow(u, p, s) == 0 {
      assert AllowOf(w, k, p, s) == 0;
    }
    assert T.Moved(t, u, owner, owner, 0);
    TokenUpdateKeeps(w, k, u, owner, owner, 0);
  }

  /** Recording a new pool state that the pool can cover. */
  lemma PoolUpdateKeeps(w: World, p: Id, s: Pool)
    requires Core(w) && p in w.pools && PoolOk(s)
    requires forall k :: Owed(s, k) <= BalOf(w, k, p)
    ensures Core(WithPool(w, p, s))
    ensures Conserves(w, WithPool(w, p, s))
  {
    var w' := WithPool(w, p, s);
    assert w'.pools.Keys == w.pools.Keys;
    forall q | q in w'.pools ensures Covered(w', q) {
      if q != p { assert Covered(w, q); }
      forall k ensures Owed(w'.pools[q], k) <= BalOf(w', k, q) {
        if q != p { assert Owed(w.pools[q], k) <= BalOf(w, k, q); }
      }
    }
    forall k, q, x | q in w'.pools ensures AllowOf(w', k, q, x) == 0 {
      assert AllowOf(w, k, q, x) == 0;
    }
  }

  // ---- the three pool steps ----

  /** Outcome of add_liquidity: both sides arrive, the LP is credited, nobody else is touched. */
  lemma AddEffect(w: World, p: Id, caller: Id, a: nat, b: nat, min: nat, d: nat)
    requires Core(w) && caller !in w.pools && DoAdd(w, p, caller, a, b, min, d).Done?
    ensures var w' := DoAdd(w, p, caller, a, b, min, d).w;
            var s := w.pools[p];
            && Core(w') && Conserves(w, w') && Spares(w, w', {caller})
            && Add(s, caller, a, b, min).Some?
            && w'.pools == w.pools[p := Add(s, caller, a, b, min).value.0]
            && w'.vaults == w.vaults
            && DoAdd(w, p, caller, a, b, min, d).ret == Add(s, caller, a, b, min).value.1 > 0
            && (forall k, x :: BalOf(w', k, x) == BalOf(w, k, x)
                  + (if k == s.tokenA then Delta(x, caller, p, a) else 0)
                  + (if k == s.tokenB then Delta(x, caller, p, b) else 0))
            && (forall k, o, z :: AllowOf(w', k, o, z) == AllowOf(w, k, o, z)
                  - (if (k, o, z) == (s.tokenA, caller, p) then a else 0)
                  - (if (k, o, z) == (s.tokenB, caller, p) then b else 0))
  {
    var s := w.pools[p];
    var w2 := AddPulls(w, p, caller, a, b, min, d);
    assert PoolOk(s) && Covered(w, p);
    AddGrows(s, caller, a, b, min);
    AddKeeps(s, caller, a, b, min);
    var r := Add(s, caller, a, b, min).value;
    AddRecordCovered(w, w2, p, s, caller, a, b, min);
    hide Core, Add, PoolOk, Grows;
    PoolUpdateKeeps(w2, p, r.0);
  }

  lemma AddRecordCovered(w: World, w2: World, p: Id, s: Pool, caller: Id, a: nat, b: nat, min: nat)
    requires p in w.pools && w.pools[p] == s && Covered(w, p) && p != caller && Add(s, caller, a, b, min).Some?
    requires forall k, x :: BalOf(w2, k, x) == BalOf(w, k, x)
               + (if k == s.tokenA then Delta(x, caller, p, a) else 0)
               + (if k == s.tokenB then Delta(x, caller, p, b) else 0)
    ensures forall k :: Owed(Add(s, caller, a, b, min).value.0, k) <= BalOf(w2, k, p)
  {
    forall k ensures Owed(Add(s, caller, a, b, min).value.0, k) <= BalOf(w2, k, p) {
      assert Owed(s, k) <= BalOf(w, k, p);
    }
  }

  /** The two pulls of a deposit that goes through. */
  lemma AddPulls(w: World, p: Id, caller: Id, a: nat, b: nat, min: nat, d: nat) returns (w2: World)
    requires Core(w) && caller !in w.pools && DoAdd(w, p, caller, a, b, min, d).Done?
    ensures var s := w.pools[p];
            && Add(s, caller, a, b, min).Some?
            && DoAdd(w, p, caller, a, b, min, d) == Done(WithPool(w2, p, Add(s, caller, a, b, min).value.0), Add(s, caller, a, b, min).value.1)
            && Core(w2) && Conserves(w, w2) && SameContracts(w, w2) && Spares(w, w2, {caller})
            && (forall k, x :: BalOf(w2, k, x) == BalOf(w, k, x)
                  + (if k == s.tokenA then Delta(x, caller, p, a) else 0)
                  + (if k == s.tokenB then Delta(x, caller, p, b) else 0))
            && (forall k, o, z :: AllowOf(w2, k, o, z) == AllowOf(w, k, o, z)
                  - (if (k, o, z) == (s.tokenA, caller, p) then a else 0)
                  - (if (k, o, z) == (s.tokenB, caller, p) then b else 0))
  {
    hide Add;
    var s := w.pools[p];
    PullEffect(w, s.tokenA, p, caller, a);
    var w1 := Pull(w, s.tokenA, p, caller, a).value;
    PullEffect(w1, s.tokenB, p, caller, b);
    w2 := Pull(w1, s.tokenB, p, caller, b).value;
  }

  /** A pool with liquidity has two different, deployed tokens. */
  lemma LiveTokens(w: World, p: Id)
    requires Core(w) && p in w.pools && 0 < w.pools[p].t
    ensures var s := w.pools[p];
            && s.tokenA in w.tokens && s.tokenB in w.tokens && s.tokenA != s.tokenB
            && 0 < s.ra <= BalOf(w, s.tokenA, p) && 0 < s.rb <= BalOf(w, s.tokenB, p)
  {
    var s := w.pools[p];
    assert PoolOk(s) && Covered(w, p);
    assert Owed(s, s.tokenA) <= BalOf(w, s.tokenA, p);
    assert Owed(s, s.tokenB) <= BalOf(w, s.tokenB, p);
  }

  /** Outcome of remove_liquidity: both outputs leave the pool and arrive in full. */
  lemma RemoveEffect(w: World, p: Id, caller: Id, burn: nat, minA: nat, minB: nat, toA: Id, toB: Id, d: nat)
    requires Core(w) && DoRemove(w, p, caller, burn, minA, minB, toA, toB, d).Done?
    ensures var w' := DoRemove(w, p, caller, burn, minA, minB, toA, toB, d).w;
            var s := w.pools[p];
            && Core(w') && Conserves(w, w') && Spares(w, w', {p})
            && Remove(s, caller, burn, minA, minB).Some?
            && w'.pools == w.pools[p := Remove(s, caller, burn, minA, minB).value.0]
            && w'.vaults == w.vaults
            && (forall k, x :: BalOf(w', k, x) == BalOf(w, k, x)
                  + (if k == s.tokenA then Delta(x, p, toA, Remove(s, caller, burn, minA, minB).value.1) else 0)
                  + (if k == s.tokenB then Delta(x, p, toB, Remove(s, caller, burn, minA, minB).value.2) else 0))
            && (forall k, o, z :: AllowOf(w', k, o, z) == AllowOf(w, k, o, z))
  {
    var s := w.pools[p];
    assert PoolOk(s);
    RemoveKeeps(s, caller, burn, minA, minB);
    var r := Remove(s, caller, burn, minA, minB).value;
    LiveTokens(w, p);
    EntryAtMostSum(s.lp, caller);
    BurnSide(s.ra, s.t, burn);
    BurnSide(s.rb, s.t, burn);
    assert Covered(w, p);
    forall k ensures Owed(r.0, k) <= BalOf(w, k, p) {
      assert Owed(s, k) <= BalOf(w, k, p);
    }
    PoolUpdateKeeps(w, p, r.0);
    var w0 := WithPool(w, p, r.0);
    PayEffect(w0, s.tokenA, p, toA, r.1);
    var w1 := Pay(w0, s.tokenA, p, toA, r.1);
    PayEffect(w1, s.tokenB, p, toB, r.2);
  }

  /** After the pull and the new record, the pool still holds the output it is about to pay. */
  lemma SwapRecorded(w: World, p: Id, caller: Id, dir: nat, ain: nat, min: nat)
    requires Core(w) && caller !in w.pools && p in w.pools
    requires Swap(w.pools[p], dir, ain, min).Some? && Pull(w, TokenIn(w.pools[p], dir), p, caller, ain).Some?
    ensures var s, r := w.pools[p], Swap(w.pools[p], dir, ain, min).value;
            var w1 := Pull(w, TokenIn(s, dir), p, caller, ain).value;
            var w2 := WithPool(w1, p, r.0);
            && Core(w2) && Conserves(w, w2) && TokenOut(s, dir) in w.tokens
            && 0 < r.1 && Owed(r.0, TokenOut(s, dir)) <= BalOf(w2, TokenOut(s, dir), p) - r.1
  {
    var s := w.pools[p];
    assert PoolOk(s);
    SwapKeeps(s, dir, ain, min);
    SwapOut(s, dir, ain, min);
    LiveTokens(w, p);
    var r := Swap(s, dir, ain, min).value;
    PullEffect(w, TokenIn(s, dir), p, caller, ain);
    var w1 := Pull(w, TokenIn(s, dir), p, caller, ain).value;
    assert Covered(w, p);
    forall k ensures Owed(r.0, k) <= BalOf(w1, k, p) {
      assert Owed(s, k) <= BalOf(w, k, p);
    }
    PoolUpdateKeeps(w1, p, r.0);
    assert Owed(s, TokenOut(s, dir)) <= BalOf(w, TokenOut(s, dir), p);
  }

  /** Outcome of swap: the input arrives, the output leaves, reserves follow. */
  lemma SwapEffect(w: World, p: Id, caller: Id, dir: nat, ain: nat, min: nat, to: Id, d: nat)
    requires Core(w) && caller !in w.pools && DoSwap(w, p, caller, dir, ain, min, to, d).Done?
    ensures var w' := DoSwap(w, p, caller, dir, ain, min, to, d).w;
            var s := w.pools[p];
            && Core(w') && Conserves(w, w') && Spares(w, w', {caller, p})
            && Swap(s, dir, ain, min).Some?
            && w'.pools == w.pools[p := Swap(s, dir, ain, min).value.0]
            && w'.vaults == w.vaults
            && TokenIn(s, dir) != TokenOut(s, dir)
            && TokenIn(s, dir) in w.tokens && TokenOut(s, dir) in w.tokens
            && (forall k, x :: BalOf(w', k, x) == BalOf(w, k, x)
                  + (if k == TokenIn(s, dir) then Delta(x, caller, p, ain) else 0)
                  + (if k == TokenOut(s, dir) then Delta(x, p, to, Swap(s, dir, ain, min).value.1) else 0))
            && AllowanceSpent(w, w', TokenIn(s, dir), caller, p, ain)
            && ain <= AllowOf(w, TokenIn(s, dir), caller, p)
  {
    var s := w.pools[p];
    assert PoolOk(s);
    PullEffect(w, TokenIn(s, dir), p, caller, ain);
    SwapRecorded(w, p, caller, dir, ain, min);
    var w1 := Pull(w, TokenIn(s, dir), p, caller, ain).value;
    var r := Swap(s, dir, ain, min).value;
    PayEffect(WithPool(w1, p, r.0), TokenOut(s, dir), p, to, r.1);
  }

  // ---- exactly when each pool step goes through ----

  /** The two pulls of a deposit both succeed exactly when both sides are allowed and covered. */
  lemma PullsIff(w: World, p: Id, caller: Id, kA: Id, kB: Id, a: nat, b: nat)
    requires Core(w) && caller !in w.pools && caller != p && kA != kB && 0 < a && 0 < b
    ensures var r := Pull(w, kA, p, caller, a);
            r.Some? && Pull(r.value, kB, p, caller, b).Some? <==>
            && a <= AllowOf(w, kA, caller, p) && a <= BalOf(w, kA, caller)
            && b <= AllowOf(w, kB, caller, p) && b <= BalOf(w, kB, caller)
  {
    PullEffect(w, kA, p, caller, a);
    var r := Pull(w, kA, p, caller, a);
    if r.Some? { PullEffect(r.value, kB, p, caller, b); }
  }

  /** What a deposit that went through must have found approved. */
  lemma AddPulled(w: World, p: Id, caller: Id, a: nat, b: nat, min: nat, d: nat)
    requires Core(w) && caller !in w.pools && DoAdd(w, p, caller, a, b, min, d).Done?
    ensures p in w.pools
    ensures var s := w.pools[p];
            && s.tokenA != s.tokenB && p != caller
            && a <= AllowOf(w, s.tokenA, caller, p) && b <= AllowOf(w, s.tokenB, caller, p)
  {
    var s := w.pools[p];
    assert PoolOk(s) && 0 < a && 0 < b;
    PullsIff(w, p, caller, s.tokenA, s.tokenB, a, b);
  }

  lemma SwapDoneIff(w: World, p: Id, caller: Id, dir: nat, ain: nat, min: nat, to: Id, d: nat)
    requires Core(w) && caller !in w.pools
    ensures DoSwap(w, p, caller, dir, ain, min, to, d).Done? <==>
            && p in w.pools && to != 0 && !Late(w, d)
            && Swap(w.pools[p], dir, ain, min).Some?
            && ain <= AllowOf(w, TokenIn(w.pools[p], dir), caller, p)
            && ain <= BalOf(w, TokenIn(w.pools[p], dir), caller)
  {
    if p in w.pools {
      PullEffect(w, TokenIn(w.pools[p], dir), p, caller, ain);
    }
  }
}
