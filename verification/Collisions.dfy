/**
 What the condition on ids is for: two transactions with ids that are not apart,
 and the promise that each of them breaks.
 */
module Collisions {
  import opened Words
  import opened Options
  import opened Balances
  import opened Slots
  import opened World
  import opened TokenStorage
  import opened Refinement
  import opened Deployed
  import M = Machine

  /** An id whose allowance from a is kept in a's balance slot. */
  function SpenderInBalance(a: Word): nat {
    Pack(Xor(Lo(a), MaskGap()), 0)
  }

  /** An id whose balance is kept in the slot of a's allowance from p. */
  function HolderInAllowance(p: Word, a: Word): nat {
    Pack(Hi(p), Xor(Hi(a), MaskGap()))
  }

  lemma GapIsHalf(x: nat)
    requires x < U128
    ensures Xor(x, MaskGap()) < U128
  {
    hide Xor, Half, Pow256;
    XorBound(Half("E_BAL1"), Half("E_ALW2"), |ZERO_U128|);
    XorBound(x, MaskGap(), |ZERO_U128|);
  }

  lemma PackIsWord(hi: nat, lo: nat)
    requires hi < U128 && lo < U128
    ensures 0 <= Pack(hi, lo) < WORD
  {
    hide Pow256;
    Widths();
    MulMono(hi + 1, U128, U128);
    assert (hi + 1) * U128 == hi * U128 + U128;
  }

  lemma SpenderMeets(a: Word)
    ensures SpenderInBalance(a) < WORD && Meets(a, a, SpenderInBalance(a))
  {
    hide Xor, Hi, Lo, Pack, MaskGap, Pow256;
    WidthOrder();
    GapIsHalf(Lo(a));
    PackIsWord(Xor(Lo(a), MaskGap()), 0);
    PackHalves(Xor(Lo(a), MaskGap()), 0);
  }

  lemma HolderMeets(p: Word, a: Word)
    ensures HolderInAllowance(p, a) < WORD && Meets(HolderInAllowance(p, a), p, a)
  {
    hide Xor, Hi, Lo, Pack, MaskGap, Pow256;
    HalfOfWord(p);
    HalfOfWord(a);
    GapIsHalf(Hi(a));
    PackIsWord(Hi(p), Xor(Hi(a), MaskGap()));
    PackHalves(Hi(p), Xor(Hi(a), MaskGap()));
    XorUndoes(Hi(a), MaskGap());
  }

  /** Approving that spender sets the approver's own balance, to any amount, in every state of every token. */
  lemma ApprovalSetsBalance(m: Store, k: Id, a: Word, n: Word)
    requires k in m.tokens && Account(m, a)
    ensures 0 <= SpenderInBalance(a) < WORD
    ensures BalSlot(M.Step(m, TokenApprove(k, a, SpenderInBalance(a), n)), k, a) == n
  {
    hide Meets, SpenderInBalance, Approved, Claimed, BalKey;
    SpenderMeets(a);
    ApproveOverwrites(m.tokens[k], a, SpenderInBalance(a), n, a);
  }

  /** Crediting that holder and then calling transfer_from takes the amount out of p, on the token's slots. */
  lemma CreditIsAllowance(sl: Slots, p: Word, a: Word, n: Word)
    requires Load(sl, ADMIN) != 0 && a != p && HolderInAllowance(p, a) != a && HolderInAllowance(p, a) != p
    requires 0 < n <= Load(sl, BalKey(a)) && n <= Load(sl, BalKey(p))
    requires Load(sl, AllowKey(p, a)) + n < WORD
    requires BalKey(a) != ADMIN && AllowKey(p, a) != ADMIN
    ensures HolderInAllowance(p, a) < WORD
    ensures var r := TransferredFrom(Transferred(sl, a, HolderInAllowance(p, a), n), a, p, a, n);
            r.1 && Load(r.0, BalKey(p)) == Load(sl, BalKey(p)) - n
  {
    hide BalKey, AllowKey, HolderInAllowance, Meets, Xor, Pow256, Hi, Lo;
    HolderMeets(p, a);
    var x: Word := HolderInAllowance(p, a);
    HolderKey(p, a);
    MaskedBalances(x, a);
    MaskedBalances(x, p);
    MaskedBalances(a, p);
    MovedAt(sl, a, x, n, BalKey(p));
    MovedAt(sl, a, x, n, BalKey(a));
    MovedAt(sl, a, x, n, BalKey(x));
    MovedAt(sl, a, x, n, ADMIN);
    var sl1 := Transferred(sl, a, x, n);
    assert Moved(sl, a, x, n) == Some(sl1);
    hide Transferred;
    MovedAt(sl1, p, a, n, BalKey(p));
  }

  lemma HolderKey(p: Word, a: Word)
    ensures 0 <= HolderInAllowance(p, a) < WORD && BalKey(HolderInAllowance(p, a)) == AllowKey(p, a)
  {
    hide BalKey, AllowKey, HolderInAllowance, Xor, Hi, Lo, MaskGap;
    HolderMeets(p, a);
    BalanceMeetsAllowance(HolderInAllowance(p, a), p, a);
  }

  /** So those two transactions leave a pool that was exactly backed below its reserve, without a call to it. */
  lemma CreditBreaksSolvency(m: Store, p: Word, a: Word, n: Word)
    requires p in m.pools && Load(m.pools[p].slots, TOKEN_A) in m.tokens && Account(m, a)
    requires HolderInAllowance(p, a) != a && HolderInAllowance(p, a) != p && BalKey(a) != ADMIN && AllowKey(p, a) != ADMIN
    requires var k := Load(m.pools[p].slots, TOKEN_A);
             && Load(m.tokens[k], ADMIN) != 0
             && 0 < n <= BalSlot(m, k, a) && AllowSlot(m, k, p, a) + n < WORD
             && n <= BalSlot(m, k, p) == Load(m.pools[p].slots, RESERVE_A)
    ensures HolderInAllowance(p, a) < WORD
    ensures var k := Load(m.pools[p].slots, TOKEN_A);
            var m' := M.Run(m, [TokenTransfer(k, a, HolderInAllowance(p, a), n), TokenTransferFrom(k, a, p, a, n)]);
            m'.pools == m.pools && !Backed(m', p)
  {
    hide BalKey, AllowKey, HolderInAllowance, Transferred, TransferredFrom;
    HolderKey(p, a);
    var k, x := Load(m.pools[p].slots, TOKEN_A), HolderInAllowance(p, a);
    CreditIsAllowance(m.tokens[k], p, a, n);
    var c1, c2 := TokenTransfer(k, a, x, n), TokenTransferFrom(k, a, p, a, n);
    var m1 := M.WithToken(m, k, Transferred(m.tokens[k], a, x, n));
    assert M.Step(m, c1) == m1;
    var m2 := M.Step(m1, c2);
    assert m2 == M.WithToken(m1, k, TransferredFrom(m1.tokens[k], a, p, a, n).0);
    assert [c1, c2][1..] == [c2] && [c2][1..] == [];
    assert M.Run(m, [c1, c2]) == M.Run(m1, [c2]) == m2;
  }
}
