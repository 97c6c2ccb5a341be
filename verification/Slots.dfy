/**
 Contract storage: 256-bit slots under 256-bit keys, zero until written. A holder's
 slot is the holder's id under a mask, so kinds of slots share one key space. Here
 is when two of them are the same slot.
 */
module Slots {
  import opened Words
  import opened Options
  import opened Balances

  type Slots = map<int, Word>

  const ONE: Word := 1

  function Load(sl: Slots, key: int): Word {
    if key in sl then sl[key] else 0
  }

  function Put(sl: Slots, key: int, v: Word): Slots {
    sl[key := v]
  }

  /** A call that finds the lock slot set faults; otherwise it sets it. */
  function Enter(sl: Slots, lock: int): Option<Slots> {
    if Load(sl, lock) != 0 then None else Some(sl[lock := ONE])
  }

  function Leave(sl: Slots, lock: int): Slots {
    sl[lock := 0]
  }

  // ---- exclusive or on numbers ----

  function Pow2(n: nat): (p: int)
    ensures p >= 1
  {
    if n == 0 then 1 else 2 * Pow2(n - 1)
  }

  function Xor(x: nat, y: nat): nat
    decreases x + y
  {
    if x == 0 then y else if y == 0 then x
    else (x + y) % 2 + 2 * Xor(x / 2, y / 2)
  }

  function XorBit(b: int, c: int): int {
    if b == c then 0 else 1
  }

  /** Bit by bit, also where one side has run out. */
  lemma XorStep(b: int, u: nat, c: int, v: nat)
    requires 0 <= b <= 1 && 0 <= c <= 1
    ensures Xor(b + 2 * u, c + 2 * v) == XorBit(b, c) + 2 * Xor(u, v)
  {
    var x, y := b + 2 * u, c + 2 * v;
    assert x / 2 == u && y / 2 == v && (x + y) % 2 == XorBit(b, c);
    if x == 0 {
      assert Xor(u, v) == v;
    } else if y == 0 {
      assert Xor(u, v) == u;
    }
  }

  lemma {:induction false} XorSelf(x: nat)
    ensures Xor(x, x) == 0
  {
    if x > 0 { XorSelf(x / 2); }
  }

  lemma {:induction false} XorAssociates(x: nat, y: nat, z: nat)
    ensures Xor(Xor(x, y), z) == Xor(x, Xor(y, z))
    decreases x + y + z
  {
    hide Xor;
    if x + y + z == 0 {
      XorSelf(0);
    } else {
      var b, u, c, v, d, w := x % 2, x / 2, y % 2, y / 2, z % 2, z / 2;
      XorAssociates(u, v, w);
      XorStep(b, u, c, v);
      XorStep(c, v, d, w);
      XorStep(XorBit(b, c), Xor(u, v), d, w);
      XorStep(b, u, XorBit(c, d), Xor(v, w));
    }
  }

  lemma XorZero(x: nat)
    ensures Xor(0, x) == x
  {
  }

  /** A mask is undone by itself. */
  lemma XorUndoes(x: nat, m: nat)
    ensures Xor(Xor(x, m), m) == x
  {
    XorAssociates(x, m, m);
    XorSelf(m);
  }

  /** Masks move to the other side of an equation. */
  lemma XorMoves(x: nat, y: nat, m: nat)
    ensures Xor(x, m) == y <==> x == Xor(y, m)
  {
    XorUndoes(x, m);
    XorUndoes(y, m);
  }

  // A number cut in two at a power of two.

  function High(x: nat, p: nat): nat
    requires p >= 1
  {
    x / p
  }

  function Low(x: nat, p: nat): nat
    requires p >= 1
  {
    x % p
  }

  /** A number cut after n bits is masked part by part. */
  lemma {:induction false} XorSplits(x: nat, y: nat, n: nat)
    ensures High(Xor(x, y), Pow2(n)) == Xor(High(x, Pow2(n)), High(y, Pow2(n)))
    ensures Low(Xor(x, y), Pow2(n)) == Xor(Low(x, Pow2(n)), Low(y, Pow2(n)))
    decreases n
  {
    hide Xor, High, Low, Pow2;
    if n == 0 {
      XorUncut(x, y);
    } else {
      var b, u, c, v := x % 2, x / 2, y % 2, y / 2;
      XorSplits(u, v, n - 1);
      XorStep(b, u, c, v);
      CutOneMore(b, u, n);
      CutOneMore(c, v, n);
      CutOneMore(XorBit(b, c), Xor(u, v), n);
      XorStep(b, Low(u, Pow2(n - 1)), c, Low(v, Pow2(n - 1)));
    }
  }

  lemma XorUncut(x: nat, y: nat)
    ensures High(Xor(x, y), Pow2(0)) == Xor(High(x, Pow2(0)), High(y, Pow2(0)))
    ensures Low(Xor(x, y), Pow2(0)) == Xor(Low(x, Pow2(0)), Low(y, Pow2(0)))
  {
  }

  lemma CutOneMore(b: int, u: nat, n: nat)
    requires 0 <= b <= 1 && n > 0
    ensures High(b + 2 * u, Pow2(n)) == High(u, Pow2(n - 1))
    ensures Low(b + 2 * u, Pow2(n)) == b + 2 * Low(u, Pow2(n - 1))
  {
    var p := Pow2(n - 1);
    hide Pow2;
    CutTwice(b, u, p);
    Pow2Step(n);
  }

  lemma Pow2Step(n: nat)
    requires n > 0
    ensures Pow2(n) == 2 * Pow2(n - 1)
  {
  }

  lemma CutTwice(b: int, u: nat, p: nat)
    requires p >= 1 && 0 <= b <= 1
    ensures (b + 2 * u) / (2 * p) == u / p && (b + 2 * u) % (2 * p) == b + 2 * (u % p)
  {
    var q, r := u / p, u % p;
    assert u == p * q + r;
    DoubleProduct(p, q);
    RemainderIsUnique(b + 2 * u, 2 * p, q, b + 2 * r);
    QuotientIsUnique(b + 2 * u, 2 * p, q, b + 2 * r);
  }

  lemma DoubleProduct(p: int, q: int)
    ensures (2 * p) * q == 2 * (p * q)
  {
  }

  lemma QuotientIsUnique(n: int, d: int, q: int, r: int)
    requires d >= 1 && 0 <= r < d && n == d * q + r
    ensures n / d == q
  {
    var q', r' := n / d, n % d;
    assert n == d * q' + r';
    NoLargerQuotient(d, q, r, q', r');
    NoLargerQuotient(d, q', r', q, r);
  }

  lemma {:induction false} Pow2OfBytes(n: nat)
    ensures Pow2(8 * n) == Pow256(n)
  {
    if n > 0 {
      Pow2OfBytes(n - 1);
      EightMore(8 * (n - 1));
    }
  }

  lemma EightMore(n: nat)
    ensures Pow2(n + 8) == 256 * Pow2(n)
  {
    Pow2Step(n + 1); Pow2Step(n + 2); Pow2Step(n + 3); Pow2Step(n + 4);
    Pow2Step(n + 5); Pow2Step(n + 6); Pow2Step(n + 7); Pow2Step(n + 8);
  }

  // ---- a key as two halves of 16 bytes ----

  function Hi(x: nat): nat {
    High(x, U128)
  }

  function Lo(x: nat): (r: nat)
    ensures r < U128
  {
    Low(x, U128)
  }

  function Pack(hi: nat, lo: nat): nat {
    hi * U128 + lo
  }

  lemma XorHalves(x: nat, y: nat)
    ensures Hi(Xor(x, y)) == Xor(Hi(x), Hi(y)) && Lo(Xor(x, y)) == Xor(Lo(x), Lo(y))
  {
    hide Xor, High, Low, Pow2, Pow256;
    Pow2OfBytes(|ZERO_U128|);
    XorSplits(x, y, 8 * |ZERO_U128|);
  }

  /** A mask of n bytes keeps a number of n bytes in n bytes. */
  lemma XorBound(x: nat, y: nat, n: nat)
    requires x < Pow256(n) && y < Pow256(n)
    ensures Xor(x, y) < Pow256(n)
  {
    hide Xor, Pow2, Pow256;
    Pow2OfBytes(n);
    XorSplits(x, y, 8 * n);
    DivSmall(x, Pow256(n));
    DivSmall(y, Pow256(n));
    XorSelf(0);
    DivBounds(Xor(x, y), Pow256(n));
  }

  lemma DivSmall(x: nat, p: nat)
    requires x < p
    ensures x / p == 0
  {
    QuotientIsUnique(x, p, 0, x);
  }

  lemma PackHalves(hi: nat, lo: nat)
    requires lo < U128
    ensures Hi(Pack(hi, lo)) == hi && Lo(Pack(hi, lo)) == lo
  {
    hide Pow256;
    RemainderIsUnique(hi * U128 + lo, U128, hi, lo);
    QuotientIsUnique(hi * U128 + lo, U128, hi, lo);
  }

  lemma HalvesDecide(x: nat, y: nat)
    ensures x == y <==> Hi(x) == Hi(y) && Lo(x) == Lo(y)
  {
    hide Pow256;
    assert x == U128 * (x / U128) + x % U128;
    assert y == U128 * (y / U128) + y % U128;
  }

  // ---- masks ----

  /** Text as a big-endian number, one byte a character. */
  function Text(s: string): (n: nat)
    ensures n < Pow256(|s|)
  {
    if s == "" then 0
    else Text(s[..|s| - 1]) * 256 + s[|s| - 1] as int % 256
  }

  /** Sixteen bytes that start with the text and go on with zeros. */
  function Half(s: string): (n: nat)
    requires |s| <= 16
    ensures n < U128
  {
    Text(s + seq(16 - |s|, i => '\0'))
  }

  function BalanceMask(): nat {
    Pack(Half("BOING_REFFUNGIBL"), Half("E_BAL1"))
  }

  function AllowanceMask(): nat {
    Pack(Half("BOING_REFFUNGIBL"), Half("E_ALW2"))
  }

  function ShareMask(): nat {
    Pack(Half("BOING_LP_VAULT_V"), Half("2_SHARES"))
  }

  function LpMask(): nat {
    Pack(Half("BOING_NATIVEAMM_"), Half("LPRV1"))
  }

  lemma TextStep(s: string, c: char)
    ensures Text(s + [c]) == Text(s) * 256 + c as int % 256
  {
    assert (s + [c])[..|s|] == s;
  }

  lemma {:induction false} TextJoins(a: string, b: string)
    ensures Text(a + b) == Text(a) * Pow256(|b|) + Text(b)
    decreases |b|
  {
    if b == "" {
      assert a + b == a;
    } else {
      var n := |b| - 1;
      var front, c, p := b[..n], b[n], Pow256(n);
      TextJoins(a, front);
      hide Text;
      assert b == front + [c] && a + b == (a + front) + [c];
      TextStep(front, c);
      TextStep(a + front, c);
      Shifted(Text(a), p, Text(front), c as int % 256);
    }
  }

  lemma Shifted(x: int, p: int, y: int, c: int)
    ensures (x * p + y) * 256 + c == x * (256 * p) + (y * 256 + c)
  {
  }

  /** Thirty-two bytes that start with the text and go on with zeros. */
  function Padded(s: string): nat
    requires |s| <= 32
  {
    Text(s + seq(32 - |s|, i => '\0'))
  }

  lemma HalvesOfPadded(hi: string, lo: string)
    requires |hi| == 16 && |lo| <= 16
    ensures Pack(Half(hi), Half(lo)) == Padded(hi + lo)
  {
    hide Text, Pow256;
    var rest := lo + seq(16 - |lo|, i => '\0');
    assert hi + seq(16 - |hi|, i => '\0') == hi;
    assert (hi + lo) + seq(32 - |hi + lo|, i => '\0') == hi + rest;
    TextJoins(hi, rest);
  }

  /** The masks are the contracts' names, padded with zeros to a word. */
  lemma MasksAreNames()
    ensures BalanceMask() == Padded("BOING_REFFUNGIBLE_BAL1") && AllowanceMask() == Padded("BOING_REFFUNGIBLE_ALW2")
    ensures ShareMask() == Padded("BOING_LP_VAULT_V2_SHARES") && LpMask() == Padded("BOING_NATIVEAMM_LPRV1")
  {
    hide Pack, Half, Padded;
    HalvesOfPadded("BOING_REFFUNGIBL", "E_BAL1");
    HalvesOfPadded("BOING_REFFUNGIBL", "E_ALW2");
    HalvesOfPadded("BOING_LP_VAULT_V", "2_SHARES");
    HalvesOfPadded("BOING_NATIVEAMM_", "LPRV1");
    assert "BOING_REFFUNGIBL" + "E_BAL1" == "BOING_REFFUNGIBLE_BAL1";
    assert "BOING_REFFUNGIBL" + "E_ALW2" == "BOING_REFFUNGIBLE_ALW2";
    assert "BOING_LP_VAULT_V" + "2_SHARES" == "BOING_LP_VAULT_V2_SHARES";
    assert "BOING_NATIVEAMM_" + "LPRV1" == "BOING_NATIVEAMM_LPRV1";
  }

  /** What the two token masks differ by: nothing in the first half. */
  function MaskGap(): nat {
    Xor(Half("E_BAL1"), Half("E_ALW2"))
  }

  /** Sixteen letters are not the number zero. */
  lemma HalfIsPositive(s: string)
    requires |s| == 16 && s[15] as int % 256 != 0
    ensures 0 < Half(s)
  {
    assert s + seq(16 - |s|, i => '\0') == s;
  }

  lemma MaskIsWord(hi: string, lo: string)
    requires |hi| == 16 && |lo| <= 16 && hi[15] as int % 256 != 0
    ensures U128 <= Pack(Half(hi), Half(lo)) < WORD
  {
    hide Pow256, Text;
    HalfIsPositive(hi);
    hide Half;
    Widths();
    MulMono(1, Half(hi), U128);
    MulMono(Half(hi) + 1, U128, U128);
    assert (Half(hi) + 1) * U128 == Half(hi) * U128 + U128;
  }

  // ---- keys ----

  // The token's fixed slots.
  const ADMIN: int := 0xf0
  const MINTED: int := 0xf1

  function BalKey(holder: nat): nat {
    Xor(holder, BalanceMask())
  }

  function AllowKey(owner: nat, spender: nat): nat {
    Xor(Pack(Hi(owner), Hi(spender)), AllowanceMask())
  }

  // The pool's fixed slots.
  const RESERVE_A: int := 0x01
  const RESERVE_B: int := 0x02
  const LP_TOTAL: int := 0x03
  const TOKEN_A: int := 0x04
  const TOKEN_B: int := 0x05
  const TOKENS_SET: int := 0x06
  const SWAP_FEE: int := 0x07
  const FEE_ADMIN: int := 0x08
  const POOL_LOCK: int := 0x09

  function LpKey(holder: nat): nat {
    Xor(holder, LpMask())
  }

  // The vault's fixed slots.
  const VAULT_SET: int := 0xe1
  const VAULT_POOL: int := 0xe2
  const VAULT_A: int := 0xe3
  const VAULT_B: int := 0xe4
  const SHARE_TOTAL: int := 0xe5
  const VAULT_LOCK: int := 0xe6

  function ShareKey(holder: nat): nat {
    Xor(holder, ShareMask())
  }

  // ---- when two keys are one slot ----

  lemma MaskedKeysDiffer(x: nat, y: nat, mask: nat)
    ensures Xor(x, mask) == Xor(y, mask) <==> x == y
  {
    XorUndoes(x, mask);
    XorUndoes(y, mask);
  }

  /** The holder whose slot under the mask is a given key, and no other. */
  lemma HolderOfKey(x: nat, mask: nat, key: nat)
    ensures Xor(x, mask) == key <==> x == Xor(key, mask)
  {
    XorMoves(x, key, mask);
  }

  lemma HalfOfWord(x: Word)
    ensures Hi(x) < U128
  {
    hide Pow256;
    Widths();
    DivBounds(x, U128);
    if U128 <= x / U128 {
      MulMono(U128, x / U128, U128);
    }
  }

  lemma BalKeyHalves(h: nat)
    ensures Hi(BalKey(h)) == Xor(Hi(h), Half("BOING_REFFUNGIBL"))
    ensures Lo(BalKey(h)) == Xor(Lo(h), Half("E_BAL1"))
  {
    hide Xor, Hi, Lo, Pack, Half;
    XorHalves(h, BalanceMask());
    PackHalves(Half("BOING_REFFUNGIBL"), Half("E_BAL1"));
  }

  lemma AllowKeyHalves(o: nat, s: Word)
    ensures Hi(AllowKey(o, s)) == Xor(Hi(o), Half("BOING_REFFUNGIBL"))
    ensures Lo(AllowKey(o, s)) == Xor(Hi(s), Half("E_ALW2"))
  {
    hide Xor, Hi, Lo, Pack, Half;
    HalfOfWord(s);
    XorHalves(Pack(Hi(o), Hi(s)), AllowanceMask());
    PackHalves(Hi(o), Hi(s));
    PackHalves(Half("BOING_REFFUNGIBL"), Half("E_ALW2"));
  }

  /**
   A balance and an allowance are one slot exactly when holder and owner share
   their first half, and the spender's first half is the holder's second half
   with the gap between the two masks.
   */
  lemma BalanceMeetsAllowance(h: Word, o: Word, s: Word)
    ensures BalKey(h) == AllowKey(o, s) <==> Hi(h) == Hi(o) && Hi(s) == Xor(Lo(h), MaskGap())
  {
    hide Xor, Hi, Lo, Pack, Half, BalKey, AllowKey;
    var bal, alw := Half("E_BAL1"), Half("E_ALW2");
    HalvesDecide(BalKey(h), AllowKey(o, s));
    BalKeyHalves(h);
    AllowKeyHalves(o, s);
    MaskedKeysDiffer(Hi(h), Hi(o), Half("BOING_REFFUNGIBL"));
    XorMoves(Hi(s), Xor(Lo(h), bal), alw);
    XorAssociates(Lo(h), bal, alw);
  }

  /** Allowances of different pairs are one slot exactly when owners and spenders share first halves. */
  lemma AllowancesMeet(o: Word, s: Word, o': Word, s': Word)
    ensures AllowKey(o, s) == AllowKey(o', s') <==> Hi(o) == Hi(o') && Hi(s) == Hi(s')
  {
    hide Xor, Hi, Lo, Pack, Half, AllowKey;
    HalvesDecide(AllowKey(o, s), AllowKey(o', s'));
    AllowKeyHalves(o, s);
    AllowKeyHalves(o', s');
    MaskedKeysDiffer(Hi(o), Hi(o'), Half("BOING_REFFUNGIBL"));
    MaskedKeysDiffer(Hi(s), Hi(s'), Half("E_ALW2"));
  }

  // ---- ids that keep their slots apart ----

  /** One of the slots a contract keeps for itself. */
  predicate TokenReserved(key: int) {
    key == ADMIN || key == MINTED
  }

  predicate PoolReserved(key: int) {
    RESERVE_A <= key <= POOL_LOCK
  }

  predicate VaultReserved(key: int) {
    VAULT_SET <= key <= VAULT_LOCK
  }

  /** The id's own slots are none that its contract keeps for itself. */
  predicate Free(x: Word) {
    && !TokenReserved(BalKey(x))
    && !PoolReserved(LpKey(x))
    && !VaultReserved(ShareKey(x))
  }

  /** Two ids, in either order or one twice, under which no token slot does two jobs. */
  predicate Clear(x: Word, y: Word) {
    && (x != y ==> Hi(x) != Hi(y))
    && Hi(y) != Xor(Lo(x), MaskGap())
    && !TokenReserved(AllowKey(x, y))
  }

  /** Ids that can share the contracts' storage: decided from the ids alone. */
  ghost predicate Apart(ids: set<Id>) {
    && (forall x :: x in ids ==> 0 <= x < WORD)
    && (forall x :: x in ids ==> Free(x))
    && (forall x, y :: x in ids && y in ids ==> Clear(x, y))
  }

  lemma IdsAreWords(ids: set<Id>)
    requires Apart(ids)
    ensures forall x :: x in ids ==> 0 <= x < WORD
  {
  }

  /** No two of the slots that these ids own in a token are the same slot. */
  ghost predicate OwnSlots(ids: set<Id>)
    requires forall x :: x in ids ==> 0 <= x < WORD
  {
    && (forall x :: x in ids ==> Free(x))
    && (forall x, y :: x in ids && y in ids ==> !TokenReserved(AllowKey(x, y)))
    && (forall x, y {:trigger BalKey(x), BalKey(y)} :: x in ids && y in ids && x != y ==> BalKey(x) != BalKey(y))
    && (forall h, o, s {:trigger BalKey(h), AllowKey(o, s)} :: h in ids && o in ids && s in ids ==> BalKey(h) != AllowKey(o, s))
    && (forall o, s, o', s' {:trigger AllowKey(o, s), AllowKey(o', s')} ::
          o in ids && s in ids && o' in ids && s' in ids && (o, s) != (o', s') ==> AllowKey(o, s) != AllowKey(o', s'))
  }

  /** Ids are apart exactly when every slot they own has one owner. */
  lemma ApartIffOwnSlots(ids: set<Id>)
    requires forall x :: x in ids ==> 0 <= x < WORD
    ensures Apart(ids) <==> OwnSlots(ids)
  {
    hide *;
    if Apart(ids) { ApartOwnsSlots(ids); }
    if OwnSlots(ids) { OwnSlotsApart(ids); }
  }

  lemma ApartOwnsSlots(ids: set<Id>)
    requires Apart(ids)
    ensures OwnSlots(ids)
  {
    hide Xor, Hi, Lo, BalKey, AllowKey, Free, MaskGap, TokenReserved;
    forall x, y | x in ids && y in ids && x != y
      ensures BalKey(x) != BalKey(y)
    {
      MaskedBalances(x, y);
    }
    forall h, o, s | h in ids && o in ids && s in ids
      ensures BalKey(h) != AllowKey(o, s)
    {
      BalanceMeetsAllowance(h, o, s);
      assert Clear(h, o) && Clear(h, s);
    }
    forall o, s, o', s' | o in ids && s in ids && o' in ids && s' in ids && (o, s) != (o', s')
      ensures AllowKey(o, s) != AllowKey(o', s')
    {
      AllowancesMeet(o, s, o', s');
      assert Clear(o, o') && Clear(s, s');
    }
    assert forall x, y :: x in ids && y in ids ==> Clear(x, y);
  }

  lemma OwnSlotsApart(ids: set<Id>)
    requires forall x :: x in ids ==> 0 <= x < WORD
    requires OwnSlots(ids)
    ensures Apart(ids)
  {
    hide Xor, Hi, Lo, BalKey, AllowKey, Free, MaskGap, TokenReserved;
    forall x, y | x in ids && y in ids
      ensures Clear(x, y)
    {
      BalanceMeetsAllowance(x, x, y);
      AllowancesMeet(x, x, y, x);
    }
  }

  /** Ids whose first halves differ from each other, from the three mask names, and from the second halves under the gap. */
  ghost predicate PlainHalves(ids: set<Id>)
    requires forall x :: x in ids ==> 0 <= x < WORD
  {
    && (forall x :: x in ids ==>
          Hi(x) != Half("BOING_REFFUNGIBL") && Hi(x) != Half("BOING_NATIVEAMM_") && Hi(x) != Half("BOING_LP_VAULT_V"))
    && (forall x, y :: x in ids && y in ids ==> (x != y ==> Hi(x) != Hi(y)) && Hi(y) != Xor(Lo(x), MaskGap()))
  }

  /** Such ids are apart: their slots are nowhere near the small reserved keys. */
  lemma PlainHalvesAreApart(ids: set<Id>)
    requires forall x :: x in ids ==> 0 <= x < WORD
    requires PlainHalves(ids)
    ensures Apart(ids)
  {
    hide Xor, Hi, Lo, Half, BalKey, AllowKey, LpKey, ShareKey, MaskGap;
    forall x | x in ids ensures Free(x) {
      FarFromReserved(x, "BOING_REFFUNGIBL", "E_BAL1");
      FarFromReserved(x, "BOING_NATIVEAMM_", "LPRV1");
      FarFromReserved(x, "BOING_LP_VAULT_V", "2_SHARES");
      KeysAreMasked(x);
    }
    forall x, y | x in ids && y in ids ensures Clear(x, y) {
      AllowanceFarFromReserved(x, y);
    }
  }

  lemma KeysAreMasked(x: nat)
    ensures BalKey(x) == Xor(x, Pack(Half("BOING_REFFUNGIBL"), Half("E_BAL1")))
    ensures LpKey(x) == Xor(x, Pack(Half("BOING_NATIVEAMM_"), Half("LPRV1")))
    ensures ShareKey(x) == Xor(x, Pack(Half("BOING_LP_VAULT_V"), Half("2_SHARES")))
  {
    hide Xor, Half, Pack;
  }

  lemma FarFromReserved(x: nat, hi: string, lo: string)
    requires |hi| <= 16 && |lo| <= 16 && Hi(x) != Half(hi)
    ensures U128 <= Xor(x, Pack(Half(hi), Half(lo)))
    ensures 0x100 <= U128
  {
    hide Xor, Hi, Lo, Half, Pack, Pow256;
    WidthOrder();
    XorHalves(x, Pack(Half(hi), Half(lo)));
    PackHalves(Half(hi), Half(lo));
    HolderOfKey(Hi(x), Half(hi), 0);
    XorZero(Half(hi));
    HighIsLarge(Xor(x, Pack(Half(hi), Half(lo))));
  }

  lemma HighIsLarge(x: nat)
    ensures Hi(x) != 0 ==> U128 <= x
  {
    hide Pow256;
    if x < U128 { DivSmall(x, U128); }
  }

  lemma AllowanceFarFromReserved(o: Word, s: Word)
    requires Hi(o) != Half("BOING_REFFUNGIBL")
    ensures !TokenReserved(AllowKey(o, s))
  {
    hide Xor, Hi, Lo, Half, AllowKey, Pow256;
    WidthOrder();
    AllowKeyHalves(o, s);
    HolderOfKey(Hi(o), Half("BOING_REFFUNGIBL"), 0);
    XorZero(Half("BOING_REFFUNGIBL"));
    HighIsLarge(AllowKey(o, s));
  }

  lemma MaskedBalances(x: nat, y: nat)
    ensures BalKey(x) == BalKey(y) <==> x == y
  {
    MaskedKeysDiffer(x, y, BalanceMask());
  }
}
