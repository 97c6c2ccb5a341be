/**
 Reference fungible token v2: one-time mint, transfer, approve, transfer_from.
 A rejected call stops without effect (apart from the lazy admin slot); only
 transfer_from and approve report success, by returning 1.
 */
module Tokens {
  import opened Words
  import opened Options
  import opened Balances

  /** admin == 0 means no one has called the token yet. */
  datatype Token = Token(admin: Id, minted: bool, bal: map<Id, int>, allow: map<(Id, Id), int>)

  function Bal(t: Token, who: Id): int {
    Get(t.bal, who)
  }

  function Allow(t: Token, owner: Id, spender: Id): int {
    Get(t.allow, (owner, spender))
  }

  /** The first caller of any selector becomes the admin. */
  function Touch(t: Token, caller: Id): Token {
    if t.admin == 0 then t.(admin := caller) else t
  }

  /** Balance move between two different holders; None if short or if the credit overflows. */
  function Move(t: Token, from: Id, to: Id, amt: int): Option<Token> {
    if Bal(t, from) < amt || Bal(t, to) + amt >= WORD then None
    else Some(t.(bal := t.bal[from := Bal(t, from) - amt][to := Bal(t, to) + amt]))
  }

  function Transfer(t: Token, caller: Id, to: Id, amt: int): Token {
    var u := Touch(t, caller);
    if amt == 0 || to == caller then u
    else
      match Move(u, caller, to, amt)
      case None => u
      case Some(v) => v
  }

  /** The flag says whether the call returned 1. */
  function TransferFrom(t: Token, caller: Id, from: Id, to: Id, amt: int): (Token, bool) {
    var u := Touch(t, caller);
    var a := Allow(u, from, caller);
    if amt == 0 || from == to || a < amt then (u, false)
    else
      match Move(u, from, to, amt)
      case None => (u, false)
      case Some(v) => (v.(allow := v.allow[(from, caller) := a - amt]), true)
  }

  function Approve(t: Token, caller: Id, spender: Id, amt: int): Token {
    var u := Touch(t, caller);
    u.(allow := u.allow[(caller, spender) := amt])
  }

  function MintFirst(t: Token, caller: Id, to: Id, amt: int): Token {
    var u := Touch(t, caller);
    if u.minted || u.admin != caller || amt == 0 || Bal(u, to) + amt >= WORD then u
    else u.(bal := u.bal[to := Bal(u, to) + amt], minted := true)
  }

  // ---- invariant ----

  ghost predicate TokenOk(t: Token) {
    && Nonneg(t.bal)
    && Sum(t.bal) < WORD
    && (!t.minted ==> Sum(t.bal) == 0)
    && forall k :: k in t.allow ==> 0 <= t.allow[k] < WORD
  }

  lemma BalIsWord(t: Token, who: Id)
    requires TokenOk(t)
    ensures 0 <= Bal(t, who) < WORD
  {
    EntryAtMostSum(t.bal, who);
  }

  /** Every holder but the two parties keeps their balance, and the total is conserved. */
  ghost predicate Moved(t: Token, t': Token, from: Id, to: Id, amt: int) {
    && (forall x :: Bal(t', x) == Bal(t, x) - (if x == from then amt else 0) + (if x == to then amt else 0))
    && Sum(t'.bal) == Sum(t.bal)
    && t'.minted == t.minted
  }

  /** A covered move cannot overflow the receiver: two balances never exceed the supply. */
  lemma MoveSucceeds(t: Token, from: Id, to: Id, amt: int)
    requires TokenOk(t) && from != to && 0 <= amt <= Bal(t, from)
    ensures Move(t, from, to, amt).Some?
    ensures var t' := Move(t, from, to, amt).value;
            TokenOk(t') && Moved(t, t', from, to, amt) && t'.allow == t.allow
  {
    TwoEntriesAtMostSum(t.bal, from, to);
    SumUpdate(t.bal, from, Bal(t, from) - amt);
    SumUpdate(t.bal[from := Bal(t, from) - amt], to, Bal(t, to) + amt);
  }

  lemma TransferEffect(t: Token, caller: Id, to: Id, amt: int)
    requires TokenOk(t) && 0 <= amt <= Bal(t, caller)
    ensures var t' := Transfer(t, caller, to, amt);
            TokenOk(t') && Moved(t, t', caller, to, amt) && t'.allow == t.allow
  {
    var u := Touch(t, caller);
    if to != caller {
      MoveSucceeds(u, caller, to, amt);
    }
  }

  lemma TransferShort(t: Token, caller: Id, to: Id, amt: int)
    requires TokenOk(t) && Bal(t, caller) < amt
    ensures Transfer(t, caller, to, amt) == Touch(t, caller)
  {
  }

  /** transfer_from returns 1 exactly when it moved the amount. */
  lemma TransferFromEffect(t: Token, caller: Id, from: Id, to: Id, amt: int)
    requires TokenOk(t) && 0 <= amt
    ensures var (t', ok) := TransferFrom(t, caller, from, to, amt);
            && TokenOk(t')
            && (ok <==> 0 < amt && from != to && amt <= Allow(t, from, caller) && amt <= Bal(t, from))
            && (ok ==> Moved(t, t', from, to, amt) && Allow(t', from, caller) == Allow(t, from, caller) - amt)
            && (ok ==> forall o, s :: (o, s) != (from, caller) ==> Allow(t', o, s) == Allow(t, o, s))
            && (!ok ==> t' == Touch(t, caller))
  {
    var u := Touch(t, caller);
    if from != to && amt <= Bal(u, from) {
      MoveSucceeds(u, from, to, amt);
    }
  }

  lemma MintEffect(t: Token, caller: Id, to: Id, amt: int)
    requires TokenOk(t) && 0 <= amt < WORD
    ensures var t' := MintFirst(t, caller, to, amt);
            && TokenOk(t') && t'.allow == t.allow
            && (t.minted ==> t'.bal == t.bal)
            && (t'.minted && !t.minted ==> Sum(t'.bal) == amt)
            && (forall x :: Bal(t, x) <= Bal(t', x))
  {
    var u := Touch(t, caller);
    EntryAtMostSum(u.bal, to);
    SumUpdate(u.bal, to, Bal(u, to) + amt);
  }
}
