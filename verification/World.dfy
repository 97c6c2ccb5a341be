/**
 Every contract of the custody exchange in one state, and every call a user can
 make. A call is one atomic step: it either faults and leaves no trace, or is
 done and may return a word (0 where nothing is returned).
 */
module World {
  import opened Words
  import opened Options
  import opened Balances
  import opened Quotes
  import opened Curve
  import T = Tokens

  type Token = T.Token

  datatype Vault = Vault(configured: bool, pool: Id, tokenA: Id, tokenB: Id, total: int, shares: map<Id, int>)

  datatype World = World(
    height: nat,
    tokens: map<Id, Token>,
    pools: map<Id, Pool>,
    vaults: map<Id, Vault>,
    routers: set<Id>)

  datatype Hop = Hop(pool: Id, dir: nat, tokenIn: Id)

  datatype Outcome = Fault | Done(w: World, ret: int)

  /** A transaction; amounts are 256-bit words as they sit in the calldata. */
  datatype Cmd =
    | Mine(blocks: nat)
    | TokenMint(token: Id, caller: Id, to: Id, amt: Word)
    | TokenTransfer(token: Id, caller: Id, to: Id, amt: Word)
    | TokenApprove(token: Id, caller: Id, spender: Id, amt: Word)
    | TokenTransferFrom(token: Id, caller: Id, from: Id, to: Id, amt: Word)
    | PoolSetTokens(pool: Id, caller: Id, a: Id, b: Id)
    | PoolSetFee(pool: Id, caller: Id, fee: Word)
    | PoolSetAdmin(pool: Id, caller: Id, admin: Id)
    | PoolAdd(pool: Id, caller: Id, amtA: Word, amtB: Word, min: Word, deadline: Word)
    | PoolRemove(pool: Id, caller: Id, burn: Word, minA: Word, minB: Word, toA: Id, toB: Id, deadline: Word)
    | PoolSwap(pool: Id, caller: Id, dir: Word, ain: Word, min: Word, to: Id, deadline: Word)
    | RouterSwap(router: Id, caller: Id, hops: seq<Hop>, ain: Word, min: Word, to: Id, deadline: Word)
    | VaultConfigure(vault: Id, caller: Id, pool: Id, a: Id, b: Id)
    | VaultDeposit(vault: Id, caller: Id, amtA: Word, amtB: Word, min: Word, deadline: Word)
    | VaultWithdraw(vault: Id, caller: Id, amt: Word, minA: Word, minB: Word, deadline: Word)
    | VaultTransferShares(vault: Id, caller: Id, to: Id, amt: Word)

  predicate IsContract(w: World, x: Id) {
    x in w.tokens || x in w.pools || x in w.vaults || x in w.routers
  }

  /** Accounts that can sign: not the zero id and not a contract of the exchange. */
  predicate IsUser(w: World, x: Id) {
    x != 0 && !IsContract(w, x)
  }

  function BalOf(w: World, token: Id, who: Id): int {
    if token in w.tokens then T.Bal(w.tokens[token], who) else 0
  }

  function AllowOf(w: World, token: Id, owner: Id, spender: Id): int {
    if token in w.tokens then T.Allow(w.tokens[token], owner, spender) else 0
  }

  function LpOf(w: World, pool: Id, who: Id): int {
    if pool in w.pools then Get(w.pools[pool].lp, who) else 0
  }

  function WithToken(w: World, token: Id, t: Token): World {
    w.(tokens := w.tokens[token := t])
  }

  function WithPool(w: World, pool: Id, s: Pool): World {
    w.(pools := w.pools[pool := s])
  }

  function WithVault(w: World, vault: Id, v: Vault): World {
    w.(vaults := w.vaults[vault := v])
  }

  /** A deadline of 0 means none. */
  predicate Late(w: World, deadline: nat) {
    deadline != 0 && w.height > deadline
  }

  // ---- calls a contract makes on a token ----

  /** Pull amt from `from` into the calling contract; None unless transfer_from returned 1. */
  function Pull(w: World, token: Id, self: Id, from: Id, amt: int): Option<World> {
    if token !in w.tokens then None
    else
      var r := T.TransferFrom(w.tokens[token], self, from, self, amt);
      if r.1 then Some(WithToken(w, token, r.0)) else None
  }

  /** Pay amt from the calling contract with `transfer`; nothing reports a short balance. */
  function Pay(w: World, token: Id, self: Id, to: Id, amt: int): World {
    if amt == 0 || token !in w.tokens then w
    else WithToken(w, token, T.Transfer(w.tokens[token], self, to, amt))
  }

  function ApproveCall(w: World, token: Id, owner: Id, spender: Id, amt: int): Option<World> {
    if token !in w.tokens then None
    else Some(WithToken(w, token, T.Approve(w.tokens[token], owner, spender, amt)))
  }

  /**
   A pool selector sent to something that is not a pool: vaults and routers fault
   on it, a token stops (recording its first caller), and an account without code
   succeeds with a zeroed return word.
   */
  function CallNonPool(w: World, target: Id, caller: Id): Outcome {
    if target in w.vaults || target in w.routers then Fault
    else if target in w.tokens then Done(WithToken(w, target, T.Touch(w.tokens[target], caller)), 0)
    else Done(w, 0)
  }

  // ---- pool ----

  function DoSetTokens(w: World, p: Id, caller: Id, a: Id, b: Id): Outcome {
    if p !in w.pools || w.pools[p].configured || a == 0 || b == 0 || a == b then Fault
    else
      var s := w.pools[p];
      Done(WithPool(w, p, s.(configured := true, tokenA := a, tokenB := b,
                             feeAdmin := if BindsAdmin(s.version) then caller else s.feeAdmin)), 0)
  }

  function DoSetFee(w: World, p: Id, caller: Id, fee: nat): Outcome {
    if p !in w.pools || fee == 0 || fee > BPS then Fault
    else
      var s := w.pools[p];
      if caller != s.feeAdmin && (BindsAdmin(s.version) || s.t != 0) then Fault
      else Done(WithPool(w, p, s.(fee := fee)), 0)
  }

  function DoSetAdmin(w: World, p: Id, caller: Id, admin: Id): Outcome {
    if p !in w.pools || w.pools[p].t != 0 then Fault
    else
      var s := w.pools[p];
      if caller != s.feeAdmin && BindsAdmin(s.version) then Fault
      else Done(WithPool(w, p, s.(feeAdmin := admin)), 0)
  }

  function DoAdd(w: World, p: Id, caller: Id, a: nat, b: nat, min: nat, deadline: nat): Outcome {
    if p !in w.pools || Late(w, deadline) then Fault
    else
      var s := w.pools[p];
      match Add(s, caller, a, b, min)
      case None => Fault
      case Some(r) =>
        match Pull(w, s.tokenA, p, caller, a)
        case None => Fault
        case Some(w1) =>
          match Pull(w1, s.tokenB, p, caller, b)
          case None => Fault
          case Some(w2) => Done(WithPool(w2, p, r.0), r.1)
  }

  function DoRemove(w: World, p: Id, caller: Id, burn: nat, minA: nat, minB: nat, toA: Id, toB: Id, deadline: nat): Outcome {
    if p !in w.pools || toA == 0 || toB == 0 || Late(w, deadline) then Fault
    else
      var s := w.pools[p];
      match Remove(s, caller, burn, minA, minB)
      case None => Fault
      case Some(r) =>
        var w1 := Pay(WithPool(w, p, r.0), s.tokenA, p, toA, r.1);
        Done(Pay(w1, s.tokenB, p, toB, r.2), 0)
  }

  function DoSwap(w: World, p: Id, caller: Id, dir: nat, ain: nat, min: nat, to: Id, deadline: nat): Outcome {
    if p !in w.pools || to == 0 || Late(w, deadline) then Fault
    else
      var s := w.pools[p];
      match Swap(s, dir, ain, min)
      case None => Fault
      case Some(r) =>
        match Pull(w, TokenIn(s, dir), p, caller, ain)
        case None => Fault
        case Some(w1) =>
          Done(Pay(WithPool(w1, p, r.0), TokenOut(s, dir), p, to, r.1),
               if ReturnsOut(s.version) then r.1 else 0)
  }

  // ---- router ----

  const MAX_HOPS: nat := 4

  function SwapToCall(w: World, target: Id, caller: Id, dir: nat, ain: nat, min: nat, to: Id, deadline: nat): Outcome {
    if target in w.pools then DoSwap(w, target, caller, dir, ain, min, to, deadline)
    else CallNonPool(w, target, caller)
  }

  /** The hops still to go, holding amt of the next input token. */
  function DoHops(w: World, router: Id, hops: seq<Hop>, amt: nat, min: nat, to: Id, deadline: nat): Outcome
    requires |hops| >= 1
    decreases |hops|
  {
    var h, last := hops[0], |hops| == 1;
    match ApproveCall(w, h.tokenIn, router, h.pool, amt)
    case None => Fault
    case Some(w1) =>
      match SwapToCall(w1, h.pool, router, h.dir, amt, if last then min else 1, if last then to else router, deadline)
      case Fault => Fault
      case Done(w2, out) =>
        if last then Done(w2, out)
        else if out <= 0 then Fault
        else DoHops(w2, router, hops[1..], out, min, to, deadline)
  }

  function DoRoute(w: World, router: Id, caller: Id, hops: seq<Hop>, ain: nat, min: nat, to: Id, deadline: nat): Outcome {
    if router !in w.routers || !(1 <= |hops| <= MAX_HOPS) || ain == 0 || to == 0 then Fault
    else
      match Pull(w, hops[0].tokenIn, router, caller, ain)
      case None => Fault
      case Some(w1) => DoHops(w1, router, hops, ain, min, to, deadline)
  }

  // ---- vault ----

  function DoConfigure(w: World, v: Id, pool: Id, a: Id, b: Id): Outcome {
    if v !in w.vaults || w.vaults[v].configured || pool == 0 || a == 0 || b == 0 || a == b then Fault
    else Done(WithVault(w, v, w.vaults[v].(configured := true, pool := pool, tokenA := a, tokenB := b)), 0)
  }

  /** The four token calls that precede the pool call of a deposit. */
  function DepositPrelude(w: World, v: Id, caller: Id, a: nat, b: nat): Option<World>
    requires v in w.vaults
  {
    var u := w.vaults[v];
    match Pull(w, u.tokenA, v, caller, a)
    case None => None
    case Some(w1) =>
      match Pull(w1, u.tokenB, v, caller, b)
      case None => None
      case Some(w2) =>
        match ApproveCall(w2, u.tokenA, v, u.pool, a)
        case None => None
        case Some(w3) => ApproveCall(w3, u.tokenB, v, u.pool, b)
  }

  function DoDeposit(w: World, v: Id, caller: Id, a: nat, b: nat, min: nat, deadline: nat): Outcome {
    if v !in w.vaults || !w.vaults[v].configured || a == 0 || b == 0 then Fault
    else
      var u := w.vaults[v];
      match DepositPrelude(w, v, caller, a, b)
      case None => Fault
      case Some(w1) =>
        // a target that is no pool faults or returns 0, and 0 shares fault
        match DoAdd(w1, u.pool, v, a, b, min, deadline)
        case Fault => Fault
        case Done(w2, s) =>
          if s == 0 || s < min then Fault
          else Done(WithVault(w2, v, u.(total := u.total + s, shares := u.shares[caller := Get(u.shares, caller) + s])), s)
  }

  function DoWithdraw(w: World, v: Id, caller: Id, s: nat, minA: nat, minB: nat, deadline: nat): Outcome {
    if v !in w.vaults || !w.vaults[v].configured || s == 0 || Get(w.vaults[v].shares, caller) < s then Fault
    else
      var u := w.vaults[v];
      var w1 := WithVault(w, v, u.(total := u.total - s, shares := u.shares[caller := Get(u.shares, caller) - s]));
      if u.pool in w.pools then DoRemove(w1, u.pool, v, s, minA, minB, caller, caller, deadline)
      else CallNonPool(w1, u.pool, v)
  }

  function DoTransferShares(w: World, v: Id, caller: Id, to: Id, s: nat): Outcome {
    if v !in w.vaults || to == 0 || s == 0 || Get(w.vaults[v].shares, caller) < s then Fault
    else if to == caller then Done(w, 0)
    else
      var u := w.vaults[v];
      var debited := u.shares[caller := Get(u.shares, caller) - s];
      Done(WithVault(w, v, u.(shares := debited[to := Get(debited, to) + s])), 0)
  }

  // ---- one transaction, and a run ----

  function DoMint(w: World, k: Id, caller: Id, to: Id, amt: nat): Outcome {
    if k !in w.tokens then Fault
    else Done(WithToken(w, k, T.MintFirst(w.tokens[k], caller, to, amt)), 0)
  }

  function DoTransfer(w: World, k: Id, caller: Id, to: Id, amt: nat): Outcome {
    if k !in w.tokens then Fault
    else Done(WithToken(w, k, T.Transfer(w.tokens[k], caller, to, amt)), 0)
  }

  function DoApprove(w: World, k: Id, caller: Id, spender: Id, amt: nat): Outcome {
    match ApproveCall(w, k, caller, spender, amt)
    case None => Fault
    case Some(w') => Done(w', 1)
  }

  function DoTransferFrom(w: World, k: Id, caller: Id, from: Id, to: Id, amt: nat): Outcome {
    if k !in w.tokens then Fault
    else
      var r := T.TransferFrom(w.tokens[k], caller, from, to, amt);
      Done(WithToken(w, k, r.0), if r.1 then 1 else 0)
  }

  /** Only accounts that are not contracts sign transactions. */
  predicate Signed(w: World, c: Cmd) {
    c.Mine? || IsUser(w, c.caller)
  }

  function Exec(w: World, c: Cmd): Outcome {
    if !Signed(w, c) then Fault
    else
      match c
      case Mine(n) => Done(w.(height := w.height + n), 0)
      case TokenMint(k, caller, to, amt) => DoMint(w, k, caller, to, amt)
      case TokenTransfer(k, caller, to, amt) => DoTransfer(w, k, caller, to, amt)
      case TokenApprove(k, caller, spender, amt) => DoApprove(w, k, caller, spender, amt)
      case TokenTransferFrom(k, caller, from, to, amt) => DoTransferFrom(w, k, caller, from, to, amt)
      case PoolSetTokens(p, caller, a, b) => DoSetTokens(w, p, caller, a, b)
      case PoolSetFee(p, caller, fee) => DoSetFee(w, p, caller, fee)
      case PoolSetAdmin(p, caller, admin) => DoSetAdmin(w, p, caller, admin)
      case PoolAdd(p, caller, a, b, min, d) => DoAdd(w, p, caller, a, b, min, d)
      case PoolRemove(p, caller, burn, minA, minB, toA, toB, d) => DoRemove(w, p, caller, burn, minA, minB, toA, toB, d)
      case PoolSwap(p, caller, dir, ain, min, to, d) => DoSwap(w, p, caller, dir, ain, min, to, d)
      case RouterSwap(r, caller, hops, ain, min, to, d) => DoRoute(w, r, caller, hops, ain, min, to, d)
      case VaultConfigure(v, _, p, a, b) => DoConfigure(w, v, p, a, b)
      case VaultDeposit(v, caller, a, b, min, d) => DoDeposit(w, v, caller, a, b, min, d)
      case VaultWithdraw(v, caller, s, minA, minB, d) => DoWithdraw(w, v, caller, s, minA, minB, d)
      case VaultTransferShares(v, caller, to, s) => DoTransferShares(w, v, caller, to, s)
  }

  /** A faulting transaction changes nothing. */
  function Step(w: World, c: Cmd): World {
    match Exec(w, c)
    case Fault => w
    case Done(w', _) => w'
  }

  function Run(w: World, cs: seq<Cmd>): World
    decreases |cs|
  {
    if cs == [] then w else Run(Step(w, cs[0]), cs[1..])
  }

  ghost predicate Ids(w: World) {
    && 0 !in w.tokens && 0 !in w.pools && 0 !in w.vaults && 0 !in w.routers
    && w.tokens.Keys !! w.pools.Keys !! w.vaults.Keys !! w.routers
  }
}
