/**
 Every contract of the exchange over its own storage slots, and every call as the
 bytecode performs it: locks, loads, word arithmetic that wraps, stores, and calls
 between contracts. A call returns or is reverted as a whole.
 */
module Machine {
  import opened Words
  import opened Options
  import opened Balances
  import opened Quotes
  import opened Slots
  import W = World
  import TS = TokenStorage
  import PS = PoolStorage
  import VS = VaultStorage

  datatype PoolCode = PoolCode(version: Version, slots: Slots)

  datatype Store = Store(
    height: nat,
    tokens: map<Id, Slots>,
    pools: map<Id, PoolCode>,
    vaults: map<Id, Slots>,
    routers: set<Id>)

  datatype Result = Reverted | Returned(m: Store, ret: Word)

  function WithToken(m: Store, k: Id, sl: Slots): Store {
    m.(tokens := m.tokens[k := sl])
  }

  function WithPool(m: Store, p: Id, sl: Slots): Store
    requires p in m.pools
  {
    m.(pools := m.pools[p := m.pools[p].(slots := sl)])
  }

  function WithVault(m: Store, v: Id, sl: Slots): Store {
    m.(vaults := m.vaults[v := sl])
  }

  predicate Late(m: Store, deadline: Word) {
    deadline != 0 && m.height > deadline
  }

  // ---- calls a contract makes on a token ----

  /** Only a token returns 1 to transfer_from. */
  function Pull(m: Store, k: Id, self: Word, from: Word, amt: Word): (r: Option<Store>)
    ensures r.Some? ==> r.value == m.(tokens := r.value.tokens) && r.value.tokens.Keys == m.tokens.Keys
  {
    if k !in m.tokens then None
    else
      var r := TS.TransferredFrom(m.tokens[k], self, from, self, amt);
      if r.1 then Some(WithToken(m, k, r.0)) else None
  }

  /** Only a token returns 1 to approve. */
  function Approve(m: Store, k: Id, self: Word, spender: Word, amt: Word): (r: Option<Store>)
    ensures r.Some? <==> k in m.tokens
    ensures r.Some? ==> r.value == m.(tokens := r.value.tokens) && r.value.tokens.Keys == m.tokens.Keys
  {
    if k !in m.tokens then None
    else Some(WithToken(m, k, TS.Approved(m.tokens[k], self, spender, amt)))
  }

  /** A transfer sent to another contract of the exchange faults; sent to an account without code it does nothing. */
  function Pay(m: Store, k: Id, self: Word, to: Word, amt: Word): (r: Option<Store>)
    ensures r.Some? ==> r.value == m.(tokens := r.value.tokens) && r.value.tokens.Keys == m.tokens.Keys
  {
    if amt == 0 then Some(m)
    else if k in m.tokens then Some(WithToken(m, k, TS.Transferred(m.tokens[k], self, to, amt)))
    else if k in m.pools || k in m.vaults || k in m.routers then None
    else Some(m)
  }

  /** A pool selector sent to something that is not a pool. */
  function CallNonPool(m: Store, target: Id, caller: Word): Result {
    if target in m.vaults || target in m.routers then Reverted
    else if target in m.tokens then Returned(WithToken(m, target, TS.Claimed(m.tokens[target], caller)), 0)
    else Returned(m, 0)
  }

  // ---- pool ----

  function SetTokens(m: Store, p: Word, caller: Word, a: Word, b: Word): Result {
    if p !in m.pools then Reverted
    else
      match Enter(m.pools[p].slots, POOL_LOCK)
      case None => Reverted
      case Some(e) =>
        if Load(e, TOKENS_SET) != 0 || a == 0 || b == 0 || a == b then Reverted
        else
          var f := PS.RecordPair(e, a, b);
          var g := if BindsAdmin(m.pools[p].version) then f[FEE_ADMIN := caller] else f;
          Returned(WithPool(m, p, Leave(g, POOL_LOCK)), 0)
  }

  function SetFee(m: Store, p: Word, caller: Word, fee: Word): Result {
    if p !in m.pools then Reverted
    else
      match Enter(m.pools[p].slots, POOL_LOCK)
      case None => Reverted
      case Some(e) =>
        var admitted := caller == Load(e, FEE_ADMIN) || (!BindsAdmin(m.pools[p].version) && Load(e, LP_TOTAL) == 0);
        if !admitted || fee == 0 || fee > BPS then Reverted
        else Returned(WithPool(m, p, Leave(e[SWAP_FEE := fee], POOL_LOCK)), 0)
  }

  function SetAdmin(m: Store, p: Word, caller: Word, admin: Word): Result {
    if p !in m.pools then Reverted
    else
      match Enter(m.pools[p].slots, POOL_LOCK)
      case None => Reverted
      case Some(e) =>
        if Load(e, LP_TOTAL) != 0 || (BindsAdmin(m.pools[p].version) && caller != Load(e, FEE_ADMIN)) then Reverted
        else Returned(WithPool(m, p, Leave(e[FEE_ADMIN := admin], POOL_LOCK)), 0)
  }

  function AddLiquidity(m: Store, p: Word, caller: Word, a: Word, b: Word, min: Word, deadline: Word): Result {
    if p !in m.pools || Late(m, deadline) then Reverted
    else
      match Enter(m.pools[p].slots, POOL_LOCK)
      case None => Reverted
      case Some(e) =>
        match PS.PriceAdd(m.pools[p].version, e, a, b, min)
        case None => Reverted
        case Some(lp) =>
          match PullTwo(WithPool(m, p, e), Load(e, TOKEN_A), Load(e, TOKEN_B), p, caller, a, b)
          case None => Reverted
          case Some(m1) => Returned(WithPool(m1, p, Leave(PS.RecordAdd(e, caller, a, b, lp), POOL_LOCK)), lp)
  }

  function PullTwo(m: Store, kA: Id, kB: Id, self: Word, from: Word, a: Word, b: Word): (r: Option<Store>)
    ensures r.Some? ==> r.value == m.(tokens := r.value.tokens) && r.value.tokens.Keys == m.tokens.Keys
  {
    match Pull(m, kA, self, from, a)
    case None => None
    case Some(m1) => Pull(m1, kB, self, from, b)
  }

  function PayTwo(m: Store, kA: Id, kB: Id, self: Word, toA: Word, toB: Word, a: Word, b: Word): (r: Option<Store>)
    ensures r.Some? ==> r.value == m.(tokens := r.value.tokens) && r.value.tokens.Keys == m.tokens.Keys
  {
    match Pay(m, kA, self, toA, a)
    case None => None
    case Some(m1) => Pay(m1, kB, self, toB, b)
  }

  /** remove_liquidity_to; the pair is loaded after the stores. */
  function RemoveLiquidity(m: Store, p: Word, caller: Word, burn: Word, minA: Word, minB: Word,
                           toA: Word, toB: Word, deadline: Word): (r: Result)
    ensures r.Returned? ==> r.ret == 0
  {
    if p !in m.pools || toA == 0 || toB == 0 || Late(m, deadline) then Reverted
    else
      match Enter(m.pools[p].slots, POOL_LOCK)
      case None => Reverted
      case Some(e) =>
        match PS.PriceRemove(e, caller, burn, minA, minB)
        case None => Reverted
        case Some(outs) =>
          var f := PS.RecordRemove(e, caller, burn, outs.0, outs.1);
          match PayTwo(WithPool(m, p, f), Load(f, TOKEN_A), Load(f, TOKEN_B), p, toA, toB, outs.0, outs.1)
          case None => Reverted
          case Some(m1) => Returned(WithPool(m1, p, Leave(f, POOL_LOCK)), 0)
  }

  function PairIn(sl: Slots, dir: nat): Word {
    if dir == 0 then Load(sl, TOKEN_A) else Load(sl, TOKEN_B)
  }

  function PairOut(sl: Slots, dir: nat): Word {
    if dir == 0 then Load(sl, TOKEN_B) else Load(sl, TOKEN_A)
  }

  function SwapTo(m: Store, p: Word, caller: Word, dir: nat, ain: Word, min: Word, to: Word, deadline: Word): Result {
    if p !in m.pools || to == 0 || Late(m, deadline) then Reverted
    else
      var v := m.pools[p].version;
      match Enter(m.pools[p].slots, POOL_LOCK)
      case None => Reverted
      case Some(e) =>
        match PS.PriceSwap(v, e, dir, ain, min)
        case None => Reverted
        case Some(out) =>
          match Pull(WithPool(m, p, e), PairIn(e, dir), p, caller, ain)
          case None => Reverted
          case Some(m1) =>
            var f := PS.RecordSwap(e, dir, ain, out);
            match Pay(WithPool(m1, p, f), PairOut(e, dir), p, to, out)
            case None => Reverted
            case Some(m2) => Returned(WithPool(m2, p, Leave(f, POOL_LOCK)), if ReturnsOut(v) then out else 0)
  }

  // ---- router ----

  function CallSwapTo(m: Store, target: Word, caller: Word, dir: nat, ain: Word, min: Word, to: Word, deadline: Word): Result {
    if target in m.pools then SwapTo(m, target, caller, dir, ain, min, to, deadline)
    else CallNonPool(m, target, caller)
  }

  predicate HopsInWords(hops: seq<W.Hop>) {
    forall h :: h in hops ==> 0 <= h.pool < WORD
  }

  function HopCall(m: Store, router: Word, h: W.Hop, amt: Word, min: Word, to: Word, deadline: Word): Result
    requires 0 <= h.pool < WORD
  {
    match Approve(m, h.tokenIn, router, h.pool, amt)
    case None => Reverted
    case Some(m1) => CallSwapTo(m1, h.pool, router, h.dir, amt, min, to, deadline)
  }

  function Hops(m: Store, router: Word, hops: seq<W.Hop>, amt: Word, min: Word, to: Word, deadline: Word): Result
    requires |hops| >= 1 && HopsInWords(hops)
    decreases |hops|
  {
    if |hops| == 1 then HopCall(m, router, hops[0], amt, min, to, deadline)
    else
      match HopCall(m, router, hops[0], amt, ONE, router, deadline)
      case Reverted => Reverted
      case Returned(m1, out) => if out == 0 then Reverted else Hops(m1, router, hops[1..], out, min, to, deadline)
  }

  function Route(m: Store, router: Word, caller: Word, hops: seq<W.Hop>, ain: Word, min: Word, to: Word, deadline: Word): Result
    requires HopsInWords(hops)
  {
    if router !in m.routers || !(1 <= |hops| <= W.MAX_HOPS) || ain == 0 || to == 0 then Reverted
    else
      match Pull(m, hops[0].tokenIn, router, caller, ain)
      case None => Reverted
      case Some(m1) => Hops(m1, router, hops, ain, min, to, deadline)
  }

  // ---- vault ----

  function Configure(m: Store, v: Word, pool: Word, a: Word, b: Word): Result {
    if v !in m.vaults then Reverted
    else
      match Enter(m.vaults[v], VAULT_LOCK)
      case None => Reverted
      case Some(e) =>
        match VS.Configured(e, pool, a, b)
        case None => Reverted
        case Some(f) => Returned(WithVault(m, v, Leave(f, VAULT_LOCK)), 0)
  }

  /** The token calls of a deposit: pull both sides, then approve both to the pool. */
  function Fund(m: Store, v: Word, pool: Word, kA: Id, kB: Id, caller: Word, a: Word, b: Word): (r: Option<Store>)
    ensures r.Some? ==> r.value == m.(tokens := r.value.tokens) && r.value.tokens.Keys == m.tokens.Keys
  {
    match PullTwo(m, kA, kB, v, caller, a, b)
    case None => None
    case Some(m1) =>
      match Approve(m1, kA, v, pool, a)
      case None => None
      case Some(m2) => Approve(m2, kB, v, pool, b)
  }

  /** A target that is no pool faults or returns 0, and 0 shares fault. */
  function Deposit(m: Store, v: Word, caller: Word, a: Word, b: Word, min: Word, deadline: Word): Result {
    if v !in m.vaults then Reverted
    else
      match Enter(m.vaults[v], VAULT_LOCK)
      case None => Reverted
      case Some(e) =>
        if Load(e, VAULT_SET) == 0 || a == 0 || b == 0 then Reverted
        else
          match Fund(WithVault(m, v, e), v, Load(e, VAULT_POOL), Load(e, VAULT_A), Load(e, VAULT_B), caller, a, b)
          case None => Reverted
          case Some(m1) =>
            match AddLiquidity(m1, Load(e, VAULT_POOL), v, a, b, min, deadline)
            case Reverted => Reverted
            case Returned(m2, s) =>
              if s == 0 || s < min then Reverted
              else Returned(WithVault(m2, v, Leave(VS.SharesMinted(e, caller, s), VAULT_LOCK)), s)
  }

  function CallRemove(m: Store, target: Word, caller: Word, burn: Word, minA: Word, minB: Word, to: Word, deadline: Word): (r: Result)
    ensures r.Returned? ==> r.ret == 0
  {
    if target in m.pools then RemoveLiquidity(m, target, caller, burn, minA, minB, to, to, deadline)
    else CallNonPool(m, target, caller)
  }

  /** Shares are burnt before the pool, whose slot is loaded after that, is called. */
  function Withdraw(m: Store, v: Word, caller: Word, s: Word, minA: Word, minB: Word, deadline: Word): Result {
    if v !in m.vaults then Reverted
    else
      match Enter(m.vaults[v], VAULT_LOCK)
      case None => Reverted
      case Some(e) =>
        match VS.SharesBurnt(e, caller, s)
        case None => Reverted
        case Some(f) =>
          match CallRemove(WithVault(m, v, f), Load(f, VAULT_POOL), v, s, minA, minB, caller, deadline)
          case Reverted => Reverted
          case Returned(m1, _) => Returned(WithVault(m1, v, Leave(f, VAULT_LOCK)), 0)
  }

  function TransferShares(m: Store, v: Word, caller: Word, to: Word, s: Word): Result {
    if v !in m.vaults then Reverted
    else
      match VS.TransferredShares(m.vaults[v], caller, to, s)
      case None => Reverted
      case Some(f) => Returned(WithVault(m, v, f), 0)
  }

  // ---- one transaction, and a run ----

  /** Every id in the calldata is 32 bytes. */
  predicate InWords(c: W.Cmd) {
    match c
    case Mine(_) => true
    case TokenMint(_, caller, to, _) => 0 <= caller < WORD && 0 <= to < WORD
    case TokenTransfer(_, caller, to, _) => 0 <= caller < WORD && 0 <= to < WORD
    case TokenApprove(_, caller, spender, _) => 0 <= caller < WORD && 0 <= spender < WORD
    case TokenTransferFrom(_, caller, from, to, _) => 0 <= caller < WORD && 0 <= from < WORD && 0 <= to < WORD
    case PoolSetTokens(p, caller, a, b) => 0 <= p < WORD && 0 <= caller < WORD && 0 <= a < WORD && 0 <= b < WORD
    case PoolSetFee(p, caller, _) => 0 <= p < WORD && 0 <= caller < WORD
    case PoolSetAdmin(p, caller, admin) => 0 <= p < WORD && 0 <= caller < WORD && 0 <= admin < WORD
    case PoolAdd(p, caller, _, _, _, _) => 0 <= p < WORD && 0 <= caller < WORD
    case PoolRemove(p, caller, _, _, _, toA, toB, _) =>
      0 <= p < WORD && 0 <= caller < WORD && 0 <= toA < WORD && 0 <= toB < WORD
    case PoolSwap(p, caller, _, _, _, to, _) => 0 <= p < WORD && 0 <= caller < WORD && 0 <= to < WORD
    case RouterSwap(r, caller, hops, _, _, to, _) =>
      0 <= r < WORD && 0 <= caller < WORD && HopsInWords(hops) && 0 <= to < WORD
    case VaultConfigure(v, caller, pool, a, b) =>
      0 <= v < WORD && 0 <= caller < WORD && 0 <= pool < WORD && 0 <= a < WORD && 0 <= b < WORD
    case VaultDeposit(v, caller, _, _, _, _) => 0 <= v < WORD && 0 <= caller < WORD
    case VaultWithdraw(v, caller, _, _, _, _) => 0 <= v < WORD && 0 <= caller < WORD
    case VaultTransferShares(v, caller, to, _) => 0 <= v < WORD && 0 <= caller < WORD && 0 <= to < WORD
  }

  predicate Signed(m: Store, c: W.Cmd) {
    c.Mine? || (c.caller != 0 && c.caller !in m.tokens && c.caller !in m.pools && c.caller !in m.vaults && c.caller !in m.routers)
  }

  function TokenCall(m: Store, c: W.Cmd): Result
    requires InWords(c) && (c.TokenMint? || c.TokenTransfer? || c.TokenApprove? || c.TokenTransferFrom?)
  {
    if c.token !in m.tokens then Reverted
    else
      var sl := m.tokens[c.token];
      match c
      case TokenMint(k, caller, to, amt) => Returned(WithToken(m, k, TS.Minted(sl, caller, to, amt)), 0)
      case TokenTransfer(k, caller, to, amt) => Returned(WithToken(m, k, TS.Transferred(sl, caller, to, amt)), 0)
      case TokenApprove(k, caller, spender, amt) => Returned(WithToken(m, k, TS.Approved(sl, caller, spender, amt)), ONE)
      case TokenTransferFrom(k, caller, from, to, amt) =>
        var r := TS.TransferredFrom(sl, caller, from, to, amt);
        Returned(WithToken(m, k, r.0), if r.1 then ONE else 0)
  }

  function Exec(m: Store, c: W.Cmd): Result
    requires InWords(c)
  {
    if !Signed(m, c) then Reverted
    else
      match c
      case Mine(n) => Returned(m.(height := m.height + n), 0)
      case TokenMint(_, _, _, _) => TokenCall(m, c)
      case TokenTransfer(_, _, _, _) => TokenCall(m, c)
      case TokenApprove(_, _, _, _) => TokenCall(m, c)
      case TokenTransferFrom(_, _, _, _, _) => TokenCall(m, c)
      case PoolSetTokens(p, caller, a, b) => SetTokens(m, p, caller, a, b)
      case PoolSetFee(p, caller, fee) => SetFee(m, p, caller, fee)
      case PoolSetAdmin(p, caller, admin) => SetAdmin(m, p, caller, admin)
      case PoolAdd(p, caller, a, b, min, d) => AddLiquidity(m, p, caller, a, b, min, d)
      case PoolRemove(p, caller, burn, minA, minB, toA, toB, d) => RemoveLiquidity(m, p, caller, burn, minA, minB, toA, toB, d)
      case PoolSwap(p, caller, dir, ain, min, to, d) => SwapTo(m, p, caller, dir, ain, min, to, d)
      case RouterSwap(r, caller, hops, ain, min, to, d) => Route(m, r, caller, hops, ain, min, to, d)
      case VaultConfigure(v, _, p, a, b) => Configure(m, v, p, a, b)
      case VaultDeposit(v, caller, a, b, min, d) => Deposit(m, v, caller, a, b, min, d)
      case VaultWithdraw(v, caller, s, minA, minB, d) => Withdraw(m, v, caller, s, minA, minB, d)
      case VaultTransferShares(v, caller, to, s) => TransferShares(m, v, caller, to, s)
  }

  /** A reverted transaction changes nothing. */
  function Step(m: Store, c: W.Cmd): Store
    requires InWords(c)
  {
    match Exec(m, c)
    case Reverted => m
    case Returned(m', _) => m'
  }

  function Run(m: Store, cs: seq<W.Cmd>): Store
    requires forall c :: c in cs ==> InWords(c)
    decreases |cs|
  {
    if cs == [] then m else Run(Step(m, cs[0]), cs[1..])
  }
}
