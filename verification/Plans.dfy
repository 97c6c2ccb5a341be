/**
 Client plans run against the chain: the single-pool custody swap planner and the
 balanced vault deposit. A plan made from the state it is run in does what it says.
 */
module Plans {
  import opened Words
  import opened Options
  import opened Balances
  import opened Quotes
  import opened Curve
  import opened World
  import opened Safety
  import opened Vaults
  import opened Runs
  import opened Routing
  import opened Theorems

  /** A transaction with the nonce it is to be sent under. */
  datatype Planned = Planned(nonce: int, cmd: Cmd)

  datatype SwapPlan = SwapPlan(
    hop: RouteHop, amountIn: int, amountOut: int, minOut: int, fee: int,
    approveTx: Option<Planned>, swapTx: Planned)

  lemma AmountOutAtMostReserve(ri: int, ro: int, ain: int, fee: int)
    requires 0 <= ri && 0 <= ro && 0 <= ain && 0 <= fee <= BPS
    ensures 0 <= AmountOut(ri, ro, ain, fee) <= ro
  {
    AmountOutNonneg(ri, ro, ain, fee);
    AfterFeeBounds(ain, fee);
    var net := AfterFee(ain, fee);
    if net != 0 {
      DivBounds(ro * net, ri + net);
      MulNonneg(ro, ri);
      MulCancel(ro * net / (ri + net), ro, ri + net);
    }
  }

  /** None stands for a thrown error. */
  function PlanCustodySwap(pool: Id, st: Pool, tokenIn: Id, amountIn: int, slippage: int, sender: Id, router: Id,
                           allowance: int, nonce: int, recipient: Option<Id>, deadline: int): Option<SwapPlan>
  {
    if amountIn <= 0 || !(0 <= slippage < BPS) || (tokenIn != st.tokenA && tokenIn != st.tokenB)
       || !(0 <= deadline < U64) then None
    else
      var dir := if tokenIn == st.tokenA then 0 else 1;
      var hop := ResolveHop(pool, dir, st.tokenA, st.tokenB);
      var fee := EffectiveFee(st.fee);
      match QuoteAmountOut(V9, ReserveIn(st, dir), ReserveOut(st, dir), amountIn, fee)
      case None => None
      case Some(out) =>
        if out <= 0 then None
        else
          WidthOrder();
          AmountOutAtMostReserve(ReserveIn(st, dir), ReserveOut(st, dir), amountIn, fee);
          MinOutIsAttainable(out, slippage);
          var m := MinOutWithSlippage(out, slippage).value;
          var min := if m > out then out else m;
          var needsApproval := allowance < amountIn;
          var to := if recipient.Some? then recipient.value else sender;
          var n := if needsApproval then nonce + 1 else nonce;
          Some(SwapPlan(hop, amountIn, out, min, fee,
            if needsApproval then Some(Planned(nonce, TokenApprove(hop.tokenIn, sender, router, amountIn))) else None,
            Planned(n, RouterSwap(router, sender, [Hop(pool, dir, hop.tokenIn)], amountIn, min, to, deadline))))
  }

  /** Sending the plan's transactions in nonce order. */
  function RunPlan(w: World, plan: SwapPlan): Outcome {
    var w1 := if plan.approveTx.Some? then Step(w, plan.approveTx.value.cmd) else w;
    Exec(w1, plan.swapTx.cmd)
  }

  /**
   A plan made from the live pool and the live allowance goes through exactly
   when the signer holds the input, the deadline has not passed, the recipient is
   not the zero id and the pool's ledger limit has room for the input. The
   recipient then receives exactly the planned output, which is at least the
   planned minimum.
   */
  lemma PlanDeliversIff(w: World, p: Id, tokenIn: Id, amountIn: int, slippage: int, sender: Id, router: Id,
                        nonce: int, recipient: Option<Id>, deadline: int)
    requires Inv(w) && IsUser(w, sender) && router in w.routers && p in w.pools
    requires PlanCustodySwap(p, w.pools[p], tokenIn, amountIn, slippage, sender, router,
                             AllowOf(w, tokenIn, sender, router), nonce, recipient, deadline).Some?
    ensures var plan := PlanCustodySwap(p, w.pools[p], tokenIn, amountIn, slippage, sender, router,
                                        AllowOf(w, tokenIn, sender, router), nonce, recipient, deadline).value;
            var s, r := w.pools[p], RunPlan(w, plan);
            var to := if recipient.Some? then recipient.value else sender;
            && 1 <= plan.minOut <= plan.amountOut
            // no more than the slippage, and a part of one unit, is given up
            && (plan.amountOut - plan.minOut) * 10_000 < plan.amountOut * slippage + 10_000
            && plan.amountIn == amountIn && plan.fee == (if s.fee == 0 then 30 else s.fee)
            && plan.hop.pool == p && plan.hop.tokenIn == tokenIn
            && (plan.approveTx.Some? <==> AllowOf(w, tokenIn, sender, router) < amountIn)
            && (plan.approveTx.Some? ==> plan.approveTx.value.nonce == nonce)
            && plan.swapTx.nonce == (if plan.approveTx.Some? then nonce + 1 else nonce)
            && (r.Done? <==>
                  && amountIn <= BalOf(w, tokenIn, sender) && !Late(w, deadline) && to != 0
                  && (if tokenIn == s.tokenA then s.ra else s.rb) + amountIn < Limit(s.version))
            && (r.Done? ==>
                  && (to != p ==> BalOf(r.w, plan.hop.tokenOut, to) == BalOf(w, plan.hop.tokenOut, to) + plan.amountOut)
                  && BalOf(r.w, tokenIn, sender) == BalOf(w, tokenIn, sender) - amountIn)
  {
    var s := w.pools[p];
    var plan := PlanCustodySwap(p, s, tokenIn, amountIn, slippage, sender, router,
                                AllowOf(w, tokenIn, sender, router), nonce, recipient, deadline).value;
    assert PoolOk(s);
    PlanShape(w, p, tokenIn, amountIn, slippage, sender, router, nonce, recipient, deadline, plan);
    var w1 := if plan.approveTx.Some? then Step(w, plan.approveTx.value.cmd) else w;
    var dir := if tokenIn == s.tokenA then 0 else 1;
    var to := if recipient.Some? then recipient.value else sender;
    hide PlanCustodySwap, Core, Exec, Step, Swap;
    PlanSetsAllowance(w, tokenIn, amountIn, sender, router, plan);
    PlannedSwap(w1, p, Hop(p, dir, tokenIn), amountIn, plan.minOut, sender, router, to, deadline, plan.amountOut);
  }

  lemma GivesUpAtMost(quote: int, slippage: int)
    requires 1 <= quote && 0 <= slippage <= BPS
    ensures (quote - MinOutWithSlippage(quote, slippage).value) * 10_000 < quote * slippage + 10_000
  {
    MinOutIsAttainable(quote, slippage);
    assert quote * (10_000 - slippage) == quote * 10_000 - quote * slippage;
  }

  /**
   There is a plan exactly when the input is positive, the slippage below 100%,
   the token one of the pair, the deadline 64 bits wide, the reserves and the
   input below 2^64, and the pool's curve pays at least one unit.
   */
  lemma PlanExistsIff(p: Id, s: Pool, tokenIn: Id, amountIn: int, slippage: int, sender: Id, router: Id,
                      allowance: int, nonce: int, recipient: Option<Id>, deadline: int)
    requires PoolOk(s)
    ensures var dir := if tokenIn == s.tokenA then 0 else 1;
            PlanCustodySwap(p, s, tokenIn, amountIn, slippage, sender, router, allowance, nonce, recipient, deadline).Some? <==>
            && 0 < amountIn < U64 && 0 <= slippage < 10_000 && (tokenIn == s.tokenA || tokenIn == s.tokenB)
            && 0 <= deadline < U64 && s.ra < U64 && s.rb < U64
            && 1 <= AmountOut(ReserveIn(s, dir), ReserveOut(s, dir), amountIn, if s.fee == 0 then 30 else s.fee)
  {
    hide AmountOut;
  }

  /** The transactions of a plan, read off the planner. */
  lemma PlanShape(w: World, p: Id, tokenIn: Id, amountIn: int, slippage: int, sender: Id, router: Id,
                  nonce: int, recipient: Option<Id>, deadline: int, plan: SwapPlan)
    requires p in w.pools && PoolOk(w.pools[p])
    requires PlanCustodySwap(p, w.pools[p], tokenIn, amountIn, slippage, sender, router,
                             AllowOf(w, tokenIn, sender, router), nonce, recipient, deadline) == Some(plan)
    ensures var s, dir := w.pools[p], if tokenIn == w.pools[p].tokenA then 0 else 1;
            && s.configured && 0 < amountIn < WORD && 0 <= deadline < WORD && 1 <= plan.minOut <= plan.amountOut < WORD
            && (plan.amountOut - plan.minOut) * 10_000 < plan.amountOut * slippage + 10_000
            && plan.amountIn == amountIn && plan.fee == (if s.fee == 0 then 30 else s.fee)
            && plan.hop == RouteHop(p, dir, tokenIn, TokenOut(s, dir)) && tokenIn == TokenIn(s, dir)
            && QuoteHop(w.pools, Hop(p, dir, tokenIn), amountIn) == Some(plan.amountOut)
            && plan.approveTx == (if AllowOf(w, tokenIn, sender, router) < amountIn
                                  then Some(Planned(nonce, TokenApprove(tokenIn, sender, router, amountIn))) else None)
            && plan.swapTx == Planned(if plan.approveTx.Some? then nonce + 1 else nonce,
                                      RouterSwap(router, sender, [Hop(p, dir, tokenIn)], amountIn, plan.minOut,
                                                 if recipient.Some? then recipient.value else sender, deadline))
  {
    WidthOrder();
    MinOutIsAttainable(plan.amountOut, slippage);
    GivesUpAtMost(plan.amountOut, slippage);
    var s := w.pools[p];
    var dir := if tokenIn == s.tokenA then 0 else 1;
    AmountOutAtMostReserve(ReserveIn(s, dir), ReserveOut(s, dir), amountIn, EffectiveFee(s.fee));
    EmptySideQuotesZero(ReserveIn(s, dir), amountIn, EffectiveFee(s.fee));
    hide AmountOut;
  }

  /** A one-hop route at its live quote, already approved: exactly when it goes through, and what it pays. */
  lemma PlannedSwap(w: World, p: Id, h: Hop, amountIn: Word, min: Word, sender: Id, router: Id, to: Id, d: Word, out: int)
    requires Inv(w) && IsUser(w, sender) && router in w.routers && p in w.pools && w.pools[p].configured
    requires h.pool == p && h.dir <= 1 && h.tokenIn == TokenIn(w.pools[p], h.dir)
    requires 0 < amountIn && QuoteHop(w.pools, h, amountIn) == Some(out) && min <= out
    requires amountIn <= BalOf(w, h.tokenIn, sender) ==> amountIn <= AllowOf(w, h.tokenIn, sender, router)
    ensures var s, r := w.pools[p], Exec(w, RouterSwap(router, sender, [h], amountIn, min, to, d));
            && (r.Done? <==> amountIn <= BalOf(w, h.tokenIn, sender) && !Late(w, d) && to != 0
                             && ReserveIn(s, h.dir) + amountIn < Limit(s.version))
            && (r.Done? ==>
                  && (to != p ==> BalOf(r.w, TokenOut(s, h.dir), to) == BalOf(w, TokenOut(s, h.dir), to) + out)
                  && BalOf(r.w, h.tokenIn, sender) == BalOf(w, h.tokenIn, sender) - amountIn)
  {
    var s := w.pools[p];
    assert PoolOk(s);
    if && amountIn <= BalOf(w, h.tokenIn, sender) && !Late(w, d) && to != 0
       && ReserveIn(s, h.dir) + amountIn < Limit(s.version) {
      OneHopRoute(w.pools, h, amountIn, out);
      hide Core, Exec, Routable, QuoteRoute;
      RoutePaysQuote(w, router, sender, [h], amountIn, min, to, d);
      assert forall x :: OnPath([h], x) <==> x == p by { assert [h][0] == h; }
    } else {
      PullEffect(w, h.tokenIn, router, sender, amountIn);
      OneHopFaults(w, router, sender, h, amountIn, min, to, d);
    }
  }

  lemma OneHopRoute(pools: map<Id, Pool>, h: Hop, amt: int, out: int)
    requires h.pool in pools && QuoteHop(pools, h, amt) == Some(out) && HopFits(pools[h.pool], h, amt)
    ensures Routable(pools, [h], amt) && DistinctPools([h]) && QuoteRoute(pools, [h], amt) == Some(out)
    ensures LastToken(pools, [h]) == TokenOut(pools[h.pool], h.dir)
  {
    assert [h][1..] == [];
    assert Routable(pools, [], out) && QuoteRoute(pools, [], out) == Some(out);
  }

  /** A route that cannot be pulled, pays the zero id, comes late, or whose pool refuses the swap leaves no trace. */
  lemma OneHopFaults(w: World, router: Id, caller: Id, h: Hop, ain: Word, min: Word, to: Id, d: Word)
    requires h.pool in w.pools
    requires to == 0 || Late(w, d) || Swap(w.pools[h.pool], h.dir, ain, min) == None
             || Pull(w, h.tokenIn, router, caller, ain) == None
    ensures Exec(w, RouterSwap(router, caller, [h], ain, min, to, d)).Fault?
  {
    var r := Pull(w, h.tokenIn, router, caller, ain);
    if r.Some? {
      assert r.value.pools == w.pools && r.value.height == w.height;
      hide Swap, Pull;
      HopsUnfold(r.value, router, [h], ain, min, to, d);
    }
  }

  /** After the plan's approval, if it has one, the router may pull what the signer holds and nothing else has changed. */
  lemma PlanSetsAllowance(w: World, k: Id, amountIn: int, sender: Id, router: Id, plan: SwapPlan)
    requires Inv(w) && IsUser(w, sender) && 0 < amountIn < WORD
    requires plan.approveTx == None ==> amountIn <= AllowOf(w, k, sender, router)
    requires plan.approveTx.Some? ==> plan.approveTx.value.cmd == TokenApprove(k, sender, router, amountIn)
    ensures var w1 := if plan.approveTx.Some? then Step(w, plan.approveTx.value.cmd) else w;
            && Inv(w1) && SameContracts(w, w1) && w1.tokens.Keys == w.tokens.Keys
            && (amountIn <= BalOf(w, k, sender) ==> amountIn <= AllowOf(w1, k, sender, router))
            && (forall j, x :: BalOf(w1, j, x) == BalOf(w, j, x))
  {
    if plan.approveTx.Some? && k in w.tokens {
      ApproveEffect(w, k, sender, router, amountIn);
      ApproveGood(w, k, sender, router, amountIn);
    }
  }

  // ---- vault deposits and withdrawals ----

  /** The signer holds and has approved to the vault this much of the token. */
  predicate Funded(w: World, k: Id, caller: Id, v: Id, amt: int) {
    amt <= BalOf(w, k, caller) && amt <= AllowOf(w, k, caller, v)
  }

  /** The pool draws what the vault approved: the same pair, or the pair crossed and equal amounts. */
  predicate PairMatches(u: Vault, s: Pool, a: int, b: int) {
    || (s.tokenA == u.tokenA && s.tokenB == u.tokenB)
    || (s.tokenA == u.tokenB && s.tokenB == u.tokenA && a == b)
  }

  /** Everything a deposit that is funded still needs. */
  predicate Accepted(w: World, v: Id, a: nat, b: nat, min: nat, d: nat) {
    && v in w.vaults && w.vaults[v].configured && 0 < a && 0 < b && !Late(w, d) && w.vaults[v].pool in w.pools
    && PairMatches(w.vaults[v], w.pools[w.vaults[v].pool], a, b)
    && Add(w.pools[w.vaults[v].pool], v, a, b, min).Some?
  }

  /**
   A deposit into any vault goes through exactly when the vault is configured on
   a pool whose pair it can serve, both sides are funded, it is in time, and the
   pool accepts both sides; it credits the signer what the pool minted.
   */
  lemma DepositDoneIff(w: World, v: Id, caller: Id, a: Word, b: Word, min: Word, d: Word)
    requires Inv(w)
    ensures var r := Exec(w, VaultDeposit(v, caller, a, b, min, d));
            && (r.Done? <==>
                  && IsUser(w, caller) && Accepted(w, v, a, b, min, d)
                  && Funded(w, w.vaults[v].tokenA, caller, v, a) && Funded(w, w.vaults[v].tokenB, caller, v, b))
            && (r.Done? ==>
                  && r.ret == Add(w.pools[w.vaults[v].pool], v, a, b, min).value.1
                  && v in r.w.vaults && Get(r.w.vaults[v].shares, caller) == Get(w.vaults[v].shares, caller) + r.ret)
  {
    hide Inv, Exec, DoDeposit, Add, Accepted, Funded, IsUser;
    DepositTransaction(w, v, caller, a, b, min, d);
    if IsUser(w, caller) {
      DepositIff(w, v, caller, a, b, min, d);
    }
  }

  lemma DepositIff(w: World, v: Id, caller: Id, a: Word, b: Word, min: nat, d: nat)
    requires Inv(w) && IsUser(w, caller)
    ensures var r := DoDeposit(w, v, caller, a, b, min, d);
            && (r.Done? <==>
                  && Accepted(w, v, a, b, min, d)
                  && Funded(w, w.vaults[v].tokenA, caller, v, a) && Funded(w, w.vaults[v].tokenB, caller, v, b))
            && (r.Done? ==>
                  && r.ret == Add(w.pools[w.vaults[v].pool], v, a, b, min).value.1
                  && v in r.w.vaults && Get(r.w.vaults[v].shares, caller) == Get(w.vaults[v].shares, caller) + r.ret)
  {
    hide Core, Add, DoAdd, DepositPrelude, DoDeposit;
    if DoDeposit(w, v, caller, a, b, min, d).Done? {
      DepositNeeds(w, v, caller, a, b, min, d);
    }
    if && Accepted(w, v, a, b, min, d)
       && Funded(w, w.vaults[v].tokenA, caller, v, a) && Funded(w, w.vaults[v].tokenB, caller, v, b) {
      var u := w.vaults[v];
      VaultIsNoPool(w, v);
      var w1 := PreludeSucceeds(w, v, caller, a, b);
      AddGoesThrough(w1, u.pool, v, a, b, min, d);
      DepositCredits(w, w1, v, caller, a, b, min, d);
    }
  }

  lemma VaultIsNoPool(w: World, v: Id)
    requires Inv(w) && v in w.vaults
    ensures v !in w.pools && (w.vaults[v].configured ==> w.vaults[v].tokenA != w.vaults[v].tokenB)
    ensures forall p :: p in w.pools && w.pools[p].configured ==> w.pools[p].tokenA != w.pools[p].tokenB
  {
    assert VaultOk(w, v);
    forall p | p in w.pools && w.pools[p].configured ensures w.pools[p].tokenA != w.pools[p].tokenB {
      assert PoolOk(w.pools[p]);
    }
  }

  /** What a completed deposit must have found. */
  lemma DepositNeeds(w: World, v: Id, caller: Id, a: Word, b: Word, min: nat, d: nat)
    requires Inv(w) && IsUser(w, caller) && DoDeposit(w, v, caller, a, b, min, d).Done?
    ensures Accepted(w, v, a, b, min, d)
    ensures var u := w.vaults[v]; Funded(w, u.tokenA, caller, v, a) && Funded(w, u.tokenB, caller, v, b)
  {
    DepositStarts(w, v, caller, a, b, min, d);
    var u := w.vaults[v];
    VaultIsNoPool(w, v);
    DepositUnfolds(w, v, caller, a, b, min, d);
    hide DoDeposit, DepositPrelude, DoAdd, Add, Pull;
    var w1 := DepositPrelude(w, v, caller, a, b).value;
    PreludePulls(w, v, caller, a, b);
    AddNeeds(w1, u.pool, v, a, b, min, d);
    PullsIff(w, v, caller, u.tokenA, u.tokenB, a, b);
    assert VaultOk(w, v);
    PreludeEffect(w, v, caller, a, b);
    AddPulled(w1, u.pool, v, a, b, min, d);
    hide Core;
    DrawsMatch(w1, v, u, w.pools[u.pool], a, b);
  }

  lemma DepositStarts(w: World, v: Id, caller: Id, a: nat, b: nat, min: nat, d: nat)
    requires DoDeposit(w, v, caller, a, b, min, d).Done?
    ensures v in w.vaults && w.vaults[v].configured && 0 < a && 0 < b
  {
    hide DepositPrelude, DoAdd;
  }

  lemma DrawsMatch(w1: World, v: Id, u: Vault, s: Pool, a: nat, b: nat)
    requires Approved(w1, v, u, a, b) && 0 < a && 0 < b && s.tokenA != s.tokenB && u.tokenA != u.tokenB
    requires a <= AllowOf(w1, s.tokenA, v, u.pool) && b <= AllowOf(w1, s.tokenB, v, u.pool)
    ensures PairMatches(u, s, a, b)
  {
  }

  lemma PreludePulls(w: World, v: Id, caller: Id, a: nat, b: nat)
    requires v in w.vaults && DepositPrelude(w, v, caller, a, b).Some?
    ensures var u, w1 := w.vaults[v], DepositPrelude(w, v, caller, a, b).value;
            && Pull(w, u.tokenA, v, caller, a).Some?
            && Pull(Pull(w, u.tokenA, v, caller, a).value, u.tokenB, v, caller, b).Some?
            && w1.pools == w.pools && w1.height == w.height
  {
  }

  lemma AddNeeds(w: World, p: Id, caller: Id, a: nat, b: nat, min: nat, d: nat)
    requires DoAdd(w, p, caller, a, b, min, d).Done?
    ensures p in w.pools && !Late(w, d) && Add(w.pools[p], caller, a, b, min).Some?
  {
    hide Add, Pull;
  }

  lemma AddGoesThrough(w: World, p: Id, caller: Id, a: nat, b: nat, min: nat, d: nat)
    requires Core(w) && caller !in w.pools && p in w.pools && !Late(w, d) && 0 < a && 0 < b
    requires var s := w.pools[p];
             && s.tokenA != s.tokenB && Add(s, caller, a, b, min).Some?
             && Funded(w, s.tokenA, caller, p, a) && Funded(w, s.tokenB, caller, p, b)
    ensures var r := DoAdd(w, p, caller, a, b, min, d);
            && r.Done? && r.ret == Add(w.pools[p], caller, a, b, min).value.1 && r.w.vaults == w.vaults
            && 0 < r.ret && min <= r.ret
  {
    var s := w.pools[p];
    hide Core, Pull;
    PullsIff(w, p, caller, s.tokenA, s.tokenB, a, b);
    AddMints(s, caller, a, b, min);
    hide Add;
    assert DoAdd(w, p, caller, a, b, min, d).Done?;
    PullKeepsVaults(w, s.tokenA, p, caller, a);
    PullKeepsVaults(Pull(w, s.tokenA, p, caller, a).value, s.tokenB, p, caller, b);
  }

  lemma AddMints(s: Pool, caller: Id, a: nat, b: nat, min: nat)
    requires Add(s, caller, a, b, min).Some? && PoolOk(s)
    ensures 0 < Add(s, caller, a, b, min).value.1 && min <= Add(s, caller, a, b, min).value.1
  {
    AddGrows(s, caller, a, b, min);
  }

  lemma PullKeepsVaults(w: World, k: Id, self: Id, from: Id, amt: int)
    requires Pull(w, k, self, from, amt).Some?
    ensures Pull(w, k, self, from, amt).value.vaults == w.vaults
  {
  }

  /** Once the pool has minted, the vault credits what it returned. */
  lemma DepositCredits(w: World, w1: World, v: Id, caller: Id, a: nat, b: nat, min: nat, d: nat)
    requires v in w.vaults && w.vaults[v].configured && 0 < a && 0 < b && DepositPrelude(w, v, caller, a, b) == Some(w1)
    requires var r := DoAdd(w1, w.vaults[v].pool, v, a, b, min, d); r.Done? && 0 < r.ret && min <= r.ret
    ensures var m, r := DoAdd(w1, w.vaults[v].pool, v, a, b, min, d), DoDeposit(w, v, caller, a, b, min, d);
            && r.Done? && r.ret == m.ret
            && v in r.w.vaults && Get(r.w.vaults[v].shares, caller) == Get(w.vaults[v].shares, caller) + r.ret
  {
    hide DoAdd, DepositPrelude;
  }

  lemma PreludeSucceeds(w: World, v: Id, caller: Id, a: nat, b: nat) returns (w1: World)
    requires Inv(w) && IsUser(w, caller) && v in w.vaults && w.vaults[v].configured && 0 < a < WORD && 0 < b < WORD
    requires Funded(w, w.vaults[v].tokenA, caller, v, a) && Funded(w, w.vaults[v].tokenB, caller, v, b)
    ensures DepositPrelude(w, v, caller, a, b) == Some(w1)
    ensures Core(w1) && SameContracts(w, w1)
    ensures var u := w.vaults[v]; Funded(w1, u.tokenA, v, u.pool, a) && Funded(w1, u.tokenB, v, u.pool, b)
  {
    var u := w.vaults[v];
    assert VaultOk(w, v);
    PullEffect(w, u.tokenA, v, caller, a);
    var wA := Pull(w, u.tokenA, v, caller, a).value;
    PullEffect(wA, u.tokenB, v, caller, b);
    assert DepositPrelude(w, v, caller, a, b).Some?;
    PreludeEffect(w, v, caller, a, b);
    w1 := DepositPrelude(w, v, caller, a, b).value;
    BalNonneg(w, u.tokenA, v);
    BalNonneg(w, u.tokenB, v);
  }

  /** What the client quotes for a deposit of amountA into the vault's pool. */
  function QuoteFor(w: World, v: Id, amountA: int, slippage: int): Option<DepositQuote>
    requires v in w.vaults && w.vaults[v].pool in w.pools
  {
    var s := w.pools[w.vaults[v].pool];
    VaultDepositQuote(s.ra, s.rb, s.t, amountA, slippage)
  }

  /** The pool's limits have room for the quoted sides and, from v10 on, for the shares. */
  predicate HasRoom(s: Pool, amountA: int, q: DepositQuote) {
    && s.ra + amountA < Limit(s.version) && s.rb + q.amountB < Limit(s.version)
    && (Limit(s.version) == U128 ==> s.t + q.shares < U128)
  }

  /**
   A balanced deposit quoted from the live pool, with any slippage: it goes
   through exactly when the vault's pair serves the pool, both sides are funded,
   it is in time and the pool's limits have room. It then mints exactly the
   quoted shares.
   */
  lemma QuotedDepositMintsIff(w: World, v: Id, caller: Id, amountA: Word, slippage: int, d: Word)
    requires Inv(w) && IsUser(w, caller) && 0 <= slippage <= BPS
    requires v in w.vaults && w.vaults[v].configured && w.vaults[v].pool in w.pools && QuoteFor(w, v, amountA, slippage).Some?
    // the calldata can carry the quote
    requires var q := QuoteFor(w, v, amountA, slippage).value; 0 <= q.amountB < WORD && 0 <= q.minShares < WORD
    ensures var u, s, q := w.vaults[v], w.pools[w.vaults[v].pool], QuoteFor(w, v, amountA, slippage).value;
            && 0 < amountA && 0 < q.amountB && 1 <= q.minShares <= q.shares == amountA * s.t / s.ra
            && (LeftAfter(q.shares, slippage, q.minShares) || (q.minShares == 1 && LeftAfter(q.shares, slippage, 0)))
            && var r := Exec(w, VaultDeposit(v, caller, amountA, q.amountB, q.minShares, d));
               && (r.Done? <==>
                     && Funded(w, u.tokenA, caller, v, amountA) && Funded(w, u.tokenB, caller, v, q.amountB) && !Late(w, d)
                     && PairMatches(u, s, amountA, q.amountB) && HasRoom(s, amountA, q))
               && (r.Done? ==>
                     && r.ret == q.shares
                     && v in r.w.vaults && Get(r.w.vaults[v].shares, caller) == Get(u.shares, caller) + q.shares)
  {
    QuotedDepositFits(w, v, amountA, slippage);
    var q := QuoteFor(w, v, amountA, slippage).value;
    hide Inv, Exec, DoDeposit, Add, Funded, IsUser, QuoteFor, HasRoom, PairMatches;
    DepositDoneIff(w, v, caller, amountA, q.amountB, q.minShares, d);
  }

  /** The pool accepts the quoted sides exactly when its limits have room, and then mints the quoted shares. */
  lemma QuotedDepositFits(w: World, v: Id, amountA: int, slippage: int)
    requires Inv(w) && 0 <= slippage <= BPS && v in w.vaults && w.vaults[v].pool in w.pools
    requires QuoteFor(w, v, amountA, slippage).Some?
    ensures var s, q := w.pools[w.vaults[v].pool], QuoteFor(w, v, amountA, slippage).value;
            && 0 < amountA && 0 < q.amountB && 1 <= q.minShares <= q.shares == amountA * s.t / s.ra
            && (LeftAfter(q.shares, slippage, q.minShares) || (q.minShares == 1 && LeftAfter(q.shares, slippage, 0)))
            && var r := Add(s, v, amountA, q.amountB, q.minShares);
               && (r.Some? <==> HasRoom(s, amountA, q))
               && (r.Some? ==> r.value.1 == q.shares)
  {
    var s := w.pools[w.vaults[v].pool];
    assert PoolOk(s) && 0 < s.t && 0 < amountA && 0 < s.ra && 0 < s.rb;
    hide Core, VaultsOk, Add;
    VaultDepositIsBalanced(s.ra, s.rb, s.t, amountA, slippage);
    var q := VaultDepositQuote(s.ra, s.rb, s.t, amountA, slippage).value;
    AddIff(s, v, amountA, q.amountB, q.minShares);
  }

  /** A deposit signed by an account is the vault call; signed by anything else it faults. */
  lemma DepositTransaction(w: World, v: Id, caller: Id, a: Word, b: Word, min: Word, d: Word)
    ensures var r := Exec(w, VaultDeposit(v, caller, a, b, min, d));
            if IsUser(w, caller) then r == DoDeposit(w, v, caller, a, b, min, d) else r == Fault
  {
    hide DoDeposit;
  }

  // ---- the client's deposit flow ----

  datatype VaultConfig = VaultConfig(vault: Id, pool: Id, tokenA: Id, tokenB: Id)

  /** Exact approvals of both tokens to the vault, then the deposit, under consecutive nonces; None stands for a thrown error. */
  function DepositFlow(nonce: int, sender: Id, c: VaultConfig, a: int, b: int, min: int, deadline: int): Option<seq<Planned>> {
    if !(0 <= a < U128 && 0 <= b < U128 && 0 <= min < U128 && 0 <= deadline < U128) then None
    else
      WidthOrder();
      Some([Planned(nonce, TokenApprove(c.tokenA, sender, c.vault, a)),
            Planned(nonce + 1, TokenApprove(c.tokenB, sender, c.vault, b)),
            Planned(nonce + 2, VaultDeposit(c.vault, sender, a, b, min, deadline))])
  }

  /** The state before the flow's deposit. */
  function AfterApprovals(w: World, sender: Id, c: VaultConfig, a: Word, b: Word): World {
    Step(Step(w, TokenApprove(c.tokenA, sender, c.vault, a)), TokenApprove(c.tokenB, sender, c.vault, b))
  }

  /** Sending the transactions of a flow in nonce order; the result is the last one's. */
  function RunFlow(w: World, flow: seq<Planned>): Outcome
    requires flow != []
    decreases |flow|
  {
    if |flow| == 1 then Exec(w, flow[0].cmd) else RunFlow(Step(w, flow[0].cmd), flow[1..])
  }

  /**
   A flow made for the pair of a vault deposits exactly when the signer holds
   both sides, whatever had been approved before, and the vault and its pool
   accept them. It credits what the pool minted and uses up both approvals.
   */
  lemma DepositFlowIff(w: World, nonce: int, sender: Id, c: VaultConfig, a: int, b: int, min: int, d: int)
    requires Inv(w) && IsUser(w, sender) && c.vault in w.vaults
    requires c.tokenA == w.vaults[c.vault].tokenA && c.tokenB == w.vaults[c.vault].tokenB
    ensures DepositFlow(nonce, sender, c, a, b, min, d).Some? <==>
            0 <= a < U128 && 0 <= b < U128 && 0 <= min < U128 && 0 <= d < U128
    ensures DepositFlow(nonce, sender, c, a, b, min, d).Some? ==>
            var flow, v := DepositFlow(nonce, sender, c, a, b, min, d).value, c.vault;
            && (forall i :: 0 <= i < |flow| ==> flow[i].nonce == nonce + i)
            && flow != []
            && var r := RunFlow(w, flow);
               && (r.Done? <==>
                     Accepted(w, v, a, b, min, d) && a <= BalOf(w, c.tokenA, sender) && b <= BalOf(w, c.tokenB, sender))
               && (r.Done? ==>
                     && r.ret == Add(w.pools[w.vaults[v].pool], v, a, b, min).value.1
                     && v in r.w.vaults && Get(r.w.vaults[v].shares, sender) == Get(w.vaults[v].shares, sender) + r.ret
                     && AllowOf(r.w, c.tokenA, sender, v) == 0 == AllowOf(r.w, c.tokenB, sender, v))
  {
    hide Inv, Exec, Step, RunFlow, DepositFlow, AfterApprovals, Add, IsUser, BalOf, AllowOf, DoDeposit;
    FlowExists(nonce, sender, c, a, b, min, d);
    if DepositFlow(nonce, sender, c, a, b, min, d).Some? {
      FlowRuns(w, nonce, sender, c, a, b, min, d);
      var v := c.vault;
      var w2 := AfterApprovals(w, sender, c, a, b);
      VaultIsNoPool(w, v);
      ApprovalsSet(w, sender, c, a, b);
      AcceptedKept(w, w2, v, a, b, min, d);
      HeldTokens(w, sender);
      DepositDoneIff(w2, v, sender, a, b, min, d);
      DepositTransaction(w2, v, sender, a, b, min, d);
      if Exec(w2, VaultDeposit(v, sender, a, b, min, d)).Done? {
        ApprovalsSpent(w2, v, sender, a, b, min, d);
      }
    }
  }

  lemma FlowExists(nonce: int, sender: Id, c: VaultConfig, a: int, b: int, min: int, d: int)
    ensures DepositFlow(nonce, sender, c, a, b, min, d).Some? <==>
            0 <= a < U128 && 0 <= b < U128 && 0 <= min < U128 && 0 <= d < U128
  {
  }

  lemma HeldTokens(w: World, x: Id)
    ensures forall k :: 0 < BalOf(w, k, x) ==> k in w.tokens
  {
  }

  lemma FlowRuns(w: World, nonce: int, sender: Id, c: VaultConfig, a: int, b: int, min: int, d: int)
    requires DepositFlow(nonce, sender, c, a, b, min, d).Some?
    ensures var flow := DepositFlow(nonce, sender, c, a, b, min, d).value;
            && flow != [] && (forall i :: 0 <= i < |flow| ==> flow[i].nonce == nonce + i)
            && 0 <= a < WORD && 0 <= b < WORD && 0 <= min < WORD && 0 <= d < WORD
            && RunFlow(w, flow) == Exec(AfterApprovals(w, sender, c, a, b), VaultDeposit(c.vault, sender, a, b, min, d))
  {
    WidthOrder();
    var flow := DepositFlow(nonce, sender, c, a, b, min, d).value;
    hide Exec, Step;
    var w1 := Step(w, flow[0].cmd);
    assert RunFlow(w, flow) == RunFlow(w1, flow[1..]);
    assert flow[1..][1..] == [flow[2]] && flow[1..][0] == flow[1];
    assert RunFlow(w1, flow[1..]) == RunFlow(Step(w1, flow[1].cmd), [flow[2]]);
  }

  /** Two approvals leave exactly these allowances to the vault, and change no balance and no other contract. */
  lemma ApprovalsSet(w: World, sender: Id, c: VaultConfig, a: Word, b: Word)
    requires Inv(w) && IsUser(w, sender)
    ensures var w2 := AfterApprovals(w, sender, c, a, b);
            && Inv(w2) && IsUser(w2, sender) && SameContracts(w, w2)
            && (forall k, x :: BalOf(w2, k, x) == BalOf(w, k, x))
            && (c.tokenA in w.tokens && c.tokenA != c.tokenB ==> AllowOf(w2, c.tokenA, sender, c.vault) == a)
            && (c.tokenB in w.tokens ==> AllowOf(w2, c.tokenB, sender, c.vault) == b)
  {
    ApprovalSet(w, c.tokenA, sender, c.vault, a);
    var w1 := Step(w, TokenApprove(c.tokenA, sender, c.vault, a));
    hide Inv, Step;
    ApprovalSet(w1, c.tokenB, sender, c.vault, b);
  }

  lemma ApprovalSet(w: World, k: Id, sender: Id, spender: Id, amt: Word)
    requires Inv(w) && IsUser(w, sender)
    ensures var w1 := Step(w, TokenApprove(k, sender, spender, amt));
            && Inv(w1) && IsUser(w1, sender) && SameContracts(w, w1) && w1.tokens.Keys == w.tokens.Keys
            && (forall j, x :: BalOf(w1, j, x) == BalOf(w, j, x))
            && (k in w.tokens ==> AllowOf(w1, k, sender, spender) == amt)
            && (forall j, o, s :: (j, o, s) != (k, sender, spender) ==> AllowOf(w1, j, o, s) == AllowOf(w, j, o, s))
  {
    if k in w.tokens {
      ApproveEffect(w, k, sender, spender, amt);
      ApproveGood(w, k, sender, spender, amt);
    }
  }

  lemma AcceptedKept(w: World, w2: World, v: Id, a: nat, b: nat, min: nat, d: nat)
    requires SameContracts(w, w2)
    ensures Accepted(w2, v, a, b, min, d) <==> Accepted(w, v, a, b, min, d)
  {
    hide Add;
  }

  /** A deposit draws from the signer's allowances to the vault exactly what it deposits. */
  lemma ApprovalsSpent(w: World, v: Id, sender: Id, a: Word, b: Word, min: Word, d: Word)
    requires Inv(w) && IsUser(w, sender) && DoDeposit(w, v, sender, a, b, min, d).Done?
    ensures v in w.vaults
    ensures var u, w' := w.vaults[v], DoDeposit(w, v, sender, a, b, min, d).w;
            && AllowOf(w', u.tokenA, sender, v) == AllowOf(w, u.tokenA, sender, v) - a
            && AllowOf(w', u.tokenB, sender, v) == AllowOf(w, u.tokenB, sender, v) - b
  {
    DepositStarts(w, v, sender, a, b, min, d);
    DepositUnfolds(w, v, sender, a, b, min, d);
    VaultIsNoPool(w, v);
    assert VaultOk(w, v) && v != sender;
    hide DoDeposit, DepositPrelude, DoAdd, Add, Conserves;
    var u, w1 := w.vaults[v], DepositPrelude(w, v, sender, a, b).value;
    PreludeSpends(w, v, sender, a, b);
    PreludeEffect(w, v, sender, a, b);
    AddEffect(w1, u.pool, v, a, b, min, d);
    hide Core, Spares;
    DepositKeepsTokens(w, v, sender, a, b, min, d);
  }

  lemma DepositKeepsTokens(w: World, v: Id, sender: Id, a: nat, b: nat, min: nat, d: nat)
    requires DoDeposit(w, v, sender, a, b, min, d).Done? && v in w.vaults && DepositPrelude(w, v, sender, a, b).Some?
    ensures var r := DoAdd(DepositPrelude(w, v, sender, a, b).value, w.vaults[v].pool, v, a, b, min, d);
            r.Done? && DoDeposit(w, v, sender, a, b, min, d).w.tokens == r.w.tokens
  {
    hide DepositPrelude, DoAdd;
  }

  lemma PreludeSpends(w: World, v: Id, sender: Id, a: Word, b: Word)
    requires Core(w) && IsUser(w, sender) && v in w.vaults && v !in w.pools && v != sender
    requires w.vaults[v].tokenA != w.vaults[v].tokenB && DepositPrelude(w, v, sender, a, b).Some?
    ensures var u, w1 := w.vaults[v], DepositPrelude(w, v, sender, a, b).value;
            && AllowOf(w1, u.tokenA, sender, v) == AllowOf(w, u.tokenA, sender, v) - a
            && AllowOf(w1, u.tokenB, sender, v) == AllowOf(w, u.tokenB, sender, v) - b
  {
    var u := w.vaults[v];
    PreludePulls(w, v, sender, a, b);
    PreludeApproves(w, v, sender, a, b);
    hide DepositPrelude, Pull, ApproveCall;
    PullsSpend(w, v, sender, u.tokenA, u.tokenB, a, b);
    var w3 := Pull(Pull(w, u.tokenA, v, sender, a).value, u.tokenB, v, sender, b).value;
    var w1 := ApproveBoth(w3, v, u.tokenA, u.tokenB, u.pool, a, b);
  }

  lemma PreludeApproves(w: World, v: Id, sender: Id, a: nat, b: nat)
    requires v in w.vaults && DepositPrelude(w, v, sender, a, b).Some?
    ensures var u := w.vaults[v];
            var w1 := Pull(w, u.tokenA, v, sender, a);
            && w1.Some?
            && var w2 := Pull(w1.value, u.tokenB, v, sender, b);
               && w2.Some? && ApproveCall(w2.value, u.tokenA, v, u.pool, a).Some?
               && DepositPrelude(w, v, sender, a, b) == ApproveCall(ApproveCall(w2.value, u.tokenA, v, u.pool, a).value, u.tokenB, v, u.pool, b)
  {
    hide Pull, ApproveCall;
  }

  lemma PullsSpend(w: World, v: Id, sender: Id, kA: Id, kB: Id, a: nat, b: nat)
    requires Core(w) && sender !in w.pools && sender != v && kA != kB
    requires Pull(w, kA, v, sender, a).Some? && Pull(Pull(w, kA, v, sender, a).value, kB, v, sender, b).Some?
    ensures var w3 := Pull(Pull(w, kA, v, sender, a).value, kB, v, sender, b).value;
            && Core(w3) && w3.pools == w.pools && kA in w3.tokens && kB in w3.tokens
            && AllowOf(w3, kA, sender, v) == AllowOf(w, kA, sender, v) - a
            && AllowOf(w3, kB, sender, v) == AllowOf(w, kB, sender, v) - b
  {
    PullEffect(w, kA, v, sender, a);
    PullEffect(Pull(w, kA, v, sender, a).value, kB, v, sender, b);
  }

  /** The minimums of a withdrawal quote are what is left of its outputs after the slippage. */
  lemma WithdrawQuoteAttainable(ra: int, rb: int, totalLp: int, shares: int, slippage: int)
    requires 0 <= ra && 0 <= rb && 0 < totalLp && 0 <= shares && 0 <= slippage <= BPS
    ensures var q := VaultWithdrawQuote(ra, rb, totalLp, shares, slippage);
            && (q.outA, q.outB) == RemoveAmounts(ra, rb, totalLp, shares)
            && 0 <= q.minA <= q.outA && 0 <= q.minB <= q.outB
            && LeftAfter(q.outA, slippage, q.minA) && LeftAfter(q.outB, slippage, q.minB)
  {
    MulNonneg(shares, ra);
    MulNonneg(shares, rb);
    DivBounds(shares * ra, totalLp);
    DivBounds(shares * rb, totalLp);
    PartIsLeft(shares * ra / totalLp, slippage);
    PartIsLeft(shares * rb / totalLp, slippage);
    hide LeftAfter;
  }

  /**
   A withdrawal with the quoted minimums, quoted from the live pool with any
   slippage: it goes through exactly when in time and covered by the holder's
   shares, and pays the quoted outputs exactly.
   */
  lemma QuotedWithdrawPaysIff(w: World, v: Id, holder: Id, n: Word, slippage: int, d: Word, q: WithdrawQuote)
    requires Inv(w) && IsUser(w, holder) && v in w.vaults && 0 <= slippage <= BPS && 0 <= q.minA < WORD && 0 <= q.minB < WORD
    requires var u := w.vaults[v]; u.configured && u.pool in w.pools && 0 < w.pools[u.pool].t
    requires var s := w.pools[w.vaults[v].pool]; q == VaultWithdrawQuote(s.ra, s.rb, s.t, n, slippage)
    ensures 0 <= q.minA <= q.outA && 0 <= q.minB <= q.outB
    ensures LeftAfter(q.outA, slippage, q.minA) && LeftAfter(q.outB, slippage, q.minB)
    ensures var s, r := w.pools[w.vaults[v].pool], Exec(w, VaultWithdraw(v, holder, n, q.minA, q.minB, d));
            && (r.Done? <==> 0 < n <= Get(w.vaults[v].shares, holder) && !Late(w, d))
            && (r.Done? ==> Inv(r.w) && PaidOut(w, r.w, w.vaults[v].pool, holder, s.tokenA, q.outA, s.tokenB, q.outB))
  {
    var s := w.pools[w.vaults[v].pool];
    assert PoolOk(s);
    WithdrawQuoteAttainable(s.ra, s.rb, s.t, n, slippage);
    hide *;
    WithdrawPays(w, v, holder, n, q.minA, q.minB, d);
    WithdrawTransaction(w, v, holder, n, q.minA, q.minB, d);
  }
}
