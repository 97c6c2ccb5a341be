/**
 Multi-hop routes: the client's chained quote, the path check, and what the
 router's sequential execution does with them.
 */
module Routing {
  import opened Words
  import opened Options
  import opened Balances
  import opened Quotes
  import opened Curve
  import opened World
  import opened Safety
  import opened Routes
  import opened Runs

  // ---- client side ----

  /** A hop with both of its tokens, as the client keeps it. */
  datatype RouteHop = RouteHop(pool: Id, dir: nat, tokenIn: Id, tokenOut: Id)

  function ResolveHop(pool: Id, dir: nat, tokenA: Id, tokenB: Id): RouteHop {
    if dir == 0 then RouteHop(pool, dir, tokenA, tokenB) else RouteHop(pool, dir, tokenB, tokenA)
  }

  ghost predicate PathConnected(hops: seq<RouteHop>) {
    forall i :: 0 <= i < |hops| - 1 ==> hops[i].tokenOut == hops[i + 1].tokenIn
  }

  /** false stands for a thrown error. */
  method CheckRoutePath(hops: seq<RouteHop>) returns (ok: bool)
    ensures ok <==> 1 <= |hops| <= 4 && PathConnected(hops)
  {
    if |hops| < 1 || |hops| > MAX_HOPS { return false; }
    var i := 0;
    while i + 1 < |hops|
      invariant 0 <= i < |hops|
      invariant forall j :: 0 <= j < i ==> hops[j].tokenOut == hops[j + 1].tokenIn
    {
      if hops[i].tokenOut != hops[i + 1].tokenIn { return false; }
      i := i + 1;
    }
    return true;
  }

  /** What the live reserves say one hop pays, with v9 limits; 0 is rejected. */
  function QuoteHop(pools: map<Id, Pool>, h: Hop, amt: int): Option<int> {
    if h.pool !in pools then None
    else
      var s := pools[h.pool];
      match QuoteAmountOut(V9, ReserveIn(s, h.dir), ReserveOut(s, h.dir), amt, EffectiveFee(s.fee))
      case None => None
      case Some(out) => if out == 0 then None else Some(out)
  }

  function QuoteRoute(pools: map<Id, Pool>, hops: seq<Hop>, amt: int): Option<int>
    decreases |hops|
  {
    if hops == [] then Some(amt)
    else
      match QuoteHop(pools, hops[0], amt)
      case None => None
      case Some(out) => QuoteRoute(pools, hops[1..], out)
  }

  /** The client's loop over the hops. */
  method QuoteRouteLive(pools: map<Id, Pool>, hops: seq<Hop>, amountIn: int) returns (r: Option<int>)
    ensures r == QuoteRoute(pools, hops, amountIn)
  {
    var amt := amountIn;
    var i := 0;
    while i < |hops|
      invariant 0 <= i <= |hops|
      invariant QuoteRoute(pools, hops, amountIn) == QuoteRoute(pools, hops[i..], amt)
    {
      var q := QuoteHop(pools, hops[i], amt);
      if q == None { return None; }
      assert hops[i..][1..] == hops[i + 1..];
      amt := q.value;
      i := i + 1;
    }
    return Some(amt);
  }

  /** More in, no less out: whenever both amounts can be quoted. */
  lemma {:induction false} QuoteRouteMonotone(pools: map<Id, Pool>, hops: seq<Hop>, x: int, y: int)
    requires x <= y && QuoteRoute(pools, hops, x).Some? && QuoteRoute(pools, hops, y).Some?
    ensures QuoteRoute(pools, hops, x).value <= QuoteRoute(pools, hops, y).value
    decreases |hops|
  {
    if hops != [] {
      var h, s := hops[0], pools[hops[0].pool];
      OutMonotone(ReserveIn(s, h.dir), ReserveOut(s, h.dir), x, y, EffectiveFee(s.fee));
      QuoteRouteMonotone(pools, hops[1..], QuoteHop(pools, h, x).value, QuoteHop(pools, h, y).value);
    }
  }

  /** A quote reads nothing but the pools on its path. */
  lemma {:induction false} QuoteRouteFrame(pools: map<Id, Pool>, pools': map<Id, Pool>, hops: seq<Hop>, amt: int)
    requires forall i :: 0 <= i < |hops| ==>
               (hops[i].pool in pools <==> hops[i].pool in pools')
               && (hops[i].pool in pools ==> pools'[hops[i].pool] == pools[hops[i].pool])
    ensures QuoteRoute(pools', hops, amt) == QuoteRoute(pools, hops, amt)
    decreases |hops|
  {
    if hops != [] {
      assert QuoteHop(pools', hops[0], amt) == QuoteHop(pools, hops[0], amt);
      if QuoteHop(pools, hops[0], amt).Some? {
        QuoteRouteFrame(pools, pools', hops[1..], QuoteHop(pools, hops[0], amt).value);
      }
    }
  }

  // ---- execution against the quote ----

  /** One hop is set up as its pool wants it and the input fits the pool's limit. */
  predicate HopFits(s: Pool, h: Hop, amt: int) {
    && s.configured && h.dir <= 1 && h.tokenIn == TokenIn(s, h.dir)
    && ReserveIn(s, h.dir) + amt < Limit(s.version)
  }

  /**
   The whole route is quotable, connected, within limits, and every pool but the
   last returns its output (v9 or later).
   */
  predicate Routable(pools: map<Id, Pool>, hops: seq<Hop>, amt: int)
    decreases |hops|
  {
    hops != [] ==>
      && QuoteHop(pools, hops[0], amt).Some?
      && HopFits(pools[hops[0].pool], hops[0], amt)
      && (|hops| > 1 ==> !pools[hops[0].pool].version.V8?
                         && TokenOut(pools[hops[0].pool], hops[0].dir) == hops[1].tokenIn)
      && Routable(pools, hops[1..], QuoteHop(pools, hops[0], amt).value)
  }

  ghost predicate DistinctPools(hops: seq<Hop>) {
    forall i, j :: 0 <= i < j < |hops| ==> hops[i].pool != hops[j].pool
  }

  ghost predicate OnPath(hops: seq<Hop>, x: Id) {
    exists i :: 0 <= i < |hops| && hops[i].pool == x
  }

  function LastToken(pools: map<Id, Pool>, hops: seq<Hop>): Id
    requires hops != [] && hops[|hops| - 1].pool in pools
  {
    TokenOut(pools[hops[|hops| - 1].pool], hops[|hops| - 1].dir)
  }

  lemma {:induction false} RoutableFrame(pools: map<Id, Pool>, pools': map<Id, Pool>, hops: seq<Hop>, amt: int)
    requires Routable(pools, hops, amt)
    requires forall i :: 0 <= i < |hops| && hops[i].pool in pools ==>
               hops[i].pool in pools' && pools'[hops[i].pool] == pools[hops[i].pool]
    ensures Routable(pools', hops, amt)
    decreases |hops|
  {
    if hops != [] {
      assert hops[0].pool in pools;
      RoutableFrame(pools, pools', hops[1..], QuoteHop(pools, hops[0], amt).value);
    }
  }

  lemma {:induction false} RoutablePools(pools: map<Id, Pool>, hops: seq<Hop>, amt: int)
    requires Routable(pools, hops, amt)
    ensures forall i :: 0 <= i < |hops| ==> hops[i].pool in pools
    ensures QuoteRoute(pools, hops, amt).Some?
    ensures 0 < amt ==> 0 < QuoteRoute(pools, hops, amt).value
    decreases |hops|
  {
    if hops != [] {
      var out := QuoteHop(pools, hops[0], amt).value;
      RoutablePools(pools, hops[1..], out);
      forall i | 0 <= i < |hops| ensures hops[i].pool in pools {
        if i > 0 { assert hops[1..][i - 1] == hops[i]; }
      }
      var s := pools[hops[0].pool];
      AmountOutNonneg(ReserveIn(s, hops[0].dir), ReserveOut(s, hops[0].dir), amt, EffectiveFee(s.fee));
    }
  }

  lemma AmountOutNonneg(ri: int, ro: int, ain: int, fee: int)
    requires 0 <= ri && 0 <= ro && 0 <= ain && 0 <= fee <= BPS
    ensures 0 <= AmountOut(ri, ro, ain, fee)
  {
    AfterFeeBounds(ain, fee);
    var net := AfterFee(ain, fee);
    if net != 0 {
      MulNonneg(ro, net);
      DivBounds(ro * net, ri + net);
    }
  }

  /** A quotable hop within limits trades at exactly its quote, for every minimum up to it and no other. */
  lemma SwapMatchesQuote(pools: map<Id, Pool>, h: Hop, amt: nat, min: nat)
    requires h.pool in pools && PoolOk(pools[h.pool]) && HopFits(pools[h.pool], h, amt)
    requires QuoteHop(pools, h, amt).Some?
    ensures var s, q := pools[h.pool], QuoteHop(pools, h, amt).value;
            && (Swap(s, h.dir, amt, min).Some? <==> min <= q)
            && (min <= q ==> Swap(s, h.dir, amt, min).value.1 == q)
            && 0 < amt && 0 < q < U64
  {
    var s := pools[h.pool];
    var ri, ro, fee := ReserveIn(s, h.dir), ReserveOut(s, h.dir), EffectiveFee(s.fee);
    EmptySideQuotesZero(ri, amt, fee);
    OutKeepsProduct(ri, ro, amt, fee);
    SwapIff(s, h.dir, amt, min);
    hide Swap, AmountOut;
  }

  /** Whenever a v8 or v9 pool swaps, the client has quoted exactly what it pays. */
  lemma SwapIsQuoted(pools: map<Id, Pool>, h: Hop, amt: nat, min: nat)
    requires h.pool in pools && PoolOk(pools[h.pool]) && (pools[h.pool].version.V8? || pools[h.pool].version.V9?)
    requires Swap(pools[h.pool], h.dir, amt, min).Some?
    ensures QuoteHop(pools, h, amt) == Some(Swap(pools[h.pool], h.dir, amt, min).value.1)
  {
    SwapIff(pools[h.pool], h.dir, amt, min);
    hide AmountOut;
  }

  lemma EmptySideQuotesZero(ri: int, ain: int, fee: int)
    ensures AmountOut(ri, 0, ain, fee) == 0
  {
  }

  /** The approval and the pool call of one hop. */
  function HopCall(w: World, router: Id, h: Hop, amt: nat, min: nat, to: Id, d: nat): Outcome {
    match ApproveCall(w, h.tokenIn, router, h.pool, amt)
    case None => Fault
    case Some(w1) => SwapToCall(w1, h.pool, router, h.dir, amt, min, to, d)
  }

  /** Balances after one hop: amt leaves the router for the pool, q leaves the pool for `to`. */
  ghost predicate HopMoved(w: World, w': World, router: Id, h: Hop, kOut: Id, amt: int, q: int, to: Id) {
    forall k, x :: BalOf(w', k, x) == BalOf(w, k, x)
      + (if k == h.tokenIn then Delta(x, router, h.pool, amt) else 0)
      + (if k == kOut then Delta(x, h.pool, to, q) else 0)
  }

  lemma HopPays(w: World, router: Id, h: Hop, amt: nat, min: nat, to: Id, d: nat)
    requires Core(w) && router in w.routers && to != 0 && !Late(w, d)
    requires QuoteHop(w.pools, h, amt).Some? && HopFits(w.pools[h.pool], h, amt)
    requires amt <= BalOf(w, h.tokenIn, router)
    ensures var s, q, r := w.pools[h.pool], QuoteHop(w.pools, h, amt).value, HopCall(w, router, h, amt, min, to, d);
            && (r.Done? <==> min <= q)
            && 0 < amt && 0 < q < U64
            && (r.Done? ==>
                  && Core(r.w) && Conserves(w, r.w)
                  && r.w.pools == w.pools[h.pool := Swap(s, h.dir, amt, min).value.0]
                  && r.ret == (if s.version.V8? then 0 else q)
                  && HopMoved(w, r.w, router, h, TokenOut(s, h.dir), amt, q, to))
  {
    var s := w.pools[h.pool];
    assert PoolOk(s);
    SwapMatchesQuote(w.pools, h, amt, min);
    BalNonneg(w, h.tokenIn, router);
    ApproveEffect(w, h.tokenIn, router, h.pool, amt);
    var w1 := ApproveCall(w, h.tokenIn, router, h.pool, amt).value;
    SwapDoneIff(w1, h.pool, router, h.dir, amt, min, to, d);
    if min <= QuoteHop(w.pools, h, amt).value {
      SwapEffect(w1, h.pool, router, h.dir, amt, min, to, d);
    }
  }

  lemma HopsUnfold(w: World, router: Id, hops: seq<Hop>, amt: nat, min: nat, to: Id, d: nat)
    requires hops != []
    ensures |hops| == 1 ==> DoHops(w, router, hops, amt, min, to, d) == HopCall(w, router, hops[0], amt, min, to, d)
    ensures |hops| > 1 ==>
              var r := HopCall(w, router, hops[0], amt, 1, router, d);
              DoHops(w, router, hops, amt, min, to, d) ==
                if r.Fault? || r.ret <= 0 then Fault else DoHops(r.w, router, hops[1..], r.ret, min, to, d)
  {
  }

  /** Everything the rest of the route needs to know about an intermediate hop. */
  lemma MiddleHop(w: World, router: Id, hops: seq<Hop>, amt: nat, d: nat) returns (w2: World, out: int)
    requires Core(w) && router in w.routers && router != 0 && !Late(w, d)
    requires |hops| > 1 && DistinctPools(hops) && Routable(w.pools, hops, amt)
    requires amt <= BalOf(w, hops[0].tokenIn, router)
    ensures HopCall(w, router, hops[0], amt, 1, router, d) == Done(w2, out) && 0 < out
    ensures Core(w2) && router in w2.routers && !Late(w2, d)
    ensures DistinctPools(hops[1..]) && Routable(w2.pools, hops[1..], out)
    ensures QuoteRoute(w2.pools, hops[1..], out) == QuoteRoute(w.pools, hops, amt)
    ensures out <= BalOf(w2, hops[1].tokenIn, router)
    ensures HopMoved(w, w2, router, hops[0], hops[1].tokenIn, amt, out, router)
    ensures forall i :: 1 <= i < |hops| && hops[i].pool in w.pools ==>
              hops[i].pool in w2.pools && w2.pools[hops[i].pool] == w.pools[hops[i].pool]
  {
    var h := hops[0];
    RoutablePools(w.pools, hops, amt);
    assert TokensOk(w);
    hide Core, Conserves, HopCall, Swap, QuoteHop, QuoteRoute, DistinctPools, TokensOk;
    HopPays(w, router, h, amt, 1, router, d);
    w2, out := HopCall(w, router, h, amt, 1, router, d).w, QuoteHop(w.pools, h, amt).value;
    RestOfRoute(w.pools, w2.pools, hops, amt, out);
    BalNonneg(w, hops[1].tokenIn, router);
    assert out <= BalOf(w2, hops[1].tokenIn, router);
  }

  /** Trading in the first pool leaves the rest of a route over other pools as it was. */
  lemma RestOfRoute(pools: map<Id, Pool>, pools': map<Id, Pool>, hops: seq<Hop>, amt: int, out: int)
    requires |hops| > 1 && DistinctPools(hops) && Routable(pools, hops, amt) && QuoteHop(pools, hops[0], amt) == Some(out)
    requires forall p :: p != hops[0].pool && p in pools ==> p in pools' && pools'[p] == pools[p]
    ensures DistinctPools(hops[1..]) && Routable(pools', hops[1..], out)
    ensures QuoteRoute(pools', hops[1..], out) == QuoteRoute(pools, hops, amt)
    ensures forall i :: 1 <= i < |hops| && hops[i].pool in pools ==>
              hops[i].pool in pools' && pools'[hops[i].pool] == pools[hops[i].pool]
  {
    assert forall i :: 0 <= i < |hops[1..]| ==> hops[1..][i] == hops[i + 1] && hops[i + 1].pool != hops[0].pool;
    RoutablePools(pools, hops, amt);
    RoutableFrame(pools, pools', hops[1..], out);
    QuoteRouteFrame(pools, pools', hops[1..], out);
  }

  /** Off the path only two balances move: the router's input out, the recipient's output in. */
  ghost predicate RouteMoved(w: World, w': World, hops: seq<Hop>, router: Id, kIn: Id, amt: int, to: Id, kOut: Id, q: int) {
    forall k, x :: !OnPath(hops, x) ==>
      (BalOf(w', k, x) == BalOf(w, k, x) - (if x == router && k == kIn then amt else 0) + (if x == to && k == kOut then q else 0))
  }

  lemma RouteMovedStep(w: World, w1: World, w2: World, hops: seq<Hop>, router: Id, amt: int, out: int, to: Id, kOut: Id, q: int)
    requires |hops| > 1 && HopMoved(w, w1, router, hops[0], hops[1].tokenIn, amt, out, router)
    requires RouteMoved(w1, w2, hops[1..], router, hops[1].tokenIn, out, to, kOut, q)
    ensures RouteMoved(w, w2, hops, router, hops[0].tokenIn, amt, to, kOut, q)
  {
    forall k, x | !OnPath(hops, x)
      ensures BalOf(w2, k, x) == BalOf(w, k, x) - (if x == router && k == hops[0].tokenIn then amt else 0) + (if x == to && k == kOut then q else 0)
    {
      assert hops[0].pool != x;
      assert !OnPath(hops[1..], x) by {
        forall i | 0 <= i < |hops[1..]| ensures hops[1..][i].pool != x { assert hops[1..][i] == hops[i + 1]; }
      }
    }
  }

  /**
   Hop by hop: execution from a state where the router holds the input succeeds
   exactly for minimums up to the chained quote, passes every intermediate output
   on in full, and touches no balance outside the path.
   */
  lemma {:induction false} HopsPayQuote(w: World, router: Id, hops: seq<Hop>, amt: nat, min: nat, to: Id, d: nat)
    requires Core(w) && router in w.routers && router != 0 && to != 0 && !Late(w, d)
    requires hops != [] && DistinctPools(hops) && Routable(w.pools, hops, amt)
    requires amt <= BalOf(w, hops[0].tokenIn, router)
    ensures forall i :: 0 <= i < |hops| ==> hops[i].pool in w.pools
    ensures QuoteRoute(w.pools, hops, amt).Some?
    ensures var q, r := QuoteRoute(w.pools, hops, amt).value, DoHops(w, router, hops, amt, min, to, d);
            && (r.Done? <==> min <= q)
            && (r.Done? ==>
                  && r.ret == (if w.pools[hops[|hops| - 1].pool].version.V8? then 0 else q)
                  && RouteMoved(w, r.w, hops, router, hops[0].tokenIn, amt, to, LastToken(w.pools, hops), q))
    decreases |hops|
  {
    RoutablePools(w.pools, hops, amt);
    HopsUnfold(w, router, hops, amt, min, to, d);
    hide Core, DoHops, HopCall;
    if |hops| == 1 {
      HopPays(w, router, hops[0], amt, min, to, d);
      assert forall x :: !OnPath(hops, x) ==> x != hops[0].pool;
    } else {
      hide Routable, DistinctPools, RouteMoved, HopMoved, QuoteRoute;
      var w2, out := MiddleHop(w, router, hops, amt, d);
      assert hops[1..][0] == hops[1] && hops[1..][|hops[1..]| - 1] == hops[|hops| - 1];
      HopsPayQuote(w2, router, hops[1..], out, min, to, d);
      var r := DoHops(w, router, hops, amt, min, to, d);
      if r.Done? {
        RouteMovedStep(w, w2, r.w, hops, router, amt, out, to, LastToken(w.pools, hops), QuoteRoute(w.pools, hops, amt).value);
      }
    }
  }

  /**
   A quotable, connected route over different pools, funded and approved by its
   signer, goes through exactly for minimums up to the chained quote. It then
   moves ain from the signer and exactly the quote to the recipient; every other
   account off the path, the router included, ends with the balances it had.
   */
  lemma RoutePaysQuote(w: World, router: Id, caller: Id, hops: seq<Hop>, ain: Word, min: Word, to: Id, d: Word)
    requires Inv(w) && IsUser(w, caller) && router in w.routers && to != 0 && !Late(w, d)
    requires 1 <= |hops| <= 4 && DistinctPools(hops) && Routable(w.pools, hops, ain)
    requires 0 < ain <= AllowOf(w, hops[0].tokenIn, caller, router) && ain <= BalOf(w, hops[0].tokenIn, caller)
    ensures QuoteRoute(w.pools, hops, ain).Some? && hops[|hops| - 1].pool in w.pools
    ensures var q, r := QuoteRoute(w.pools, hops, ain).value, Exec(w, RouterSwap(router, caller, hops, ain, min, to, d));
            && (r.Done? <==> min <= q)
            && (r.Done? ==>
                  && r.ret == (if w.pools[hops[|hops| - 1].pool].version.V8? then 0 else q)
                  && RouteMoved(w, r.w, hops, caller, hops[0].tokenIn, ain, to, LastToken(w.pools, hops), q))
  {
    hide *;
    var w1 := FundRouter(w, router, caller, hops[0].tokenIn, ain, d);
    ExecRoutes(w, router, caller, hops, ain, min, to, d, w1);
    HopsPayQuote(w1, router, hops, ain, min, to, d);
    var r := DoHops(w1, router, hops, ain, min, to, d);
    if r.Done? {
      MovedFromSigner(w, w1, r.w, hops, router, caller, hops[0].tokenIn, ain, to, LastToken(w.pools, hops),
                      QuoteRoute(w.pools, hops, ain).value);
    }
  }

  /** The state after the router's pull. */
  lemma FundRouter(w: World, router: Id, caller: Id, k: Id, ain: Word, d: nat) returns (w1: World)
    requires Inv(w) && IsUser(w, caller) && router in w.routers && !Late(w, d)
    requires 0 < ain <= AllowOf(w, k, caller, router) && ain <= BalOf(w, k, caller)
    ensures Pull(w, k, router, caller, ain) == Some(w1)
    ensures Core(w1) && w1.pools == w.pools && w1.routers == w.routers && !Late(w1, d) && router != 0 && router != caller
    ensures Shifted(w, w1, k, caller, router, ain) && ain <= BalOf(w1, k, router)
  {
    PullEffect(w, k, router, caller, ain);
    w1 := Pull(w, k, router, caller, ain).value;
    BalNonneg(w, k, router);
    hide Pull, Conserves, Spares;
  }

  lemma MovedFromSigner(w: World, w1: World, w2: World, hops: seq<Hop>, router: Id, caller: Id, k: Id, ain: int,
                        to: Id, kOut: Id, q: int)
    requires router != caller && Shifted(w, w1, k, caller, router, ain) && RouteMoved(w1, w2, hops, router, k, ain, to, kOut, q)
    ensures RouteMoved(w, w2, hops, caller, k, ain, to, kOut, q)
  {
  }

  lemma ExecRoutes(w: World, router: Id, caller: Id, hops: seq<Hop>, ain: Word, min: Word, to: Id, d: Word, w1: World)
    requires IsUser(w, caller) && router in w.routers && to != 0 && 1 <= |hops| <= 4 && 0 < ain
    requires Pull(w, hops[0].tokenIn, router, caller, ain) == Some(w1)
    ensures Exec(w, RouterSwap(router, caller, hops, ain, min, to, d)) == DoHops(w1, router, hops, ain, min, to, d)
  {
    hide DoHops, Pull;
  }

  // ---- which versions a route can pass through ----

  /** Quotable, connected and within every limit, whatever the pools' versions. */
  predicate RouteFits(pools: map<Id, Pool>, hops: seq<Hop>, amt: int)
    decreases |hops|
  {
    hops != [] ==>
      && QuoteHop(pools, hops[0], amt).Some?
      && HopFits(pools[hops[0].pool], hops[0], amt)
      && (|hops| > 1 ==> TokenOut(pools[hops[0].pool], hops[0].dir) == hops[1].tokenIn)
      && RouteFits(pools, hops[1..], QuoteHop(pools, hops[0], amt).value)
  }

  /** Every hop but the last is on a v9, v10 or v11 pool. */
  predicate MiddleReturns(pools: map<Id, Pool>, hops: seq<Hop>) {
    forall i :: 0 <= i < |hops| - 1 ==>
      hops[i].pool in pools && (pools[hops[i].pool].version.V9? || pools[hops[i].pool].version.V10? || pools[hops[i].pool].version.V11?)
  }

  lemma {:induction false} MiddleMakesRoutable(pools: map<Id, Pool>, hops: seq<Hop>, amt: int)
    requires RouteFits(pools, hops, amt) && MiddleReturns(pools, hops)
    ensures Routable(pools, hops, amt)
    decreases |hops|
  {
    if hops != [] {
      forall i | 0 <= i < |hops[1..]| - 1 ensures hops[1..][i] == hops[i + 1] {
      }
      assert MiddleReturns(pools, hops[1..]);
      MiddleMakesRoutable(pools, hops[1..], QuoteHop(pools, hops[0], amt).value);
    }
  }

  /** A completed hop that returned something is on a pool that returns its output, and pools keep their versions. */
  lemma HopReturned(w: World, router: Id, h: Hop, amt: nat, min: nat, to: Id, d: nat)
    requires Core(w) && router !in w.pools && amt < WORD
    requires HopCall(w, router, h, amt, min, to, d).Done?
    ensures var r := HopCall(w, router, h, amt, min, to, d);
            && (r.ret != 0 ==> h.pool in w.pools && !w.pools[h.pool].version.V8? && r.ret == Swap(w.pools[h.pool], h.dir, amt, min).value.1)
            && (h.pool in w.pools && !w.pools[h.pool].version.V8? ==> Swap(w.pools[h.pool], h.dir, amt, min).Some? && r.ret != 0)
            && Core(r.w) && r.w.pools.Keys == w.pools.Keys && 0 <= r.ret < WORD
            && (forall p :: p in w.pools ==> r.w.pools[p].version == w.pools[p].version)
  {
    if h.pool in w.pools {
      PoolHop(w, router, h, amt, min, to, d);
      HopRet(w, router, h, amt, min, to, d);
      SwapKeepsVersion(w.pools[h.pool], h.dir, amt, min);
    } else {
      NonPoolHop(w, router, h, amt, min, to, d);
      ApproveEffect(w, h.tokenIn, router, h.pool, amt);
      SwapToCallKeeps(ApproveCall(w, h.tokenIn, router, h.pool, amt).value, h.pool, router, h.dir, amt, min, to, d);
    }
    hide Core, Swap, HopCall;
  }

  lemma HopRet(w: World, router: Id, h: Hop, amt: nat, min: nat, to: Id, d: nat)
    requires h.pool in w.pools && HopCall(w, router, h, amt, min, to, d).Done?
    ensures var s := w.pools[h.pool];
            Swap(s, h.dir, amt, min).Some? &&
            HopCall(w, router, h, amt, min, to, d).ret == if s.version.V8? then 0 else Swap(s, h.dir, amt, min).value.1
  {
    hide Swap, Pull, Pay;
  }

  lemma SwapKeepsVersion(s: Pool, dir: nat, ain: nat, min: nat)
    requires Swap(s, dir, ain, min).Some?
    ensures Swap(s, dir, ain, min).value.0.version == s.version
  {
  }

  /** Every completed run of hops, of any shape, returns from every hop but the last; a v8 pool there faults it. */
  lemma {:induction false} MiddleMustReturn(w: World, router: Id, hops: seq<Hop>, amt: nat, min: nat, to: Id, d: nat)
    requires Core(w) && router !in w.pools && amt < WORD && hops != []
    requires DoHops(w, router, hops, amt, min, to, d).Done?
    ensures MiddleReturns(w.pools, hops)
    decreases |hops|
  {
    hide *;
    if |hops| == 1 {
      NoMiddle(w.pools, hops);
    } else {
      HopsUnfold(w, router, hops, amt, min, to, d);
      HopReturned(w, router, hops[0], amt, 1, router, d);
      var r := HopCall(w, router, hops[0], amt, 1, router, d);
      assert router !in r.w.pools.Keys;
      MiddleMustReturn(r.w, router, hops[1..], r.ret, min, to, d);
      MiddleExtends(w.pools, r.w.pools, hops);
    }
  }

  lemma NoMiddle(pools: map<Id, Pool>, hops: seq<Hop>)
    requires |hops| == 1
    ensures MiddleReturns(pools, hops)
  {
  }

  lemma MiddleExtends(pools: map<Id, Pool>, pools': map<Id, Pool>, hops: seq<Hop>)
    requires |hops| > 1 && hops[0].pool in pools && !pools[hops[0].pool].version.V8?
    requires pools'.Keys == pools.Keys && forall p :: p in pools ==> pools'[p].version == pools[p].version
    requires MiddleReturns(pools', hops[1..])
    ensures MiddleReturns(pools, hops)
  {
    forall i | 0 <= i < |hops| - 1
      ensures hops[i].pool in pools && !pools[hops[i].pool].version.V8?
    {
      if i > 0 { assert hops[1..][i - 1] == hops[i] && hops[i].pool in pools'.Keys; }
    }
  }

  /**
   A funded, approved, connected and quotable route over different pools goes
   through exactly when it has at most four hops, every hop but the last is on a
   v9, v10 or v11 pool, and the minimum is at most the chained quote. It pays the
   quote, and returns it unless the last pool is v8, which returns nothing.
   */
  lemma RouteRunsIff(w: World, router: Id, caller: Id, hops: seq<Hop>, ain: Word, min: Word, to: Id, d: Word)
    requires Inv(w) && IsUser(w, caller) && router in w.routers && to != 0 && !Late(w, d)
    requires hops != [] && DistinctPools(hops) && RouteFits(w.pools, hops, ain)
    requires 0 < ain <= AllowOf(w, hops[0].tokenIn, caller, router) && ain <= BalOf(w, hops[0].tokenIn, caller)
    ensures QuoteRoute(w.pools, hops, ain).Some? && hops[|hops| - 1].pool in w.pools
    ensures var q, r := QuoteRoute(w.pools, hops, ain).value, Exec(w, RouterSwap(router, caller, hops, ain, min, to, d));
            && (r.Done? <==> |hops| <= 4 && MiddleReturns(w.pools, hops) && min <= q)
            && (r.Done? ==>
                  && r.ret == (match w.pools[hops[|hops| - 1].pool].version
                               case V8 => 0 case V9 => q case V10 => q case V11 => q)
                  && RouteMoved(w, r.w, hops, caller, hops[0].tokenIn, ain, to, LastToken(w.pools, hops), q))
  {
    FittingRouteIsQuoted(w.pools, hops, ain);
    hide Inv, Exec, RouteFits, Routable, QuoteRoute, DistinctPools, RouteMoved, Late;
    if |hops| <= 4 && MiddleReturns(w.pools, hops) {
      MiddleMakesRoutable(w.pools, hops, ain);
      RoutePaysQuote(w, router, caller, hops, ain, min, to, d);
    }
    if Exec(w, RouterSwap(router, caller, hops, ain, min, to, d)).Done? {
      RouteUnfolds(w, router, caller, hops, ain, min, to, d);
      var w1 := RoutePulls(w, router, caller, hops, ain);
      MiddleMustReturn(w1, router, hops, ain, min, to, d);
    }
  }

  lemma {:induction false} FittingRouteIsQuoted(pools: map<Id, Pool>, hops: seq<Hop>, amt: int)
    requires RouteFits(pools, hops, amt)
    ensures QuoteRoute(pools, hops, amt).Some?
    ensures forall i :: 0 <= i < |hops| ==> hops[i].pool in pools
    decreases |hops|
  {
    if hops != [] {
      FittingRouteIsQuoted(pools, hops[1..], QuoteHop(pools, hops[0], amt).value);
      forall i | 0 <= i < |hops| ensures hops[i].pool in pools {
        if i > 0 { assert hops[1..][i - 1] == hops[i]; }
      }
    }
  }

  /** A swap signed directly returns its output, except from a v8 pool. */
  lemma SwapReturns(w: World, p: Id, caller: Id, dir: Word, ain: Word, min: Word, to: Id, d: Word)
    requires Exec(w, PoolSwap(p, caller, dir, ain, min, to, d)).Done?
    ensures p in w.pools && Swap(w.pools[p], dir, ain, min).Some?
    ensures Exec(w, PoolSwap(p, caller, dir, ain, min, to, d)).ret ==
            match w.pools[p].version
            case V8 => 0
            case V9 => Swap(w.pools[p], dir, ain, min).value.1
            case V10 => Swap(w.pools[p], dir, ain, min).value.1
            case V11 => Swap(w.pools[p], dir, ain, min).value.1
  {
    hide Swap, Pull, Pay;
  }

  // ---- routes of any shape ----

  ghost predicate NoAllowance(w: World, owner: Id) {
    forall k, s :: AllowOf(w, k, owner, s) == 0
  }

  /** What an account holds beyond what it owes: for a pool, its balance above the reserve on record. */
  function Spare(w: World, k: Id, x: Id): int {
    BalOf(w, k, x) - if x in w.pools then Owed(w.pools[x], k) else 0
  }

  /** Nobody's spare holdings change but the router's, by amt of kIn, and the recipient's, by out of kOut. */
  ghost predicate OnlyPaid(w: World, w': World, router: Id, kIn: Id, amt: int, to: Id, kOut: Id, out: int) {
    forall k, x :: Spare(w', k, x) ==
      Spare(w, k, x) - (if x == router && k == kIn then amt else 0) + (if x == to && k == kOut then out else 0)
  }

  /** A pool hop that goes through pays `to` at least its minimum and spends the approval just made for it, all of it. */
  lemma PoolHop(w: World, router: Id, h: Hop, amt: nat, min: nat, to: Id, d: nat)
    requires Core(w) && router !in w.pools && amt < WORD && h.pool in w.pools
    requires HopCall(w, router, h, amt, min, to, d).Done?
    ensures Swap(w.pools[h.pool], h.dir, amt, min).Some?
    ensures var s, r := w.pools[h.pool], HopCall(w, router, h, amt, min, to, d);
            var out := Swap(s, h.dir, amt, min).value.1;
            && Core(r.w) && r.w.routers == w.routers && 0 <= r.ret < WORD && 0 < out && min <= out
            && r.w.pools == w.pools[h.pool := Swap(s, h.dir, amt, min).value.0]
            && (NoAllowance(w, router) ==> NoAllowance(r.w, router))
            && OnlyPaid(w, r.w, router, TokenIn(s, h.dir), amt, to, TokenOut(s, h.dir), out)
  {
    WidthOrder();
    var s := w.pools[h.pool];
    assert PoolOk(s);
    ApproveEffect(w, h.tokenIn, router, h.pool, amt);
    var w1 := ApproveCall(w, h.tokenIn, router, h.pool, amt).value;
    SwapEffect(w1, h.pool, router, h.dir, amt, min, to, d);
    SwapTrades(s, h.dir, amt, min);
    var r := HopCall(w, router, h, amt, min, to, d);
    hide HopCall, Core, ApproveCall, Conserves, Spares;
    if NoAllowance(w, router) {
      assert AllowOf(w, TokenIn(s, h.dir), router, h.pool) == 0;
      forall k, z ensures AllowOf(r.w, k, router, z) == 0 {
        assert AllowOf(w, k, router, z) == 0;
      }
    }
    SwapSpares(w, w1, r.w, router, h, amt, min, to);
  }

  /** What a swap pulls is added to the record and what it pays is taken off it. */
  lemma SwapSpares(w: World, w1: World, w': World, router: Id, h: Hop, amt: nat, min: nat, to: Id)
    requires h.pool in w.pools && router !in w.pools && Swap(w.pools[h.pool], h.dir, amt, min).Some?
    requires var s := w.pools[h.pool]; s.tokenA != s.tokenB && TokenIn(s, h.dir) != TokenOut(s, h.dir)
    requires var s, r := w.pools[h.pool], Swap(w.pools[h.pool], h.dir, amt, min).value;
             && w'.pools == w.pools[h.pool := r.0]
             && (forall k, x :: BalOf(w1, k, x) == BalOf(w, k, x))
             && (forall k, x :: BalOf(w', k, x) == BalOf(w1, k, x)
                   + (if k == TokenIn(s, h.dir) then Delta(x, router, h.pool, amt) else 0)
                   + (if k == TokenOut(s, h.dir) then Delta(x, h.pool, to, r.1) else 0))
    ensures var s := w.pools[h.pool];
            OnlyPaid(w, w', router, TokenIn(s, h.dir), amt, to, TokenOut(s, h.dir), Swap(s, h.dir, amt, min).value.1)
  {
    var s, r := w.pools[h.pool], Swap(w.pools[h.pool], h.dir, amt, min).value;
    RecordFollows(s, h.dir, amt, min);
    hide Swap, BalOf, Owed;
  }

  lemma RecordFollows(s: Pool, dir: nat, amt: nat, min: nat)
    requires s.tokenA != s.tokenB && Swap(s, dir, amt, min).Some?
    ensures var r := Swap(s, dir, amt, min).value;
            forall k :: Owed(r.0, k) == Owed(s, k) + (if k == TokenIn(s, dir) then amt else 0) - (if k == TokenOut(s, dir) then r.1 else 0)
  {
    hide AfterFee;
  }

  /** A hop that names no pool and still goes through moves nothing and returns 0. */
  lemma NonPoolHop(w: World, router: Id, h: Hop, amt: nat, min: nat, to: Id, d: nat)
    requires Core(w) && router !in w.pools && amt < WORD && h.pool !in w.pools
    requires HopCall(w, router, h, amt, min, to, d).Done?
    ensures var r := HopCall(w, router, h, amt, min, to, d);
            && r.ret == 0 && r.w.pools == w.pools
            && forall k, x :: Spare(r.w, k, x) == Spare(w, k, x)
  {
    ApproveEffect(w, h.tokenIn, router, h.pool, amt);
  }

  /** The state in which a route starts its last hop, and the amount it starts it with. */
  function BeforeLast(w: World, router: Id, hops: seq<Hop>, amt: int, d: nat): (World, int)
    requires hops != []
    decreases |hops|
  {
    if |hops| == 1 || amt < 0 then (w, amt)
    else
      match HopCall(w, router, hops[0], amt, 1, router, d)
      case Fault => (w, amt)
      case Done(w1, out) => BeforeLast(w1, router, hops[1..], out, d)
  }

  /**
   Every completed run of hops, connected or not, with or without repeated pools:
   all hops but the last name pools, they leave everyone's spare holdings alone
   but the router's, and the run ends with the last hop.
   */
  lemma {:induction false} HopsOutcome(w: World, router: Id, hops: seq<Hop>, amt: nat, min: nat, to: Id, d: nat)
    requires Core(w) && router !in w.pools && amt < WORD && hops != []
    requires DoHops(w, router, hops, amt, min, to, d).Done?
    ensures var (w2, amt2) := BeforeLast(w, router, hops, amt, d);
            var last := hops[|hops| - 1];
            && (forall i :: 0 <= i < |hops| - 1 ==> hops[i].pool in w.pools)
            && Core(w2) && w2.pools.Keys == w.pools.Keys && 0 <= amt2 < WORD
            && (forall k, x :: x != router ==> Spare(w2, k, x) == Spare(w, k, x))
            && (NoAllowance(w, router) ==> NoAllowance(w2, router))
            && (last.pool in w.pools ==> TokenOut(w2.pools[last.pool], last.dir) == TokenOut(w.pools[last.pool], last.dir))
            && DoHops(w, router, hops, amt, min, to, d) == HopCall(w2, router, last, amt2, min, to, d)
    decreases |hops|
  {
    HopsUnfold(w, router, hops, amt, min, to, d);
    if |hops| > 1 {
      var r := HopCall(w, router, hops[0], amt, 1, router, d);
      assert BeforeLast(w, router, hops, amt, d) == BeforeLast(r.w, router, hops[1..], r.ret, d);
      hide *;
      if hops[0].pool !in w.pools {
        NonPoolHop(w, router, hops[0], amt, 1, router, d);
        assert false;
      }
      PoolHop(w, router, hops[0], amt, 1, router, d);
      PairKept(w, r.w, hops, amt);
      HopsOutcome(r.w, router, hops[1..], r.ret, min, to, d);
      HopsOutcomeStep(w, r.w, router, hops, amt, d);
    }
  }

  /** A swap keeps the pools and their pairs, so the rest of a route sees the same last hop. */
  lemma PairKept(w: World, w1: World, hops: seq<Hop>, amt: nat)
    requires |hops| > 1 && hops[0].pool in w.pools && Swap(w.pools[hops[0].pool], hops[0].dir, amt, 1).Some?
    requires w1.pools == w.pools[hops[0].pool := Swap(w.pools[hops[0].pool], hops[0].dir, amt, 1).value.0]
    ensures w1.pools.Keys == w.pools.Keys && hops[1..] != [] && hops[1..][|hops[1..]| - 1] == hops[|hops| - 1]
    ensures forall p, dir :: p in w.pools ==> TokenOut(w1.pools[p], dir) == TokenOut(w.pools[p], dir)
  {
    SwapKeepsTokens(w.pools[hops[0].pool], hops[0].dir, amt, 1);
  }

  lemma SwapKeepsTokens(s: Pool, dir: nat, ain: nat, min: nat)
    requires Swap(s, dir, ain, min).Some?
    ensures var s' := Swap(s, dir, ain, min).value.0;
            forall d :: TokenOut(s', d) == TokenOut(s, d)
  {
  }

  lemma HopsOutcomeStep(w: World, w1: World, router: Id, hops: seq<Hop>, amt: nat, d: nat)
    requires |hops| > 1 && hops[0].pool in w.pools && w1.pools.Keys == w.pools.Keys
    requires Swap(w.pools[hops[0].pool], hops[0].dir, amt, 1).Some?
    requires var s := w.pools[hops[0].pool];
             OnlyPaid(w, w1, router, TokenIn(s, hops[0].dir), amt, router, TokenOut(s, hops[0].dir), Swap(s, hops[0].dir, amt, 1).value.1)
    requires forall i :: 0 <= i < |hops[1..]| - 1 ==> hops[1..][i].pool in w1.pools
    ensures forall i :: 0 <= i < |hops| - 1 ==> hops[i].pool in w.pools
    ensures forall k, x :: x != router ==> Spare(w1, k, x) == Spare(w, k, x)
  {
    hide Swap, Spare;
    forall i | 0 <= i < |hops| - 1 ensures hops[i].pool in w.pools {
      if i > 0 { assert hops[1..][i - 1] == hops[i] && hops[i].pool in w1.pools.Keys; }
    }
  }

  /** Between two states x has gained at least min, and something, of token k. */
  predicate Honoured(w: World, w': World, k: Id, x: Id, min: int) {
    var gained := Spare(w', k, x) - Spare(w, k, x);
    0 < gained && min <= gained
  }

  /** The state in which a whole route starts its last hop. */
  function RouteBeforeLast(w: World, router: Id, caller: Id, hops: seq<Hop>, ain: nat, d: nat): World
    requires hops != []
  {
    match Pull(w, hops[0].tokenIn, router, caller, ain)
    case None => w
    case Some(w1) => BeforeLast(w1, router, hops, ain, d).0
  }

  /**
   The minimum of a completed route, whoever its recipient is, is honoured exactly
   when its last hop names a pool: then that hop pays the recipient at least the
   minimum of the pool's output token, and the router keeps no allowance;
   otherwise it pays nobody anything. The hops before it, and the pull of the
   input from the signer, give no one but the router anything.
   */
  lemma RouteHonoursMinimumIff(w: World, router: Id, caller: Id, hops: seq<Hop>, ain: Word, min: Word, to: Id, d: Word)
    requires Inv(w) && Exec(w, RouterSwap(router, caller, hops, ain, min, to, d)).Done?
    ensures hops != []
    ensures var w', w2, last := Exec(w, RouterSwap(router, caller, hops, ain, min, to, d)).w,
                                RouteBeforeLast(w, router, caller, hops, ain, d), hops[|hops| - 1];
            && ((exists k :: Honoured(w2, w', k, to, min)) <==> last.pool in w.pools)
            && (last.pool in w.pools ==>
                  && Honoured(w2, w', LastToken(w.pools, hops), to, min)
                  && (NoAllowance(w, router) ==> NoAllowance(w', router)))
            && (last.pool !in w.pools ==> forall k, x :: Spare(w', k, x) == Spare(w2, k, x))
            && (forall k, x :: x != router ==> Spare(w2, k, x) == Spare(w, k, x) - if x == caller && k == hops[0].tokenIn then ain else 0)
  {
    hide *;
    RouteUnfolds(w, router, caller, hops, ain, min, to, d);
    var w1 := RoutePulls(w, router, caller, hops, ain);
    HopsOutcome(w1, router, hops, ain, min, to, d);
    RouteStart(w, w1, router, caller, hops, ain, d);
    var (w2, amt2) := BeforeLast(w1, router, hops, ain, d);
    assert router !in w2.pools.Keys;
    LastHopPays(w2, router, hops[|hops| - 1], amt2, min, to, d);
    LastTokenIs(w.pools, hops);
  }

  lemma LastTokenIs(pools: map<Id, Pool>, hops: seq<Hop>)
    requires hops != []
    ensures var last := hops[|hops| - 1]; last.pool in pools ==> LastToken(pools, hops) == TokenOut(pools[last.pool], last.dir)
  {
  }

  /** The state the hops start from. */
  lemma RoutePulls(w: World, router: Id, caller: Id, hops: seq<Hop>, ain: Word) returns (w1: World)
    requires Inv(w) && IsUser(w, caller) && router in w.routers && hops != []
    requires Pull(w, hops[0].tokenIn, router, caller, ain).Some?
    ensures Pull(w, hops[0].tokenIn, router, caller, ain) == Some(w1)
    ensures Core(w1) && router !in w1.pools && w1.pools == w.pools
    ensures NoAllowance(w, router) ==> NoAllowance(w1, router)
    ensures forall k, x :: x != router ==> Spare(w1, k, x) == Spare(w, k, x) - if x == caller && k == hops[0].tokenIn then ain else 0
  {
    PullEffect(w, hops[0].tokenIn, router, caller, ain);
    w1 := Pull(w, hops[0].tokenIn, router, caller, ain).value;
    hide Pull, Conserves, Spares, TokensOk, PoolsOk, Shut, Solvent;
    if NoAllowance(w, router) {
      forall k, z ensures AllowOf(w1, k, router, z) == 0 { assert AllowOf(w, k, router, z) == 0; }
    }
  }

  lemma RouteStart(w: World, w1: World, router: Id, caller: Id, hops: seq<Hop>, ain: nat, d: nat)
    requires hops != [] && Pull(w, hops[0].tokenIn, router, caller, ain) == Some(w1)
    ensures RouteBeforeLast(w, router, caller, hops, ain, d) == BeforeLast(w1, router, hops, ain, d).0
  {
    hide Pull, BeforeLast;
  }

  /** What one completed hop pays, to whom, and when. */
  lemma LastHopPays(w: World, router: Id, h: Hop, amt: nat, min: nat, to: Id, d: nat)
    requires Core(w) && router !in w.pools && amt < WORD && HopCall(w, router, h, amt, min, to, d).Done?
    ensures var w' := HopCall(w, router, h, amt, min, to, d).w;
            && ((exists k :: Honoured(w, w', k, to, min)) <==> h.pool in w.pools)
            && (h.pool in w.pools ==>
                  && Honoured(w, w', TokenOut(w.pools[h.pool], h.dir), to, min)
                  && (NoAllowance(w, router) ==> NoAllowance(w', router)))
            && (h.pool !in w.pools ==> forall k, x :: Spare(w', k, x) == Spare(w, k, x))
  {
    hide HopCall, Swap, Spare, TokensOk, Shut, Solvent, PoolOk;
    if h.pool in w.pools {
      PoolHop(w, router, h, amt, min, to, d);
      assert PoolOk(w.pools[h.pool]);
      OnlyRouterPays(w, HopCall(w, router, h, amt, min, to, d).w, router, h, amt, min, to);
      assert Honoured(w, HopCall(w, router, h, amt, min, to, d).w, TokenOut(w.pools[h.pool], h.dir), to, min);
    } else {
      NonPoolHop(w, router, h, amt, min, to, d);
    }
  }

  lemma OnlyRouterPays(w: World, w': World, router: Id, h: Hop, amt: nat, min: nat, to: Id)
    requires h.pool in w.pools && Swap(w.pools[h.pool], h.dir, amt, min).Some? && PoolOk(w.pools[h.pool])
    requires var s := w.pools[h.pool];
             OnlyPaid(w, w', router, TokenIn(s, h.dir), amt, to, TokenOut(s, h.dir), Swap(s, h.dir, amt, min).value.1)
    ensures var s := w.pools[h.pool]; var k := TokenOut(s, h.dir);
            Spare(w', k, to) - Spare(w, k, to) == Swap(s, h.dir, amt, min).value.1
  {
    hide Spare;
  }

  lemma RouteUnfolds(w: World, router: Id, caller: Id, hops: seq<Hop>, ain: Word, min: Word, to: Id, d: Word)
    requires Exec(w, RouterSwap(router, caller, hops, ain, min, to, d)).Done?
    ensures IsUser(w, caller) && router in w.routers && 1 <= |hops| <= 4 && 0 < ain && to != 0
    ensures Pull(w, hops[0].tokenIn, router, caller, ain).Some?
    ensures Exec(w, RouterSwap(router, caller, hops, ain, min, to, d))
            == DoHops(Pull(w, hops[0].tokenIn, router, caller, ain).value, router, hops, ain, min, to, d)
  {
    hide DoHops, Pull;
  }

  /**
   Such routes exist: a last hop to an account without code, or to a token, goes
   through for every minimum. It pays no one and leaves the input with the router
   and an allowance on it to that account.
   */
  lemma NonPoolHopGoesThrough(w: World, router: Id, caller: Id, h: Hop, ain: Word, min: Word, to: Id, d: Word)
    requires Inv(w) && IsUser(w, caller) && router in w.routers && to != 0
    requires h.pool in w.tokens || !IsContract(w, h.pool)
    requires 0 < ain <= AllowOf(w, h.tokenIn, caller, router) && ain <= BalOf(w, h.tokenIn, caller)
    ensures var r := Exec(w, RouterSwap(router, caller, [h], ain, min, to, d));
            && r.Done? && r.ret == 0
            && Shifted(w, r.w, h.tokenIn, caller, router, ain)
            && AllowOf(r.w, h.tokenIn, router, h.pool) == ain
            && r.w.pools == w.pools
  {
    hide Core, Exec, DoHops, HopCall, Conserves, Spares;
    PullEffect(w, h.tokenIn, router, caller, ain);
    var w1 := Pull(w, h.tokenIn, router, caller, ain).value;
    InvIds(w, router);
    ExecRoutes(w, router, caller, [h], ain, min, to, d, w1);
    HopsUnfold(w1, router, [h], ain, min, to, d);
    NonPoolHopDone(w1, router, h, ain, min, to, d);
  }

  lemma InvIds(w: World, router: Id)
    requires Inv(w) && router in w.routers
    ensures Core(w) && router !in w.pools && (forall x :: IsUser(w, x) ==> x !in w.pools && x != router)
  {
  }

  lemma NonPoolHopDone(w: World, router: Id, h: Hop, amt: Word, min: nat, to: Id, d: nat)
    requires Core(w) && router !in w.pools && h.tokenIn in w.tokens
    requires h.pool in w.tokens || !IsContract(w, h.pool)
    ensures var r := HopCall(w, router, h, amt, min, to, d);
            && r.Done? && r.ret == 0 && AllowOf(r.w, h.tokenIn, router, h.pool) == amt && r.w.pools == w.pools
            && forall k, x :: BalOf(r.w, k, x) == BalOf(w, k, x)
  {
    ApproveEffect(w, h.tokenIn, router, h.pool, amt);
  }

  // ---- the client's path check ----

  function HopOf(h: RouteHop): Hop { Hop(h.pool, h.dir, h.tokenIn) }

  function HopsOf(hops: seq<RouteHop>): (r: seq<Hop>)
    ensures |r| == |hops| && forall i :: 0 <= i < |hops| ==> r[i] == HopOf(hops[i])
  {
    if hops == [] then [] else [HopOf(hops[0])] + HopsOf(hops[1..])
  }

  /** Each hop carries the pair of a live, configured pool, as the client resolves it. */
  predicate Resolved(pools: map<Id, Pool>, hops: seq<RouteHop>) {
    forall i :: 0 <= i < |hops| ==>
      && hops[i].pool in pools && pools[hops[i].pool].configured && hops[i].dir <= 1
      && hops[i] == ResolveHop(hops[i].pool, hops[i].dir, pools[hops[i].pool].tokenA, pools[hops[i].pool].tokenB)
  }

  /** The amounts along the quote stay below each pool's limit, and every pool but the last returns its output. */
  predicate WithinLimits(pools: map<Id, Pool>, hops: seq<Hop>, amt: int)
    decreases |hops|
  {
    hops != [] && QuoteHop(pools, hops[0], amt).Some? ==>
      && ReserveIn(pools[hops[0].pool], hops[0].dir) + amt <
         (if pools[hops[0].pool].version.V8? || pools[hops[0].pool].version.V9? then U64 else U128)
      && (|hops| > 1 ==> !pools[hops[0].pool].version.V8?)
      && WithinLimits(pools, hops[1..], QuoteHop(pools, hops[0], amt).value)
  }

  /** A resolved route can be executed at its quote exactly when it passes the path check, can be quoted and stays within limits. */
  lemma {:induction false} RoutableIff(pools: map<Id, Pool>, hops: seq<RouteHop>, amt: int)
    requires Resolved(pools, hops)
    ensures Routable(pools, HopsOf(hops), amt) <==>
            PathConnected(hops) && QuoteRoute(pools, HopsOf(hops), amt).Some? && WithinLimits(pools, HopsOf(hops), amt)
    decreases |hops|
  {
    if hops != [] {
      var q := QuoteHop(pools, HopOf(hops[0]), amt);
      assert HopsOf(hops)[1..] == HopsOf(hops[1..]);
      if q.Some? { RoutableIff(pools, hops[1..], q.value); }
      ConnectedTail(hops);
    }
  }

  lemma ConnectedTail(hops: seq<RouteHop>)
    requires hops != []
    ensures PathConnected(hops) <==> PathConnected(hops[1..]) && (|hops| > 1 ==> hops[0].tokenOut == hops[1].tokenIn)
  {
    if PathConnected(hops[1..]) && (|hops| > 1 ==> hops[0].tokenOut == hops[1].tokenIn) {
      forall i | 0 <= i < |hops| - 1 ensures hops[i].tokenOut == hops[i + 1].tokenIn {
        if i > 0 { assert hops[1..][i - 1] == hops[i] && hops[1..][i] == hops[i + 1]; }
      }
    }
    if PathConnected(hops) {
      forall i | 0 <= i < |hops[1..]| - 1 ensures hops[1..][i].tokenOut == hops[1..][i + 1].tokenIn {
        assert hops[i + 1].tokenOut == hops[i + 2].tokenIn;
      }
    }
  }
}
