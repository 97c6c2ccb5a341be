/**
 Router routes of any shape keep module Safety's invariant: the pools trade, and
 nobody but the caller, the router and the pools can lose tokens.
 */
module Routes {
  import opened Words
  import opened Options
  import opened Balances
  import opened Quotes
  import opened Curve
  import opened World
  import opened Safety
  import T = Tokens

  lemma TouchEffect(w: World, k: Id, caller: Id)
    requires Core(w) && k in w.tokens
    ensures var w' := WithToken(w, k, T.Touch(w.tokens[k], caller));
            Core(w') && Conserves(w, w') && Spares(w, w', {})
  {
    var t := T.Touch(w.tokens[k], caller);
    forall p, s | p in w.pools ensures T.Allow(t, p, s) == 0 {
      assert AllowOf(w, k, p, s) == 0;
    }
    assert T.Moved(w.tokens[k], t, caller, caller, 0);
    TokenUpdateKeeps(w, k, t, caller, caller, 0);
  }

  /** From s to s' only trades happened: same supply and holders, product no smaller. */
  ghost predicate Traded(s: Pool, s': Pool) {
    s' == s.(ra := s'.ra, rb := s'.rb) && s.ra * s.rb <= s'.ra * s'.rb
  }

  ghost predicate AllTraded(w: World, w': World)
    requires w'.pools.Keys == w.pools.Keys
  {
    forall p :: p in w.pools ==> Traded(w.pools[p], w'.pools[p])
  }

  lemma SwapTrades(s: Pool, dir: nat, ain: nat, min: nat)
    requires PoolOk(s) && Swap(s, dir, ain, min).Some?
    ensures Traded(s, Swap(s, dir, ain, min).value.0)
    ensures 0 < Swap(s, dir, ain, min).value.1 < U128
  {
    WidthOrder();
    SwapOut(s, dir, ain, min);
    MulCommutes(ReserveIn(s, dir) + ain, ReserveOut(s, dir) - Swap(s, dir, ain, min).value.1);
  }

  ghost predicate Routed(w: World, w': World, S: set<Id>) {
    Core(w') && Conserves(w, w') && Spares(w, w', S) && w'.vaults == w.vaults && AllTraded(w, w')
  }

  lemma SwapToCallKeeps(w: World, target: Id, router: Id, dir: nat, ain: nat, min: nat, to: Id, d: nat)
    requires Core(w) && router !in w.pools && SwapToCall(w, target, router, dir, ain, min, to, d).Done?
    ensures var r := SwapToCall(w, target, router, dir, ain, min, to, d);
            Routed(w, r.w, {router} + w.pools.Keys) && 0 <= r.ret < U128
  {
    if target in w.pools {
      assert PoolOk(w.pools[target]);
      SwapEffect(w, target, router, dir, ain, min, to, d);
      SwapTrades(w.pools[target], dir, ain, min);
    } else if target in w.tokens {
      TouchEffect(w, target, router);
    }
  }

  lemma {:induction false} HopsKeep(w: World, router: Id, hops: seq<Hop>, amt: nat, min: nat, to: Id, d: nat)
    requires Core(w) && router !in w.pools && |hops| >= 1 && amt < WORD
    requires DoHops(w, router, hops, amt, min, to, d).Done?
    ensures Routed(w, DoHops(w, router, hops, amt, min, to, d).w, {router} + w.pools.Keys)
    decreases |hops|
  {
    WidthOrder();
    var h, last := hops[0], |hops| == 1;
    ApproveEffect(w, h.tokenIn, router, h.pool, amt);
    var w1 := ApproveCall(w, h.tokenIn, router, h.pool, amt).value;
    var min1, to1 := if last then min else 1, if last then to else router;
    SwapToCallKeeps(w1, h.pool, router, h.dir, amt, min1, to1, d);
    var r := SwapToCall(w1, h.pool, router, h.dir, amt, min1, to1, d);
    if !last {
      HopsKeep(r.w, router, hops[1..], r.ret, min, to, d);
    }
  }

  lemma RouteKeeps(w: World, router: Id, caller: Id, hops: seq<Hop>, ain: nat, min: nat, to: Id, d: nat)
    requires Core(w) && IsUser(w, caller) && ain < WORD && DoRoute(w, router, caller, hops, ain, min, to, d).Done?
    ensures Routed(w, DoRoute(w, router, caller, hops, ain, min, to, d).w, {caller, router} + w.pools.Keys)
  {
    PullEffect(w, hops[0].tokenIn, router, caller, ain);
    HopsKeep(Pull(w, hops[0].tokenIn, router, caller, ain).value, router, hops, ain, min, to, d);
  }
}
