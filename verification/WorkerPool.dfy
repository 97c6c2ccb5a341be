/**
 Mapping a list with at most `limit` calls in flight: workers that share one
 counter and one result array, stepped in any order. Between two steps of a worker
 any other worker may run. A call's outcome is a function of item and index: each
 index is called once, so nothing is lost by that. Throws and aborts are not
 modelled.
 */
module WorkerPool {
  import opened Options

  /** Ready: about to claim. Busy: awaiting the call for idx. Finished: returned. */
  datatype Worker = Ready | Busy(idx: nat) | Finished

  /** claims logs the index each call was made for, in order of claiming. */
  datatype State<R> = State(next: nat, results: seq<Option<R>>, workers: seq<Worker>, claims: seq<nat>)

  function Start<R>(n: nat, workers: nat): State<R> {
    State(0, seq(n, _ => None), seq(workers, _ => Ready), [])
  }

  predicate Enabled<R>(s: State<R>, k: nat) {
    k < |s.workers| && !s.workers[k].Finished?
  }

  /**
   Worker k takes one step: it claims the next index, or stores the result it
   awaited. The program does not suspend between storing and the next claim;
   splitting the two lets other workers in between, so every schedule of the
   program is one of these, and so are more.
   */
  function Step<R>(s: State<R>, k: nat, outcome: seq<R>): State<R>
    requires Enabled(s, k)
  {
    match s.workers[k]
    case Ready =>
      if s.next >= |s.results| then s.(next := s.next + 1, workers := s.workers[k := Finished])
      else s.(next := s.next + 1, workers := s.workers[k := Busy(s.next)], claims := s.claims + [s.next])
    case Busy(i) =>
      s.(results := if i < |s.results| && i < |outcome| then s.results[i := Some(outcome[i])] else s.results,
         workers := s.workers[k := Ready])
  }

  // ---- invariant ----

  ghost predicate Serves<R>(s: State<R>, k: nat, i: nat) {
    k < |s.workers| && s.workers[k] == Busy(i)
  }

  ghost predicate Inv<R>(s: State<R>, outcome: seq<R>) {
    var n := |s.results|;
    && |outcome| == n
    // claims are 0, 1, 2, ... : every index is called by exactly one worker
    && |s.claims| == (if s.next < n then s.next else n)
    && (forall j :: 0 <= j < |s.claims| ==> s.claims[j] == j)
    // a call in flight is for a claimed index without a result, and is the only one for it
    && (forall k: nat, i: nat :: Serves(s, k, i) ==> i < |s.claims| && s.results[i] == None)
    && (forall k: nat, l: nat, i: nat :: Serves(s, k, i) && Serves(s, l, i) ==> k == l)
    // a claimed index is in flight or has its outcome; an unclaimed one has none
    && (forall i :: 0 <= i < |s.claims| ==> s.results[i] == Some(outcome[i]) || (s.results[i] == None && exists k: nat :: Serves(s, k, i)))
    && (forall i :: |s.claims| <= i < n ==> s.results[i] == None)
    // a worker stops only when nothing is left to claim
    && (forall k :: 0 <= k < |s.workers| && s.workers[k].Finished? ==> n <= s.next)
  }

  lemma StartInv<R>(n: nat, workers: nat, outcome: seq<R>)
    requires |outcome| == n
    ensures Inv(Start<R>(n, workers), outcome)
  {
  }

  lemma ClaimKeeps<R>(s: State<R>, k: nat, outcome: seq<R>)
    requires Inv(s, outcome) && Enabled(s, k) && s.workers[k].Ready?
    ensures Inv(Step(s, k, outcome), outcome)
  {
    var s', n := Step(s, k, outcome), |s.results|;
    assert forall l: nat, i: nat :: Serves(s, l, i) ==> l != k && Serves(s', l, i);
    assert forall l: nat, i: nat :: Serves(s', l, i) ==> Serves(s, l, i) || (l == k && i == s.next && s.next < n);
    forall i | 0 <= i < |s'.claims| ensures s'.results[i] == Some(outcome[i]) || (s'.results[i] == None && exists l: nat :: Serves(s', l, i)) {
      if i < |s.claims| {
        if s.results[i] == None {
          var l :| Serves(s, l, i);
          assert Serves(s', l, i);
        }
      } else {
        assert Serves(s', k, i);
      }
    }
  }

  lemma CompleteKeeps<R>(s: State<R>, k: nat, outcome: seq<R>)
    requires Inv(s, outcome) && Enabled(s, k) && s.workers[k].Busy?
    ensures Inv(Step(s, k, outcome), outcome)
  {
    var s', i0 := Step(s, k, outcome), s.workers[k].idx;
    assert Serves(s, k, i0);
    assert forall l: nat, i: nat :: Serves(s', l, i) <==> Serves(s, l, i) && l != k;
    forall i | 0 <= i < |s'.claims| ensures s'.results[i] == Some(outcome[i]) || (s'.results[i] == None && exists l: nat :: Serves(s', l, i)) {
      if i != i0 && s.results[i] == None {
        var l :| Serves(s, l, i);
        assert Serves(s', l, i);
      }
    }
  }

  lemma StepKeeps<R>(s: State<R>, k: nat, outcome: seq<R>)
    requires Inv(s, outcome) && Enabled(s, k)
    ensures Inv(Step(s, k, outcome), outcome)
  {
    if s.workers[k].Ready? {
      ClaimKeeps(s, k, outcome);
    } else {
      CompleteKeeps(s, k, outcome);
    }
  }

  // ---- progress ----

  function Weight(w: Worker): nat {
    match w
    case Ready => 1
    case Busy(_) => 2
    case Finished => 0
  }

  function Weights(ws: seq<Worker>): nat {
    if ws == [] then 0 else Weight(ws[0]) + Weights(ws[1..])
  }

  /** Steps still to be taken: two per unclaimed index, and what each worker has left. */
  function Remaining<R>(s: State<R>): nat {
    2 * (|s.results| - (if s.next < |s.results| then s.next else |s.results|)) + Weights(s.workers)
  }

  lemma {:induction false} WeightsUpdate(ws: seq<Worker>, k: nat, w: Worker)
    requires k < |ws|
    ensures Weights(ws[k := w]) == Weights(ws) - Weight(ws[k]) + Weight(w)
    decreases |ws|
  {
    if k == 0 {
      assert ws[k := w][1..] == ws[1..];
    } else {
      assert ws[k := w][1..] == ws[1..][k - 1 := w];
      WeightsUpdate(ws[1..], k - 1, w);
    }
  }

  /** Every step, by any worker, brings the end exactly one step closer. */
  lemma StepCounts<R>(s: State<R>, k: nat, outcome: seq<R>)
    requires Enabled(s, k)
    ensures Remaining(Step(s, k, outcome)) == Remaining(s) - 1
  {
    WeightsUpdate(s.workers, k, Step(s, k, outcome).workers[k]);
  }

  lemma {:induction false} StartWeights(ws: seq<Worker>)
    requires forall k :: 0 <= k < |ws| ==> ws[k] == Ready
    ensures Weights(ws) == |ws|
    decreases |ws|
  {
    if ws != [] { StartWeights(ws[1..]); }
  }

  lemma {:induction false} NoWeightMeansFinished(ws: seq<Worker>)
    ensures Weights(ws) == 0 <==> forall k :: 0 <= k < |ws| ==> ws[k].Finished?
    decreases |ws|
  {
    if ws != [] {
      NoWeightMeansFinished(ws[1..]);
      assert forall k :: 0 < k < |ws| ==> ws[k] == ws[1..][k - 1];
    }
  }

  // ---- every schedule ----

  /** A schedule names the worker that runs at each point; it may only name one that has not returned. */
  predicate Possible<R>(s: State<R>, schedule: seq<nat>, outcome: seq<R>)
    decreases |schedule|
  {
    schedule == [] || (Enabled(s, schedule[0]) && Possible(Step(s, schedule[0], outcome), schedule[1..], outcome))
  }

  function Run<R>(s: State<R>, schedule: seq<nat>, outcome: seq<R>): State<R>
    requires Possible(s, schedule, outcome)
    decreases |schedule|
  {
    if schedule == [] then s else Run(Step(s, schedule[0], outcome), schedule[1..], outcome)
  }

  lemma {:induction false} RunKeeps<R>(s: State<R>, schedule: seq<nat>, outcome: seq<R>)
    requires Inv(s, outcome) && Possible(s, schedule, outcome)
    ensures var s' := Run(s, schedule, outcome);
            && Inv(s', outcome) && Remaining(s') == Remaining(s) - |schedule|
            && |s'.results| == |s.results| && |s'.workers| == |s.workers|
    decreases |schedule|
  {
    if schedule != [] {
      StepKeeps(s, schedule[0], outcome);
      StepCounts(s, schedule[0], outcome);
      RunKeeps(Step(s, schedule[0], outcome), schedule[1..], outcome);
    }
  }

  function Workers(limit: nat, n: nat): nat {
    if limit < n then limit else n
  }

  ghost predicate AllFinished<R>(s: State<R>) {
    forall k :: 0 <= k < |s.workers| ==> s.workers[k].Finished?
  }

  /** The workers with a call in flight. */
  ghost function InFlight<R>(s: State<R>): set<nat> {
    set k | 0 <= k < |s.workers| && s.workers[k].Busy?
  }

  /**
   For every schedule: no index is claimed twice and claims come in order, at most
   min(limit, n) calls are in flight, the schedule is at most 2n + min(limit, n)
   steps long, it can be extended until all workers have returned and not beyond,
   and then every result is the outcome for its own item.
   */
  lemma EverySchedule<R>(n: nat, limit: nat, schedule: seq<nat>, outcome: seq<R>)
    requires limit >= 1 && |outcome| == n && Possible(Start(n, Workers(limit, n)), schedule, outcome)
    ensures var s := Run(Start(n, Workers(limit, n)), schedule, outcome);
            && |s.claims| <= n && (forall j :: 0 <= j < |s.claims| ==> s.claims[j] == j)
            && |InFlight(s)| <= Workers(limit, n)
            && |schedule| <= 2 * n + Workers(limit, n)
            && (AllFinished(s) <==> |schedule| == 2 * n + Workers(limit, n))
            && (AllFinished(s) ==> |s.claims| == n && s.results == seq(n, i requires 0 <= i < n => Some(outcome[i])))
            && (!AllFinished(s) ==> exists k: nat :: Enabled(s, k))
  {
    var s0 := Start<R>(n, Workers(limit, n));
    StartInv(n, Workers(limit, n), outcome);
    StartWeights(s0.workers);
    RunKeeps(s0, schedule, outcome);
    var s := Run(s0, schedule, outcome);
    NoWeightMeansFinished(s.workers);
    WorkersBound(InFlight(s), |s.workers|);
    if AllFinished(s) {
      AllFinishedMeansDone(s, outcome);
    } else if !AllFinished(s) {
      var k :| 0 <= k < |s.workers| && !s.workers[k].Finished?;
      assert Enabled(s, k);
    }
  }

  lemma {:induction false} WorkersBound(xs: set<nat>, w: nat)
    requires forall x :: x in xs ==> x < w
    ensures |xs| <= w
    decreases w
  {
    if w > 0 {
      WorkersBound(xs - {w - 1}, w - 1);
    } else {
      assert xs == {};
    }
  }

  lemma AllFinishedMeansDone<R>(s: State<R>, outcome: seq<R>)
    requires Inv(s, outcome) && AllFinished(s) && (|s.results| > 0 ==> |s.workers| > 0)
    ensures |s.claims| == |s.results| <= s.next
    ensures s.results == seq(|s.results|, i requires 0 <= i < |s.results| => Some(outcome[i]))
    ensures Weights(s.workers) == 0 && Remaining(s) == 0
  {
    NoWeightMeansFinished(s.workers);
    if |s.results| > 0 { assert s.workers[0].Finished?; }
    assert forall k: nat, i: nat :: !Serves(s, k, i);
  }

  function Outcomes<T, R>(items: seq<T>, fn: (T, nat) -> R): (r: seq<R>)
    ensures |r| == |items| && forall i :: 0 <= i < |items| ==> r[i] == fn(items[i], i)
  {
    seq(|items|, i requires 0 <= i < |items| => fn(items[i], i))
  }

  /** What the workers share: the counter, the result array, and each worker's place. */
  class Pool<T, R> {
    const items: seq<T>
    const fn: (T, nat) -> R
    var next: nat
    const results: array<Option<R>>
    const workers: array<Worker>
    ghost var claims: seq<nat>

    ghost function View(): State<R>
      reads this, results, workers
    {
      State(next, results[..], workers[..], claims)
    }

    ghost predicate Valid()
      reads this, results, workers
    {
      Inv(View(), Outcomes(items, fn))
    }

    constructor (items: seq<T>, width: nat, fn: (T, nat) -> R)
      ensures Valid() && fresh(results) && fresh(workers)
      ensures this.items == items && this.fn == fn && results.Length == |items| && workers.Length == width
    {
      this.items := items;
      this.fn := fn;
      next := 0;
      claims := [];
      results := new Option<R>[|items|](_ => None);
      workers := new Worker[width](_ => Ready);
      new;
      StartInv(|items|, width, Outcomes(items, fn));
      assert View() == Start(|items|, width);
    }

    /** Worker k claims the next index, or stores the outcome of its call. */
    method Turn(k: nat)
      requires Valid() && Enabled(View(), k)
      modifies this, results, workers
      ensures Valid() && View() == Step(old(View()), k, Outcomes(items, fn))
      ensures Remaining(View()) == Remaining(old(View())) - 1
    {
      ghost var s, outcome := View(), Outcomes(items, fn);
      StepKeeps(s, k, outcome);
      StepCounts(s, k, outcome);
      assert s.workers[k].Busy? ==> Serves(s, k, s.workers[k].idx);
      hide Remaining;
      match workers[k]
      case Ready =>
        var idx := next;
        next := next + 1;
        if idx >= |items| {
          workers[k] := Finished;
        } else {
          workers[k] := Busy(idx);
          claims := claims + [idx];
        }
      case Busy(i) =>
        results[i] := Some(fn(items[i], i));
        workers[k] := Ready;
      hide Inv;
      assert View() == Step(s, k, outcome);
    }
  }

  /**
   The map itself. The worker that runs next is chosen arbitrarily at every turn,
   so the contract holds for every interleaving.
   */
  method MapWithConcurrencyLimit<T, R>(items: seq<T>, limit: int, fn: (T, nat) -> R) returns (r: Option<seq<R>>)
    ensures limit < 1 ==> r == None
    ensures limit >= 1 ==> r.Some? && |r.value| == |items| && forall i :: 0 <= i < |items| ==> r.value[i] == fn(items[i], i)
  {
    if limit < 1 { return None; }
    if |items| == 0 { return Some([]); }
    var width := Workers(limit, |items|);
    var pool := new Pool(items, width, fn);
    while exists k :: 0 <= k < width && !pool.workers[k].Finished?
      invariant pool.Valid()
      invariant fresh(pool) && fresh(pool.results) && fresh(pool.workers)
      decreases Remaining(pool.View())
    {
      var k :| 0 <= k < width && !pool.workers[k].Finished?;
      pool.Turn(k);
    }
    AllFinishedMeansDone(pool.View(), Outcomes(items, fn));
    ghost var s := pool.View();
    assert forall i :: 0 <= i < |items| ==> pool.results[i] == s.results[i];
    var results := pool.results;
    r := Some(seq(|items|, i requires 0 <= i < |items| && results.Length == |items| && results[i].Some? reads results => results[i].value));
  }
}
