/**
 The block indexer: planning the next range, summarising what a fetch left out,
 advancing a cursor that must never pass a hole, and keeping the list of gaps.
 */
module Ingestion {
  import opened Options
  import opened HeightRanges
  import opened Words

  // ---- planning ----

  /** Rejected stands for a thrown error, NothingToDo for a null plan. */
  datatype Plan = Rejected | NothingToDo | Fetch(from: int, to: int)

  function Clamp(from: int, to: int, durable: int): Plan {
    if from < 0 || to < 0 || durable < 0 then Rejected
    else if from > to || from > Min(to, durable) then NothingToDo
    else Fetch(from, Min(to, durable))
  }

  /** One tick's range from the cursor, the two chain tips and the optional cap. */
  function PlanCatchUp(cursor: int, head: int, finalized: int, cap: Option<int>): Plan {
    if cursor < -1 then Rejected
    else
      match Clamp(cursor + 1, head, Min(head, finalized))
      case Fetch(from, to) =>
        if cap == None then Fetch(from, to)
        else if cap.value < 1 then Rejected
        else Fetch(from, if to - from + 1 > cap.value then from + cap.value - 1 else to)
      case other => other
  }

  /**
   A valid tick plans a fetch exactly when the cursor is below both tips, and has
   nothing to do otherwise; anything else is rejected. A planned range starts
   right after the cursor, stays durable and within the cap, and is as long as
   those allow.
   */
  lemma PlanIsTight(cursor: int, head: int, finalized: int, cap: Option<int>)
    ensures var p := PlanCatchUp(cursor, head, finalized, cap);
            && (p.Fetch? <==> -1 <= cursor < Min(head, finalized) && (cap.Some? ==> 1 <= cap.value))
            && (p.NothingToDo? <==> -1 <= cursor && 0 <= head && 0 <= finalized && Min(head, finalized) <= cursor)
            && (p.Fetch? ==>
                  && 0 <= p.from == cursor + 1 <= p.to <= Min(head, finalized)
                  && (cap.Some? ==> p.to - p.from + 1 <= cap.value)
                  && (p.to == Min(head, finalized) || (cap.Some? && p.to - p.from + 1 == cap.value)))
  {
  }

  // ---- summarising a fetch ----

  datatype GapSummary = GapSummary(from: int, to: int, omitted: seq<int>, missing: seq<Range>, last: Option<int>)

  function Omitted(from: int, to: int, present: set<int>): seq<int>
    decreases 1 + to - from
  {
    if from > to then []
    else (if from in present then [] else [from]) + Omitted(from + 1, to, present)
  }

  /** The first height from `from` on that is absent, or to + 1. */
  function PrefixEnd(from: int, to: int, present: set<int>): int
    decreases 1 + to - from
  {
    if from <= to && from in present then PrefixEnd(from + 1, to, present) else from
  }

  function Runs(start: int, prev: int, rest: seq<int>): seq<Range>
    decreases |rest|
  {
    if rest == [] then [Range(start, prev)]
    else if rest[0] == prev + 1 then Runs(start, rest[0], rest[1..])
    else [Range(start, prev)] + Runs(rest[0], rest[0], rest[1..])
  }

  function RunsOf(sorted: seq<int>): seq<Range> {
    if sorted == [] then [] else Runs(sorted[0], sorted[0], sorted[1..])
  }

  function Summary(from: int, to: int, fetched: seq<int>): Option<GapSummary> {
    if from < 0 || to < 0 then None
    else if from > to then Some(GapSummary(from, to, [], [], None))
    else if AnyNegative(fetched) then None
    else
      var present := set h | h in fetched;
      var omitted := Omitted(from, to, present);
      Some(GapSummary(from, to, omitted, RunsOf(omitted),
                      if from in present then Some(PrefixEnd(from, to, present) - 1) else None))
  }

  /** Single pass over ascending heights. */
  method MergeOmitted(sorted: seq<int>) returns (out: seq<Range>)
    ensures out == RunsOf(sorted)
  {
    out := [];
    if |sorted| == 0 { return; }
    var start, prev, i := sorted[0], sorted[0], 1;
    while i < |sorted|
      invariant 1 <= i <= |sorted|
      invariant RunsOf(sorted) == out + Runs(start, prev, sorted[i..])
    {
      var h := sorted[i];
      assert sorted[i..][0] == h && sorted[i..][1..] == sorted[i + 1..];
      if h == prev + 1 {
        prev := h;
      } else {
        assert out + ([Range(start, prev)] + Runs(h, h, sorted[i + 1..])) == out + [Range(start, prev)] + Runs(h, h, sorted[i + 1..]);
        out := out + [Range(start, prev)];
        start, prev := h, h;
      }
      i := i + 1;
    }
    out := out + [Range(start, prev)];
  }

  predicate AnyNegative(xs: seq<int>) {
    exists i :: 0 <= i < |xs| && xs[i] < 0
  }

  /** Collects the fetched heights; false if one is negative. */
  method CollectPresent(fetched: seq<int>) returns (ok: bool, present: set<int>)
    ensures ok == !AnyNegative(fetched)
    ensures ok ==> present == set h | h in fetched
  {
    present := {};
    for i := 0 to |fetched|
      invariant forall j :: 0 <= j < i ==> fetched[j] >= 0
      invariant present == set h | h in fetched[..i]
    {
      if fetched[i] < 0 { return false, present; }
      assert fetched[..i + 1] == fetched[..i] + [fetched[i]];
      present := present + {fetched[i]};
    }
    assert fetched[..|fetched|] == fetched;
    ok := true;
  }

  method ListOmitted(from: int, to: int, present: set<int>) returns (omitted: seq<int>)
    requires from <= to
    ensures omitted == Omitted(from, to, present)
  {
    omitted := [];
    var h := from;
    while h <= to
      invariant from <= h <= to + 1
      invariant Omitted(from, to, present) == omitted + Omitted(h, to, present)
    {
      if h !in present {
        assert omitted + ([h] + Omitted(h + 1, to, present)) == omitted + [h] + Omitted(h + 1, to, present);
        omitted := omitted + [h];
      }
      h := h + 1;
    }
  }

  method Watermark(from: int, to: int, present: set<int>) returns (last: Option<int>)
    requires from <= to
    ensures last == if from in present then Some(PrefixEnd(from, to, present) - 1) else None
  {
    last := None;
    if from in present {
      var h := from;
      while h <= to && h in present
        invariant from <= h <= to + 1
        invariant PrefixEnd(from, to, present) == PrefixEnd(h, to, present)
      {
        h := h + 1;
      }
      last := Some(h - 1);
    }
  }

  method SummarizeGaps(from: int, to: int, fetched: seq<int>) returns (r: Option<GapSummary>)
    ensures r == Summary(from, to, fetched)
  {
    if from < 0 || to < 0 { return None; }
    if from > to { return Some(GapSummary(from, to, [], [], None)); }
    var ok, present := CollectPresent(fetched);
    if !ok { return None; }
    var omitted := ListOmitted(from, to, present);
    var last := Watermark(from, to, present);
    var missing := MergeOmitted(omitted);
    r := Some(GapSummary(from, to, omitted, missing, last));
  }

  ghost predicate StrictlyAscending(xs: seq<int>) {
    forall i, j :: 0 <= i < j < |xs| ==> xs[i] < xs[j]
  }

  lemma {:induction false} OmittedExact(from: int, to: int, present: set<int>)
    ensures var xs := Omitted(from, to, present);
            && StrictlyAscending(xs)
            && (forall h :: h in xs <==> from <= h <= to && h !in present)
    decreases 1 + to - from
  {
    if from <= to {
      OmittedExact(from + 1, to, present);
      var xs, tail := Omitted(from, to, present), Omitted(from + 1, to, present);
      assert xs == if from in present then tail else [from] + tail;
      hide Omitted;
      if from !in present {
        forall i, j | 0 <= i < j < |xs| ensures xs[i] < xs[j] {
          assert xs[j] == tail[j - 1] && tail[j - 1] in tail;
        }
      }
    }
  }

  lemma {:induction false} PrefixEndExact(from: int, to: int, present: set<int>)
    requires from <= to + 1
    ensures var e := PrefixEnd(from, to, present);
            && from <= e <= to + 1
            && (forall h :: from <= h < e ==> h in present)
            && (e <= to ==> e !in present)
    decreases 1 + to - from
  {
    if from <= to && from in present {
      PrefixEndExact(from + 1, to, present);
    }
  }

  function Singletons(xs: seq<int>): seq<Range> {
    seq(|xs|, i requires 0 <= i < |xs| => Range(xs[i], xs[i]))
  }

  lemma {:induction false} RunsExact(start: int, prev: int, rest: seq<int>)
    requires 0 <= start <= prev && StrictlyAscending(rest) && (rest != [] ==> prev < rest[0])
    ensures var out := Runs(start, prev, rest);
            && Normal(out) && out != [] && out[0].from == start
            && (forall h :: Covers(out, h) <==> start <= h <= prev || h in rest)
    decreases |rest|
  {
    if rest == [] {
      assert forall h :: Covers([Range(start, prev)], h) <==> Has([Range(start, prev)][0], h);
    } else {
      assert rest == [rest[0]] + rest[1..];
      if rest[0] == prev + 1 {
        RunsExact(start, rest[0], rest[1..]);
      } else {
        RunsExact(rest[0], rest[0], rest[1..]);
        var tail := Runs(rest[0], rest[0], rest[1..]);
        NormalCons(Range(start, prev), tail);
        forall h ensures Covers([Range(start, prev)] + tail, h) <==> start <= h <= prev || h in rest {
          CoversCons(Range(start, prev), tail, h);
        }
      }
    }
  }

  lemma TailAscends(xs: seq<int>)
    requires xs != [] && StrictlyAscending(xs)
    ensures StrictlyAscending(xs[1..]) && (xs[1..] != [] ==> xs[0] < xs[1..][0]) && xs == [xs[0]] + xs[1..]
  {
    if |xs| > 1 { assert xs[0] < xs[1]; }
    forall i, j | 0 <= i < j < |xs[1..]| ensures xs[1..][i] < xs[1..][j] { assert xs[i + 1] < xs[j + 1]; }
  }

  /** The single pass gives the list the general merge gives for one range per height. */
  lemma RunsAreTheMerge(xs: seq<int>)
    requires StrictlyAscending(xs) && forall i :: 0 <= i < |xs| ==> 0 <= xs[i]
    ensures Merge(Singletons(xs)) == Some(RunsOf(xs))
    ensures Normal(RunsOf(xs)) && forall h :: Covers(RunsOf(xs), h) <==> h in xs
  {
    var ones := Singletons(xs);
    forall h ensures Covers(ones, h) <==> h in xs {
      if h in xs {
        var i :| 0 <= i < |xs| && xs[i] == h;
        assert Has(ones[i], h);
      }
    }
    if xs != [] {
      TailAscends(xs);
      RunsExact(xs[0], xs[0], xs[1..]);
    }
    hide Merge, Runs, Normal;
    MergeNormalizes(ones);
    NormalFormUnique(Merge(ones).value, RunsOf(xs));
  }

  /**
   A summary of a non-empty range: the omitted heights are exactly requested minus
   fetched, in order; the missing ranges are their normal form; and the watermark
   is the greatest height up to which everything was fetched.
   */
  lemma SummaryExact(from: int, to: int, fetched: seq<int>)
    requires from <= to && Summary(from, to, fetched).Some?
    ensures var s := Summary(from, to, fetched).value;
            && StrictlyAscending(s.omitted)
            && (forall h :: h in s.omitted <==> from <= h <= to && h !in fetched)
            && Normal(s.missing) && Merge(Singletons(s.omitted)) == Some(s.missing)
            && (forall h :: Covers(s.missing, h) <==> from <= h <= to && h !in fetched)
            && (s.last == None <==> from !in fetched)
            && (s.last.Some? ==>
                  && from <= s.last.value <= to
                  && (forall h :: from <= h <= s.last.value ==> h in fetched)
                  && (s.last.value < to ==> s.last.value + 1 !in fetched))
  {
    var present := set h | h in fetched;
    OmittedExact(from, to, present);
    PrefixEndExact(from, to, present);
    var xs := Omitted(from, to, present);
    assert forall i :: 0 <= i < |xs| ==> xs[i] in xs;
    RunsAreTheMerge(xs);
  }

  /** A fetch is summarised exactly when the range and every fetched height are natural numbers; an empty range asks nothing of them. */
  lemma SummaryExistsIff(from: int, to: int, fetched: seq<int>)
    ensures Summary(from, to, fetched).Some? <==>
            0 <= from && 0 <= to && (to < from || forall i :: 0 <= i < |fetched| ==> 0 <= fetched[i])
    ensures Summary(from, to, fetched).Some? ==>
              Summary(from, to, fetched).value.from == from && Summary(from, to, fetched).value.to == to
  {
  }

  // ---- advancing the cursor ----

  function NextCursor(last: int, s: GapSummary): Option<int> {
    if last < -1 || s.from != last + 1 then None
    else if s.omitted == [] then Some(s.to)
    else if s.last == None then Some(last)
    else Some(s.last.value)
  }

  /** The cursor stops exactly before the first height that was not fetched. */
  lemma CursorStopsAtHole(last: int, to: int, fetched: seq<int>)
    requires -1 <= last < to && Summary(last + 1, to, fetched).Some?
    ensures var c := NextCursor(last, Summary(last + 1, to, fetched).value);
            && c.Some? && last <= c.value <= to
            && (forall h :: last < h <= c.value ==> h in fetched)
            && (c.value < to ==> c.value + 1 !in fetched)
  {
    SummaryExact(last + 1, to, fetched);
    var s := Summary(last + 1, to, fetched).value;
    if s.omitted == [] {
      forall h | last < h <= to ensures h in fetched {
        assert h !in s.omitted;
      }
    } else {
      assert s.omitted[0] in s.omitted;
    }
  }

  /** A summary moves the cursor exactly when it is of the range right after it. */
  lemma CursorMovesIff(last: int, from: int, to: int, fetched: seq<int>)
    requires Summary(from, to, fetched).Some?
    ensures NextCursor(last, Summary(from, to, fetched).value).Some? <==> -1 <= last && from == last + 1
  {
    SummaryExistsIff(from, to, fetched);
  }

  /**
   The promise that the cursor never moves back holds exactly when the requested
   range does not end below it. A summary of a range that does reports nothing
   omitted, and the cursor is set to that lower end.
   */
  lemma CursorNeverMovesBackIff(last: int, to: int, fetched: seq<int>)
    requires -1 <= last && Summary(last + 1, to, fetched).Some?
    ensures var c := NextCursor(last, Summary(last + 1, to, fetched).value);
            c.Some? && (last <= c.value <==> last <= to)
  {
    if last < to {
      CursorStopsAtHole(last, to, fetched);
    }
  }

  lemma EmptyRangeMovesCursorBack()
    ensures NextCursor(5, Summary(6, 3, []).value) == Some(3)
  {
  }

  // ---- runs ----

  /** fetched and requested record what happened; the code keeps cursor and gaps. */
  datatype Indexer = Indexer(cursor: int, gaps: seq<Range>, fetched: set<int>, requested: set<int>)

  datatype Event =
    | Tick(head: int, finalized: int, cap: Option<int>, got: seq<int>)
    | Backfill(range: Range)

  /** All heights of an inclusive range. */
  function Span(from: int, to: int): (s: set<int>)
    ensures forall h :: h in s <==> from <= h <= to
    decreases 1 + to - from
  {
    if from > to then {} else {from} + Span(from + 1, to)
  }

  /** A tick plans, fetches, summarises, advances and records gaps; a rejected one changes nothing. */
  function TickStep(s: Indexer, head: int, finalized: int, cap: Option<int>, got: seq<int>): Indexer {
    match PlanCatchUp(s.cursor, head, finalized, cap)
    case Fetch(from, to) =>
      (match Summary(from, to, got)
       case None => s
       case Some(sm) =>
         var cursor, gaps := NextCursor(s.cursor, sm), Union(s.gaps, sm.missing);
         if cursor == None || gaps == None then s
         else Indexer(cursor.value, gaps.value, s.fetched + (set h | h in got), s.requested + Span(from, to)))
    case _ => s
  }

  /** An archive backfill of a range removes it from the stored gaps. */
  function BackfillStep(s: Indexer, r: Range): Indexer {
    match Subtract(r, s.gaps)
    case None => s
    case Some(gaps) => s.(gaps := gaps, fetched := s.fetched + Span(r.from, r.to))
  }

  function IndexStep(s: Indexer, e: Event): Indexer {
    match e
    case Tick(head, finalized, cap, got) => TickStep(s, head, finalized, cap, got)
    case Backfill(r) => BackfillStep(s, r)
  }

  function Index(s: Indexer, es: seq<Event>): Indexer
    decreases |es|
  {
    if es == [] then s else Index(IndexStep(s, es[0]), es[1..])
  }

  const FRESH: Indexer := Indexer(-1, [], {}, {})

  ghost predicate Complete(s: Indexer) {
    && -1 <= s.cursor
    && Normal(s.gaps)
    && (forall h :: 0 <= h <= s.cursor ==> h in s.fetched)
    && (forall h :: h in s.requested ==> h in s.fetched || Covers(s.gaps, h))
    && (forall h :: Covers(s.gaps, h) ==> h in s.requested)
  }

  lemma TickKeeps(s: Indexer, head: int, finalized: int, cap: Option<int>, got: seq<int>)
    requires Complete(s)
    ensures var s' := TickStep(s, head, finalized, cap, got);
            && Complete(s') && s.cursor <= s'.cursor
            && s.fetched <= s'.fetched && s.requested <= s'.requested
            && (s'.cursor <= s.cursor || s'.cursor <= Min(head, finalized))
  {
    var p := PlanCatchUp(s.cursor, head, finalized, cap);
    PlanIsTight(s.cursor, head, finalized, cap);
    hide PlanCatchUp, Summary, NextCursor, Normal, Union, StrictlyAscending, Merge, Span, Covers;
    if p.Fetch? && Summary(p.from, p.to, got).Some? {
      SummaryExact(p.from, p.to, got);
      CursorStopsAtHole(s.cursor, p.to, got);
      var sm := Summary(p.from, p.to, got).value;
      Recorded(s, NextCursor(s.cursor, sm).value, sm.missing, p.from, p.to, got);
    }
  }

  /** Storing the new cursor and the missing ranges of a fetch keeps the indexer complete. */
  lemma Recorded(s: Indexer, cursor: int, missing: seq<Range>, from: int, to: int, got: seq<int>)
    requires Complete(s) && from == s.cursor + 1 && s.cursor <= cursor <= to && Normal(missing)
    requires forall h :: s.cursor < h <= cursor ==> h in got
    requires forall h :: Covers(missing, h) <==> from <= h <= to && h !in got
    ensures Union(s.gaps, missing).Some?
    ensures Complete(Indexer(cursor, Union(s.gaps, missing).value, s.fetched + (set h | h in got), s.requested + Span(from, to)))
  {
    NormalIsValid(s.gaps);
    NormalIsValid(missing);
    UnionCovers(s.gaps, missing);
    hide Normal, Union, Covers, Span;
  }

  lemma NormalIsValid(rs: seq<Range>)
    requires Normal(rs)
    ensures AllValid(rs)
  {
  }

  lemma BackfillKeeps(s: Indexer, r: Range)
    requires Complete(s)
    ensures var s' := BackfillStep(s, r);
            && Complete(s') && s'.cursor == s.cursor
            && s.fetched <= s'.fetched && s'.requested == s.requested
            && (Valid(r) ==> forall h :: Covers(s'.gaps, h) <==> Covers(s.gaps, h) && !Has(r, h))
  {
    SubtractIsDifference(r, s.gaps);
  }

  /**
   Over every run of ticks and backfills, with arbitrary tips, caps and omissions:
   every height up to the cursor was fetched, every requested height was fetched
   or is in a stored gap, the gaps stay in normal form and name only requested
   heights, and the cursor never moves back.
   */
  lemma {:induction false} EveryRunIsComplete(s: Indexer, es: seq<Event>)
    requires Complete(s)
    ensures Complete(Index(s, es)) && s.cursor <= Index(s, es).cursor
    ensures s.fetched <= Index(s, es).fetched && s.requested <= Index(s, es).requested
    decreases |es|
  {
    if es != [] {
      match es[0] {
        case Tick(head, finalized, cap, got) => TickKeeps(s, head, finalized, cap, got);
        case Backfill(r) => BackfillKeeps(s, r);
      }
      EveryRunIsComplete(IndexStep(s, es[0]), es[1..]);
    }
  }

  /** From a fresh indexer, so over every history of ticks and backfills. */
  lemma EveryRunFromFresh(es: seq<Event>)
    ensures Complete(Index(FRESH, es))
  {
    EveryRunIsComplete(FRESH, es);
  }

  // ---- progress ----

  /** A fetch that left nothing out. */
  ghost predicate Full(from: int, to: int, got: seq<int>) {
    (forall h :: from <= h <= to ==> h in got) && forall i :: 0 <= i < |got| ==> 0 <= got[i]
  }

  /** A tick that plans a range and fetches all of it moves the cursor to the end of the plan. */
  lemma FullTickAdvances(s: Indexer, head: int, finalized: int, cap: Option<int>, got: seq<int>)
    requires Complete(s) && PlanCatchUp(s.cursor, head, finalized, cap).Fetch?
    requires var p := PlanCatchUp(s.cursor, head, finalized, cap); Full(p.from, p.to, got)
    ensures TickStep(s, head, finalized, cap, got).cursor == PlanCatchUp(s.cursor, head, finalized, cap).to
  {
    var p := PlanCatchUp(s.cursor, head, finalized, cap);
    PlanIsTight(s.cursor, head, finalized, cap);
    SummaryExistsIff(p.from, p.to, got);
    SummaryExact(p.from, p.to, got);
    CursorStopsAtHole(s.cursor, p.to, got);
    UnionCovers(s.gaps, Summary(p.from, p.to, got).value.missing);
    hide PlanCatchUp, Summary, NextCursor;
  }

  /** Ticks against fixed tips and a fixed cap that each fetch all they plan. */
  ghost predicate FullTicks(s: Indexer, es: seq<Event>, head: int, finalized: int, cap: int)
    decreases |es|
  {
    es != [] ==>
      && es[0].Tick? && es[0].head == head && es[0].finalized == finalized && es[0].cap == Some(cap)
      && (var p := PlanCatchUp(s.cursor, head, finalized, Some(cap)); p.Fetch? ==> Full(p.from, p.to, es[0].got))
      && FullTicks(IndexStep(s, es[0]), es[1..], head, finalized, cap)
  }

  /** Catching up takes exactly as many full ticks as the cap demands: n of them advance the cursor by n caps, up to the durable tip. */
  lemma {:induction false} FullTicksCatchUp(s: Indexer, es: seq<Event>, head: int, finalized: int, cap: int)
    requires Complete(s) && 1 <= cap && s.cursor <= Min(head, finalized) && FullTicks(s, es, head, finalized, cap)
    ensures Index(s, es).cursor == Min(Min(head, finalized), s.cursor + |es| * cap)
    ensures Min(head, finalized) - s.cursor <= |es| * cap ==> Index(s, es).cursor == Min(head, finalized)
    decreases |es|
  {
    if es != [] {
      var s1, got := IndexStep(s, es[0]), es[0].got;
      assert s1 == TickStep(s, head, finalized, Some(cap), got);
      PlanIsTight(s.cursor, head, finalized, Some(cap));
      TickKeeps(s, head, finalized, Some(cap), got);
      if PlanCatchUp(s.cursor, head, finalized, Some(cap)).Fetch? {
        FullTickAdvances(s, head, finalized, Some(cap), got);
      }
      hide *;
      assert s1.cursor == Min(Min(head, finalized), s.cursor + cap);
      FullTicksCatchUp(s1, es[1..], head, finalized, cap);
      StepsAdd(Min(head, finalized), s.cursor, |es[1..]|, cap);
    }
  }

  lemma StepsAdd(tip: int, cursor: int, n: nat, cap: int)
    requires 1 <= cap
    ensures Min(tip, Min(tip, cursor + cap) + n * cap) == Min(tip, cursor + (n + 1) * cap)
    ensures tip <= cursor + (n + 1) * cap ==> Min(tip, cursor + (n + 1) * cap) == tip
  {
    MulNonneg(n, cap);
    assert (n + 1) * cap == n * cap + cap;
  }
}
