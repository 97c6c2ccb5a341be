/**
 Inclusive block-height ranges: merging into a normal form, union, and removal of
 an indexed range. `None` stands for a thrown error.
 */
module HeightRanges {
  import opened Options

  datatype Range = Range(from: int, to: int)

  predicate Valid(r: Range) {
    0 <= r.from <= r.to
  }

  predicate AllValid(rs: seq<Range>) {
    forall i :: 0 <= i < |rs| ==> Valid(rs[i])
  }

  predicate Has(r: Range, h: int) {
    r.from <= h <= r.to
  }

  /** Height h lies in one of the ranges. */
  ghost predicate Covers(rs: seq<Range>, h: int) {
    exists i :: 0 <= i < |rs| && Has(rs[i], h)
  }

  ghost predicate SameHeights(xs: seq<Range>, ys: seq<Range>) {
    forall h :: Covers(xs, h) <==> Covers(ys, h)
  }

  /** Ascending, with at least one missing height between neighbours. */
  ghost predicate Normal(rs: seq<Range>) {
    AllValid(rs) && forall i, j :: 0 <= i < j < |rs| ==> rs[i].to + 1 < rs[j].from
  }

  // ---- sorting by fromHeight (stable) ----

  function Insert(r: Range, rs: seq<Range>): seq<Range> {
    if rs == [] || r.from <= rs[0].from then [r] + rs else [rs[0]] + Insert(r, rs[1..])
  }

  function SortByFrom(rs: seq<Range>): seq<Range> {
    if rs == [] then [] else Insert(rs[0], SortByFrom(rs[1..]))
  }

  ghost predicate Ascending(rs: seq<Range>) {
    forall i, j :: 0 <= i < j < |rs| ==> rs[i].from <= rs[j].from
  }

  lemma {:induction false} InsertPermutes(r: Range, rs: seq<Range>)
    ensures multiset(Insert(r, rs)) == multiset(rs) + multiset{r}
    decreases |rs|
  {
    if !(rs == [] || r.from <= rs[0].from) {
      InsertPermutes(r, rs[1..]);
      assert rs == [rs[0]] + rs[1..];
    }
  }

  lemma {:induction false} InsertSorts(r: Range, rs: seq<Range>)
    requires Ascending(rs)
    ensures Ascending(Insert(r, rs))
    ensures Insert(r, rs) != [] && Insert(r, rs)[0].from == if rs == [] || r.from <= rs[0].from then r.from else rs[0].from
    decreases |rs|
  {
    if !(rs == [] || r.from <= rs[0].from) {
      InsertSorts(r, rs[1..]);
      AscendingCons(rs[0], Insert(r, rs[1..]));
    }
  }

  lemma AscendingCons(r: Range, rs: seq<Range>)
    requires Ascending(rs) && (rs != [] ==> r.from <= rs[0].from)
    ensures Ascending([r] + rs)
  {
    var xs := [r] + rs;
    forall i, j | 0 <= i < j < |xs| ensures xs[i].from <= xs[j].from {
      assert xs[j] == rs[j - 1];
      if i > 0 { assert xs[i] == rs[i - 1]; } else if j > 1 { assert rs[0].from <= rs[j - 1].from; }
    }
  }

  lemma {:induction false} SortSorts(rs: seq<Range>)
    ensures Ascending(SortByFrom(rs)) && multiset(SortByFrom(rs)) == multiset(rs)
    decreases |rs|
  {
    if rs != [] {
      hide Insert, Ascending;
      SortSorts(rs[1..]);
      InsertSorts(rs[0], SortByFrom(rs[1..]));
      InsertPermutes(rs[0], SortByFrom(rs[1..]));
      assert rs == [rs[0]] + rs[1..];
    }
  }

  /** Rearranging ranges changes neither their heights nor their validity. */
  lemma PermutationKeeps(xs: seq<Range>, ys: seq<Range>)
    requires multiset(xs) == multiset(ys)
    ensures SameHeights(xs, ys) && (AllValid(xs) <==> AllValid(ys)) && |xs| == |ys|
  {
    assert |xs| == |multiset(xs)| == |ys|;
    forall r | r in xs ensures r in ys { assert r in multiset(xs); }
    forall r | r in ys ensures r in xs { assert r in multiset(ys); }
    if AllValid(xs) { forall i | 0 <= i < |ys| ensures Valid(ys[i]) { assert ys[i] in xs; } }
    if AllValid(ys) { forall i | 0 <= i < |xs| ensures Valid(xs[i]) { assert xs[i] in ys; } }
    forall h | Covers(xs, h) ensures Covers(ys, h) {
      var i :| 0 <= i < |xs| && Has(xs[i], h);
      assert xs[i] in ys;
    }
    forall h | Covers(ys, h) ensures Covers(xs, h) {
      var i :| 0 <= i < |ys| && Has(ys[i], h);
      assert ys[i] in xs;
    }
  }

  // ---- merge ----

  function Max(x: int, y: int): int {
    if x < y then y else x
  }

  /** The merge of an ascending list whose first, possibly already widened, range is cur. */
  function MergeFrom(cur: Range, rest: seq<Range>): seq<Range>
    decreases |rest|
  {
    if rest == [] then [cur]
    else if rest[0].from > cur.to + 1 then [cur] + MergeFrom(rest[0], rest[1..])
    else MergeFrom(cur.(to := Max(cur.to, rest[0].to)), rest[1..])
  }

  function Merge(rs: seq<Range>): Option<seq<Range>> {
    if !AllValid(rs) then None
    else
      var sorted := SortByFrom(rs);
      if sorted == [] then Some([]) else Some(MergeFrom(sorted[0], sorted[1..]))
  }

  method CheckRanges(ranges: seq<Range>) returns (ok: bool)
    ensures ok == AllValid(ranges)
  {
    for i := 0 to |ranges|
      invariant forall j :: 0 <= j < i ==> Valid(ranges[j])
    {
      if !Valid(ranges[i]) { return false; }
    }
    return true;
  }

  /** The loop over the sorted ranges, widening cur in place. */
  method MergeSorted(sorted: seq<Range>) returns (out: seq<Range>)
    requires sorted != []
    ensures out == MergeFrom(sorted[0], sorted[1..])
  {
    out := [];
    var cur := sorted[0];
    var i := 1;
    while i < |sorted|
      invariant 1 <= i <= |sorted|
      invariant MergeFrom(sorted[0], sorted[1..]) == out + MergeFrom(cur, sorted[i..])
    {
      var next := sorted[i];
      assert sorted[i..][0] == next && sorted[i..][1..] == sorted[i + 1..];
      if next.from > cur.to + 1 {
        assert out + ([cur] + MergeFrom(next, sorted[i + 1..])) == out + [cur] + MergeFrom(next, sorted[i + 1..]);
        out := out + [cur];
        cur := next;
      } else {
        cur := cur.(to := Max(cur.to, next.to));
      }
      i := i + 1;
    }
    out := out + [cur];
  }

  method MergeRanges(ranges: seq<Range>) returns (r: Option<seq<Range>>)
    ensures r == Merge(ranges)
  {
    if |ranges| == 0 { return Some([]); }
    var ok := CheckRanges(ranges);
    if !ok { return None; }
    var sorted := SortByFrom(ranges);
    SortSorts(ranges);
    PermutationKeeps(sorted, ranges);
    var out := MergeSorted(sorted);
    return Some(out);
  }

  lemma CoversCons(r: Range, rs: seq<Range>, h: int)
    ensures Covers([r] + rs, h) <==> Has(r, h) || Covers(rs, h)
  {
    var xs := [r] + rs;
    if Covers(xs, h) {
      var i :| 0 <= i < |xs| && Has(xs[i], h);
      if i > 0 { assert xs[i] == rs[i - 1]; }
    }
    if Has(r, h) { assert Has(xs[0], h); }
    if Covers(rs, h) {
      var i :| 0 <= i < |rs| && Has(rs[i], h);
      assert xs[i + 1] == rs[i];
    }
  }

  lemma CoversConcat(xs: seq<Range>, ys: seq<Range>, h: int)
    ensures Covers(xs + ys, h) <==> Covers(xs, h) || Covers(ys, h)
  {
    if xs == [] {
      assert xs + ys == ys;
    } else {
      assert xs + ys == [xs[0]] + (xs[1..] + ys) && xs == [xs[0]] + xs[1..];
      CoversConcat(xs[1..], ys, h);
      CoversCons(xs[0], xs[1..] + ys, h);
      CoversCons(xs[0], xs[1..], h);
    }
  }

  lemma {:induction false} MergeFromNormal(cur: Range, rest: seq<Range>)
    requires Valid(cur) && AllValid(rest) && Ascending(rest) && (rest != [] ==> cur.from <= rest[0].from)
    ensures var out := MergeFrom(cur, rest);
            Normal(out) && |out| > 0 && out[0].from == cur.from && SameHeights(out, [cur] + rest)
    decreases |rest|
  {
    if rest == [] {
      assert [cur] + rest == [cur];
    } else {
      var r := rest[0];
      assert rest == [r] + rest[1..];
      if r.from > cur.to + 1 {
        MergeFromNormal(r, rest[1..]);
        NormalCons(cur, MergeFrom(r, rest[1..]));
        ConsSameHeights(cur, MergeFrom(r, rest[1..]), rest);
      } else {
        var wide := cur.(to := Max(cur.to, r.to));
        MergeFromNormal(wide, rest[1..]);
        JoinSameHeights(cur, r, rest[1..]);
      }
    }
  }

  lemma ConsSameHeights(r: Range, xs: seq<Range>, ys: seq<Range>)
    requires SameHeights(xs, ys)
    ensures SameHeights([r] + xs, [r] + ys)
  {
    forall h ensures Covers([r] + xs, h) <==> Covers([r] + ys, h) {
      CoversCons(r, xs, h);
      CoversCons(r, ys, h);
    }
  }

  /** Two touching ranges have the heights of the one that spans both. */
  lemma JoinSameHeights(cur: Range, r: Range, rest: seq<Range>)
    requires Valid(cur) && Valid(r) && cur.from <= r.from <= cur.to + 1
    ensures SameHeights([cur.(to := Max(cur.to, r.to))] + rest, [cur] + ([r] + rest))
  {
    var wide := cur.(to := Max(cur.to, r.to));
    forall h ensures Covers([wide] + rest, h) <==> Covers([cur] + ([r] + rest), h) {
      CoversCons(wide, rest, h);
      CoversCons(cur, [r] + rest, h);
      CoversCons(r, rest, h);
    }
  }

  lemma NormalCons(r: Range, rs: seq<Range>)
    requires Valid(r) && Normal(rs) && (rs != [] ==> r.to + 1 < rs[0].from)
    ensures Normal([r] + rs)
  {
    var xs := [r] + rs;
    forall i, j | 0 <= i < j < |xs| ensures xs[i].to + 1 < xs[j].from {
      assert xs[j] == rs[j - 1];
      if i > 0 {
        assert xs[i] == rs[i - 1];
      } else if j > 1 {
        assert rs[0].to + 1 < rs[j - 1].from;
      }
    }
  }

  /** Merging succeeds exactly on valid ranges and yields the normal form of the same heights. */
  lemma MergeNormalizes(rs: seq<Range>)
    ensures Merge(rs).Some? <==> AllValid(rs)
    ensures Merge(rs).Some? ==> Normal(Merge(rs).value) && SameHeights(Merge(rs).value, rs)
  {
    if AllValid(rs) {
      SortSorts(rs);
      var sorted := SortByFrom(rs);
      PermutationKeeps(sorted, rs);
      if sorted != [] {
        assert sorted == [sorted[0]] + sorted[1..];
        MergeFromNormal(sorted[0], sorted[1..]);
      }
    }
  }

  // ---- the normal form is unique ----

  lemma TailHeights(rs: seq<Range>, h: int)
    requires Normal(rs) && rs != []
    ensures Covers(rs[1..], h) <==> Covers(rs, h) && rs[0].to < h
  {
    assert rs == [rs[0]] + rs[1..];
    CoversCons(rs[0], rs[1..], h);
    if Covers(rs[1..], h) {
      var i :| 0 <= i < |rs[1..]| && Has(rs[1..][i], h);
      assert rs[1..][i] == rs[i + 1];
    }
  }

  /** The first range of a normal list is its lowest run of heights. */
  lemma FirstRun(rs: seq<Range>)
    requires Normal(rs) && rs != []
    ensures Covers(rs, rs[0].from) && Covers(rs, rs[0].to) && !Covers(rs, rs[0].to + 1)
    ensures forall h :: Covers(rs, h) ==> rs[0].from <= h
    ensures forall h :: Has(rs[0], h) ==> Covers(rs, h)
  {
    assert Has(rs[0], rs[0].from) && Has(rs[0], rs[0].to);
    forall h | Covers(rs, h) ensures rs[0].from <= h && h != rs[0].to + 1 {
      var i :| 0 <= i < |rs| && Has(rs[i], h);
      if i > 0 { assert rs[0].to + 1 < rs[i].from; }
    }
  }

  lemma {:induction false} NormalFormUnique(xs: seq<Range>, ys: seq<Range>)
    requires Normal(xs) && Normal(ys) && SameHeights(xs, ys)
    ensures xs == ys
    decreases |xs|
  {
    if xs == [] {
      if ys != [] { FirstRun(ys); }
    } else {
      FirstRun(xs);
      assert Covers(ys, xs[0].from);
      FirstRun(ys);
      var x, y := xs[0], ys[0];
      assert x.from == y.from;
      assert x.to < y.to ==> Has(y, x.to + 1);
      assert y.to < x.to ==> Has(x, y.to + 1);
      assert x == y;
      forall h ensures Covers(xs[1..], h) <==> Covers(ys[1..], h) {
        TailHeights(xs, h);
        TailHeights(ys, h);
      }
      NormalFormUnique(xs[1..], ys[1..]);
    }
  }

  /** Two inputs that denote the same heights merge to the same list. */
  lemma MergeIsCanonical(xs: seq<Range>, ys: seq<Range>)
    requires AllValid(xs) && AllValid(ys) && SameHeights(xs, ys)
    ensures Merge(xs) == Merge(ys)
  {
    MergeNormalizes(xs);
    MergeNormalizes(ys);
    NormalFormUnique(Merge(xs).value, Merge(ys).value);
  }

  lemma MergeOfNormal(xs: seq<Range>)
    requires Normal(xs)
    ensures Merge(xs) == Some(xs)
  {
    MergeNormalizes(xs);
    NormalFormUnique(Merge(xs).value, xs);
  }

  function Union(a: seq<Range>, b: seq<Range>): Option<seq<Range>> {
    Merge(a + b)
  }

  /** Union is set union, and so commutative, associative and idempotent up to equality of lists. */
  lemma UnionLaws(a: seq<Range>, b: seq<Range>, c: seq<Range>)
    requires AllValid(a) && AllValid(b) && AllValid(c)
    ensures Union(a, b).Some? && forall h :: Covers(Union(a, b).value, h) <==> Covers(a, h) || Covers(b, h)
    ensures Union(a, b) == Union(b, a)
    ensures Union(b, c).Some? && Union(Union(a, b).value, c) == Union(a, Union(b, c).value)
    ensures Union(a, a) == Merge(a)
  {
    UnionCovers(a, b);
    UnionCovers(b, a);
    UnionCovers(b, c);
    UnionCovers(a, a);
    MergeIsCanonical(a + b, b + a);
    MergeIsCanonical(a + a, a);
    var ab, bc := Union(a, b).value, Union(b, c).value;
    forall h ensures Covers(ab + c, h) <==> Covers(a + bc, h) {
      CoversConcat(ab, c, h);
      CoversConcat(a, bc, h);
    }
    MergeIsCanonical(ab + c, a + bc);
  }

  lemma UnionCovers(a: seq<Range>, b: seq<Range>)
    requires AllValid(a) && AllValid(b)
    ensures AllValid(a + b) && Union(a, b).Some? && Normal(Union(a, b).value)
    ensures forall h :: Covers(a + b, h) <==> Covers(a, h) || Covers(b, h)
    ensures forall h :: Covers(Union(a, b).value, h) <==> Covers(a, h) || Covers(b, h)
  {
    forall h ensures Covers(a + b, h) <==> Covers(a, h) || Covers(b, h) {
      CoversConcat(a, b, h);
    }
    MergeNormalizes(a + b);
  }

  // ---- subtraction ----

  function SubtractOne(indexed: Range, gap: Range): seq<Range> {
    if indexed.to < gap.from || indexed.from > gap.to then [gap]
    else
      (if gap.from < indexed.from then [Range(gap.from, indexed.from - 1)] else [])
      + (if indexed.to < gap.to then [Range(indexed.to + 1, gap.to)] else [])
  }

  function Pieces(indexed: Range, gaps: seq<Range>): seq<Range> {
    if gaps == [] then [] else SubtractOne(indexed, gaps[0]) + Pieces(indexed, gaps[1..])
  }

  function Subtract(indexed: Range, gaps: seq<Range>): Option<seq<Range>> {
    if !Valid(indexed) then None
    else if gaps == [] then Some([])
    else
      match Merge(gaps)
      case None => None
      case Some(normalized) => Merge(Pieces(indexed, normalized))
  }

  method SubtractRange(indexed: Range, gaps: seq<Range>) returns (r: Option<seq<Range>>)
    ensures r == Subtract(indexed, gaps)
  {
    if !Valid(indexed) { return None; }
    if |gaps| == 0 { return Some([]); }
    var merged := MergeRanges(gaps);
    if merged == None { return None; }
    var normalized := merged.value;
    var pieces: seq<Range> := [];
    var i := 0;
    while i < |normalized|
      invariant 0 <= i <= |normalized|
      invariant Pieces(indexed, normalized) == pieces + Pieces(indexed, normalized[i..])
    {
      assert normalized[i..][0] == normalized[i] && normalized[i..][1..] == normalized[i + 1..];
      assert pieces + (SubtractOne(indexed, normalized[i]) + Pieces(indexed, normalized[i + 1..]))
          == pieces + SubtractOne(indexed, normalized[i]) + Pieces(indexed, normalized[i + 1..]);
      pieces := pieces + SubtractOne(indexed, normalized[i]);
      i := i + 1;
    }
    assert pieces == Pieces(indexed, normalized);
    r := MergeRanges(pieces);
  }

  lemma SubtractOneExact(indexed: Range, gap: Range)
    requires Valid(indexed) && Valid(gap)
    ensures var out := SubtractOne(indexed, gap);
            && Normal(out)
            && (forall h :: Covers(out, h) <==> Has(gap, h) && !Has(indexed, h))
            && (forall i :: 0 <= i < |out| ==> gap.from <= out[i].from && out[i].to <= gap.to)
  {
    var out := SubtractOne(indexed, gap);
    forall h ensures Covers(out, h) <==> Has(gap, h) && !Has(indexed, h) {
      if Has(gap, h) && !Has(indexed, h) {
        if indexed.to < gap.from || indexed.from > gap.to || h < indexed.from {
          assert Has(out[0], h);
        } else {
          assert Has(out[|out| - 1], h);
        }
      }
    }
  }

  /** The pieces cut from a normal list are already normal. */
  lemma {:induction false} PiecesNormal(indexed: Range, gaps: seq<Range>)
    requires Valid(indexed) && Normal(gaps)
    ensures var out := Pieces(indexed, gaps);
            && Normal(out)
            && (forall h :: Covers(out, h) <==> Covers(gaps, h) && !Has(indexed, h))
            && (forall i :: 0 <= i < |out| ==> gaps != [] && gaps[0].from <= out[i].from)
    decreases |gaps|
  {
    if gaps != [] {
      var head, tail := SubtractOne(indexed, gaps[0]), Pieces(indexed, gaps[1..]);
      SubtractOneExact(indexed, gaps[0]);
      PiecesNormal(indexed, gaps[1..]);
      assert gaps == [gaps[0]] + gaps[1..];
      forall h ensures Covers(head + tail, h) <==> Covers(gaps, h) && !Has(indexed, h) {
        CoversConcat(head, tail, h);
        CoversCons(gaps[0], gaps[1..], h);
      }
    }
  }

  /**
   Removing an indexed range is exact set difference in normal form, and the
   final merge has nothing left to do.
   */
  lemma SubtractIsDifference(indexed: Range, gaps: seq<Range>)
    ensures Subtract(indexed, gaps).Some? <==> Valid(indexed) && AllValid(gaps)
    ensures Subtract(indexed, gaps).Some? ==>
              && Normal(Subtract(indexed, gaps).value)
              && (forall h :: Covers(Subtract(indexed, gaps).value, h) <==> Covers(gaps, h) && !Has(indexed, h))
              && Subtract(indexed, gaps).value == Pieces(indexed, Merge(gaps).value)
  {
    MergeNormalizes(gaps);
    if Valid(indexed) && AllValid(gaps) {
      var normalized := Merge(gaps).value;
      PiecesNormal(indexed, normalized);
      MergeOfNormal(Pieces(indexed, normalized));
      if gaps == [] { assert normalized == []; }
    }
  }
}
