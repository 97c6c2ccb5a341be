/**
 Reading logs over a wide block range in chunks the node accepts: the chunks are a
 partition with the fewest possible parts, and the merged, sorted answer is the
 one a single query would give.
 */
module LogChunks {
  import opened Options
  import opened HeightRanges
  import opened Words
  import opened WorkerPool

  // ---- planning ----

  function Chunks(from: int, to: int, span: int): seq<Range>
    requires span >= 1
    decreases 1 + to - from
  {
    if from > to then []
    else
      var end := Min(from + span - 1, to);
      [Range(from, end)] + Chunks(end + 1, to, span)
  }

  /** None stands for a thrown RangeError. */
  method PlanLogBlockChunks(from: int, to: int, span: int) returns (r: Option<seq<Range>>)
    ensures r == if span < 1 then None else Some(Chunks(from, to, span))
  {
    if span < 1 { return None; }
    if from > to { return Some([]); }
    var chunks: seq<Range> := [];
    var start := from;
    while start <= to
      invariant from <= start <= to + 1
      invariant Chunks(from, to, span) == chunks + Chunks(start, to, span)
    {
      var end := Min(start + span - 1, to);
      assert chunks + ([Range(start, end)] + Chunks(end + 1, to, span)) == chunks + [Range(start, end)] + Chunks(end + 1, to, span);
      chunks := chunks + [Range(start, end)];
      start := end + 1;
    }
    assert chunks + Chunks(start, to, span) == chunks;
    return Some(chunks);
  }

  /** Back-to-back, non-empty ranges from `from` to `to`, none longer than span. */
  ghost predicate Tiles(cs: seq<Range>, from: int, to: int, span: int) {
    && (cs == [] <==> from > to)
    && (cs != [] ==> cs[0].from == from && cs[|cs| - 1].to == to)
    && (forall i :: 0 <= i < |cs| ==> cs[i].from <= cs[i].to && cs[i].to - cs[i].from + 1 <= span)
    && (forall i, j :: 0 <= i < |cs| && j == i + 1 < |cs| ==> cs[j].from == cs[i].to + 1)
  }

  lemma {:induction false} ChunksTile(from: int, to: int, span: int)
    requires span >= 1
    ensures Tiles(Chunks(from, to, span), from, to, span)
    decreases 1 + to - from
  {
    if from <= to {
      var end := Min(from + span - 1, to);
      ChunksTile(end + 1, to, span);
      var cs, tail := Chunks(from, to, span), Chunks(end + 1, to, span);
      assert cs == [Range(from, end)] + tail;
      forall i, j | 0 <= i < |cs| && j == i + 1 < |cs| ensures cs[j].from == cs[i].to + 1 {
        assert cs[j] == tail[j - 1];
        if i > 0 { assert cs[i] == tail[i - 1]; }
      }
    }
  }

  /** All chunks but the last are full, which fixes their number from both sides. */
  lemma {:induction false} ChunkCount(from: int, to: int, span: int)
    requires span >= 1 && from <= to
    ensures var n := |Chunks(from, to, span)|;
            n >= 1 && (n - 1) * span <= to - from < n * span
    decreases 1 + to - from
  {
    var end := Min(from + span - 1, to);
    if end < to {
      ChunkCount(end + 1, to, span);
    }
  }

  /** Taking out a range that covers `from` leaves a cover of everything past its end. */
  lemma CoverWithoutFirst(from: int, to: int, cover: seq<Range>) returns (end: int, rest: seq<Range>)
    requires from <= to && forall h :: from <= h <= to ==> Covers(cover, h)
    ensures exists i :: 0 <= i < |cover| && Has(cover[i], from) && end == cover[i].to && rest == cover[..i] + cover[i + 1..]
    ensures forall h :: end + 1 <= h <= to ==> Covers(rest, h)
  {
    assert Covers(cover, from);
    var i :| 0 <= i < |cover| && Has(cover[i], from);
    end, rest := cover[i].to, cover[..i] + cover[i + 1..];
    forall h | end + 1 <= h <= to ensures Covers(rest, h) {
      assert Covers(cover, h);
      var j :| 0 <= j < |cover| && Has(cover[j], h);
      assert rest[if j < i then j else j - 1] == cover[j];
    }
  }

  ghost predicate Short(rs: seq<Range>, span: int) {
    forall i :: 0 <= i < |rs| ==> rs[i].to - rs[i].from + 1 <= span
  }

  /** Any cover by ranges of at most span blocks has room for at least as many blocks as it covers. */
  lemma {:induction false} CoverHasRoom(from: int, to: int, span: int, cover: seq<Range>)
    requires span >= 1 && Short(cover, span)
    requires forall h :: from <= h <= to ==> Covers(cover, h)
    ensures to - from + 1 <= |cover| * span || to < from
    decreases |cover|
  {
    if from <= to {
      var end, rest := CoverWithoutFirst(from, to, cover);
      assert |cover| == |rest| + 1 && Short(rest, span) && from <= end <= from + span - 1;
      CoverHasRoom(end + 1, to, span, rest);
      hide *;
      OneMore(|rest|, span);
    }
  }

  lemma OneMore(n: nat, span: int)
    requires span >= 1
    ensures (n + 1) * span == n * span + span && 0 <= n * span
  {
    MulMono(0, n, span);
  }

  /** No cover by ranges of at most span blocks has fewer parts. */
  lemma ChunksAreFewest(from: int, to: int, span: int, cover: seq<Range>)
    requires span >= 1 && Short(cover, span)
    requires forall h :: from <= h <= to ==> Covers(cover, h)
    ensures |Chunks(from, to, span)| <= |cover|
  {
    if from <= to {
      ChunkCount(from, to, span);
      CoverHasRoom(from, to, span, cover);
      var n := |Chunks(from, to, span)|;
      if |cover| < n { MulMono(|cover|, n - 1, span); }
    }
  }

  // ---- rows ----

  datatype Row<D> = Row(height: int, tx: int, log: int, data: D)

  /** The order of (block_height, tx_index, log_index). */
  predicate Leq<D>(a: Row<D>, b: Row<D>) {
    a.height < b.height || (a.height == b.height && (a.tx < b.tx || (a.tx == b.tx && a.log <= b.log)))
  }

  function InsertRow<D>(r: Row<D>, rows: seq<Row<D>>): seq<Row<D>> {
    if rows == [] || Leq(r, rows[0]) then [r] + rows else [rows[0]] + InsertRow(r, rows[1..])
  }

  function SortRows<D>(rows: seq<Row<D>>): seq<Row<D>> {
    if rows == [] then [] else InsertRow(rows[0], SortRows(rows[1..]))
  }

  ghost predicate Ordered<D>(rows: seq<Row<D>>) {
    forall i, j :: 0 <= i < j < |rows| ==> Leq(rows[i], rows[j])
  }

  lemma OrderedCons<D>(r: Row<D>, rows: seq<Row<D>>)
    requires Ordered(rows) && (rows != [] ==> Leq(r, rows[0]))
    ensures Ordered([r] + rows)
  {
    var xs := [r] + rows;
    forall i, j | 0 <= i < j < |xs| ensures Leq(xs[i], xs[j]) {
      assert xs[j] == rows[j - 1];
      if i > 0 { assert xs[i] == rows[i - 1]; } else if j > 1 { assert Leq(rows[0], rows[j - 1]); }
    }
  }

  lemma {:induction false} InsertRowSorts<D>(r: Row<D>, rows: seq<Row<D>>)
    requires Ordered(rows)
    ensures Ordered(InsertRow(r, rows))
    ensures InsertRow(r, rows) != [] && InsertRow(r, rows)[0] == if rows == [] || Leq(r, rows[0]) then r else rows[0]
    decreases |rows|
  {
    if rows == [] || Leq(r, rows[0]) {
      OrderedCons(r, rows);
    } else {
      InsertRowSorts(r, rows[1..]);
      OrderedCons(rows[0], InsertRow(r, rows[1..]));
    }
  }

  lemma {:induction false} InsertRowPermutes<D>(r: Row<D>, rows: seq<Row<D>>)
    ensures multiset(InsertRow(r, rows)) == multiset(rows) + multiset{r}
    decreases |rows|
  {
    if !(rows == [] || Leq(r, rows[0])) {
      InsertRowPermutes(r, rows[1..]);
      assert rows == [rows[0]] + rows[1..];
    }
  }

  lemma {:induction false} SortRowsSorts<D>(rows: seq<Row<D>>)
    ensures Ordered(SortRows(rows)) && multiset(SortRows(rows)) == multiset(rows)
    decreases |rows|
  {
    if rows != [] {
      hide InsertRow, Ordered;
      SortRowsSorts(rows[1..]);
      InsertRowSorts(rows[0], SortRows(rows[1..]));
      InsertRowPermutes(rows[0], SortRows(rows[1..]));
      assert rows == [rows[0]] + rows[1..];
    }
  }

  /** A key belongs to one row. */
  ghost predicate KeysDistinct<D>(rows: multiset<Row<D>>) {
    forall a, b :: a in rows && b in rows && Leq(a, b) && Leq(b, a) ==> a == b
  }

  lemma TailBag<D>(xs: seq<Row<D>>)
    requires xs != []
    ensures multiset(xs[1..]) == multiset(xs) - multiset{xs[0]}
  {
    assert xs == [xs[0]] + xs[1..];
  }

  lemma SameLeast<D>(xs: seq<Row<D>>, ys: seq<Row<D>>)
    requires xs != [] && ys != [] && Ordered(xs) && Ordered(ys) && multiset(xs) == multiset(ys) && KeysDistinct(multiset(xs))
    ensures xs[0] == ys[0]
  {
    assert xs[0] in multiset(ys) && ys[0] in multiset(xs);
    var i :| 0 <= i < |ys| && ys[i] == xs[0];
    var j :| 0 <= j < |xs| && xs[j] == ys[0];
    assert Leq(ys[0], ys[i]) && Leq(xs[0], xs[j]);
  }

  lemma TailInOrder<D>(xs: seq<Row<D>>)
    requires xs != [] && Ordered(xs) && KeysDistinct(multiset(xs))
    ensures Ordered(xs[1..]) && KeysDistinct(multiset(xs[1..]))
  {
    TailBag(xs);
  }

  /** With distinct keys there is only one way to order a bag of rows. */
  lemma {:induction false} OrderedUnique<D>(xs: seq<Row<D>>, ys: seq<Row<D>>)
    requires Ordered(xs) && Ordered(ys) && multiset(xs) == multiset(ys) && KeysDistinct(multiset(xs))
    ensures xs == ys
    decreases |xs|
  {
    SameLength(xs, ys);
    if xs != [] {
      SameLeast(xs, ys);
      SameTailBags(xs, ys);
      TailInOrder(xs);
      TailInOrder(ys);
      hide *;
      OrderedUnique(xs[1..], ys[1..]);
      assert xs == [xs[0]] + xs[1..] && ys == [ys[0]] + ys[1..];
    }
  }

  lemma SameLength<D>(xs: seq<Row<D>>, ys: seq<Row<D>>)
    requires multiset(xs) == multiset(ys)
    ensures |xs| == |ys|
  {
    assert |xs| == |multiset(xs)| == |ys|;
  }

  lemma SameTailBags<D>(xs: seq<Row<D>>, ys: seq<Row<D>>)
    requires xs != [] && ys != [] && xs[0] == ys[0] && multiset(xs) == multiset(ys)
    ensures multiset(xs[1..]) == multiset(ys[1..])
  {
    TailBag(xs);
    TailBag(ys);
  }

  // ---- the chunked read ----

  function InBlocks<D>(rows: seq<Row<D>>, lo: int, hi: int): seq<Row<D>> {
    if rows == [] then []
    else (if lo <= rows[0].height <= hi then [rows[0]] else []) + InBlocks(rows[1..], lo, hi)
  }

  /** A node that answers every query with exactly the matching rows of the range, in some order. */
  ghost predicate Honest<D>(node: (int, int) -> seq<Row<D>>, rows: seq<Row<D>>) {
    forall lo, hi :: multiset(node(lo, hi)) == multiset(InBlocks(rows, lo, hi))
  }

  function Gather<D>(node: (int, int) -> seq<Row<D>>, chunks: seq<Range>): seq<Row<D>> {
    if chunks == [] then [] else node(chunks[0].from, chunks[0].to) + Gather(node, chunks[1..])
  }

  method GetLogsChunked<D>(node: (int, int) -> seq<Row<D>>, from: int, to: int, span: int, concurrent: int)
    returns (r: Option<seq<Row<D>>>)
    ensures r == if span < 1 || concurrent < 1 then None else Some(SortRows(Gather(node, Chunks(from, to, span))))
    ensures r.Some? ==> multiset(r.value) == multiset(Gather(node, Chunks(from, to, span)))
    // by block, then by transaction, then by log
    ensures r.Some? ==> forall i, j :: 0 <= i < j < |r.value| ==> var a, b := r.value[i], r.value[j];
              && a.height <= b.height
              && (a.height == b.height ==> a.tx <= b.tx)
              && (a.height == b.height && a.tx == b.tx ==> a.log <= b.log)
  {
    var planned := PlanLogBlockChunks(from, to, span);
    if planned == None { return None; }
    var chunks := planned.value;
    var parts := MapWithConcurrencyLimit(chunks, concurrent, (c: Range, _: nat) => node(c.from, c.to));
    if parts == None { return None; }
    var rows: seq<Row<D>> := [];
    var i := 0;
    while i < |parts.value|
      invariant 0 <= i <= |chunks|
      invariant Gather(node, chunks) == rows + Gather(node, chunks[i..])
    {
      assert chunks[i..][0] == chunks[i] && chunks[i..][1..] == chunks[i + 1..];
      assert rows + (parts.value[i] + Gather(node, chunks[i + 1..])) == rows + parts.value[i] + Gather(node, chunks[i + 1..]);
      rows := rows + parts.value[i];
      i := i + 1;
    }
    assert rows == Gather(node, chunks);
    SortRowsSorts(rows);
    return Some(SortRows(rows));
  }

  lemma {:induction false} InBlocksSplit<D>(rows: seq<Row<D>>, lo: int, mid: int, hi: int)
    requires lo <= mid + 1 && mid <= hi
    ensures multiset(InBlocks(rows, lo, hi)) == multiset(InBlocks(rows, lo, mid)) + multiset(InBlocks(rows, mid + 1, hi))
    decreases |rows|
  {
    if rows != [] { InBlocksSplit(rows[1..], lo, mid, hi); }
  }

  lemma {:induction false} InNoBlocks<D>(rows: seq<Row<D>>, lo: int, hi: int)
    requires hi < lo
    ensures InBlocks(rows, lo, hi) == []
    decreases |rows|
  {
    if rows != [] { InNoBlocks(rows[1..], lo, hi); }
  }

  lemma GatherStep<D>(node: (int, int) -> seq<Row<D>>, from: int, to: int, span: int)
    requires span >= 1 && from <= to
    ensures var end := Min(from + span - 1, to);
            Gather(node, Chunks(from, to, span)) == node(from, end) + Gather(node, Chunks(end + 1, to, span))
  {
    var end := Min(from + span - 1, to);
    var cs := Chunks(from, to, span);
    assert cs[0] == Range(from, end) && cs[1..] == Chunks(end + 1, to, span);
  }

  lemma HonestAnswer<D>(node: (int, int) -> seq<Row<D>>, rows: seq<Row<D>>, lo: int, hi: int)
    requires Honest(node, rows)
    ensures multiset(node(lo, hi)) == multiset(InBlocks(rows, lo, hi))
  {
  }

  lemma {:induction false} GatherIsWhole<D>(node: (int, int) -> seq<Row<D>>, rows: seq<Row<D>>, from: int, to: int, span: int)
    requires span >= 1 && Honest(node, rows)
    ensures multiset(Gather(node, Chunks(from, to, span))) == multiset(InBlocks(rows, from, to))
    decreases 1 + to - from
  {
    if from > to {
      InNoBlocks(rows, from, to);
    } else {
      hide Honest, InBlocks, Gather, Chunks;
      var end := Min(from + span - 1, to);
      GatherStep(node, from, to, span);
      GatherIsWhole(node, rows, end + 1, to, span);
      InBlocksSplit(rows, from, end, to);
      HonestAnswer(node, rows, from, end);
    }
  }

  lemma {:induction false} InBlocksFrom<D>(rows: seq<Row<D>>, lo: int, hi: int)
    ensures multiset(InBlocks(rows, lo, hi)) <= multiset(rows)
    decreases |rows|
  {
    if rows != [] {
      InBlocksFrom(rows[1..], lo, hi);
      assert rows == [rows[0]] + rows[1..];
    }
  }

  /**
   Against an honest node the chunked answer is the sorted answer of one query
   over the whole range, for every range and span.
   */
  lemma ChunkedEqualsWhole<D>(node: (int, int) -> seq<Row<D>>, rows: seq<Row<D>>, from: int, to: int, span: int)
    requires span >= 1 && Honest(node, rows) && KeysDistinct(multiset(rows))
    ensures SortRows(Gather(node, Chunks(from, to, span))) == SortRows(node(from, to))
  {
    GatherIsWhole(node, rows, from, to, span);
    InBlocksFrom(rows, from, to);
    SortRowsSorts(Gather(node, Chunks(from, to, span)));
    SortRowsSorts(node(from, to));
    HonestAnswer(node, rows, from, to);
    OrderedUnique(SortRows(Gather(node, Chunks(from, to, span))), SortRows(node(from, to)));
  }
}
