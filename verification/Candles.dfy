/** OHLCV candles: one upsert per inserted trade and width, and what the rows then say. */
module Candles {
  import opened Domain
  import opened Matching
  import opened Text

  /** A row of the trades table: the trade and the time it was stamped with. */
  datatype Print = Print(trade: Trade, millis: nat) {
    function Seconds(): nat {
      millis / 1000
    }

    function Price(): int {
      AsI64(trade.price)
    }

    function Qty(): int {
      AsI64(trade.qty)
    }
  }

  /** `as i64` of an unsigned 64-bit value: the top bit becomes the sign. */
  function AsI64(x: nat): int {
    var low := x % (U64_MAX + 1);
    if low <= I64_MAX then low else low - (U64_MAX + 1)
  }

  /** The cast keeps the value modulo 2^64 and is exact up to the signed maximum, and for no other u64. */
  lemma CastIsExactIff(x: nat)
    requires x <= U64_MAX
    ensures AsI64(x) == x <==> x <= I64_MAX
    ensures 0 - I64_MAX - 1 <= AsI64(x) <= I64_MAX && (x - AsI64(x)) % (U64_MAX + 1) == 0
  {
  }

  const INTERVAL_WIDTHS: seq<nat> := [1, 900, 3600, 14400, 86400, 604800]

  datatype CandleKey = CandleKey(pair: Pair, width: nat, bucket: nat)

  datatype Candle = Candle(open: int, high: int, low: int, close: int, volume: int)

  function BucketOf(seconds: nat, width: nat): nat
    requires width > 0
  {
    seconds / width * width
  }

  predicate Falls(p: Print, k: CandleKey) {
    p.trade.pair == k.pair && k.width > 0 && k.bucket == BucketOf(p.Seconds(), k.width)
  }

  /** Insert a first candle, or raise, lower, move and add to the one there. */
  function Upsert(c: Option<Candle>, p: Print): Candle {
    match c
    case None => Candle(p.Price(), p.Price(), p.Price(), p.Price(), p.Qty())
    case Some(c) =>
      Candle(c.open,
             if c.high >= p.Price() then c.high else p.Price(),
             if c.low <= p.Price() then c.low else p.Price(),
             p.Price(),
             c.volume + p.Qty())
  }

  /** One candle after these trades were inserted, in this order. */
  function Rolled(c: Option<Candle>, prints: seq<Print>, k: CandleKey): Option<Candle> {
    if prints == [] then c
    else
      var before := Rolled(c, prints[..|prints| - 1], k);
      var last := prints[|prints| - 1];
      if Falls(last, k) then Some(Upsert(before, last)) else before
  }

  lemma {:induction false} RolledConcat(c: Option<Candle>, x: seq<Print>, y: seq<Print>, k: CandleKey)
    ensures Rolled(c, x + y, k) == Rolled(Rolled(c, x, k), y, k)
  {
    if y == [] {
      assert x + y == x;
    } else {
      assert (x + y)[..|x + y| - 1] == x + y[..|y| - 1];
      RolledConcat(c, x, y[..|y| - 1], k);
    }
  }

  // ----- the trades of a time span -----

  predicate InSpan(p: Print, pair: Pair, lo: nat, hi: nat) {
    p.trade.pair == pair && lo <= p.Seconds() < hi
  }

  /** The trades of a market stamped in [lo, hi), in arrival order. */
  function Span(prints: seq<Print>, pair: Pair, lo: nat, hi: nat): seq<Print> {
    if prints == [] then []
    else
      var init, last := Span(prints[..|prints| - 1], pair, lo, hi), prints[|prints| - 1];
      if InSpan(last, pair, lo, hi) then init + [last] else init
  }

  function TotalQty(prints: seq<Print>): int {
    if prints == [] then 0 else TotalQty(prints[..|prints| - 1]) + prints[|prints| - 1].Qty()
  }

  lemma TotalQtyPush(prints: seq<Print>, p: Print)
    ensures TotalQty(prints + [p]) == TotalQty(prints) + p.Qty()
  {
    assert (prints + [p])[..|prints|] == prints;
  }

  ghost predicate IsHigh(high: int, prints: seq<Print>) {
    && (forall i :: 0 <= i < |prints| ==> prints[i].Price() <= high)
    && (exists i :: 0 <= i < |prints| && prints[i].Price() == high)
  }

  ghost predicate IsLow(low: int, prints: seq<Print>) {
    && (forall i :: 0 <= i < |prints| ==> low <= prints[i].Price())
    && (exists i :: 0 <= i < |prints| && prints[i].Price() == low)
  }

  /** Open, high, low, close and volume of exactly these trades. */
  ghost predicate Summarises(c: Option<Candle>, prints: seq<Print>) {
    if prints == [] then c.None?
    else
      && c.Some?
      && c.value.open == prints[0].Price()
      && c.value.close == prints[|prints| - 1].Price()
      && c.value.volume == TotalQty(prints)
      && IsHigh(c.value.high, prints)
      && IsLow(c.value.low, prints)
  }

  lemma SummaryPush(c: Option<Candle>, prints: seq<Print>, p: Print)
    requires Summarises(c, prints)
    ensures Summarises(Some(Upsert(c, p)), prints + [p])
  {
    var more, c' := prints + [p], Upsert(c, p);
    TotalQtyPush(prints, p);
    assert more[|prints|] == p;
    if prints != [] {
      var i :| 0 <= i < |prints| && prints[i].Price() == c.value.high;
      var j :| 0 <= j < |prints| && prints[j].Price() == c.value.low;
      assert more[i] == prints[i] && more[j] == prints[j];
      assert IsHigh(c'.high, more) && IsLow(c'.low, more);
    } else {
      assert more == [p];
      assert TotalQty(prints) == 0;
    }
  }

  /** Buckets start at whole multiples of their width. */
  ghost predicate Aligned(bucket: nat, width: nat) {
    exists q: nat :: bucket == q * width
  }

  /** A time falls in a bucket iff it lies within one width of its start. */
  lemma BucketIsSpan(seconds: nat, width: nat, bucket: nat)
    requires width > 0 && Aligned(bucket, width)
    ensures BucketOf(seconds, width) == bucket <==> bucket <= seconds < bucket + width
  {
    var q: nat :| bucket == q * width;
    QuotientIs(seconds, width, q);
  }

  lemma QuotientIs(n: nat, d: nat, q: nat)
    requires d > 0
    ensures n / d * d == q * d <==> q * d <= n < q * d + d
  {
    var e := n / d;
    assert e * d <= n < e * d + d;
    if e < q {
      assert (e + 1) * d <= q * d;
      assert (e + 1) * d == e * d + d;
    } else if e > q {
      assert (q + 1) * d <= e * d;
      assert (q + 1) * d == q * d + d;
    }
  }

  /** Every candle row is the OHLCV of exactly the inserted trades stamped in its bucket. */
  lemma {:induction false} CandleIsSummary(prints: seq<Print>, k: CandleKey)
    requires k.width > 0 && Aligned(k.bucket, k.width)
    ensures Summarises(Rolled(None, prints, k), Span(prints, k.pair, k.bucket, k.bucket + k.width))
  {
    if prints != [] {
      var init, last := prints[..|prints| - 1], prints[|prints| - 1];
      CandleIsSummary(init, k);
      BucketIsSpan(last.Seconds(), k.width, k.bucket);
      var span := Span(init, k.pair, k.bucket, k.bucket + k.width);
      if Falls(last, k) {
        SummaryPush(Rolled(None, init, k), span, last);
      }
    }
  }

  // ----- coarser candles are merges of finer ones -----

  lemma {:induction false} SpanSplits(prints: seq<Print>, pair: Pair, lo: nat, mid: nat, hi: nat)
    requires lo <= mid <= hi
    ensures TotalQty(Span(prints, pair, lo, hi)) ==
            TotalQty(Span(prints, pair, lo, mid)) + TotalQty(Span(prints, pair, mid, hi))
  {
    if prints != [] {
      var init, last := prints[..|prints| - 1], prints[|prints| - 1];
      SpanSplits(init, pair, lo, mid, hi);
      SpanQty(init, last, pair, lo, hi);
      SpanQty(init, last, pair, lo, mid);
      SpanQty(init, last, pair, mid, hi);
      assert prints == init + [last];
    }
  }

  lemma SpanQty(init: seq<Print>, last: Print, pair: Pair, lo: nat, hi: nat)
    ensures TotalQty(Span(init + [last], pair, lo, hi)) ==
            TotalQty(Span(init, pair, lo, hi)) + (if InSpan(last, pair, lo, hi) then last.Qty() else 0)
  {
    var s := Span(init, pair, lo, hi);
    assert (init + [last])[..|init|] == init;
    TotalQtyPush(s, last);
  }

  lemma {:induction false} EmptySpan(prints: seq<Print>, pair: Pair, lo: nat)
    ensures Span(prints, pair, lo, lo) == []
  {
    if prints != [] {
      EmptySpan(prints[..|prints| - 1], pair, lo);
    }
  }

  /** Total volume of the first `n` fine candles from `start` on. */
  function FineVolume(prints: seq<Print>, pair: Pair, width: nat, start: nat, n: nat): int {
    if n == 0 then 0
    else
      var c := Rolled(None, prints, CandleKey(pair, width, start + (n - 1) * width));
      FineVolume(prints, pair, width, start, n - 1) + (if c.Some? then c.value.volume else 0)
  }

  lemma MultiplePlus(start: nat, width: nat, j: nat)
    requires Aligned(start, width)
    ensures Aligned(start + j * width, width)
  {
    var q: nat :| start == q * width;
    assert start + j * width == (q + j) * width;
  }

  lemma OneMoreWidth(start: nat, width: nat, n: nat)
    requires n > 0
    ensures start + (n - 1) * width + width == start + n * width
  {
  }

  lemma NextVolume(prints: seq<Print>, pair: Pair, width: nat, start: nat, n: nat)
    requires width > 0 && Aligned(start, width) && n > 0
    ensures FineVolume(prints, pair, width, start, n) ==
            FineVolume(prints, pair, width, start, n - 1)
            + TotalQty(Span(prints, pair, start + (n - 1) * width, start + (n - 1) * width + width))
  {
    MultiplePlus(start, width, n - 1);
    CandleIsSummary(prints, CandleKey(pair, width, start + (n - 1) * width));
  }

  lemma {:induction false} VolumesAddUp(prints: seq<Print>, pair: Pair, width: nat, start: nat, n: nat)
    requires width > 0 && Aligned(start, width)
    ensures FineVolume(prints, pair, width, start, n) == TotalQty(Span(prints, pair, start, start + n * width))
  {
    if n == 0 {
      EmptySpan(prints, pair, start);
    } else {
      var lo := start + (n - 1) * width;
      VolumesAddUp(prints, pair, width, start, n - 1);
      NextVolume(prints, pair, width, start, n);
      OneMoreWidth(start, width, n);
      SpanSplits(prints, pair, start, lo, lo + width);
    }
  }

  lemma {:induction false} SpanHas(prints: seq<Print>, pair: Pair, lo: nat, hi: nat)
    ensures forall p :: p in Span(prints, pair, lo, hi) <==> p in prints && InSpan(p, pair, lo, hi)
  {
    if prints != [] {
      SpanHas(prints[..|prints| - 1], pair, lo, hi);
      assert prints == prints[..|prints| - 1] + [prints[|prints| - 1]];
    }
  }

  lemma HighOf(high: int, prints: seq<Print>) returns (p: Print)
    requires IsHigh(high, prints)
    ensures p in prints && p.Price() == high && forall q :: q in prints ==> q.Price() <= high
  {
    var i :| 0 <= i < |prints| && prints[i].Price() == high;
    p := prints[i];
  }

  lemma LowOf(low: int, prints: seq<Print>) returns (p: Print)
    requires IsLow(low, prints)
    ensures p in prints && p.Price() == low && forall q :: q in prints ==> low <= q.Price()
  {
    var i :| 0 <= i < |prints| && prints[i].Price() == low;
    p := prints[i];
  }

  /** The fine bucket, counted from `start`, that a time falls in. */
  lemma FineIndex(seconds: nat, width: nat, start: nat, n: nat) returns (j: nat)
    requires width > 0 && start <= seconds < start + n * width
    ensures j < n && start + j * width <= seconds < start + j * width + width
  {
    j := (seconds - start) / width;
    assert j * width <= seconds - start < j * width + width;
    MultiplesOrdered(n, j, width);
  }

  lemma MultiplesOrdered(n: nat, j: nat, width: nat)
    ensures n <= j ==> n * width <= j * width
  {
  }

  lemma FineWithin(width: nat, n: nat, j: nat)
    requires j < n
    ensures j * width + width <= n * width
  {
    assert (j + 1) * width <= n * width;
    assert (j + 1) * width == j * width + width;
  }

  function Fine(prints: seq<Print>, pair: Pair, width: nat, start: nat, j: nat): Option<Candle> {
    Rolled(None, prints, CandleKey(pair, width, start + j * width))
  }

  /** Fine candle `j` holds the first of the trades: no earlier one holds any, if time never ran backwards. */
  ghost predicate OpensWith(coarse: Candle, prints: seq<Print>, pair: Pair, width: nat, start: nat, j: nat) {
    && Fine(prints, pair, width, start, j).Some?
    && Fine(prints, pair, width, start, j).value.open == coarse.open
    && (InTimeOrder(prints) ==> forall i :: 0 <= i < j ==> Fine(prints, pair, width, start, i).None?)
  }

  ghost predicate ClosesWith(coarse: Candle, prints: seq<Print>, pair: Pair, width: nat, start: nat, n: nat, j: nat) {
    && Fine(prints, pair, width, start, j).Some?
    && Fine(prints, pair, width, start, j).value.close == coarse.close
    && (InTimeOrder(prints) ==> forall i :: j < i < n ==> Fine(prints, pair, width, start, i).None?)
  }

  /** `coarse` is the merge of the `n` fine candles from `start` on. */
  ghost predicate Merges(coarse: Option<Candle>, prints: seq<Print>, pair: Pair, width: nat, start: nat, n: nat) {
    && (coarse.Some? <==> exists j :: 0 <= j < n && Fine(prints, pair, width, start, j).Some?)
    && (coarse.Some? ==>
          && coarse.value.volume == FineVolume(prints, pair, width, start, n)
          && (forall j :: 0 <= j < n && Fine(prints, pair, width, start, j).Some? ==>
                && Fine(prints, pair, width, start, j).value.high <= coarse.value.high
                && coarse.value.low <= Fine(prints, pair, width, start, j).value.low)
          && (exists j :: 0 <= j < n && Fine(prints, pair, width, start, j).Some?
                          && Fine(prints, pair, width, start, j).value.high == coarse.value.high)
          && (exists j :: 0 <= j < n && Fine(prints, pair, width, start, j).Some?
                          && Fine(prints, pair, width, start, j).value.low == coarse.value.low)
          && (exists j :: 0 <= j < n && OpensWith(coarse.value, prints, pair, width, start, j))
          && (exists j :: 0 <= j < n && ClosesWith(coarse.value, prints, pair, width, start, n, j)))
  }

  /** Fewer trades, narrower range. */
  lemma RangeWithin(fine: Candle, fines: seq<Print>, coarse: Option<Candle>, coarses: seq<Print>)
    requires fines != [] && Summarises(Some(fine), fines) && Summarises(coarse, coarses)
    requires forall p :: p in fines ==> p in coarses
    ensures coarse.Some? && fine.high <= coarse.value.high && coarse.value.low <= fine.low
  {
    var p := HighOf(fine.high, fines);
    var q := LowOf(fine.low, fines);
    assert p in coarses;
    var _ := HighOf(coarse.value.high, coarses);
    var _ := LowOf(coarse.value.low, coarses);
  }

  lemma FineSummary(prints: seq<Print>, pair: Pair, width: nat, start: nat, j: nat)
    requires width > 0 && Aligned(start, width)
    ensures Summarises(Fine(prints, pair, width, start, j),
                       Span(prints, pair, start + j * width, start + j * width + width))
  {
    MultiplePlus(start, width, j);
    CandleIsSummary(prints, CandleKey(pair, width, start + j * width));
  }

  /** One fine candle against the coarse one that contains it. */
  lemma FineInsideCoarse(prints: seq<Print>, pair: Pair, width: nat, start: nat, n: nat, j: nat, coarse: Option<Candle>)
    requires width > 0 && Aligned(start, width) && j < n
    requires Summarises(coarse, Span(prints, pair, start, start + n * width))
    ensures Summarises(Fine(prints, pair, width, start, j),
                       Span(prints, pair, start + j * width, start + j * width + width))
    ensures Fine(prints, pair, width, start, j).Some? ==>
              coarse.Some? && Fine(prints, pair, width, start, j).value.high <= coarse.value.high
              && coarse.value.low <= Fine(prints, pair, width, start, j).value.low
  {
    var lo, hi := start + j * width, start + n * width;
    FineSummary(prints, pair, width, start, j);
    FineWithin(width, n, j);
    SpanHas(prints, pair, lo, lo + width);
    SpanHas(prints, pair, start, hi);
    var fine := Fine(prints, pair, width, start, j);
    if fine.Some? {
      RangeWithin(fine.value, Span(prints, pair, lo, lo + width), coarse, Span(prints, pair, start, hi));
    }
  }

  /** A trade of the coarse span belongs to some fine candle. */
  lemma FineOf(prints: seq<Print>, pair: Pair, width: nat, start: nat, n: nat, p: Print) returns (j: nat)
    requires width > 0 && p in Span(prints, pair, start, start + n * width)
    ensures j < n && p in Span(prints, pair, start + j * width, start + j * width + width)
  {
    SpanHas(prints, pair, start, start + n * width);
    j := FineIndex(p.Seconds(), width, start, n);
    SpanHas(prints, pair, start + j * width, start + j * width + width);
  }

  /** Since each width divides the next, a coarse candle is the merge of the fine ones inside it. */
  lemma CoarseMergesFine(prints: seq<Print>, pair: Pair, width: nat, start: nat, n: nat)
    requires width > 0 && n > 0 && Aligned(start, n * width)
    ensures Merges(Rolled(None, prints, CandleKey(pair, n * width, start)), prints, pair, width, start, n)
  {
    FineStart(start, width, n);
    var hi := start + n * width;
    var coarse := Rolled(None, prints, CandleKey(pair, n * width, start));
    CandleIsSummary(prints, CandleKey(pair, n * width, start));
    VolumesAddUp(prints, pair, width, start, n);
    forall j | 0 <= j < n
      ensures Summarises(Fine(prints, pair, width, start, j),
                         Span(prints, pair, start + j * width, start + j * width + width))
      ensures Fine(prints, pair, width, start, j).Some? ==>
                coarse.Some? && Fine(prints, pair, width, start, j).value.high <= coarse.value.high
                && coarse.value.low <= Fine(prints, pair, width, start, j).value.low
    {
      FineInsideCoarse(prints, pair, width, start, n, j, coarse);
    }
    if coarse.Some? {
      ExtremesAttained(prints, pair, width, start, n, coarse.value);
      OpenAttained(prints, pair, width, start, n, coarse.value);
      CloseAttained(prints, pair, width, start, n, coarse.value);
    }
  }

  lemma ExtremesAttained(prints: seq<Print>, pair: Pair, width: nat, start: nat, n: nat, coarse: Candle)
    requires width > 0 && n > 0 && Aligned(start, width)
    requires Summarises(Some(coarse), Span(prints, pair, start, start + n * width))
    ensures exists j :: 0 <= j < n && Fine(prints, pair, width, start, j).Some?
                        && Fine(prints, pair, width, start, j).value.high == coarse.high
    ensures exists j :: 0 <= j < n && Fine(prints, pair, width, start, j).Some?
                        && Fine(prints, pair, width, start, j).value.low == coarse.low
  {
    var span := Span(prints, pair, start, start + n * width);
    var p := HighOf(coarse.high, span);
    var q := LowOf(coarse.low, span);
    var i := FineOf(prints, pair, width, start, n, p);
    FineInsideCoarse(prints, pair, width, start, n, i, Some(coarse));
    var fine := Fine(prints, pair, width, start, i);
    var _ := HighOf(fine.value.high, Span(prints, pair, start + i * width, start + i * width + width));
    assert fine.value.high == coarse.high;
    var j := FineOf(prints, pair, width, start, n, q);
    FineInsideCoarse(prints, pair, width, start, n, j, Some(coarse));
    var fine' := Fine(prints, pair, width, start, j);
    var _ := LowOf(fine'.value.low, Span(prints, pair, start + j * width, start + j * width + width));
    assert fine'.value.low == coarse.low;
  }

  // ----- first and last trade -----

  /** The stamps never go back. */
  ghost predicate InTimeOrder(prints: seq<Print>) {
    forall i, j :: 0 <= i < j < |prints| ==> prints[i].Seconds() <= prints[j].Seconds()
  }

  /** A narrower span that contains the first (the last) trade of a wider one starts (ends) with it. */
  lemma {:induction false} SpanEnds(prints: seq<Print>, pair: Pair, lo: nat, hi: nat, lo': nat, hi': nat)
    requires lo <= lo' && hi' <= hi
    ensures var wide, narrow := Span(prints, pair, lo, hi), Span(prints, pair, lo', hi');
            && (wide == [] ==> narrow == [])
            && (wide != [] && InSpan(wide[0], pair, lo', hi') ==> narrow != [] && narrow[0] == wide[0])
            && (wide != [] && InSpan(wide[|wide| - 1], pair, lo', hi') ==>
                  narrow != [] && narrow[|narrow| - 1] == wide[|wide| - 1])
  {
    if prints != [] {
      SpanEnds(prints[..|prints| - 1], pair, lo, hi, lo', hi');
    }
  }

  lemma {:induction false} SpanInOrder(prints: seq<Print>, pair: Pair, lo: nat, hi: nat)
    requires InTimeOrder(prints)
    ensures var span := Span(prints, pair, lo, hi);
            forall p :: p in span ==> span[0].Seconds() <= p.Seconds() <= span[|span| - 1].Seconds()
  {
    if prints != [] {
      var init, last := prints[..|prints| - 1], prints[|prints| - 1];
      SpanInOrder(init, pair, lo, hi);
      SpanHas(init, pair, lo, hi);
      var span := Span(init, pair, lo, hi);
      forall p | p in span ensures p.Seconds() <= last.Seconds() {
        assert p in init;
        var i :| 0 <= i < |init| && init[i] == p;
        assert prints[i] == p;
      }
    }
  }

  /** A fine candle with a trade reaches past the first one and does not start after the last. */
  lemma FineOverlaps(prints: seq<Print>, pair: Pair, width: nat, start: nat, n: nat, i: nat)
    requires width > 0 && Aligned(start, width) && i < n && InTimeOrder(prints)
    requires Span(prints, pair, start, start + n * width) != []
    ensures var span := Span(prints, pair, start, start + n * width);
            Fine(prints, pair, width, start, i).Some? ==>
              span[0].Seconds() < start + i * width + width && start + i * width <= span[|span| - 1].Seconds()
  {
    var lo := start + i * width;
    var narrow := Span(prints, pair, lo, lo + width);
    FineSummary(prints, pair, width, start, i);
    FineWithin(width, n, i);
    SpanHas(prints, pair, lo, lo + width);
    SpanHas(prints, pair, start, start + n * width);
    SpanInOrder(prints, pair, start, start + n * width);
    if narrow != [] {
      assert narrow[0] in narrow;
    }
  }

  lemma MultipleBefore(width: nat, i: nat, j: nat)
    requires i < j
    ensures i * width + width <= j * width
  {
    assert (i + 1) * width <= j * width;
    assert (i + 1) * width == i * width + width;
  }

  lemma NoneBefore(prints: seq<Print>, pair: Pair, width: nat, start: nat, n: nat, j: nat, i: nat)
    requires width > 0 && Aligned(start, width) && i < j < n && InTimeOrder(prints)
    requires var span := Span(prints, pair, start, start + n * width);
             span != [] && start + j * width <= span[0].Seconds()
    ensures Fine(prints, pair, width, start, i).None?
  {
    MultipleBefore(width, i, j);
    FineOverlaps(prints, pair, width, start, n, i);
  }

  lemma NoneAfter(prints: seq<Print>, pair: Pair, width: nat, start: nat, n: nat, j: nat, i: nat)
    requires width > 0 && Aligned(start, width) && j < i < n && InTimeOrder(prints)
    requires var span := Span(prints, pair, start, start + n * width);
             span != [] && span[|span| - 1].Seconds() < start + j * width + width
    ensures Fine(prints, pair, width, start, i).None?
  {
    MultipleBefore(width, j, i);
    FineOverlaps(prints, pair, width, start, n, i);
  }

  /** The fine candle that contains the first (the last) trade opens (closes) with it. */
  lemma FineEnds(prints: seq<Print>, pair: Pair, width: nat, start: nat, n: nat, j: nat)
    requires width > 0 && Aligned(start, width) && j < n
    ensures var span, fine := Span(prints, pair, start, start + n * width), Fine(prints, pair, width, start, j);
            var lo := start + j * width;
            && (span != [] && InSpan(span[0], pair, lo, lo + width) ==> fine.Some? && fine.value.open == span[0].Price())
            && (span != [] && InSpan(span[|span| - 1], pair, lo, lo + width) ==>
                  fine.Some? && fine.value.close == span[|span| - 1].Price())
  {
    FineWithin(width, n, j);
    SpanEnds(prints, pair, start, start + n * width, start + j * width, start + j * width + width);
    FineSummary(prints, pair, width, start, j);
  }

  lemma OpenAttained(prints: seq<Print>, pair: Pair, width: nat, start: nat, n: nat, coarse: Candle)
    requires width > 0 && Aligned(start, width)
    requires Summarises(Some(coarse), Span(prints, pair, start, start + n * width))
    ensures exists j :: 0 <= j < n && OpensWith(coarse, prints, pair, width, start, j)
  {
    var span := Span(prints, pair, start, start + n * width);
    var j := FineOf(prints, pair, width, start, n, span[0]);
    SpanHas(prints, pair, start + j * width, start + j * width + width);
    FineEnds(prints, pair, width, start, n, j);
    if InTimeOrder(prints) {
      forall i | 0 <= i < j ensures Fine(prints, pair, width, start, i).None? {
        NoneBefore(prints, pair, width, start, n, j, i);
      }
    }
    assert OpensWith(coarse, prints, pair, width, start, j);
  }

  lemma CloseAttained(prints: seq<Print>, pair: Pair, width: nat, start: nat, n: nat, coarse: Candle)
    requires width > 0 && Aligned(start, width)
    requires Summarises(Some(coarse), Span(prints, pair, start, start + n * width))
    ensures exists j :: 0 <= j < n && ClosesWith(coarse, prints, pair, width, start, n, j)
  {
    var span := Span(prints, pair, start, start + n * width);
    var j := FineOf(prints, pair, width, start, n, span[|span| - 1]);
    SpanHas(prints, pair, start + j * width, start + j * width + width);
    FineEnds(prints, pair, width, start, n, j);
    if InTimeOrder(prints) {
      forall i | j < i < n ensures Fine(prints, pair, width, start, i).None? {
        NoneAfter(prints, pair, width, start, n, j, i);
      }
    }
    assert ClosesWith(coarse, prints, pair, width, start, n, j);
  }

  lemma FineStart(start: nat, width: nat, n: nat)
    requires width > 0 && n > 0 && Aligned(start, n * width)
    ensures Aligned(start, width)
  {
    var q: nat :| start == q * (n * width);
    assert start == (q * n) * width;
  }

  /** Each maintained width is a whole number of every finer one. */
  lemma WidthsNest(i: nat, j: nat)
    requires i <= j < |INTERVAL_WIDTHS|
    ensures INTERVAL_WIDTHS[i] > 0
    ensures INTERVAL_WIDTHS[j] == INTERVAL_WIDTHS[j] / INTERVAL_WIDTHS[i] * INTERVAL_WIDTHS[i]
  {
  }

  /** The rollup for any two maintained widths. */
  lemma RollupIsExact(prints: seq<Print>, pair: Pair, i: nat, j: nat, bucket: nat)
    requires i <= j < |INTERVAL_WIDTHS| && Aligned(bucket, INTERVAL_WIDTHS[j])
    ensures INTERVAL_WIDTHS[i] > 0
    ensures Merges(Rolled(None, prints, CandleKey(pair, INTERVAL_WIDTHS[j], bucket)), prints, pair,
                   INTERVAL_WIDTHS[i], bucket, INTERVAL_WIDTHS[j] / INTERVAL_WIDTHS[i])
  {
    WidthsNest(i, j);
    CoarseMergesFine(prints, pair, INTERVAL_WIDTHS[i], bucket, INTERVAL_WIDTHS[j] / INTERVAL_WIDTHS[i]);
  }
}
