/** Reset-aware totals over sampled counters, their distribution into slots, and
    latency quantiles (dashboard/series.js). A sample row is cut down to one
    gauge and one cumulative counter; the other columns are treated alike. */
module Series {
  import opened Wrappers

  datatype Row = Row(ts: int, gauge: int, counter: int)

  /** A counter that went backwards restarted. */
  function Step(prev: Row, cur: Row): int {
    if cur.counter - prev.counter < 0 then 0 else cur.counter - prev.counter
  }

  function Total(rows: seq<Row>): int {
    if |rows| <= 1 then 0 else Total(rows[..|rows| - 1]) + Step(rows[|rows| - 2], rows[|rows| - 1])
  }

  method WindowTotal(rows: seq<Row>) returns (total: int)
    ensures total == Total(rows)
  {
    total := 0;
    var i := 1;
    while i < |rows|
      invariant 1 <= i && (i <= |rows| || |rows| == 0)
      invariant |rows| > 0 ==> total == Total(rows[..i])
      invariant |rows| == 0 ==> total == 0
    {
      total := total + Step(rows[i - 1], rows[i]);
      assert rows[..i + 1][..i] == rows[..i];
      i := i + 1;
    }
    if |rows| > 0 {
      assert rows[..i] == rows;
    }
  }

  // ------------------------------------------------- what really happened

  /** The life of a counter: it grows, restarts at zero, and is sampled. */
  datatype Moment = Grow(n: nat) | Restart | Sample(ts: int, gauge: int)

  function Rows(life: seq<Moment>, counter: nat): seq<Row> {
    if life == [] then []
    else
      match life[0]
      case Grow(n) => Rows(life[1..], counter + n)
      case Restart => Rows(life[1..], 0)
      case Sample(ts, gauge) => [Row(ts, gauge, counter)] + Rows(life[1..], counter)
  }

  predicate HasSample(life: seq<Moment>) {
    life != [] && (life[0].Sample? || HasSample(life[1..]))
  }

  /** Growth before the last sample. */
  function GrowthSeen(life: seq<Moment>): nat {
    if life == [] || !HasSample(life) then 0
    else (if life[0].Grow? then life[0].n else 0) + GrowthSeen(life[1..])
  }

  predicate NoRestart(life: seq<Moment>) {
    life == [] || (!life[0].Restart? && NoRestart(life[1..]))
  }

  /** The true growth between the first and the last sample of a life. */
  function TrueGrowth(life: seq<Moment>): nat {
    if life == [] then 0
    else if life[0].Sample? then GrowthSeen(life[1..])
    else TrueGrowth(life[1..])
  }

  /** No restart between the first and the last sample. */
  predicate UninterruptedWindow(life: seq<Moment>) {
    life == []
    || (if life[0].Sample? then NoRestartSeen(life[1..]) else UninterruptedWindow(life[1..]))
  }

  predicate NoRestartSeen(life: seq<Moment>) {
    !HasSample(life) || (!life[0].Restart? && NoRestartSeen(life[1..]))
  }

  /** The sum of steps, read from the front. */
  function TotalAfter(prev: Row, rows: seq<Row>): int
    decreases |rows|
  {
    if rows == [] then 0 else Step(prev, rows[0]) + TotalAfter(rows[0], rows[1..])
  }

  lemma {:induction false} TotalFromFront(prev: Row, rows: seq<Row>)
    ensures Total([prev] + rows) == TotalAfter(prev, rows)
    decreases |rows|
  {
    if |rows| > 0 {
      TotalSplit([prev], rows);
      TotalFromFront(rows[0], rows[1..]);
      assert [rows[0]] + rows[1..] == rows;
      assert Total([prev]) == 0;
    }
  }

  lemma {:induction false} TotalSplit(xs: seq<Row>, ys: seq<Row>)
    requires xs != [] && ys != []
    ensures Total(xs + ys) == Total(xs) + Step(xs[|xs| - 1], ys[0]) + Total(ys)
    decreases |ys|
  {
    var all, n := xs + ys, |ys| - 1;
    assert all[..|all| - 1] == xs + ys[..n];
    if n > 0 {
      TotalSplit(xs, ys[..n]);
    } else {
      assert xs + ys[..0] == xs;
      assert Total(ys) == 0;
    }
  }

  lemma {:induction false} NoSampleNoRows(life: seq<Moment>, counter: nat)
    requires !HasSample(life)
    ensures Rows(life, counter) == []
  {
    if life != [] {
      NoSampleNoRows(life[1..], match life[0] case Grow(n) => counter + n case _ => 0);
    }
  }

  /** After a sample of `prev`, with true growth `pending` since then. */
  lemma {:induction false} StepsNeverExceedGrowth(prev: Row, life: seq<Moment>, counter: nat, pending: nat)
    requires prev.counter >= 0 && counter <= prev.counter + pending
    ensures HasSample(life) ==> TotalAfter(prev, Rows(life, counter)) <= pending + GrowthSeen(life)
    ensures HasSample(life) && NoRestartSeen(life) && counter == prev.counter + pending ==>
              TotalAfter(prev, Rows(life, counter)) == pending + GrowthSeen(life)
    decreases |life|
  {
    if HasSample(life) {
      match life[0]
      case Grow(n) => StepsNeverExceedGrowth(prev, life[1..], counter + n, pending + n);
      case Restart => StepsNeverExceedGrowth(prev, life[1..], 0, pending);
      case Sample(ts, gauge) =>
        var row := Row(ts, gauge, counter);
        var rest := Rows(life[1..], counter);
        assert ([row] + rest)[1..] == rest;
        if HasSample(life[1..]) {
          StepsNeverExceedGrowth(row, life[1..], counter, 0);
        } else {
          NoSampleNoRows(life[1..], counter);
        }
    }
  }

  /** For every life of a counter, sampled at arbitrary moments: the window total
      never exceeds the true growth, and equals it if nothing restarted. */
  lemma {:induction false} TotalIsResetAware(life: seq<Moment>, counter: nat)
    ensures Total(Rows(life, counter)) <= TrueGrowth(life)
    ensures UninterruptedWindow(life) ==> Total(Rows(life, counter)) == TrueGrowth(life)
  {
    if life != [] {
      match life[0]
      case Grow(n) => TotalIsResetAware(life[1..], counter + n);
      case Restart => TotalIsResetAware(life[1..], 0);
      case Sample(ts, gauge) =>
        var row := Row(ts, gauge, counter);
        var rest := Rows(life[1..], counter);
        TotalFromFront(row, rest);
        if HasSample(life[1..]) {
          StepsNeverExceedGrowth(row, life[1..], counter, 0);
        } else {
          NoSampleNoRows(life[1..], counter);
        }
    }
  }

  // ---------------------------------------------------------------- slots

  /** The slot of a timestamp: the window is cut into equal slots, and what lies
      outside falls into the first or the last. */
  function Slot(ts: int, fromMs: int, toMs: int, buckets: nat): (i: int)
    requires buckets > 0
    ensures 0 <= i < buckets
  {
    var span := if toMs - fromMs > 1 then toMs - fromMs else 1;
    var f := ((ts - fromMs) as real / (span as real / buckets as real)).Floor;
    if f < 0 then 0 else if f > buckets - 1 then buckets - 1 else f
  }

  /** In integers, for every window and timestamp: the slot is the one whose share of
      the window the timestamp lies in, and the first and the last slot also take
      what lies before and after. */
  lemma SlotExactly(ts: int, fromMs: int, toMs: int, buckets: nat, i: int)
    requires buckets > 0 && 0 <= i < buckets
    ensures var span := if fromMs < toMs then toMs - fromMs else 1;
            Slot(ts, fromMs, toMs, buckets) == i
            <==> && (i == 0 || i * span <= (ts - fromMs) * buckets)
                 && (i == buckets - 1 || (ts - fromMs) * buckets < (i + 1) * span)
  {
    var span := if fromMs < toMs then toMs - fromMs else 1;
    var f := ((ts - fromMs) as real / (span as real / buckets as real)).Floor;
    FloorOfShare(ts - fromMs, span, buckets, f);
    if f < i {
      ShareOrder(f + 1, i, span);
    } else if f > i {
      ShareOrder(i + 1, f, span);
    }
  }

  lemma ShareOrder(a: int, b: int, span: int)
    requires a <= b && span > 0
    ensures a * span <= b * span
  {
  }

  /** floor(x / (span / n)), without the fractions. */
  lemma FloorOfShare(x: int, span: int, n: nat, f: int)
    requires span > 0 && n > 0 && f == (x as real / (span as real / n as real)).Floor
    ensures f * span <= x * n < (f + 1) * span
  {
    var w, a, b := span as real / n as real, f as real, (f + 1) as real;
    var y := x as real / w;
    assert w > 0.0 && w * n as real == span as real;
    Divided(x as real, w);
    ScaledUp(a, y, b, w);
    ScaledUp(a * w, y * w, b * w, n as real);
    Regrouped(a, w, n as real);
    Regrouped(b, w, n as real);
    assert a * span as real == (f * span) as real && b * span as real == ((f + 1) * span) as real;
  }

  lemma Divided(x: real, w: real)
    requires w > 0.0
    ensures x / w * w == x
  {
  }

  lemma Regrouped(a: real, w: real, n: real)
    ensures a * w * n == a * (w * n)
  {
  }

  lemma ScaledUp(a: real, y: real, b: real, w: real)
    requires a <= y < b && w > 0.0
    ensures a * w <= y * w < b * w
  {
  }

  /** A later timestamp is never in an earlier slot. */
  lemma SlotNeverFalls(s: int, t: int, fromMs: int, toMs: int, buckets: nat)
    requires buckets > 0 && s <= t
    ensures Slot(s, fromMs, toMs, buckets) <= Slot(t, fromMs, toMs, buckets)
  {
    var span := if fromMs < toMs then toMs - fromMs else 1;
    var i, j := Slot(s, fromMs, toMs, buckets), Slot(t, fromMs, toMs, buckets);
    SlotExactly(s, fromMs, toMs, buckets, i);
    SlotExactly(t, fromMs, toMs, buckets, j);
    ShareOrder(s - fromMs, t - fromMs, buckets);
    if j < i {
      ShareOrder(j + 1, i, span);
    }
  }

  function SlotCount(rows: seq<Row>, fromMs: int, toMs: int, buckets: nat, i: int): nat
    requires buckets > 0
  {
    if rows == [] then 0
    else
      SlotCount(rows[..|rows| - 1], fromMs, toMs, buckets, i)
      + if Slot(rows[|rows| - 1].ts, fromMs, toMs, buckets) == i then 1 else 0
  }

  function SlotGauge(rows: seq<Row>, fromMs: int, toMs: int, buckets: nat, i: int): int
    requires buckets > 0
  {
    if rows == [] then 0
    else
      SlotGauge(rows[..|rows| - 1], fromMs, toMs, buckets, i)
      + if Slot(rows[|rows| - 1].ts, fromMs, toMs, buckets) == i then rows[|rows| - 1].gauge else 0
  }

  /** The steps whose later sample lies in slot `i`. */
  function SlotTotal(rows: seq<Row>, fromMs: int, toMs: int, buckets: nat, i: int): int
    requires buckets > 0
  {
    if |rows| <= 1 then 0
    else
      SlotTotal(rows[..|rows| - 1], fromMs, toMs, buckets, i)
      + if Slot(rows[|rows| - 1].ts, fromMs, toMs, buckets) == i then Step(rows[|rows| - 2], rows[|rows| - 1]) else 0
  }

  function Elapsed(prev: Row, cur: Row): int {
    if cur.ts - prev.ts < 0 then 0 else cur.ts - prev.ts
  }

  function SlotElapsed(rows: seq<Row>, fromMs: int, toMs: int, buckets: nat, i: int): int
    requires buckets > 0
  {
    if |rows| <= 1 then 0
    else
      SlotElapsed(rows[..|rows| - 1], fromMs, toMs, buckets, i)
      + if Slot(rows[|rows| - 1].ts, fromMs, toMs, buckets) == i then Elapsed(rows[|rows| - 2], rows[|rows| - 1]) else 0
  }

  /** Averages of a gauge and per-minute rates of a counter, slot by slot; a slot
      that saw nothing is a gap. */
  method Bucketize(rows: seq<Row>, fromMs: int, toMs: int, buckets: nat)
    returns (gauges: seq<Option<real>>, rates: seq<Option<real>>)
    requires buckets > 0
    ensures |gauges| == buckets && |rates| == buckets
    ensures forall i :: 0 <= i < buckets ==>
              var n := SlotCount(rows, fromMs, toMs, buckets, i);
              gauges[i] == if n > 0 then Some(SlotGauge(rows, fromMs, toMs, buckets, i) as real / n as real) else None
    ensures forall i :: 0 <= i < buckets ==>
              var ms := SlotElapsed(rows, fromMs, toMs, buckets, i);
              rates[i] == if ms > 0 then Some(SlotTotal(rows, fromMs, toMs, buckets, i) as real / ms as real * 60000.0) else None
  {
    var sums, counts := AccumulateGauges(rows, fromMs, toMs, buckets);
    var totals, elapsed := AccumulateRates(rows, fromMs, toMs, buckets);
    gauges, rates := [], [];
    for i := 0 to buckets
      invariant |gauges| == i && |rates| == i
      invariant forall j :: 0 <= j < i ==> gauges[j] == if counts[j] > 0 then Some(sums[j] as real / counts[j] as real) else None
      invariant forall j :: 0 <= j < i ==>
                  rates[j] == if elapsed[j] > 0 then Some(totals[j] as real / elapsed[j] as real * 60000.0) else None
    {
      gauges := gauges + [if counts[i] > 0 then Some(sums[i] as real / counts[i] as real) else None];
      rates := rates + [if elapsed[i] > 0 then Some(totals[i] as real / elapsed[i] as real * 60000.0) else None];
    }
  }

  method AccumulateGauges(rows: seq<Row>, fromMs: int, toMs: int, buckets: nat) returns (sums: array<int>, counts: array<int>)
    requires buckets > 0
    ensures fresh(sums) && fresh(counts) && sums.Length == buckets && counts.Length == buckets
    ensures forall i :: 0 <= i < buckets ==>
              sums[i] == SlotGauge(rows, fromMs, toMs, buckets, i) && counts[i] == SlotCount(rows, fromMs, toMs, buckets, i)
  {
    sums := new int[buckets](_ => 0);
    counts := new int[buckets](_ => 0);
    for k := 0 to |rows|
      invariant forall i :: 0 <= i < buckets ==>
                  && sums[i] == SlotGauge(rows[..k], fromMs, toMs, buckets, i)
                  && counts[i] == SlotCount(rows[..k], fromMs, toMs, buckets, i)
    {
      var b := Slot(rows[k].ts, fromMs, toMs, buckets);
      assert rows[..k + 1][..k] == rows[..k];
      sums[b] := sums[b] + rows[k].gauge;
      counts[b] := counts[b] + 1;
    }
    assert rows[..|rows|] == rows;
  }

  method AccumulateRates(rows: seq<Row>, fromMs: int, toMs: int, buckets: nat) returns (totals: array<int>, elapsed: array<int>)
    requires buckets > 0
    ensures fresh(totals) && fresh(elapsed) && totals.Length == buckets && elapsed.Length == buckets
    ensures forall i :: 0 <= i < buckets ==>
              totals[i] == SlotTotal(rows, fromMs, toMs, buckets, i) && elapsed[i] == SlotElapsed(rows, fromMs, toMs, buckets, i)
  {
    totals := new int[buckets](_ => 0);
    elapsed := new int[buckets](_ => 0);
    if |rows| == 0 {
      return;
    }
    for k := 1 to |rows|
      invariant forall i :: 0 <= i < buckets ==>
                  && totals[i] == SlotTotal(rows[..k], fromMs, toMs, buckets, i)
                  && elapsed[i] == SlotElapsed(rows[..k], fromMs, toMs, buckets, i)
    {
      var b := Slot(rows[k].ts, fromMs, toMs, buckets);
      assert rows[..k + 1][..k] == rows[..k];
      totals[b] := totals[b] + Step(rows[k - 1], rows[k]);
      elapsed[b] := elapsed[b] + Elapsed(rows[k - 1], rows[k]);
    }
    assert rows[..|rows|] == rows;
  }

  // ------------------------------------------ what a slot shows, and of what

  function GaugeSum(rows: seq<Row>): int {
    if rows == [] then 0 else GaugeSum(rows[..|rows| - 1]) + rows[|rows| - 1].gauge
  }

  predicate InOrder(rows: seq<Row>) {
    forall j, k :: 0 <= j < k < |rows| ==> rows[j].ts <= rows[k].ts
  }

  predicate AllIn(rows: seq<Row>, fromMs: int, toMs: int, buckets: nat, i: int)
    requires buckets > 0
  {
    forall k :: 0 <= k < |rows| ==> Slot(rows[k].ts, fromMs, toMs, buckets) == i
  }

  predicate NoneIn(rows: seq<Row>, fromMs: int, toMs: int, buckets: nat, i: int)
    requires buckets > 0
  {
    forall k :: 0 <= k < |rows| ==> Slot(rows[k].ts, fromMs, toMs, buckets) != i
  }

  /** The sample just before a stretch, if there is one, and the stretch. */
  function SinceBefore(before: seq<Row>, stretch: seq<Row>): seq<Row> {
    if before == [] then stretch else [before[|before| - 1]] + stretch
  }

  /** The time from the first to the last of some samples. */
  function Duration(rows: seq<Row>): int {
    if rows == [] then 0 else rows[|rows| - 1].ts - rows[0].ts
  }

  /** Slot `i` shows the samples of `stretch`: their number and the sum of their
      gauges, and of the counter the growth and the time over `seen`. */
  predicate Shows(rows: seq<Row>, stretch: seq<Row>, seen: seq<Row>, fromMs: int, toMs: int, buckets: nat, i: int)
    requires buckets > 0
  {
    && SlotCount(rows, fromMs, toMs, buckets, i) == |stretch|
    && SlotGauge(rows, fromMs, toMs, buckets, i) == GaugeSum(stretch)
    && SlotTotal(rows, fromMs, toMs, buckets, i) == Total(seen)
    && (InOrder(seen) ==> SlotElapsed(rows, fromMs, toMs, buckets, i) == Duration(seen))
  }

  lemma LastOutside(rows: seq<Row>, last: Row, fromMs: int, toMs: int, buckets: nat, i: int,
                    stretch: seq<Row>, seen: seq<Row>)
    requires buckets > 0 && Slot(last.ts, fromMs, toMs, buckets) != i
    requires Shows(rows, stretch, seen, fromMs, toMs, buckets, i)
    ensures Shows(rows + [last], stretch, seen, fromMs, toMs, buckets, i)
  {
    assert (rows + [last])[..|rows|] == rows;
  }

  /** One more sample in the slot. */
  lemma ColumnsGrow(rows: seq<Row>, last: Row, fromMs: int, toMs: int, buckets: nat, i: int)
    requires buckets > 0 && Slot(last.ts, fromMs, toMs, buckets) == i
    ensures SlotCount(rows + [last], fromMs, toMs, buckets, i) == SlotCount(rows, fromMs, toMs, buckets, i) + 1
    ensures SlotGauge(rows + [last], fromMs, toMs, buckets, i) == SlotGauge(rows, fromMs, toMs, buckets, i) + last.gauge
    ensures SlotTotal(rows + [last], fromMs, toMs, buckets, i)
            == if rows == [] then 0 else SlotTotal(rows, fromMs, toMs, buckets, i) + Step(rows[|rows| - 1], last)
    ensures SlotElapsed(rows + [last], fromMs, toMs, buckets, i)
            == if rows == [] then 0 else SlotElapsed(rows, fromMs, toMs, buckets, i) + Elapsed(rows[|rows| - 1], last)
  {
    assert (rows + [last])[..|rows|] == rows;
  }

  lemma SumsGrow(rows: seq<Row>, last: Row)
    ensures GaugeSum(rows + [last]) == GaugeSum(rows) + last.gauge
    ensures Total(rows + [last]) == if rows == [] then 0 else Total(rows) + Step(rows[|rows| - 1], last)
    ensures InOrder(rows + [last]) ==>
              && InOrder(rows)
              && Duration(rows + [last]) == if rows == [] then 0 else Duration(rows) + Elapsed(rows[|rows| - 1], last)
  {
    var all := rows + [last];
    assert all[..|rows|] == rows;
    if rows != [] {
      assert all[|rows| - 1] == rows[|rows| - 1] && all[|rows|] == last;
    }
  }

  lemma SeenGrows(before: seq<Row>, front: seq<Row>, last: Row)
    ensures SinceBefore(before, front + [last]) == SinceBefore(before, front) + [last]
    ensures var rows, seen := before + front, SinceBefore(before, front);
            (rows == [] <==> seen == []) && (rows != [] ==> seen[|seen| - 1] == rows[|rows| - 1])
  {
  }

  lemma LastInside(before: seq<Row>, front: seq<Row>, rows: seq<Row>, last: Row, fromMs: int, toMs: int, buckets: nat, i: int)
    requires buckets > 0 && Slot(last.ts, fromMs, toMs, buckets) == i && rows == before + front
    requires Shows(rows, front, SinceBefore(before, front), fromMs, toMs, buckets, i)
    ensures Shows(rows + [last], front + [last], SinceBefore(before, front + [last]), fromMs, toMs, buckets, i)
  {
    SeenGrows(before, front, last);
    ColumnsGrow(rows, last, fromMs, toMs, buckets, i);
    SumsGrow(front, last);
    SumsGrow(SinceBefore(before, front), last);
  }

  lemma LastBefore(before: seq<Row>, last: Row, fromMs: int, toMs: int, buckets: nat, i: int)
    requires buckets > 0 && Slot(last.ts, fromMs, toMs, buckets) != i
    requires Shows(before, [], SinceBefore(before, []), fromMs, toMs, buckets, i)
    ensures Shows(before + [last], [], SinceBefore(before + [last], []), fromMs, toMs, buckets, i)
  {
    assert (before + [last])[..|before|] == before;
  }

  lemma {:induction false} NothingBefore(before: seq<Row>, fromMs: int, toMs: int, buckets: nat, i: int)
    requires buckets > 0 && NoneIn(before, fromMs, toMs, buckets, i)
    ensures Shows(before, [], SinceBefore(before, []), fromMs, toMs, buckets, i)
  {
    if before != [] {
      var front, last := before[..|before| - 1], before[|before| - 1];
      NothingBefore(front, fromMs, toMs, buckets, i);
      LastBefore(front, last, fromMs, toMs, buckets, i);
      assert before == front + [last];
    }
  }

  lemma {:induction false} UpToStretch(before: seq<Row>, stretch: seq<Row>, fromMs: int, toMs: int, buckets: nat, i: int)
    requires buckets > 0 && AllIn(stretch, fromMs, toMs, buckets, i) && NoneIn(before, fromMs, toMs, buckets, i)
    ensures Shows(before + stretch, stretch, SinceBefore(before, stretch), fromMs, toMs, buckets, i)
    decreases |stretch|
  {
    if stretch == [] {
      NothingBefore(before, fromMs, toMs, buckets, i);
      assert before + stretch == before;
    } else {
      var front, last := stretch[..|stretch| - 1], stretch[|stretch| - 1];
      var rows := before + front;
      assert stretch == front + [last] && before + stretch == rows + [last];
      UpToStretch(before, front, fromMs, toMs, buckets, i);
      LastInside(before, front, rows, last, fromMs, toMs, buckets, i);
    }
  }

  lemma {:induction false} NothingAfter(rows: seq<Row>, stretch: seq<Row>, seen: seq<Row>, after: seq<Row>,
                                        fromMs: int, toMs: int, buckets: nat, i: int)
    requires buckets > 0 && NoneIn(after, fromMs, toMs, buckets, i)
    requires Shows(rows, stretch, seen, fromMs, toMs, buckets, i)
    ensures Shows(rows + after, stretch, seen, fromMs, toMs, buckets, i)
    decreases |after|
  {
    if after == [] {
      assert rows + after == rows;
    } else {
      var front, last := after[..|after| - 1], after[|after| - 1];
      NothingAfter(rows, stretch, seen, front, fromMs, toMs, buckets, i);
      LastOutside(rows + front, last, fromMs, toMs, buckets, i, stretch, seen);
      assert rows + after == rows + front + [last];
    }
  }

  /** A slot shows the stretch of samples that lie in it, the counter since the
      sample before the stretch. */
  lemma SlotShowsItsStretch(before: seq<Row>, stretch: seq<Row>, after: seq<Row>,
                            fromMs: int, toMs: int, buckets: nat, i: int)
    requires buckets > 0 && AllIn(stretch, fromMs, toMs, buckets, i)
    requires NoneIn(before, fromMs, toMs, buckets, i) && NoneIn(after, fromMs, toMs, buckets, i)
    ensures var rows, seen := before + stretch + after, SinceBefore(before, stretch);
            && SlotCount(rows, fromMs, toMs, buckets, i) == |stretch|
            && SlotGauge(rows, fromMs, toMs, buckets, i) == GaugeSum(stretch)
            && SlotTotal(rows, fromMs, toMs, buckets, i) == Total(seen)
            && (InOrder(seen) ==> SlotElapsed(rows, fromMs, toMs, buckets, i) == Duration(seen))
  {
    UpToStretch(before, stretch, fromMs, toMs, buckets, i);
    NothingAfter(before + stretch, stretch, SinceBefore(before, stretch), after, fromMs, toMs, buckets, i);
  }

  /** Adding a column over the slots 0, ..., n - 1. */
  function Sum(column: int -> int, n: nat): int {
    if n == 0 then 0 else Sum(column, n - 1) + column(n - 1)
  }

  lemma {:induction false} SumPlusOne(a: int -> int, b: int -> int, n: nat, at: int, x: int)
    requires forall i :: 0 <= i < n ==> a(i) == b(i) + if i == at then x else 0
    ensures Sum(a, n) == Sum(b, n) + if 0 <= at < n then x else 0
  {
    if n > 0 {
      SumPlusOne(a, b, n - 1, at, x);
    }
  }

  lemma {:induction false} SumOfZeros(a: int -> int, n: nat)
    requires forall i :: 0 <= i < n ==> a(i) == 0
    ensures Sum(a, n) == 0
  {
    if n > 0 {
      SumOfZeros(a, n - 1);
    }
  }

  /** Slicing loses nothing: the slots of the counter add up to the window total
      and the sample counts to the number of rows. */
  lemma {:induction false} SlotsConserve(rows: seq<Row>, fromMs: int, toMs: int, buckets: nat)
    requires buckets > 0
    ensures Sum(i => SlotTotal(rows, fromMs, toMs, buckets, i), buckets) == Total(rows)
    ensures Sum(i => SlotCount(rows, fromMs, toMs, buckets, i), buckets) == |rows|
  {
    var total := i => SlotTotal(rows, fromMs, toMs, buckets, i);
    var count := i => SlotCount(rows, fromMs, toMs, buckets, i);
    if rows == [] {
      SumOfZeros(total, buckets);
      SumOfZeros(count, buckets);
    } else {
      var n := |rows| - 1;
      var front := rows[..n];
      SlotsConserve(front, fromMs, toMs, buckets);
      var total0 := i => SlotTotal(front, fromMs, toMs, buckets, i);
      var count0 := i => SlotCount(front, fromMs, toMs, buckets, i);
      var at := Slot(rows[n].ts, fromMs, toMs, buckets);
      SumPlusOne(count, count0, buckets, at, 1);
      if n == 0 {
        SumOfZeros(total, buckets);
      } else {
        SumPlusOne(total, total0, buckets, at, Step(rows[n - 1], rows[n]));
      }
    }
  }

  // ------------------------------------------------------------ quantiles

  const BOUNDS: seq<int> := [50, 100, 250, 500, 1000, 2500, 5000, 10000]

  /** Math.round. */
  function Round(x: real): int {
    (x + 0.5).Floor
  }

  /** A point of the segment from `lo` to `hi`, at `part` of `whole`. */
  function Between(lo: int, hi: int, part: real, whole: int): int
    requires whole > 0
  {
    Round(lo as real + (hi - lo) as real * (part / whole as real))
  }

  function CountBefore(cum: seq<int>, i: nat): int
    requires i <= |cum|
  {
    if i == 0 then 0 else cum[i - 1]
  }

  function BoundBefore(i: nat): int
    requires i <= |BOUNDS|
  {
    if i == 0 then 0 else BOUNDS[i - 1]
  }

  /** The estimate when the rank falls into bucket `i`. */
  function Estimate(rank: real, cum: seq<int>, i: nat): int
    requires |cum| == |BOUNDS| && i < |BOUNDS|
  {
    var inBucket := cum[i] - CountBefore(cum, i);
    if inBucket <= 0 then BOUNDS[i]
    else Between(BoundBefore(i), BOUNDS[i], rank - CountBefore(cum, i) as real, inBucket)
  }

  /** The first bucket whose cumulative count reaches the rank. */
  function HitBucket(rank: real, cum: seq<int>, i: nat): (k: nat)
    requires |cum| == |BOUNDS| && i <= |BOUNDS|
    ensures i <= k <= |BOUNDS|
    ensures k < |BOUNDS| ==> cum[k] as real >= rank
    ensures forall j :: i <= j < k ==> (cum[j] as real) < rank
    decreases |BOUNDS| - i
  {
    if i == |BOUNDS| || cum[i] as real >= rank then i else HitBucket(rank, cum, i + 1)
  }

  function Quantile(rank: real, cum: seq<int>): int
    requires |cum| == |BOUNDS|
  {
    var k := HitBucket(rank, cum, 0);
    if k == |BOUNDS| then BOUNDS[|BOUNDS| - 1] else Estimate(rank, cum, k)
  }

  method LatencyQuantile(q: real, cum: seq<int>, total: int) returns (ms: Option<int>)
    requires |cum| == |BOUNDS|
    ensures ms == if total > 0 then Some(Quantile(q * total as real, cum)) else None
  {
    if !(total > 0) {
      return None;
    }
    var rank := q * total as real;
    var estimate := ScanBuckets(rank, cum);
    ms := Some(estimate);
  }

  /** The loop of latencyQuantile. */
  method ScanBuckets(rank: real, cum: seq<int>) returns (ms: int)
    requires |cum| == |BOUNDS|
    ensures ms == Quantile(rank, cum)
  {
    var prevCount, prevBound := 0, 0;
    for i := 0 to |BOUNDS|
      invariant prevCount == CountBefore(cum, i) && prevBound == BoundBefore(i)
      invariant HitBucket(rank, cum, 0) == HitBucket(rank, cum, i)
    {
      if cum[i] as real >= rank {
        var inBucket := cum[i] - prevCount;
        if inBucket <= 0 {
          return BOUNDS[i];
        }
        return Between(prevBound, BOUNDS[i], rank - prevCount as real, inBucket);
      }
      prevCount := cum[i];
      prevBound := BOUNDS[i];
    }
    return BOUNDS[|BOUNDS| - 1];
  }

  lemma BetweenMonotone(lo: int, hi: int, x: real, y: real, whole: int)
    requires lo <= hi && 0.0 <= x <= y <= whole as real && whole > 0
    ensures lo <= Between(lo, hi, x, whole) <= Between(lo, hi, y, whole) <= hi
  {
    var w := whole as real;
    FractionsInOrder(x, y, w);
    var d, u, v := (hi - lo) as real, x / w, y / w;
    ProductsInOrder(d, u, v);
    RoundsInOrder(lo, hi, d * u, d * v);
  }

  lemma ProductsInOrder(w: real, a: real, b: real)
    requires w >= 0.0 && 0.0 <= a <= b <= 1.0
    ensures 0.0 <= w * a <= w * b <= w
  {
  }

  lemma FractionsInOrder(x: real, y: real, w: real)
    requires 0.0 <= x <= y <= w && w > 0.0
    ensures 0.0 <= x / w <= y / w <= 1.0
  {
  }

  lemma RoundsInOrder(lo: int, hi: int, p: real, q: real)
    requires 0.0 <= p <= q <= (hi - lo) as real
    ensures lo <= Round(lo as real + p) <= Round(lo as real + q) <= hi
  {
  }

  lemma {:induction false} BoundsGrow(i: nat, j: nat)
    requires i <= j < |BOUNDS|
    ensures 0 < BOUNDS[i] <= BOUNDS[j] <= BOUNDS[|BOUNDS| - 1]
  {
  }

  /** Within one bucket the estimate stays in its bounds and grows with the rank. */
  lemma EstimateMonotone(r: real, s: real, cum: seq<int>, k: nat)
    requires |cum| == |BOUNDS| && k < |BOUNDS|
    requires 0.0 <= r <= s <= cum[k] as real && (k > 0 ==> r > cum[k - 1] as real)
    ensures BoundBefore(k) <= Estimate(r, cum, k) <= Estimate(s, cum, k) <= BOUNDS[k]
  {
    if k > 0 {
      BoundsGrow(k - 1, k);
    } else {
      BoundsGrow(0, 0);
    }
    var before := CountBefore(cum, k);
    if cum[k] - before > 0 {
      BetweenMonotone(BoundBefore(k), BOUNDS[k], r - before as real, s - before as real, cum[k] - before);
    }
  }

  /** The estimate lies within the bounds of the bucket that the rank hits,
      whatever the counts (after a restart they need not be monotone). */
  lemma QuantileWithinBucket(rank: real, cum: seq<int>)
    requires |cum| == |BOUNDS| && rank >= 0.0
    ensures var k := HitBucket(rank, cum, 0);
            if k == |BOUNDS| then Quantile(rank, cum) == BOUNDS[|BOUNDS| - 1]
            else BoundBefore(k) <= Quantile(rank, cum) <= BOUNDS[k]
  {
    var k := HitBucket(rank, cum, 0);
    if k < |BOUNDS| {
      EstimateMonotone(rank, rank, cum, k);
    }
  }

  /** `ms` is, up to rounding, on the straight line from `lo` to `hi`, at `part` of
      `whole`. */
  predicate OnTheLine(ms: int, lo: int, hi: int, part: real, whole: real) {
    && ms as real * whole - whole / 2.0 <= lo as real * whole + (hi - lo) as real * part
    && lo as real * whole + (hi - lo) as real * part < ms as real * whole + whole / 2.0
  }

  /** In the first bucket that reaches the rank, the estimate is on the line from its
      lower bound, at the count before it, to its upper bound, at its own count; it is
      the upper bound if the bucket is empty. */
  lemma QuantileInterpolates(rank: real, cum: seq<int>, k: nat)
    requires |cum| == |BOUNDS| && k < |BOUNDS| && cum[k] as real >= rank
    requires forall j :: 0 <= j < k ==> (cum[j] as real) < rank
    ensures var lo, count := if k == 0 then 0 else BOUNDS[k - 1], if k == 0 then 0 else cum[k - 1];
            if cum[k] <= count then Quantile(rank, cum) == BOUNDS[k]
            else OnTheLine(Quantile(rank, cum), lo, BOUNDS[k], rank - count as real, (cum[k] - count) as real)
  {
    HitIsFirst(rank, cum, k, 0);
    var lo, hi, count := BoundBefore(k), BOUNDS[k], CountBefore(cum, k);
    if cum[k] > count {
      RoundIsNearest(lo, hi, rank - count as real, cum[k] - count);
    }
  }

  lemma {:induction false} HitIsFirst(rank: real, cum: seq<int>, k: nat, i: nat)
    requires |cum| == |BOUNDS| && i <= k < |BOUNDS| && cum[k] as real >= rank
    requires forall j :: i <= j < k ==> (cum[j] as real) < rank
    ensures HitBucket(rank, cum, i) == k
    decreases k - i
  {
    if i < k {
      HitIsFirst(rank, cum, k, i + 1);
    }
  }

  lemma RoundIsNearest(lo: int, hi: int, part: real, whole: int)
    requires whole > 0
    ensures OnTheLine(Between(lo, hi, part, whole), lo, hi, part, whole as real)
  {
    var w, d := whole as real, (hi - lo) as real;
    var y := d * (part / w);
    var ms := Between(lo, hi, part, whole) as real;
    Divided(part, w);
    Regrouped(d, part / w, w);
    assert y * w == d * part;
    ScaledUp(ms - 0.5, lo as real + y, ms + 0.5, w);
    Distributed(lo as real, y, w);
    Distributed(ms, 0.5, w);
    Distributed(ms, -0.5, w);
  }

  lemma Distributed(a: real, b: real, w: real)
    ensures (a + b) * w == a * w + b * w
  {
  }

  /** The estimate never decreases with q. */
  lemma QuantileMonotone(p: real, q: real, cum: seq<int>, total: int)
    requires |cum| == |BOUNDS| && 0.0 <= p <= q && total > 0
    ensures Quantile(p * total as real, cum) <= Quantile(q * total as real, cum)
  {
    var r, s := p * total as real, q * total as real;
    assert 0.0 <= r <= s;
    RankMonotone(r, s, cum);
  }

  lemma RankMonotone(r: real, s: real, cum: seq<int>)
    requires |cum| == |BOUNDS| && 0.0 <= r <= s
    ensures Quantile(r, cum) <= Quantile(s, cum)
  {
    var i, j := HitBucket(r, cum, 0), HitBucket(s, cum, 0);
    QuantileWithinBucket(r, cum);
    QuantileWithinBucket(s, cum);
    assert i <= j;
    if i < j {
      BoundsGrow(i, j - 1);
    } else if i < |BOUNDS| {
      EstimateMonotone(r, s, cum, i);
    }
  }
}
