/**
 The latency histogram against the full list of samples, and the collector's global counters
 against the sums over its endpoints.  Counters are unbounded and ranks are exact.
 */
module Metrics {
  import opened Util

  const BOUNDS: seq<nat> := [100, 250, 500, 1000, 2500, 5000, 10000, 25000, 50000, 100000]
  const NUM_BUCKETS: nat := 11

  // ------------------------------------------------------------------ buckets

  /** The first boundary at or above the sample, or the overflow bucket. */
  function BucketFrom(x: nat, i: nat): (k: nat)
    requires i <= |BOUNDS|
    ensures i <= k <= |BOUNDS|
    decreases |BOUNDS| - i
  {
    if i == |BOUNDS| || x <= BOUNDS[i] then i else BucketFrom(x, i + 1)
  }

  function Bucket(x: nat): (k: nat)
    ensures k <= |BOUNDS|
  {
    BucketFrom(x, 0)
  }

  datatype Hist = Hist(buckets: seq<nat>, sum: nat, count: nat)

  function EmptyHist(): Hist { Hist(seq(NUM_BUCKETS, i => 0), 0, 0) }

  function Record(h: Hist, x: nat): (r: Hist)
    requires |h.buckets| == NUM_BUCKETS
    ensures |r.buckets| == NUM_BUCKETS
  {
    Hist(h.buckets[Bucket(x) := h.buckets[Bucket(x)] + 1], h.sum + x, h.count + 1)
  }

  /** The histogram after recording every sample. */
  function HistOf(samples: seq<nat>): (h: Hist)
    ensures |h.buckets| == NUM_BUCKETS
  {
    if samples == [] then EmptyHist() else Record(HistOf(samples[..|samples| - 1]), samples[|samples| - 1])
  }

  function CountLe(samples: seq<nat>, v: int): nat {
    if samples == [] then 0 else CountLe(samples[..|samples| - 1], v) + if samples[|samples| - 1] <= v then 1 else 0
  }

  function Cumulative(h: Hist, i: nat): nat
    requires |h.buckets| == NUM_BUCKETS && i <= NUM_BUCKETS
  {
    if i == 0 then 0 else Cumulative(h, i - 1) + h.buckets[i - 1]
  }

  function Total(samples: seq<nat>): nat {
    if samples == [] then 0 else samples[0] + Total(samples[1..])
  }

  lemma {:induction false} TotalAppend(samples: seq<nat>, x: nat)
    ensures Total(samples + [x]) == Total(samples) + x
    decreases |samples|
  {
    if samples != [] {
      assert (samples + [x])[1..] == samples[1..] + [x];
      TotalAppend(samples[1..], x);
    }
  }

  /** The histogram's sum is the total of the samples. */
  lemma {:induction false} SumIsTotal(samples: seq<nat>)
    ensures HistOf(samples).sum == Total(samples)
    decreases |samples|
  {
    if samples != [] {
      var rest, x := samples[..|samples| - 1], samples[|samples| - 1];
      SumIsTotal(rest);
      TotalAppend(rest, x);
      assert samples == rest + [x];
    }
  }

  lemma {:induction false} BucketMeaning(x: nat, i: nat, k: nat)
    requires i <= k < |BOUNDS|
    ensures BucketFrom(x, i) <= k <==> x <= BOUNDS[k]
    decreases k - i
  {
    assert forall a, b :: 0 <= a < b < |BOUNDS| ==> BOUNDS[a] < BOUNDS[b];
    if i < k { BucketMeaning(x, i + 1, k); }
  }

  lemma {:induction false} CumulativeAfter(h: Hist, x: nat, i: nat)
    requires |h.buckets| == NUM_BUCKETS && i <= NUM_BUCKETS
    ensures Cumulative(Record(h, x), i) == Cumulative(h, i) + if Bucket(x) < i then 1 else 0
    decreases i
  {
    if i > 0 { CumulativeAfter(h, x, i - 1); }
  }

  lemma {:induction false} CumulativeEmpty(i: nat)
    requires i <= NUM_BUCKETS
    ensures Cumulative(EmptyHist(), i) == 0
    decreases i
  {
    if i > 0 { CumulativeEmpty(i - 1); }
  }

  /** Cumulative bucket `k` counts exactly the samples at or below boundary `k`; the last counts all. */
  lemma {:induction false} CumulativeCounts(samples: seq<nat>, k: nat)
    requires k < |BOUNDS|
    ensures Cumulative(HistOf(samples), k + 1) == CountLe(samples, BOUNDS[k])
    ensures Cumulative(HistOf(samples), NUM_BUCKETS) == |samples| == HistOf(samples).count
    decreases |samples|
  {
    if samples == [] {
      CumulativeEmpty(k + 1);
      CumulativeEmpty(NUM_BUCKETS);
    } else {
      var rest, x := samples[..|samples| - 1], samples[|samples| - 1];
      CumulativeCounts(rest, k);
      CumulativeAfter(HistOf(rest), x, k + 1);
      CumulativeAfter(HistOf(rest), x, NUM_BUCKETS);
      BucketMeaning(x, 0, k);
    }
  }

  // ------------------------------------------------------------------ percentiles

  /** `v` is the `rank`-th smallest sample. */
  predicate OrderStatistic(samples: seq<nat>, rank: nat, v: nat) {
    CountLe(samples, v) >= rank && CountLe(samples, v - 1) < rank
  }

  lemma {:induction false} CountMonotone(samples: seq<nat>, a: int, b: int)
    requires a <= b
    ensures CountLe(samples, a) <= CountLe(samples, b)
    decreases |samples|
  {
    if samples != [] { CountMonotone(samples[..|samples| - 1], a, b); }
  }

  /** At least `rank` samples are at or below `b` exactly when the order statistic is. */
  lemma RankIff(samples: seq<nat>, rank: nat, v: nat, b: int)
    requires OrderStatistic(samples, rank, v)
    ensures CountLe(samples, b) >= rank <==> v <= b
  {
    if v <= b { CountMonotone(samples, v, b); } else { CountMonotone(samples, b, v - 1); }
  }

  lemma {:induction false} Search(samples: seq<nat>, rank: nat, top: nat) returns (v: nat)
    requires rank >= 1 && CountLe(samples, top) >= rank
    ensures OrderStatistic(samples, rank, v)
    decreases top
  {
    if CountLe(samples, top - 1) < rank {
      v := top;
    } else if top == 0 {
      NoneNegative(samples);
      v := 0;
    } else {
      v := Search(samples, rank, top - 1);
    }
  }

  lemma {:induction false} NoneNegative(samples: seq<nat>)
    ensures CountLe(samples, -1) == 0
    decreases |samples|
  {
    if samples != [] { NoneNegative(samples[..|samples| - 1]); }
  }

  lemma {:induction false} AllCounted(samples: seq<nat>) returns (top: nat)
    ensures CountLe(samples, top) == |samples|
    decreases |samples|
  {
    if samples == [] {
      top := 0;
    } else {
      var rest := samples[..|samples| - 1];
      var t := AllCounted(rest);
      top := Max(t, samples[|samples| - 1]);
      CountMonotone(rest, t, top);
      CountBound(rest, top);
    }
  }

  lemma {:induction false} CountBound(samples: seq<nat>, v: int)
    ensures CountLe(samples, v) <= |samples|
    decreases |samples|
  {
    if samples != [] { CountBound(samples[..|samples| - 1], v); }
  }

  /** Every rank from 1 to the number of samples has an order statistic. */
  lemma OrderStatisticExists(samples: seq<nat>, rank: nat) returns (v: nat)
    requires 1 <= rank <= |samples|
    ensures OrderStatistic(samples, rank, v)
  {
    var top := AllCounted(samples);
    v := Search(samples, rank, top);
  }

  /** The scan of `percentile` for a rank, from bucket `i` on. */
  function ScanFrom(h: Hist, rank: nat, i: nat): nat
    requires |h.buckets| == NUM_BUCKETS && i <= NUM_BUCKETS && h.count > 0
    decreases NUM_BUCKETS - i
  {
    if i == NUM_BUCKETS then h.sum / h.count
    else if Cumulative(h, i + 1) >= rank then (if i < |BOUNDS| then BOUNDS[i] else h.sum / h.count)
    else ScanFrom(h, rank, i + 1)
  }

  /** The rank a fraction `num/den` asks for: the ceiling of `total * num / den`. */
  function RankOf(total: nat, num: nat, den: nat): nat
    requires den > 0
  {
    (total * num + den - 1) / den
  }

  lemma {:induction false} ScanMeaning(samples: seq<nat>, rank: nat, v: nat, i: nat)
    requires samples != [] && OrderStatistic(samples, rank, v) && i <= |BOUNDS|
    requires forall j :: 0 <= j < i ==> BOUNDS[j] < v
    ensures HistOf(samples).count == |samples|
    ensures var r := ScanFrom(HistOf(samples), rank, i);
            if v <= BOUNDS[9]
            then r in BOUNDS && v <= r && forall j :: 0 <= j < |BOUNDS| && BOUNDS[j] < r ==> BOUNDS[j] < v
            else r == HistOf(samples).sum / |samples|
    decreases |BOUNDS| - i
  {
    assert forall a, b :: 0 <= a < b < |BOUNDS| ==> BOUNDS[a] < BOUNDS[b];
    if i == |BOUNDS| {
      CumulativeCounts(samples, 9);
    } else {
      CumulativeCounts(samples, i);
      RankIff(samples, rank, v, BOUNDS[i]);
      if v > BOUNDS[i] { ScanMeaning(samples, rank, v, i + 1); }
    }
  }

  /** For every rank the percentile is the least boundary at or above that order statistic when there is one,
      and the mean when the order statistic lies above every boundary. */
  lemma PercentileMeaning(samples: seq<nat>, rank: nat, v: nat)
    requires samples != [] && OrderStatistic(samples, rank, v)
    ensures HistOf(samples).count == |samples|
    ensures var r := ScanFrom(HistOf(samples), rank, 0);
            var marks := [100, 250, 500, 1000, 2500, 5000, 10000, 25000, 50000, 100000];
            if v <= 100000 then r in marks && v <= r && forall b :: b in marks && v <= b ==> r <= b
            else r == Total(samples) / |samples|
  {
    SumIsTotal(samples);
    ScanMeaning(samples, rank, v, 0);
  }

  /** The rank is the least that covers the fraction of the total. */
  lemma RankIsLeast(total: nat, num: nat, den: nat)
    requires den > 0
    ensures RankOf(total, num, den) * den >= total * num
    ensures forall r: nat :: r * den >= total * num ==> RankOf(total, num, den) <= r
  {
    var x := total * num;
    var k := RankOf(total, num, den);
    assert x + den - 1 == k * den + (x + den - 1) % den;
    forall r: nat | r * den >= x ensures k <= r {
      if r < k { ProductOrder(k - 1, r, den); }
    }
  }

  /** For a fraction in (0, 1] the percentile is as above for the sample whose rank is the least that covers the
      fraction of the samples; fraction 0 gives the first boundary whatever the samples are. */
  lemma PercentileOfSamples(samples: seq<nat>, num: nat, den: nat) returns (rank: nat, v: nat)
    requires samples != [] && num <= den && den > 0
    ensures HistOf(samples).count == |samples| && rank == RankOf(|samples|, num, den)
    ensures rank * den >= |samples| * num && forall r: nat :: r * den >= |samples| * num ==> rank <= r
    ensures var r := ScanFrom(HistOf(samples), rank, 0);
            var marks := [100, 250, 500, 1000, 2500, 5000, 10000, 25000, 50000, 100000];
            if num == 0 then r == 100
            else
              && OrderStatistic(samples, rank, v)
              && if v <= 100000 then r in marks && v <= r && forall b :: b in marks && v <= b ==> r <= b
                 else r == Total(samples) / |samples|
  {
    CumulativeCounts(samples, 0);
    rank := RankOf(|samples|, num, den);
    RankIsLeast(|samples|, num, den);
    if num == 0 {
      v := 0;
      assert RankOf(|samples|, 0, den) == 0;
    } else {
      RankInRange(|samples|, num, den);
      v := OrderStatisticExists(samples, RankOf(|samples|, num, den));
      PercentileMeaning(samples, RankOf(|samples|, num, den), v);
    }
  }

  lemma ProductOrder(a: int, b: int, d: int)
    requires d > 0 && a >= b
    ensures a * d >= b * d
  {
  }

  lemma Ceiling(x: nat, den: nat, total: nat)
    requires den > 0 && 1 <= x <= total * den
    ensures 1 <= (x + den - 1) / den <= total
  {
    var k := (x + den - 1) / den;
    assert x + den - 1 == k * den + (x + den - 1) % den;
    if k > total {
      ProductOrder(k, total + 1, den);
      assert false;
    }
  }

  lemma RankInRange(total: nat, num: nat, den: nat)
    requires total > 0 && 0 < num <= den
    ensures 1 <= RankOf(total, num, den) <= total
  {
    ProductOrder(num, 1, total);
    ProductOrder(den, num, total);
    Ceiling(total * num, den, total);
  }

  // ------------------------------------------------------------------ the histogram object

  class LatencyHistogram {
    const buckets: array<nat>
    var sum: nat
    var count: nat

    ghost predicate Valid()
      reads this
    {
      buckets.Length == NUM_BUCKETS
    }

    ghost function View(): Hist
      reads this, buckets
    {
      Hist(buckets[..], sum, count)
    }

    constructor ()
      ensures Valid() && fresh(buckets) && View() == EmptyHist()
    {
      buckets := new nat[NUM_BUCKETS](i => 0);
      sum, count := 0, 0;
      new;
      assert buckets[..] == seq(NUM_BUCKETS, i => 0);
    }

    method RecordSample(x: nat)
      requires Valid()
      modifies this`sum, this`count, buckets
      ensures View() == Record(old(View()), x)
    {
      var idx := 0;
      while idx < |BOUNDS| && x > BOUNDS[idx]
        invariant 0 <= idx <= |BOUNDS|
        invariant BucketFrom(x, idx) == Bucket(x)
      {
        idx := idx + 1;
      }
      buckets[idx] := buckets[idx] + 1;
      sum := sum + x;
      count := count + 1;
    }

    /** The percentile for the fraction `num/den`, 0 when nothing was recorded. */
    method Percentile(num: nat, den: nat) returns (r: nat)
      requires Valid() && den > 0
      ensures r == if count == 0 then 0 else ScanFrom(View(), RankOf(count, num, den), 0)
    {
      if count == 0 { return 0; }
      var target := (count * num + den - 1) / den;
      var cumulative := 0;
      var i := 0;
      while i < NUM_BUCKETS
        invariant 0 <= i <= NUM_BUCKETS
        invariant cumulative == Cumulative(View(), i)
        invariant ScanFrom(View(), target, i) == ScanFrom(View(), target, 0)
      {
        cumulative := cumulative + buckets[i];
        if cumulative >= target {
          return if i < |BOUNDS| then BOUNDS[i] else sum / count;
        }
        i := i + 1;
      }
      r := sum / count;
    }
  }

  // ------------------------------------------------------------------ the collector

  datatype Endpoint = Endpoint(requests: nat, errors: nat, bytes: nat, latency: Hist)

  datatype Request = Request(path: string, status: nat, latency: nat, bytes: nat)

  datatype Totals = Totals(requests: nat, errors: nat, bytes: nat, c2xx: nat, c3xx: nat, c4xx: nat, c5xx: nat)

  datatype Collector = Collector(totals: Totals, latency: Hist, endpoints: map<string, Endpoint>)

  function EmptyCollector(): Collector { Collector(Totals(0, 0, 0, 0, 0, 0, 0), EmptyHist(), map[]) }

  function CountTotals(t: Totals, r: Request): Totals {
    var t := t.(requests := t.requests + 1, bytes := t.bytes + r.bytes);
    if 200 <= r.status < 300 then t.(c2xx := t.c2xx + 1)
    else if 300 <= r.status < 400 then t.(c3xx := t.c3xx + 1)
    else if 400 <= r.status < 500 then t.(c4xx := t.c4xx + 1)
    else if 500 <= r.status < 600 then t.(c5xx := t.c5xx + 1, errors := t.errors + 1)
    else t
  }

  function CountEndpoint(e: Endpoint, r: Request): Endpoint
    requires |e.latency.buckets| == NUM_BUCKETS
  {
    Endpoint(e.requests + 1, e.errors + (if r.status >= 500 then 1 else 0), e.bytes + r.bytes,
             Record(e.latency, r.latency))
  }

  function NewEndpoint(): Endpoint { Endpoint(0, 0, 0, EmptyHist()) }

  ghost predicate Shaped(c: Collector) {
    && |c.latency.buckets| == NUM_BUCKETS
    && forall p :: p in c.endpoints ==> |c.endpoints[p].latency.buckets| == NUM_BUCKETS
  }

  function RecordRequest(c: Collector, r: Request): (c': Collector)
    requires Shaped(c)
    ensures Shaped(c')
  {
    var e := if r.path in c.endpoints then c.endpoints[r.path] else NewEndpoint();
    Collector(CountTotals(c.totals, r), Record(c.latency, r.latency), c.endpoints[r.path := CountEndpoint(e, r)])
  }

  function RecordAll(rs: seq<Request>): (c: Collector)
    ensures Shaped(c)
  {
    if rs == [] then EmptyCollector() else RecordRequest(RecordAll(rs[..|rs| - 1]), rs[|rs| - 1])
  }

  /** A quantity summed over all endpoints. */
  ghost function Over(c: Collector, f: Endpoint -> int): int {
    Sum(map p | p in c.endpoints :: f(c.endpoints[p]))
  }

  lemma OverAfter(c: Collector, r: Request, f: Endpoint -> int)
    requires Shaped(c) && f(NewEndpoint()) == 0
    ensures var e := if r.path in c.endpoints then c.endpoints[r.path] else NewEndpoint();
            Over(RecordRequest(c, r), f) == Over(c, f) + f(CountEndpoint(e, r)) - f(e)
  {
    var e := if r.path in c.endpoints then c.endpoints[r.path] else NewEndpoint();
    var m := map p | p in c.endpoints :: f(c.endpoints[p]);
    var c' := RecordRequest(c, r);
    SumUpdate(m, r.path, f(CountEndpoint(e, r)));
    assert (map p | p in c'.endpoints :: f(c'.endpoints[p])) == m[r.path := f(CountEndpoint(e, r))];
  }

  function Requests(e: Endpoint): int { e.requests }
  function Bytes(e: Endpoint): int { e.bytes }
  function Errors(e: Endpoint): int { e.errors }
  function InBucket(i: nat): Endpoint -> int {
    (e: Endpoint) => if i < |e.latency.buckets| then e.latency.buckets[i] else 0
  }

  /** How many recorded statuses are 600 or above. */
  function Odd(rs: seq<Request>): nat {
    if rs == [] then 0 else Odd(rs[..|rs| - 1]) + if rs[|rs| - 1].status >= 600 then 1 else 0
  }

  /** How many statuses are in no class from 2xx to 5xx. */
  function Unclassed(rs: seq<Request>): nat {
    if rs == [] then 0
    else Unclassed(rs[..|rs| - 1]) + if 200 <= rs[|rs| - 1].status < 600 then 0 else 1
  }

  lemma OverEmpty(f: Endpoint -> int)
    ensures Over(EmptyCollector(), f) == 0
  {
    var c := EmptyCollector();
    assert (map p | p in c.endpoints :: f(c.endpoints[p])) == map[];
  }

  lemma RequestsStep(c: Collector, r: Request)
    requires Shaped(c)
    ensures var t, t' := c.totals, RecordRequest(c, r).totals;
            && t'.requests == t.requests + 1 && Over(RecordRequest(c, r), Requests) == Over(c, Requests) + 1
            && t'.c2xx + t'.c3xx + t'.c4xx + t'.c5xx
               == t.c2xx + t.c3xx + t.c4xx + t.c5xx + if 200 <= r.status < 600 then 1 else 0
  {
    OverAfter(c, r, Requests);
  }

  lemma ErrorsStep(c: Collector, r: Request)
    requires Shaped(c)
    ensures Over(RecordRequest(c, r), Errors) - RecordRequest(c, r).totals.errors
            == Over(c, Errors) - c.totals.errors + if r.status >= 600 then 1 else 0
  {
    OverAfter(c, r, Errors);
  }

  lemma {:induction false} RequestsAreSum(rs: seq<Request>)
    ensures var c := RecordAll(rs);
            && c.totals.requests == |rs| == Over(c, Requests)
            && c.totals.requests == c.totals.c2xx + c.totals.c3xx + c.totals.c4xx + c.totals.c5xx + Unclassed(rs)
    decreases |rs|
  {
    if rs == [] {
      OverEmpty(Requests);
    } else {
      RequestsAreSum(rs[..|rs| - 1]);
      RequestsStep(RecordAll(rs[..|rs| - 1]), rs[|rs| - 1]);
    }
  }

  /** How many requests satisfy the property. */
  function CountOf(rs: seq<Request>, p: Request -> bool): nat {
    if rs == [] then 0 else CountOf(rs[..|rs| - 1], p) + One(p(rs[|rs| - 1]))
  }

  function BytesOf(rs: seq<Request>, p: Request -> bool): nat {
    if rs == [] then 0 else BytesOf(rs[..|rs| - 1], p) + if p(rs[|rs| - 1]) then rs[|rs| - 1].bytes else 0
  }

  function Within(lo: nat, hi: nat): Request -> bool { (r: Request) => lo <= r.status < hi }

  function At(path: string): Request -> bool { (r: Request) => r.path == path }

  function FailedAt(path: string): Request -> bool { (r: Request) => r.path == path && r.status >= 500 }

  /** Each class counts the requests in its own range, errors are the 5xx ones, and bytes are all bytes. */
  lemma {:induction false} TotalsAreCounts(rs: seq<Request>)
    ensures RecordAll(rs).totals ==
            Totals(|rs|, CountOf(rs, Within(500, 600)), BytesOf(rs, _ => true), CountOf(rs, Within(200, 300)),
                   CountOf(rs, Within(300, 400)), CountOf(rs, Within(400, 500)), CountOf(rs, Within(500, 600)))
    decreases |rs|
  {
    if rs != [] { TotalsAreCounts(rs[..|rs| - 1]); }
  }

  /** Each endpoint counts its own requests, those with a status of 500 or more, and their bytes. */
  lemma {:induction false} EndpointCounts(rs: seq<Request>, path: string)
    ensures path in RecordAll(rs).endpoints <==> CountOf(rs, At(path)) > 0
    ensures path in RecordAll(rs).endpoints ==>
              var e := RecordAll(rs).endpoints[path];
              && e.requests == CountOf(rs, At(path)) && e.errors == CountOf(rs, FailedAt(path))
              && e.bytes == BytesOf(rs, At(path))
    ensures path !in RecordAll(rs).endpoints ==> CountOf(rs, FailedAt(path)) == BytesOf(rs, At(path)) == 0
    decreases |rs|
  {
    if rs != [] { EndpointCounts(rs[..|rs| - 1], path); }
  }

  lemma {:induction false} BytesAreSum(rs: seq<Request>)
    ensures RecordAll(rs).totals.bytes == Over(RecordAll(rs), Bytes)
    decreases |rs|
  {
    if rs == [] {
      OverEmpty(Bytes);
    } else {
      BytesAreSum(rs[..|rs| - 1]);
      OverAfter(RecordAll(rs[..|rs| - 1]), rs[|rs| - 1], Bytes);
    }
  }

  lemma {:induction false} ErrorsAreSum(rs: seq<Request>)
    ensures Over(RecordAll(rs), Errors) == RecordAll(rs).totals.errors + Odd(rs)
    decreases |rs|
  {
    if rs == [] {
      OverEmpty(Errors);
    } else {
      ErrorsAreSum(rs[..|rs| - 1]);
      ErrorsStep(RecordAll(rs[..|rs| - 1]), rs[|rs| - 1]);
    }
  }

  lemma BucketStep(c: Collector, r: Request, i: nat)
    requires Shaped(c) && i < NUM_BUCKETS && c.latency.buckets[i] == Over(c, InBucket(i))
    ensures RecordRequest(c, r).latency.buckets[i] == Over(RecordRequest(c, r), InBucket(i))
  {
    OverAfter(c, r, InBucket(i));
  }

  lemma {:induction false} BucketsAreSum(rs: seq<Request>, i: nat)
    requires i < NUM_BUCKETS
    ensures RecordAll(rs).latency.buckets[i] == Over(RecordAll(rs), InBucket(i))
    decreases |rs|
  {
    if rs == [] {
      OverEmpty(InBucket(i));
    } else {
      BucketsAreSum(rs[..|rs| - 1], i);
      BucketStep(RecordAll(rs[..|rs| - 1]), rs[|rs| - 1], i);
    }
  }

  /** The global error count agrees with the endpoints exactly when no status is 600 or above. */
  lemma ErrorsAgreeIff(rs: seq<Request>)
    ensures Over(RecordAll(rs), Errors) == RecordAll(rs).totals.errors
            <==> forall k :: 0 <= k < |rs| ==> rs[k].status < 600
  {
    ErrorsAreSum(rs);
    OddIff(rs);
  }

  lemma {:induction false} OddIff(rs: seq<Request>)
    ensures Odd(rs) == 0 <==> forall k :: 0 <= k < |rs| ==> rs[k].status < 600
    decreases |rs|
  {
    if rs != [] {
      var rest := rs[..|rs| - 1];
      OddIff(rest);
      assert forall k :: 0 <= k < |rest| ==> rest[k] == rs[k];
    }
  }

  /** The requests for one path, in order. */
  function For(rs: seq<Request>, path: string): seq<nat> {
    if rs == [] then []
    else For(rs[..|rs| - 1], path) + if rs[|rs| - 1].path == path then [rs[|rs| - 1].latency] else []
  }

  function Latencies(rs: seq<Request>): seq<nat> { seq(|rs|, i requires 0 <= i < |rs| => rs[i].latency) }

  /** The global histogram is that of all latencies. */
  lemma {:induction false} GlobalHistogram(rs: seq<Request>)
    ensures RecordAll(rs).latency == HistOf(Latencies(rs))
    decreases |rs|
  {
    if rs != [] {
      var rest := rs[..|rs| - 1];
      GlobalHistogram(rest);
      assert Latencies(rs)[..|rs| - 1] == Latencies(rest);
    }
  }

  lemma HistOfAppend(samples: seq<nat>, x: nat)
    ensures HistOf(samples + [x]) == Record(HistOf(samples), x)
  {
    assert (samples + [x])[..|samples|] == samples;
  }

  lemma ForStep(rs: seq<Request>, path: string)
    requires rs != []
    ensures var rest, r := rs[..|rs| - 1], rs[|rs| - 1];
            For(rs, path) == if r.path == path then For(rest, path) + [r.latency] else For(rest, path)
  {
  }

  /** Each endpoint exists exactly when its path was requested, and its histogram is that of its own requests. */
  lemma {:induction false} HistogramsPerPath(rs: seq<Request>, path: string)
    ensures path in RecordAll(rs).endpoints <==> For(rs, path) != []
    ensures path in RecordAll(rs).endpoints ==> RecordAll(rs).endpoints[path].latency == HistOf(For(rs, path))
    decreases |rs|
  {
    if rs != [] {
      var rest, r := rs[..|rs| - 1], rs[|rs| - 1];
      HistogramsPerPath(rest, path);
      ForStep(rs, path);
      HistOfAppend(For(rest, path), r.latency);
    }
  }

  class MetricsCollector {
    var totals: Totals
    var latency: Hist
    var endpoints: map<string, Endpoint>

    ghost function View(): Collector
      reads this
    {
      Collector(totals, latency, endpoints)
    }

    constructor ()
      ensures View() == EmptyCollector()
    {
      totals, latency, endpoints := Totals(0, 0, 0, 0, 0, 0, 0), EmptyHist(), map[];
    }

    method CountStatus(status: nat)
      modifies this`totals
      ensures totals.(requests := totals.requests + 1) == CountTotals(old(totals), Request([], status, 0, 0))
      ensures totals.requests == old(totals).requests
    {
      if 200 <= status < 300 {
        totals := totals.(c2xx := totals.c2xx + 1);
      } else if 300 <= status < 400 {
        totals := totals.(c3xx := totals.c3xx + 1);
      } else if 400 <= status < 500 {
        totals := totals.(c4xx := totals.c4xx + 1);
      } else if 500 <= status < 600 {
        totals := totals.(c5xx := totals.c5xx + 1);
        totals := totals.(errors := totals.errors + 1);
      }
    }

    method RecordOne(path: string, status: nat, latencyUs: nat, bytes: nat)
      requires Shaped(View())
      modifies this
      ensures View() == RecordRequest(old(View()), Request(path, status, latencyUs, bytes))
    {
      totals := totals.(requests := totals.requests + 1, bytes := totals.bytes + bytes);
      latency := Record(latency, latencyUs);
      CountStatus(status);
      assert totals == CountTotals(old(totals), Request(path, status, latencyUs, bytes));
      if path !in endpoints { endpoints := endpoints[path := NewEndpoint()]; }
      var e := endpoints[path];
      e := e.(requests := e.requests + 1, bytes := e.bytes + bytes, latency := Record(e.latency, latencyUs));
      if status >= 500 { e := e.(errors := e.errors + 1); }
      endpoints := endpoints[path := e];
    }
  }
}
