/**
  The global statistics (metricas): the 50th and 95th percentiles of the
  end-to-end and of the preparation durations over the delivered orders,
  and how many deliveries were analysed. Durations are milliseconds.
 */
module Metrics {
  import opened Orders
  import opened Sorting
  import opened Common

  datatype GlobalStats = GlobalStats(p50Total: int, p95Total: int, p50Prep: int, p95Prep: int, analysed: nat)

  /** The statistics the firmware reports for the order list `os`. */
  function StatsOf(os: seq<Order>): GlobalStats {
    var total, prep := TotalSamples(os), PrepSamples(os);
    GlobalStats(PercentileOf(total, 50), PercentileOf(total, 95),
                PercentileOf(prep, 50), PercentileOf(prep, 95), |total|)
  }

  /**
    What the report promises: no more deliveries analysed than orders, every
    percentile 0 when it has no sample and otherwise a duration strictly
    between 0 and 4000 s taken from the samples, and the median never above
    the 95th percentile.
   */
  lemma StatsSound(os: seq<Order>)
    ensures StatsOf(os).analysed <= |os|
    ensures StatsOf(os).p50Total <= StatsOf(os).p95Total && StatsOf(os).p50Prep <= StatsOf(os).p95Prep
    ensures TotalSamples(os) == [] ==> StatsOf(os).p50Total == 0 && StatsOf(os).p95Total == 0
    ensures PrepSamples(os) == [] ==> StatsOf(os).p50Prep == 0 && StatsOf(os).p95Prep == 0
    ensures TotalSamples(os) != [] ==>
              StatsOf(os).p50Total in TotalSamples(os) && StatsOf(os).p95Total in TotalSamples(os)
              && 0 < StatsOf(os).p50Total && StatsOf(os).p95Total < MAX_SPAN_MS
    ensures PrepSamples(os) != [] ==>
              StatsOf(os).p50Prep in PrepSamples(os) && StatsOf(os).p95Prep in PrepSamples(os)
              && 0 < StatsOf(os).p50Prep && StatsOf(os).p95Prep < MAX_SPAN_MS
  {
    var total, prep := TotalSamples(os), PrepSamples(os);
    TotalSamplesBounded(os);
    PrepSamplesBounded(os);
    PercentileMonotone(total, 50, 95);
    PercentileMonotone(prep, 50, 95);
    PercentileWithin(total, 50);
    PercentileWithin(total, 95);
    PercentileWithin(prep, 50);
    PercentileWithin(prep, 95);
  }

  /** A percentile of samples that all lie strictly between 0 and 4000 s is one of them. */
  lemma PercentileWithin(s: seq<int>, percent: nat)
    requires forall k :: 0 <= k < |s| ==> 0 < s[k] < MAX_SPAN_MS
    ensures |s| > 0 ==> PercentileOf(s, percent) in s && 0 < PercentileOf(s, percent) < MAX_SPAN_MS
  {
    if |s| > 0 {
      SortCorrect(s);
      SortedPercentile(Sort(s), s, percent);
    }
  }

  /**
    calcularMetricasGlobales over the first `n` orders of `orders`: the
    samples are gathered, then the percentiles are read off sorted copies
    of them.
   */
  method GlobalMetrics(orders: array<Order>, n: nat) returns (m: GlobalStats)
    requires n <= orders.Length && n <= MAX_PEDIDOS
    ensures m == StatsOf(orders[..n])
  {
    var totals, countTotal, preps, countPrep := Gather(orders, n);
    var p50Total := Percentile(totals, countTotal, 50);
    var p95Total := Percentile(totals, countTotal, 95);
    var p50Prep := Percentile(preps, countPrep, 50);
    var p95Prep := Percentile(preps, countPrep, 95);
    m := GlobalStats(p50Total, p95Total, p50Prep, p95Prep, countTotal);
  }

  /** One pass over the first `n` orders collects both kinds of sample, in list order. */
  method Gather(orders: array<Order>, n: nat) returns (totals: array<int>, countTotal: nat, preps: array<int>, countPrep: nat)
    requires n <= orders.Length && n <= MAX_PEDIDOS
    ensures totals.Length == MAX_PEDIDOS && preps.Length == MAX_PEDIDOS
    ensures countTotal <= n && countPrep <= n
    ensures totals[..countTotal] == TotalSamples(orders[..n])
    ensures preps[..countPrep] == PrepSamples(orders[..n])
  {
    totals := new int[MAX_PEDIDOS];
    preps := new int[MAX_PEDIDOS];
    countTotal, countPrep := 0, 0;
    ghost var os := orders[..n];
    for i := 0 to n
      invariant countTotal <= i && countPrep <= i
      invariant totals[..countTotal] == TotalSamples(os[..i])
      invariant preps[..countPrep] == PrepSamples(os[..i])
    {
      CollectStep(os, i, TotalSample);
      CollectStep(os, i, PrepSample);
      countTotal := Record(totals, countTotal, TotalSample(orders[i]));
      countPrep := Record(preps, countPrep, PrepSample(orders[i]));
    }
    assert os[..n] == os;
  }

  /** Stores a sample, if there is one, after the first `n` entries of `samples`. */
  method Record(samples: array<int>, n: nat, sample: Option<int>) returns (n': nat)
    requires n < samples.Length
    modifies samples
    ensures n' == n + (if sample.Some? then 1 else 0)
    ensures samples[..n'] == old(samples[..n]) + (if sample.Some? then [sample.value] else [])
  {
    n' := n;
    if sample.Some? {
      samples[n] := sample.value;
      n' := n + 1;
      assert samples[..n'] == samples[..n] + [sample.value];
    }
  }
}
