/**
 * The c-metric is meant to measure the connections the estimate misses:
 * the class divides, for each order, the spurious-connection count by the
 * truth's connections instead. Against an estimate that connects every
 * triple, nothing is missed and the c-metric that counts missed connections
 * is 0, while the c-metric as written is positive as soon as there is an
 * order to examine.
 */
module CMetricNumerator {
  import opened Combinatorics
  import opened Graphs
  import opened Tallies
  import opened Metrics

  /** Orders without a missed connection sum to a zero c-ratio when missed connections are counted. */
  lemma {:induction false} SumScoresNoneMissed(ts: seq<Tally>)
    requires forall j :: 0 <= j < |ts| ==> ts[j].cm == 0
    ensures SumScores(ts, Intended).Ok? ==> SumScores(ts, Intended).value.c == 0.0
  {
    if ts != [] {
      var p := ts[..|ts| - 1];
      assert forall j :: 0 <= j < |p| ==> p[j] == ts[j];
      SumScoresNoneMissed(p);
    }
  }

  /**
   * Orders whose separated triples are all spurious connections sum to a
   * positive c-ratio as written, once there is at least one order.
   */
  lemma {:induction false} SumScoresAllSpurious(ts: seq<Tally>)
    requires forall j :: 0 <= j < |ts| ==> ts[j].sm == ts[j].sep
    ensures var r := SumScores(ts, AsWritten);
      r.Ok? ==> r.value.c >= 0.0 && (|ts| > 0 ==> r.value.c > 0.0)
  {
    if ts != [] {
      var p, t := ts[..|ts| - 1], ts[|ts| - 1];
      assert forall j :: 0 <= j < |p| ==> p[j] == ts[j];
      SumScoresAllSpurious(p);
      var o := OrderScores(t, AsWritten);
      if o.Ok? {
        assert o.value.c * t.con as real == t.sep as real;
      }
    }
  }

  /** Every order of an estimate that misses nothing has no missed connection. */
  lemma OrderListCovers(truth: Graph, est: Graph, k: nat)
    requires Covers(truth, est)
    ensures forall j :: 0 <= j < k ==> OrderList(truth, est, k)[j].cm == 0
  {
    var ts := OrderList(truth, est, k);
    var names := truth.NameList();
    forall j | 0 <= j < k
      ensures ts[j].cm == 0
    {
      OrderCovers(truth, est, Combinations(names, j + 1), names);
      OrderListAt(truth, est, k, j);
    }
  }

  /** Every order of an estimate that connects everything counts each separated triple as spurious. */
  lemma OrderListConnectsAll(truth: Graph, est: Graph, k: nat)
    requires ConnectsAll(est)
    ensures forall j :: 0 <= j < k ==> OrderList(truth, est, k)[j].sm == OrderList(truth, est, k)[j].sep
  {
    var ts := OrderList(truth, est, k);
    var names := truth.NameList();
    forall j | 0 <= j < k
      ensures ts[j].sm == ts[j].sep
    {
      OrderConnectsAll(truth, est, Combinations(names, j + 1), names);
      OrderListAt(truth, est, k, j);
    }
  }

  /** Averaging a zero c-ratio sum gives a zero c-metric. */
  lemma AverageNoneMissed(ts: seq<Tally>, n: nat)
    requires forall j :: 0 <= j < |ts| ==> ts[j].cm == 0
    ensures var r := Average(SumScores(ts, Intended), n);
      r.Ok? ==> r.value.c == 0.0
  {
    SumScoresNoneMissed(ts);
  }

  /** Counting missed connections, an estimate that misses none has a c-metric of 0. */
  lemma ComputeCovers(truth: Graph, est: Graph)
    requires Covers(truth, est)
    ensures Compute(truth, est, Intended).Ok? ==> Compute(truth, est, Intended).value.c == 0.0
  {
    if truth.NameSet() == est.NameSet() {
      var n := truth.NumNodes();
      OrderListCovers(truth, est, MaxOrder(n));
      AverageNoneMissed(OrderList(truth, est, MaxOrder(n)), n);
    }
  }

  /** Averaging over N - 1 a c-ratio sum that is positive for N >= 3 keeps it positive. */
  lemma AverageAllSpurious(ts: seq<Tally>, n: nat)
    requires |ts| == MaxOrder(n)
    requires forall j :: 0 <= j < |ts| ==> ts[j].sm == ts[j].sep
    ensures var r := Average(SumScores(ts, AsWritten), n);
      r.Ok? ==> r.value.c >= 0.0 && (n >= 3 ==> r.value.c > 0.0)
  {
    var sum := SumScores(ts, AsWritten);
    SumScoresAllSpurious(ts);
    if sum.Ok? && n != 1 {
      var d := (n - 1) as real;
      if n == 0 {
        assert sum.value.c / d == -sum.value.c;
      } else {
        assert d > 0.0;
      }
    }
  }

  /** Against an estimate that connects everything, the c-metric as written is positive once there is an order. */
  lemma ComputeConnectsAll(truth: Graph, est: Graph)
    requires ConnectsAll(est)
    ensures var r := Compute(truth, est, AsWritten);
      r.Ok? ==> r.value.c >= 0.0 && (truth.NumNodes() >= 3 ==> r.value.c > 0.0)
  {
    if truth.NameSet() == est.NameSet() {
      var n := truth.NumNodes();
      OrderListConnectsAll(truth, est, MaxOrder(n));
      AverageAllSpurious(OrderList(truth, est, MaxOrder(n)), n);
    }
  }

  /**
   * The c-metric as written, against an estimate that connects every triple
   * of a graph with at least three nodes: the estimate misses nothing, so the
   * intended c-metric is 0, yet the c-metric as written is positive.
   */
  lemma CMetricAsWritten(truth: Graph, est: Graph)
    requires ConnectsAll(est) && truth.NumNodes() >= 3
    ensures Covers(truth, est)
    ensures Compute(truth, est, Intended).Ok? ==> Compute(truth, est, Intended).value.c == 0.0
    ensures Compute(truth, est, AsWritten).Ok? ==> Compute(truth, est, AsWritten).value.c > 0.0
  {
    ComputeCovers(truth, est);
    ComputeConnectsAll(truth, est);
  }
}
