/**
 * What the metrics promise: when they exist, the s- and sc-metrics lie in
 * [0, 1] and the c-metric is not negative; they are all zero for an
 * estimate that agrees with the truth on every triple; the sc-metric does
 * not depend on which graph plays the truth; and they fail exactly on
 * mismatched names, a one-node graph, or an order whose truth counts lack
 * a connection or a separation.
 */
module MetricProperties {
  import opened Combinatorics
  import opened Graphs
  import opened Tallies
  import opened Metrics

  // ---------------------------------------------------------------------
  // When a result exists

  /** The ratios of a list of orders exist exactly when no order has a zero denominator. */
  lemma {:induction false} SumScoresOk(ts: seq<Tally>, v: Variant)
    ensures SumScores(ts, v).Ok? <==> forall j :: 0 <= j < |ts| ==> HasRatios(ts[j])
  {
    if ts != [] {
      var p := ts[..|ts| - 1];
      SumScoresOk(p, v);
      assert forall j :: 0 <= j < |p| ==> p[j] == ts[j];
    }
  }

  /** The average of the summed ratios exists exactly when no denominator is zero. */
  lemma AverageOk(ts: seq<Tally>, n: nat, v: Variant)
    ensures Average(SumScores(ts, v), n).Ok? <==>
      n != 1 && forall j :: 0 <= j < |ts| ==> HasRatios(ts[j])
  {
    SumScoresOk(ts, v);
  }

  /** The list of orders has no zero denominator exactly when no order 1 .. k has one. */
  lemma OrderListOk(truth: Graph, est: Graph, k: nat)
    ensures var ts := OrderList(truth, est, k);
      (forall j :: 0 <= j < |ts| ==> HasRatios(ts[j])) <==>
      (forall i :: 1 <= i <= k ==> HasRatios(OrderCounts(truth, est, i)))
  {
    var ts := OrderList(truth, est, k);
    if forall j :: 0 <= j < |ts| ==> HasRatios(ts[j]) {
      forall i | 1 <= i <= k
        ensures HasRatios(OrderCounts(truth, est, i))
      {
        OrderListAt(truth, est, k, i - 1);
      }
    }
    if forall i :: 1 <= i <= k ==> HasRatios(OrderCounts(truth, est, i)) {
      forall j | 0 <= j < |ts|
        ensures HasRatios(ts[j])
      {
        assert HasRatios(OrderCounts(truth, est, j + 1));
        OrderListAt(truth, est, k, j);
      }
    }
  }

  /**
   * The metrics exist exactly when the graphs have the same node names, the
   * truth graph does not have exactly one node, and every order 1 .. N - 2
   * has both a connected and a separated triple in the truth.
   */
  lemma ComputeOk(truth: Graph, est: Graph, v: Variant)
    ensures Compute(truth, est, v).Ok? <==>
      && truth.NameSet() == est.NameSet()
      && truth.NumNodes() != 1
      && forall k :: 1 <= k <= MaxOrder(truth.NumNodes()) ==>
           HasRatios(OrderCounts(truth, est, k))
    ensures Compute(truth, est, v) == Err(NameMismatch) <==> truth.NameSet() != est.NameSet()
  {
    var n := truth.NumNodes();
    var ts := OrderList(truth, est, MaxOrder(n));
    AverageOk(ts, n, v);
    OrderListOk(truth, est, MaxOrder(n));
    AverageNotMismatch(ts, n, v);
  }

  /** Averaging never reports mismatched names. */
  lemma {:induction false} AverageNotMismatch(ts: seq<Tally>, n: nat, v: Variant)
    ensures Average(SumScores(ts, v), n) != Err(NameMismatch)
  {
    SumScoresNotMismatch(ts, v);
  }

  /** Summing ratios never reports mismatched names. */
  lemma {:induction false} SumScoresNotMismatch(ts: seq<Tally>, v: Variant)
    ensures SumScores(ts, v) != Err(NameMismatch)
  {
    if ts != [] {
      SumScoresNotMismatch(ts[..|ts| - 1], v);
    }
  }

  /** A graph of two nodes has no order to examine: all three metrics are zero. */
  lemma TwoNodes(truth: Graph, est: Graph, v: Variant)
    requires truth.NameSet() == est.NameSet() && truth.NumNodes() == 2
    ensures Compute(truth, est, v) == Ok(Scores(0.0, 0.0, 0.0))
  {
    assert OrderList(truth, est, 0) == [];
  }

  // ---------------------------------------------------------------------
  // Bounds

  /** A quotient of a count by a count at least as large lies in [0, 1]. */
  lemma RatioInUnit(q: real, a: nat, b: nat)
    requires b > 0 && q * b as real == a as real && a <= b
    ensures 0.0 <= q <= 1.0
  {
    RatioNonNegative(q, a, b);
    assert (1.0 - q) * b as real == (b - a) as real;
    RatioNonNegative(1.0 - q, b - a, b);
  }

  /** A quotient of two counts is not negative. */
  lemma RatioNonNegative(q: real, a: nat, b: nat)
    requires b > 0 && q * b as real == a as real
    ensures 0.0 <= q
  {
  }

  /** Every disagreement is one of the examined triples. */
  lemma ConsistentDisagreements(t: Tally)
    requires Consistent(t)
    ensures t.scm <= t.sep + t.con
  {
  }

  /** An order's s-ratio lies in [0, 1]. */
  lemma SRatioBounds(t: Tally, v: Variant)
    requires Consistent(t)
    ensures OrderScores(t, v).Ok? ==> 0.0 <= OrderScores(t, v).value.s <= 1.0
  {
    var r := OrderScores(t, v);
    if r.Ok? {
      RatioInUnit(r.value.s, t.sm, t.sep);
    }
  }

  /** An order's sc-ratio lies in [0, 1]. */
  lemma SCRatioBounds(t: Tally, v: Variant)
    requires Consistent(t)
    ensures OrderScores(t, v).Ok? ==> 0.0 <= OrderScores(t, v).value.sc <= 1.0
  {
    var r := OrderScores(t, v);
    if r.Ok? {
      ConsistentDisagreements(t);
      RatioInUnit(r.value.sc, t.scm, t.sep + t.con);
    }
  }

  /** An order's c-ratio is not negative. */
  lemma CRatioNonNegative(t: Tally, v: Variant)
    ensures OrderScores(t, v).Ok? ==> 0.0 <= OrderScores(t, v).value.c
  {
    var r := OrderScores(t, v);
    if r.Ok? {
      RatioNonNegative(r.value.c, CNumerator(t, v), t.con);
    }
  }

  /** Counting missed connections, an order's c-ratio is at most 1. */
  lemma CRatioInUnit(t: Tally)
    requires Consistent(t)
    ensures OrderScores(t, Intended).Ok? ==> OrderScores(t, Intended).value.c <= 1.0
  {
    var r := OrderScores(t, Intended);
    if r.Ok? {
      RatioInUnit(r.value.c, t.cm, t.con);
    }
  }

  /**
   * An order's s- and sc-ratios lie in [0, 1]; its c-ratio is not negative,
   * and at most 1 when it counts missed connections.
   */
  lemma OrderScoresBounds(t: Tally, v: Variant)
    requires Consistent(t)
    ensures var r := OrderScores(t, v);
      r.Ok? ==>
        && 0.0 <= r.value.s <= 1.0
        && 0.0 <= r.value.sc <= 1.0
        && 0.0 <= r.value.c
        && (v == Intended ==> r.value.c <= 1.0)
  {
    SRatioBounds(t, v);
    SCRatioBounds(t, v);
    CRatioNonNegative(t, v);
    if v == Intended {
      CRatioInUnit(t);
    }
  }

  /** Over |ts| orders, the summed s and sc lie in [0, |ts|]; c is at least 0 (at most |ts| when intended). */
  lemma {:induction false} SumScoresBounds(ts: seq<Tally>, v: Variant)
    requires forall j :: 0 <= j < |ts| ==> Consistent(ts[j])
    ensures var r := SumScores(ts, v);
      r.Ok? ==>
        && 0.0 <= r.value.s <= |ts| as real
        && 0.0 <= r.value.sc <= |ts| as real
        && 0.0 <= r.value.c
        && (v == Intended ==> r.value.c <= |ts| as real)
  {
    if ts != [] {
      var p := ts[..|ts| - 1];
      assert forall j :: 0 <= j < |p| ==> p[j] == ts[j];
      SumScoresBounds(p, v);
      OrderScoresBounds(ts[|ts| - 1], v);
    }
  }

  /** An average of at most N - 2 ratios over N - 1 stays in [0, 1]. */
  lemma AverageInUnit(sum: real, n: nat)
    requires n != 1 && 0.0 <= sum <= MaxOrder(n) as real
    ensures 0.0 <= sum / (n - 1) as real <= 1.0
  {
    if n == 0 {
      assert sum == 0.0;
    }
  }

  /** Every order's counters are consistent. */
  lemma OrderListConsistent(truth: Graph, est: Graph, k: nat)
    ensures forall j :: 0 <= j < k ==> Consistent(OrderList(truth, est, k)[j])
  {
    var ts := OrderList(truth, est, k);
    forall j | 0 <= j < k
      ensures Consistent(ts[j])
    {
      OrderCountsConsistent(truth, est, j + 1);
      OrderListAt(truth, est, k, j);
    }
  }

  /** Averaging the summed ratios of N - 2 consistent orders over N - 1 keeps them in range. */
  lemma AverageBounds(ts: seq<Tally>, n: nat, v: Variant)
    requires |ts| == MaxOrder(n)
    requires forall j :: 0 <= j < |ts| ==> Consistent(ts[j])
    ensures var r := Average(SumScores(ts, v), n);
      r.Ok? ==>
        && 0.0 <= r.value.s <= 1.0
        && 0.0 <= r.value.sc <= 1.0
        && 0.0 <= r.value.c
        && (v == Intended ==> r.value.c <= 1.0)
  {
    var sum := SumScores(ts, v);
    if sum.Ok? && n != 1 {
      SumScoresBounds(ts, v);
      AverageInUnit(sum.value.s, n);
      AverageInUnit(sum.value.sc, n);
      if v == Intended {
        AverageInUnit(sum.value.c, n);
      }
    }
  }

  /**
   * The s- and sc-metrics lie in [0, 1] and the c-metric is not negative;
   * counting missed connections, the c-metric is at most 1 as well.
   */
  lemma ComputeBounds(truth: Graph, est: Graph, v: Variant)
    ensures var r := Compute(truth, est, v);
      r.Ok? ==>
        && 0.0 <= r.value.s <= 1.0
        && 0.0 <= r.value.sc <= 1.0
        && 0.0 <= r.value.c
        && (v == Intended ==> r.value.c <= 1.0)
  {
    if truth.NameSet() == est.NameSet() {
      var n := truth.NumNodes();
      OrderListConsistent(truth, est, MaxOrder(n));
      AverageBounds(OrderList(truth, est, MaxOrder(n)), n, v);
    }
  }

  // ---------------------------------------------------------------------
  // Graphs that agree

  /** Orders without a spurious, missed or disagreeing triple sum to zero ratios. */
  lemma {:induction false} SumScoresZero(ts: seq<Tally>, v: Variant)
    requires forall j :: 0 <= j < |ts| ==> Clean(ts[j])
    ensures SumScores(ts, v).Ok? ==> SumScores(ts, v).value == Scores(0.0, 0.0, 0.0)
  {
    if ts != [] {
      SumScoresZero(ts[..|ts| - 1], v);
    }
  }

  /** Every order of two agreeing graphs is clean. */
  lemma OrderListAgree(truth: Graph, est: Graph, k: nat)
    requires Agree(truth, est)
    ensures forall j :: 0 <= j < k ==> Clean(OrderList(truth, est, k)[j])
  {
    var ts := OrderList(truth, est, k);
    var names := truth.NameList();
    forall j | 0 <= j < k
      ensures Clean(ts[j])
    {
      OrderAgree(truth, est, Combinations(names, j + 1), names);
      OrderListAt(truth, est, k, j);
    }
  }

  /** The average of zero ratios is zero. */
  lemma AverageZero(ts: seq<Tally>, n: nat, v: Variant)
    requires forall j :: 0 <= j < |ts| ==> Clean(ts[j])
    ensures Average(SumScores(ts, v), n).Ok? ==> Average(SumScores(ts, v), n).value == Scores(0.0, 0.0, 0.0)
  {
    SumScoresZero(ts, v);
  }

  /** An estimate that agrees with the truth on every triple scores zero on all three metrics. */
  lemma ComputeAgree(truth: Graph, est: Graph, v: Variant)
    requires Agree(truth, est)
    ensures Compute(truth, est, v).Ok? ==> Compute(truth, est, v).value == Scores(0.0, 0.0, 0.0)
  {
    if truth.NameSet() == est.NameSet() {
      var n := truth.NumNodes();
      OrderListAgree(truth, est, MaxOrder(n));
      AverageZero(OrderList(truth, est, MaxOrder(n)), n, v);
    }
  }

  // ---------------------------------------------------------------------
  // Exchanging truth and estimate

  /** Two quotients of the same number by the same positive number are equal. */
  lemma SameQuotient(q1: real, q2: real, a: real, d: real)
    requires d > 0.0 && q1 * d == a && q2 * d == a
    ensures q1 == q2
  {
    assert (q1 - q2) * d == 0.0;
  }

  /** An order and its exchanged counterpart have the same sc-ratio. */
  lemma OrderScoresSwap(t: Tally, u: Tally, v: Variant)
    requires IsSwapOf(u, t)
    ensures OrderScores(t, v).Ok? && OrderScores(u, v).Ok? ==>
      OrderScores(t, v).value.sc == OrderScores(u, v).value.sc
  {
    var r, w := OrderScores(t, v), OrderScores(u, v);
    if r.Ok? && w.Ok? {
      assert (u.sep + u.con) == (t.sep + t.con);
      SameQuotient(r.value.sc, w.value.sc, t.scm as real, (t.sep + t.con) as real);
    }
  }

  /** Lists of exchanged orders sum to the same sc-ratio. */
  lemma {:induction false} SumScoresSwap(ts: seq<Tally>, us: seq<Tally>, v: Variant)
    requires |ts| == |us|
    requires forall j :: 0 <= j < |ts| ==> IsSwapOf(us[j], ts[j])
    ensures SumScores(ts, v).Ok? && SumScores(us, v).Ok? ==>
      SumScores(ts, v).value.sc == SumScores(us, v).value.sc
  {
    if ts != [] {
      var p, q := ts[..|ts| - 1], us[..|us| - 1];
      assert forall j :: 0 <= j < |p| ==> p[j] == ts[j] && q[j] == us[j];
      SumScoresSwap(p, q, v);
      OrderScoresSwap(ts[|ts| - 1], us[|us| - 1], v);
    }
  }

  /** Graphs over the same node list: exchanging their roles exchanges every order's counters. */
  lemma OrderListSwap(truth: Graph, est: Graph, k: nat)
    requires truth.nodes == est.nodes
    ensures forall j :: 0 <= j < k ==> IsSwapOf(OrderList(est, truth, k)[j], OrderList(truth, est, k)[j])
  {
    var ts, us := OrderList(truth, est, k), OrderList(est, truth, k);
    var names := truth.NameList();
    assert est.NameList() == names;
    forall j | 0 <= j < k
      ensures IsSwapOf(us[j], ts[j])
    {
      OrderSwap(truth, est, Combinations(names, j + 1), names);
      OrderListAt(truth, est, k, j);
      OrderListAt(est, truth, k, j);
    }
  }

  /** Averages of equal sums are equal. */
  lemma AverageSwap(ts: seq<Tally>, us: seq<Tally>, n: nat, v: Variant)
    requires |ts| == |us|
    requires forall j :: 0 <= j < |ts| ==> IsSwapOf(us[j], ts[j])
    ensures var r, w := Average(SumScores(ts, v), n), Average(SumScores(us, v), n);
      r.Ok? && w.Ok? ==> r.value.sc == w.value.sc
  {
    SumScoresSwap(ts, us, v);
  }

  /**
   * The sc-metric is symmetric: for two graphs over the same node list,
   * exchanging which one plays the truth leaves it unchanged.
   */
  lemma ComputeSwap(truth: Graph, est: Graph, v: Variant)
    requires truth.nodes == est.nodes
    ensures var r, w := Compute(truth, est, v), Compute(est, truth, v);
      r.Ok? && w.Ok? ==> r.value.sc == w.value.sc
  {
    var n := truth.NumNodes();
    OrderListSwap(truth, est, MaxOrder(n));
    AverageSwap(OrderList(truth, est, MaxOrder(n)), OrderList(est, truth, MaxOrder(n)), n, v);
  }
}
