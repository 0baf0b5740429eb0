/**
 * The s-, c- and sc-metrics as values. For each order k = 1 .. N - 2 the
 * counters of that order give three ratios (spurious connections over the
 * truth's separations, a numerator over the truth's connections, and
 * disagreements over all triples); the metrics are the sums of those ratios
 * divided by N - 1, where N is the truth graph's node count.
 *
 * The numerator of the c-ratio is a parameter: `AsWritten` uses the
 * spurious-connection count, as the class does; `Intended` uses the
 * missed-connection count, which is what the c-metric is documented to
 * measure.
 */
module Metrics {
  import opened Graphs
  import opened Tallies

  /** Why computing the metrics stops without a result. */
  datatype Error =
    | NameMismatch   // the two graphs do not have the same node names
    | ZeroDivision   // a ratio or the final average has a zero denominator

  datatype Result<T> = Ok(value: T) | Err(error: Error)

  /** Which count the c-ratio divides by the truth's connections. */
  datatype Variant = AsWritten | Intended

  /** An s-, c- and sc-value. */
  datatype Scores = Scores(s: real, c: real, sc: real) {
    function Add(other: Scores): Scores {
      Scores(s + other.s, c + other.c, sc + other.sc)
    }
  }

  /** The numerator of the c-ratio of an order. */
  function CNumerator(t: Tally, v: Variant): nat {
    match v
    case AsWritten => t.sm
    case Intended => t.cm
  }

  /** An order's counters have both a separated and a connected triple in the truth. */
  predicate HasRatios(t: Tally) {
    t.sep > 0 && t.con > 0
  }

  /**
   * The three ratios of one order. The s-ratio is divided first, then the
   * c-ratio, then the sc-ratio; the first zero denominator is an error.
   */
  function OrderScores(t: Tally, v: Variant): (r: Result<Scores>)
    ensures r.Ok? <==> HasRatios(t)
    ensures r.Ok? ==> r.value.s * t.sep as real == t.sm as real
    ensures r.Ok? ==> r.value.c * t.con as real == CNumerator(t, v) as real
    ensures r.Ok? ==> r.value.sc * (t.sep + t.con) as real == t.scm as real
  {
    if t.sep == 0 then Err(ZeroDivision)
    else if t.con == 0 then Err(ZeroDivision)
    else Ok(Scores(
      t.sm as real / t.sep as real,
      CNumerator(t, v) as real / t.con as real,
      t.scm as real / (t.sep + t.con) as real))
  }

  /** The counters of orders 1 .. k, in order. */
  function OrderList(truth: Graph, est: Graph, k: nat): seq<Tally> {
    seq(k, (j: nat) => OrderCounts(truth, est, j + 1))
  }

  /** Entry j of the list holds the counters of order j + 1. */
  lemma OrderListAt(truth: Graph, est: Graph, k: nat, j: nat)
    requires j < k
    ensures OrderList(truth, est, k)[j] == OrderCounts(truth, est, j + 1)
  {
  }

  /** The list of orders 1 .. k is that of orders 1 .. k - 1 followed by order k. */
  lemma OrderListSnoc(truth: Graph, est: Graph, k: nat)
    requires k >= 1
    ensures OrderList(truth, est, k) == OrderList(truth, est, k - 1) + [OrderCounts(truth, est, k)]
  {
    SeqSnoc(OrderList(truth, est, k), OrderList(truth, est, k - 1), OrderCounts(truth, est, k));
  }

  lemma SeqSnoc<T>(ts: seq<T>, ps: seq<T>, c: T)
    requires |ts| == |ps| + 1 && ts[|ps|] == c
    requires forall j :: 0 <= j < |ps| ==> ts[j] == ps[j]
    ensures ts == ps + [c]
  {
  }

  /** The ratios of the orders counted in `ts` added up in order, or the first error met. */
  function SumScores(ts: seq<Tally>, v: Variant): Result<Scores> {
    if ts == [] then Ok(Scores(0.0, 0.0, 0.0))
    else
      match SumScores(ts[..|ts| - 1], v)
      case Err(e) => Err(e)
      case Ok(prev) =>
        match OrderScores(ts[|ts| - 1], v)
        case Err(e) => Err(e)
        case Ok(o) => Ok(prev.Add(o))
  }

  /** Summing one more order's ratios: the first error met, or the ratios added to the sum so far. */
  lemma SumScoresSnoc(ts: seq<Tally>, t: Tally, v: Variant)
    ensures SumScores(ts + [t], v) ==
      match SumScores(ts, v)
      case Err(e) => Err(e)
      case Ok(prev) =>
        match OrderScores(t, v)
        case Err(e) => Err(e)
        case Ok(o) => Ok(prev.Add(o))
  {
    assert (ts + [t])[..|ts|] == ts;
  }

  /** Once summing the orders 1 .. k has failed, summing the orders 1 .. m, for m >= k, fails the same way. */
  lemma {:induction false} OrderListStop(truth: Graph, est: Graph, k: nat, m: nat, v: Variant)
    requires k <= m && SumScores(OrderList(truth, est, k), v).Err?
    ensures SumScores(OrderList(truth, est, m), v) == SumScores(OrderList(truth, est, k), v)
    decreases m - k
  {
    if k < m {
      OrderListStop(truth, est, k, m - 1, v);
      OrderListSnoc(truth, est, m);
      SumScoresSnoc(OrderList(truth, est, m - 1), OrderCounts(truth, est, m), v);
    }
  }

  /** The integers lo, lo + 1, .., hi - 1, as `range(lo, hi)` yields them. */
  function Range(lo: int, hi: int): (r: seq<int>)
    ensures |r| == if lo < hi then hi - lo else 0
    ensures forall i :: 0 <= i < |r| ==> r[i] == lo + i
    decreases hi - lo
  {
    if lo >= hi then [] else [lo] + Range(lo + 1, hi)
  }

  /**
   * The largest order examined for a graph of `n` nodes: the orders
   * 1 .. r are exactly those of `range(1, n - 1)`.
   */
  function MaxOrder(n: nat): (r: nat)
    ensures Range(1, r + 1) == Range(1, n - 1)
  {
    if n >= 2 then n - 2 else 0
  }

  /** The summed ratios averaged over n - 1; a one-node graph divides by zero. */
  function Average(sum: Result<Scores>, n: nat): Result<Scores> {
    match sum
    case Err(e) => Err(e)
    case Ok(total) =>
      if n == 1 then Err(ZeroDivision)
      else
        var d := (n - 1) as real;
        Ok(Scores(total.s / d, total.c / d, total.sc / d))
  }

  /** The three metrics of `est` relative to `truth`. */
  function Compute(truth: Graph, est: Graph, v: Variant): Result<Scores> {
    if truth.NameSet() != est.NameSet() then Err(NameMismatch)
    else
      var n := truth.NumNodes();
      Average(SumScores(OrderList(truth, est, MaxOrder(n)), v), n)
  }
}
