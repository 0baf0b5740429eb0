/**
 * The metric object. Building it checks that both graphs carry the same
 * node names, zeroes the three fields, and then, order by order, walks the
 * conditioning sets, the x names and the y names, updating five running
 * counters one triple at a time; the ratios of each order are added into
 * the fields in place, and the fields are finally divided by N - 1. The
 * getters read the fields back.
 */
module Scm {
  import opened Combinatorics
  import opened Graphs
  import opened Tallies
  import opened Metrics
  import opened MetricProperties

  /** Counting three groups of triples does not depend on how they are grouped. */
  lemma PlusAssoc(a: Tally, b: Tally, c: Tally)
    ensures a.Plus(b.Plus(c)) == a.Plus(b).Plus(c)
  {
  }

  /** The row over the first j + 1 names: the row over the first j, and then the triple of names[j]. */
  lemma RowStep(truth: Graph, est: Graph, z: set<Name>, x: Name, names: seq<Name>, j: nat)
    requires j < |names|
    ensures var y := names[j];
      RowTally(truth, est, z, x, names[..j + 1]) ==
        if y in z || y == x then RowTally(truth, est, z, x, names[..j])
        else RowTally(truth, est, z, x, names[..j]).Plus(Classify(truth.dcon(x, y, z), est.dcon(x, y, z)))
  {
    assert names[..j + 1][..j] == names[..j];
  }

  /**
   * The counters after the row of x given z: y runs over `names`, skipping
   * the names in z and x itself; `acc` holds the counts before the row.
   */
  method CountRow(truth: Graph, est: Graph, z: set<Name>, x: Name, names: seq<Name>, acc: Tally) returns (t: Tally)
    ensures t == acc.Plus(RowTally(truth, est, z, x, names))
  {
    var sm, cm, scm, con, sep := acc.sm, acc.cm, acc.scm, acc.con, acc.sep;
    var j := 0;
    while j < |names|
      invariant 0 <= j <= |names|
      invariant Tally(sm, cm, scm, con, sep) == acc.Plus(RowTally(truth, est, z, x, names[..j]))
    {
      var y := names[j];
      RowStep(truth, est, z, x, names, j);
      if y !in z && x != y {
        ghost var before := Tally(sm, cm, scm, con, sep);
        var truthCon := truth.dcon(x, y, z);
        var estCon := est.dcon(x, y, z);
        if truthCon != estCon {
          scm := scm + 1;
        }
        if truthCon {
          if !estCon {
            cm := cm + 1;
          }
          con := con + 1;
        } else {
          if estCon {
            sm := sm + 1;
          }
          sep := sep + 1;
        }
        assert Tally(sm, cm, scm, con, sep) == before.Plus(Classify(truthCon, estCon));
        PlusAssoc(acc, RowTally(truth, est, z, x, names[..j]), Classify(truthCon, estCon));
      }
      j := j + 1;
    }
    assert names[..j] == names;
    t := Tally(sm, cm, scm, con, sep);
  }

  /** The counters after conditioning set z: x runs over `names`, skipping the names in z. */
  method CountSubset(truth: Graph, est: Graph, z: set<Name>, names: seq<Name>, acc: Tally) returns (t: Tally)
    ensures t == acc.Plus(SubsetTally(truth, est, z, names, names))
  {
    t := acc;
    var i := 0;
    while i < |names|
      invariant 0 <= i <= |names|
      invariant t == acc.Plus(SubsetTally(truth, est, z, names[..i], names))
    {
      var x := names[i];
      assert names[..i + 1][..i] == names[..i];
      if x !in z {
        t := CountRow(truth, est, z, x, names, t);
      }
      i := i + 1;
    }
    assert names[..i] == names;
  }

  /** The counters of order k: every k-subset of `names`, in the order of their enumeration. */
  method CountOrder(truth: Graph, est: Graph, names: seq<Name>, k: nat) returns (t: Tally)
    ensures t == OrderTally(truth, est, Combinations(names, k), names)
  {
    var sets := Combinations(names, k);
    t := Tally(0, 0, 0, 0, 0);
    var i := 0;
    while i < |sets|
      invariant 0 <= i <= |sets|
      invariant t == OrderTally(truth, est, sets[..i], names)
    {
      assert sets[..i + 1][..i] == sets[..i];
      t := CountSubset(truth, est, Elems(sets[i]), names, t);
      i := i + 1;
    }
    assert sets[..i] == sets;
  }

  /**
   * Adding the ratios of order k to the sums of orders 1 .. k - 1, with the
   * spurious count as the c-ratio's numerator; a zero denominator fails.
   */
  /** An order with no separated or no connected triple in the truth makes the sum of orders 1 .. k fail. */
  lemma SumScoresStep(truth: Graph, est: Graph, k: nat, t: Tally, prev: Scores)
    requires 1 <= k && t == OrderCounts(truth, est, k)
    requires SumScores(OrderList(truth, est, k - 1), AsWritten) == Ok(prev)
    ensures t.sep == 0 || t.con == 0 ==> SumScores(OrderList(truth, est, k), AsWritten) == Err(ZeroDivision)
  {
    OrderListSnoc(truth, est, k);
    SumScoresSnoc(OrderList(truth, est, k - 1), t, AsWritten);
  }

  /** Otherwise the sum of orders 1 .. k is that of orders 1 .. k - 1 plus the ratios of order k. */
  lemma SumScoresAdd(truth: Graph, est: Graph, k: nat, t: Tally, prev: Scores, next: Scores)
    requires 1 <= k && t == OrderCounts(truth, est, k)
    requires SumScores(OrderList(truth, est, k - 1), AsWritten) == Ok(prev)
    requires t.sep > 0 && t.con > 0
    requires next.s == prev.s + t.sm as real / t.sep as real
    requires next.c == prev.c + t.sm as real / t.con as real
    requires next.sc == prev.sc + t.scm as real / (t.sep + t.con) as real
    ensures SumScores(OrderList(truth, est, k), AsWritten) == Ok(next)
  {
    OrderListSnoc(truth, est, k);
    SumScoresAddOne(OrderList(truth, est, k - 1), t, prev, next);
  }

  /** Summing one more order with both denominators non-zero adds its three ratios. */
  lemma SumScoresAddOne(ts: seq<Tally>, t: Tally, prev: Scores, next: Scores)
    requires SumScores(ts, AsWritten) == Ok(prev)
    requires t.sep > 0 && t.con > 0
    requires next.s == prev.s + t.sm as real / t.sep as real
    requires next.c == prev.c + t.sm as real / t.con as real
    requires next.sc == prev.sc + t.scm as real / (t.sep + t.con) as real
    ensures SumScores(ts + [t], AsWritten) == Ok(next)
  {
    SumScoresSnoc(ts, t, AsWritten);
  }

  class SCM {
    /** The s-, c- and sc-metric. */
    var sm: real
    var cm: real
    var scm: real

    /** The graphs the metrics were computed from. */
    ghost var truth: Graph
    ghost var est: Graph

    /** The fields hold the metrics of `est` against `truth`, as the class computes them. */
    ghost predicate Valid()
      reads this
    {
      Compute(truth, est, AsWritten) == Ok(Scores(sm, cm, scm))
    }

    /**
     * The fields start at zero. This is the first step of `New`: the object
     * it returns is not yet `Valid()`, and its metrics cannot be read until
     * `New` has added every order and averaged.
     */
    constructor Start(ghost truth: Graph, ghost est: Graph)
      ensures this.truth == truth && this.est == est
      ensures sm == 0.0 && cm == 0.0 && scm == 0.0
    {
      this.truth, this.est := truth, est;
      sm, cm, scm := 0.0, 0.0, 0.0;
    }

    /**
     * Computes the metrics of `est` against `truth`: an error when the node
     * names differ or a denominator is zero, otherwise an object holding
     * the three metrics.
     */
    static method New(truth: Graph, est: Graph) returns (r: Result<SCM>)
      ensures r.Err? ==> Compute(truth, est, AsWritten) == Err(r.error)
      ensures r.Ok? ==> fresh(r.value) && r.value.truth == truth && r.value.est == est && r.value.Valid()
    {
      var names := truth.NameList();
      if Elems(names) != est.NameSet() {
        return Err(NameMismatch);
      }
      var o := new SCM.Start(truth, est);
      var n := |truth.nodes|;
      var ok := o.AddOrders(truth, est, names, n);
      if !ok {
        return Err(ZeroDivision);
      }
      if n - 1 == 0 {
        return Err(ZeroDivision);
      }
      o.sm := o.sm / (n - 1) as real;
      o.cm := o.cm / (n - 1) as real;
      o.scm := o.scm / (n - 1) as real;
      return Ok(o);
    }

    /**
     * Adds the ratios of the orders 1 .. N - 2 into the zeroed fields, order
     * by order, with the spurious count as the c-ratio's numerator; false
     * when an order has a zero denominator.
     */
    method AddOrders(truth: Graph, est: Graph, names: seq<Name>, n: nat) returns (ok: bool)
      requires truth == this.truth && est == this.est
      requires names == truth.NameList() && n == truth.NumNodes()
      requires sm == 0.0 && cm == 0.0 && scm == 0.0
      modifies this
      ensures truth == this.truth && est == this.est
      ensures ok ==> SumScores(OrderList(truth, est, MaxOrder(n)), AsWritten) == Ok(Scores(sm, cm, scm))
      ensures !ok ==> SumScores(OrderList(truth, est, MaxOrder(n)), AsWritten) == Err(ZeroDivision)
    {
      var k := 1;
      while k < n - 1
        invariant 1 <= k <= MaxOrder(n) + 1
        invariant truth == this.truth && est == this.est
        invariant SumScores(OrderList(truth, est, k - 1), AsWritten) == Ok(Scores(sm, cm, scm))
      {
        var t := CountOrder(truth, est, names, k);
        ghost var prev := Scores(sm, cm, scm);
        SumScoresStep(truth, est, k, t, prev);
        if t.sep == 0 || t.con == 0 {
          OrderListStop(truth, est, k, MaxOrder(n), AsWritten);
          return false;
        }
        sm := sm + t.sm as real / t.sep as real;
        cm := cm + t.sm as real / t.con as real;
        scm := scm + t.scm as real / (t.sep + t.con) as real;
        SumScoresAdd(truth, est, k, t, prev, Scores(sm, cm, scm));
        k := k + 1;
      }
      assert k - 1 == MaxOrder(n);
      return true;
    }

    /** The s-metric of the two graphs; it lies in [0, 1]. */
    function GetSMetric(): (r: real)
      reads this
      requires Valid()
      ensures Compute(truth, est, AsWritten).Ok? && r == Compute(truth, est, AsWritten).value.s
      ensures 0.0 <= r <= 1.0
    {
      ComputeBounds(truth, est, AsWritten);
      sm
    }

    /** The c-metric of the two graphs, as the class computes it; it is not negative. */
    function GetCMetric(): (r: real)
      reads this
      requires Valid()
      ensures Compute(truth, est, AsWritten).Ok? && r == Compute(truth, est, AsWritten).value.c
      ensures 0.0 <= r
    {
      ComputeBounds(truth, est, AsWritten);
      cm
    }

    /** The sc-metric of the two graphs; it lies in [0, 1]. */
    function GetSCMetric(): (r: real)
      reads this
      requires Valid()
      ensures Compute(truth, est, AsWritten).Ok? && r == Compute(truth, est, AsWritten).value.sc
      ensures 0.0 <= r <= 1.0
    {
      ComputeBounds(truth, est, AsWritten);
      scm
    }
  }
}
