/**
 * The five counters kept for one conditioning-set size k: spurious
 * connections, missed connections, disagreements, and the numbers of
 * triples the truth graph calls connected and separated. The counts are
 * defined here as sums over the same enumeration the metric's loops walk:
 * one triple, one row (x fixed, y ranging over the names), one conditioning
 * set (x and y ranging), one order (the conditioning sets of size k).
 */
module Tallies {
  import opened Combinatorics
  import opened Graphs

  datatype Tally = Tally(sm: nat, cm: nat, scm: nat, con: nat, sep: nat) {

    /** Counting two disjoint groups of triples one after the other. */
    function Plus(other: Tally): Tally {
      Tally(sm + other.sm, cm + other.cm, scm + other.scm, con + other.con, sep + other.sep)
    }
  }

  /**
   * The contribution of one triple on which the truth says `truthCon` and
   * the estimate says `estCon`.
   */
  function Classify(truthCon: bool, estCon: bool): Tally {
    if truthCon then
      if estCon then Tally(0, 0, 0, 1, 0) else Tally(0, 1, 1, 1, 0)
    else
      if estCon then Tally(1, 0, 1, 0, 1) else Tally(0, 0, 0, 0, 1)
  }

  /**
   * What every counter built from `Classify` satisfies: a disagreement is
   * either a spurious or a missed connection, a spurious connection is a
   * separated triple and a missed connection a connected one.
   */
  predicate Consistent(t: Tally) {
    var spurious, missed := t.sm, t.cm;
    t.scm == spurious + missed && spurious <= t.sep && missed <= t.con
  }

  /** No spurious connection, missed connection or disagreement was counted. */
  predicate Clean(t: Tally) {
    t.sm == 0 && t.cm == 0 && t.scm == 0
  }

  /** `t` counts `n` triples, connected and separated together. */
  predicate Examines(t: Tally, n: int) {
    t.con + t.sep == n
  }

  /**
   * `swapped` counts what `t` counts with the roles of truth and estimate
   * exchanged: spurious and missed connections change places, disagreements
   * and the number of triples stay, and the connected triples become those
   * the estimate connects (the truth's, less the missed, plus the spurious).
   */
  predicate IsSwapOf(swapped: Tally, t: Tally) {
    && swapped.sm == t.cm
    && swapped.cm == t.sm
    && swapped.scm == t.scm
    && swapped.con + t.cm == t.con + t.sm
    && swapped.con + swapped.sep == t.con + t.sep
  }

  /** The counters for x and every y of `ys` outside `z` and other than x. */
  function RowTally(truth: Graph, est: Graph, z: set<Name>, x: Name, ys: seq<Name>): (r: Tally)
    decreases |ys|
  {
    if ys == [] then Tally(0, 0, 0, 0, 0)
    else
      var y := ys[|ys| - 1];
      var prev := RowTally(truth, est, z, x, ys[..|ys| - 1]);
      if y in z || y == x then prev
      else prev.Plus(Classify(truth.dcon(x, y, z), est.dcon(x, y, z)))
  }

  /** The counters for conditioning set `z`, x ranging over `xs` outside `z`, y over `names`. */
  function SubsetTally(truth: Graph, est: Graph, z: set<Name>, xs: seq<Name>, names: seq<Name>): (r: Tally)
    decreases |xs|
  {
    if xs == [] then Tally(0, 0, 0, 0, 0)
    else
      var x := xs[|xs| - 1];
      var prev := SubsetTally(truth, est, z, xs[..|xs| - 1], names);
      if x in z then prev
      else prev.Plus(RowTally(truth, est, z, x, names))
  }

  /** The counters summed over the conditioning sets listed in `combos`. */
  function OrderTally(truth: Graph, est: Graph, combos: seq<seq<Name>>, names: seq<Name>): (r: Tally)
    decreases |combos|
  {
    if combos == [] then Tally(0, 0, 0, 0, 0)
    else
      var prev := OrderTally(truth, est, combos[..|combos| - 1], names);
      prev.Plus(SubsetTally(truth, est, Elems(combos[|combos| - 1]), names, names))
  }

  /** The counters of order k: every k-subset of the truth graph's names, every ordered pair outside it. */
  function OrderCounts(truth: Graph, est: Graph, k: nat): (r: Tally)
  {
    var names := truth.NameList();
    OrderTally(truth, est, Combinations(names, k), names)
  }

  // ---------------------------------------------------------------------
  // What every count satisfies

  lemma PlusConsistent(a: Tally, b: Tally)
    requires Consistent(a) && Consistent(b)
    ensures Consistent(a.Plus(b))
  {
  }

  lemma {:induction false} RowConsistent(truth: Graph, est: Graph, z: set<Name>, x: Name, ys: seq<Name>)
    ensures Consistent(RowTally(truth, est, z, x, ys))
    decreases |ys|
  {
    if ys != [] {
      var y := ys[|ys| - 1];
      RowConsistent(truth, est, z, x, ys[..|ys| - 1]);
      PlusConsistent(RowTally(truth, est, z, x, ys[..|ys| - 1]), Classify(truth.dcon(x, y, z), est.dcon(x, y, z)));
    }
  }

  lemma {:induction false} SubsetConsistent(truth: Graph, est: Graph, z: set<Name>, xs: seq<Name>, names: seq<Name>)
    ensures Consistent(SubsetTally(truth, est, z, xs, names))
    decreases |xs|
  {
    if xs != [] {
      var p, x := xs[..|xs| - 1], xs[|xs| - 1];
      SubsetConsistent(truth, est, z, p, names);
      if x !in z {
        RowConsistent(truth, est, z, x, names);
        PlusConsistent(SubsetTally(truth, est, z, p, names), RowTally(truth, est, z, x, names));
      }
    }
  }

  lemma {:induction false} OrderConsistent(truth: Graph, est: Graph, combos: seq<seq<Name>>, names: seq<Name>)
    ensures Consistent(OrderTally(truth, est, combos, names))
    decreases |combos|
  {
    if combos != [] {
      var p, z := combos[..|combos| - 1], Elems(combos[|combos| - 1]);
      OrderConsistent(truth, est, p, names);
      SubsetConsistent(truth, est, z, names, names);
      PlusConsistent(OrderTally(truth, est, p, names), SubsetTally(truth, est, z, names, names));
    }
  }

  /**
   * Every order's counters are consistent: each disagreement is a spurious
   * or a missed connection, there are no more spurious connections than
   * separated triples and no more missed connections than connected ones.
   */
  lemma OrderCountsConsistent(truth: Graph, est: Graph, k: nat)
    ensures Consistent(OrderCounts(truth, est, k))
  {
    var names := truth.NameList();
    OrderConsistent(truth, est, Combinations(names, k), names);
  }

  // ---------------------------------------------------------------------
  // Exchanging truth and estimate

  lemma ClassifySwap(truthCon: bool, estCon: bool)
    ensures IsSwapOf(Classify(estCon, truthCon), Classify(truthCon, estCon))
  {
    if truthCon {
      assert Classify(truthCon, estCon).con == 1;
    } else {
      assert Classify(truthCon, estCon).con == 0;
    }
  }

  lemma PlusSwap(a: Tally, b: Tally, aSwapped: Tally, bSwapped: Tally)
    requires IsSwapOf(aSwapped, a) && IsSwapOf(bSwapped, b)
    ensures IsSwapOf(aSwapped.Plus(bSwapped), a.Plus(b))
  {
  }

  lemma {:induction false} RowSwap(truth: Graph, est: Graph, z: set<Name>, x: Name, ys: seq<Name>)
    ensures IsSwapOf(RowTally(est, truth, z, x, ys), RowTally(truth, est, z, x, ys))
    decreases |ys|
  {
    if ys != [] {
      var p, y := ys[..|ys| - 1], ys[|ys| - 1];
      RowSwap(truth, est, z, x, p);
      if y !in z && y != x {
        var t, e := truth.dcon(x, y, z), est.dcon(x, y, z);
        ClassifySwap(t, e);
        PlusSwap(RowTally(truth, est, z, x, p), Classify(t, e), RowTally(est, truth, z, x, p), Classify(e, t));
      }
    }
  }

  lemma {:induction false} SubsetSwap(truth: Graph, est: Graph, z: set<Name>, xs: seq<Name>, names: seq<Name>)
    ensures IsSwapOf(SubsetTally(est, truth, z, xs, names), SubsetTally(truth, est, z, xs, names))
    decreases |xs|
  {
    if xs != [] {
      var p, x := xs[..|xs| - 1], xs[|xs| - 1];
      SubsetSwap(truth, est, z, p, names);
      if x !in z {
        RowSwap(truth, est, z, x, names);
        PlusSwap(SubsetTally(truth, est, z, p, names), RowTally(truth, est, z, x, names),
                 SubsetTally(est, truth, z, p, names), RowTally(est, truth, z, x, names));
      }
    }
  }

  /**
   * Querying the estimate where the truth was queried and vice versa
   * exchanges spurious with missed connections and leaves the disagreement
   * count and the number of triples unchanged.
   */
  lemma {:induction false} OrderSwap(truth: Graph, est: Graph, combos: seq<seq<Name>>, names: seq<Name>)
    ensures IsSwapOf(OrderTally(est, truth, combos, names), OrderTally(truth, est, combos, names))
    decreases |combos|
  {
    if combos != [] {
      var p, z := combos[..|combos| - 1], Elems(combos[|combos| - 1]);
      OrderSwap(truth, est, p, names);
      SubsetSwap(truth, est, z, names, names);
      PlusSwap(OrderTally(truth, est, p, names), SubsetTally(truth, est, z, names, names),
               OrderTally(est, truth, p, names), SubsetTally(est, truth, z, names, names));
    }
  }

  // ---------------------------------------------------------------------
  // Graphs that agree

  lemma {:induction false} RowAgree(truth: Graph, est: Graph, z: set<Name>, x: Name, ys: seq<Name>)
    requires Agree(truth, est)
    ensures Clean(RowTally(truth, est, z, x, ys))
    decreases |ys|
  {
    if ys != [] {
      var y := ys[|ys| - 1];
      RowAgree(truth, est, z, x, ys[..|ys| - 1]);
      assert truth.dcon(x, y, z) == est.dcon(x, y, z);
    }
  }

  lemma {:induction false} SubsetAgree(truth: Graph, est: Graph, z: set<Name>, xs: seq<Name>, names: seq<Name>)
    requires Agree(truth, est)
    ensures Clean(SubsetTally(truth, est, z, xs, names))
    decreases |xs|
  {
    if xs != [] {
      SubsetAgree(truth, est, z, xs[..|xs| - 1], names);
      RowAgree(truth, est, z, xs[|xs| - 1], names);
    }
  }

  /** When the graphs agree on every triple there is no disagreement, spurious or missed connection. */
  lemma {:induction false} OrderAgree(truth: Graph, est: Graph, combos: seq<seq<Name>>, names: seq<Name>)
    requires Agree(truth, est)
    ensures Clean(OrderTally(truth, est, combos, names))
    decreases |combos|
  {
    if combos != [] {
      OrderAgree(truth, est, combos[..|combos| - 1], names);
      SubsetAgree(truth, est, Elems(combos[|combos| - 1]), names, names);
    }
  }

  // ---------------------------------------------------------------------
  // Estimates that miss nothing, and estimates that connect everything

  lemma {:induction false} RowCovers(truth: Graph, est: Graph, z: set<Name>, x: Name, ys: seq<Name>)
    requires Covers(truth, est)
    ensures RowTally(truth, est, z, x, ys).cm == 0
    decreases |ys|
  {
    if ys != [] {
      var y := ys[|ys| - 1];
      RowCovers(truth, est, z, x, ys[..|ys| - 1]);
      assert truth.dcon(x, y, z) ==> est.dcon(x, y, z);
    }
  }

  lemma {:induction false} SubsetCovers(truth: Graph, est: Graph, z: set<Name>, xs: seq<Name>, names: seq<Name>)
    requires Covers(truth, est)
    ensures SubsetTally(truth, est, z, xs, names).cm == 0
    decreases |xs|
  {
    if xs != [] {
      SubsetCovers(truth, est, z, xs[..|xs| - 1], names);
      RowCovers(truth, est, z, xs[|xs| - 1], names);
    }
  }

  /** An estimate that misses no connection has no missed connection counted. */
  lemma {:induction false} OrderCovers(truth: Graph, est: Graph, combos: seq<seq<Name>>, names: seq<Name>)
    requires Covers(truth, est)
    ensures OrderTally(truth, est, combos, names).cm == 0
    decreases |combos|
  {
    if combos != [] {
      OrderCovers(truth, est, combos[..|combos| - 1], names);
      SubsetCovers(truth, est, Elems(combos[|combos| - 1]), names, names);
    }
  }

  lemma {:induction false} RowConnectsAll(truth: Graph, est: Graph, z: set<Name>, x: Name, ys: seq<Name>)
    requires ConnectsAll(est)
    ensures var t := RowTally(truth, est, z, x, ys); t.sm == t.sep
    decreases |ys|
  {
    if ys != [] {
      var y := ys[|ys| - 1];
      RowConnectsAll(truth, est, z, x, ys[..|ys| - 1]);
      assert est.dcon(x, y, z);
    }
  }

  lemma {:induction false} SubsetConnectsAll(truth: Graph, est: Graph, z: set<Name>, xs: seq<Name>, names: seq<Name>)
    requires ConnectsAll(est)
    ensures var t := SubsetTally(truth, est, z, xs, names); t.sm == t.sep
    decreases |xs|
  {
    if xs != [] {
      SubsetConnectsAll(truth, est, z, xs[..|xs| - 1], names);
      RowConnectsAll(truth, est, z, xs[|xs| - 1], names);
    }
  }

  /** Against an estimate that connects everything, every separated triple is a spurious connection. */
  lemma {:induction false} OrderConnectsAll(truth: Graph, est: Graph, combos: seq<seq<Name>>, names: seq<Name>)
    requires ConnectsAll(est)
    ensures var t := OrderTally(truth, est, combos, names); t.sm == t.sep
    decreases |combos|
  {
    if combos != [] {
      OrderConnectsAll(truth, est, combos[..|combos| - 1], names);
      SubsetConnectsAll(truth, est, Elems(combos[|combos| - 1]), names, names);
    }
  }

  // ---------------------------------------------------------------------
  // The number of triples examined

  /** The number of elements of `s` outside `excluded`. */
  function CountOutside(s: seq<Name>, excluded: set<Name>): nat
    decreases |s|
  {
    if s == [] then 0
    else CountOutside(s[..|s| - 1], excluded) + (if s[|s| - 1] in excluded then 0 else 1)
  }

  /** In a sequence without repeats, the elements outside a set are all but those inside it. */
  lemma {:induction false} CountOutsideDistinct(s: seq<Name>, excluded: set<Name>)
    requires Distinct(s)
    ensures CountOutside(s, excluded) == |s| - |excluded * Elems(s)|
    decreases |s|
  {
    if s != [] {
      var p, last := s[..|s| - 1], s[|s| - 1];
      DistinctSnoc(s);
      CountOutsideDistinct(p, excluded);
      InterAddFresh(excluded, Elems(p), last);
    }
  }

  /** Adding a fresh element to `b` grows `a * b` by one exactly when the element is in `a`. */
  lemma InterAddFresh<T>(a: set<T>, b: set<T>, x: T)
    requires x !in b
    ensures |a * (b + {x})| == |a * b| + (if x in a then 1 else 0)
  {
    if x in a {
      assert a * (b + {x}) == a * b + {x};
    } else {
      assert a * (b + {x}) == a * b;
    }
  }

  lemma MulSucc(a: int, b: int)
    ensures (a + 1) * b == a * b + b
  {
  }

  /** The number of ordered pairs of distinct elements drawn from `m` elements. */
  function Pairs(m: int): int {
    if m <= 0 then 0 else Times(m, m - 1)
  }

  /** There are m (m - 1) such pairs. */
  lemma PairsFormula(m: nat)
    ensures Pairs(m) == m * (m - 1)
  {
    TimesMul(m, m - 1);
  }

  /** `m` copies of `p` added up. */
  function Times(m: nat, p: int): int {
    if m == 0 then 0 else Times(m - 1, p) + p
  }

  /** Repeated addition is multiplication. */
  lemma {:induction false} TimesMul(m: nat, p: int)
    ensures Times(m, p) == m * p
  {
    if m != 0 {
      TimesMul(m - 1, p);
      MulSucc(m - 1, p);
    }
  }

  /** A row visits one triple per y outside the conditioning set and other than x. */
  lemma {:induction false} RowTriples(truth: Graph, est: Graph, z: set<Name>, x: Name, ys: seq<Name>)
    ensures Examines(RowTally(truth, est, z, x, ys), CountOutside(ys, z + {x}))
    decreases |ys|
  {
    if ys != [] {
      RowTriples(truth, est, z, x, ys[..|ys| - 1]);
    }
  }

  /** For x among the names and outside `z`, the row pairs x with every other name outside `z`. */
  lemma RowCount(truth: Graph, est: Graph, z: set<Name>, x: Name, names: seq<Name>)
    requires Distinct(names) && z <= Elems(names) && x in Elems(names) && x !in z
    ensures Examines(RowTally(truth, est, z, x, names), |names| - |z| - 1)
  {
    RowTriples(truth, est, z, x, names);
    CountOutsideDistinct(names, z + {x});
    assert (z + {x}) * Elems(names) == z + {x};
  }

  /** `each` added up once for every element of `s` outside `excluded`. */
  function SumOutside(s: seq<Name>, excluded: set<Name>, each: int): int
    decreases |s|
  {
    if s == [] then 0
    else SumOutside(s[..|s| - 1], excluded, each) + (if s[|s| - 1] in excluded then 0 else each)
  }

  /** Adding `each` per element outside the set is multiplying their number by `each`. */
  lemma {:induction false} SumOutsideTimes(s: seq<Name>, excluded: set<Name>, each: int)
    ensures SumOutside(s, excluded, each) == Times(CountOutside(s, excluded), each)
    decreases |s|
  {
    if s != [] {
      var p := s[..|s| - 1];
      SumOutsideTimes(p, excluded, each);
      var m := CountOutside(p, excluded);
      if s[|s| - 1] !in excluded {
        assert CountOutside(s, excluded) == m + 1;
        assert Times(CountOutside(s, excluded), each) == Times(m, each) + each;
      }
    }
  }

  /** The same, for a count already known. */
  lemma SumOutsideCount(s: seq<Name>, excluded: set<Name>, each: int, count: nat)
    requires count == CountOutside(s, excluded)
    ensures SumOutside(s, excluded, each) == Times(count, each)
  {
    SumOutsideTimes(s, excluded, each);
  }

  /** When each x of `xs` outside `z` contributes a row of `perRow` triples, the subset holds that many rows. */
  lemma {:induction false} SubsetTriples(truth: Graph, est: Graph, z: set<Name>, xs: seq<Name>, names: seq<Name>, perRow: int)
    requires forall i :: 0 <= i < |xs| && xs[i] !in z ==> Examines(RowTally(truth, est, z, xs[i], names), perRow)
    ensures Examines(SubsetTally(truth, est, z, xs, names), SumOutside(xs, z, perRow))
    decreases |xs|
  {
    if xs != [] {
      var p := xs[..|xs| - 1];
      assert forall i :: 0 <= i < |p| ==> p[i] == xs[i];
      SubsetTriples(truth, est, z, p, names, perRow);
    }
  }

  /** A conditioning set of k distinct names is paired with (n - k)(n - k - 1) ordered pairs. */
  lemma SubsetCount(truth: Graph, est: Graph, c: seq<Name>, names: seq<Name>, k: nat)
    requires Distinct(names) && Distinct(c) && |c| == k && Elems(c) <= Elems(names)
    ensures Examines(SubsetTally(truth, est, Elems(c), names, names), Pairs(|names| - k))
  {
    var z := Elems(c);
    OutsideSubset(c, names);
    var m := |names| - k;
    RowsCount(truth, est, z, names);
    SubsetTriples(truth, est, z, names, names, m - 1);
    SumOutsideCount(names, z, m - 1, m);
  }

  /** Over distinct names, a conditioning set of |c| of them leaves |names| - |c| outside it. */
  lemma OutsideSubset(c: seq<Name>, names: seq<Name>)
    requires Distinct(names) && Distinct(c) && Elems(c) <= Elems(names)
    ensures |Elems(c)| == |c| && CountOutside(names, Elems(c)) == |names| - |c|
  {
    DistinctCard(c);
    CountOutsideDistinct(names, Elems(c));
    assert Elems(c) * Elems(names) == Elems(c);
  }

  /** Every row of a conditioning set over distinct names has the same number of triples. */
  lemma RowsCount(truth: Graph, est: Graph, z: set<Name>, names: seq<Name>)
    requires Distinct(names) && z <= Elems(names)
    ensures forall i :: 0 <= i < |names| && names[i] !in z ==>
      Examines(RowTally(truth, est, z, names[i], names), |names| - |z| - 1)
  {
    forall i | 0 <= i < |names| && names[i] !in z
      ensures Examines(RowTally(truth, est, z, names[i], names), |names| - |z| - 1)
    {
      RowCount(truth, est, z, names[i], names);
    }
  }

  /** When every listed conditioning set contributes `perSet` triples, the order holds |combos| times as many. */
  lemma {:induction false} OrderTriples(truth: Graph, est: Graph, combos: seq<seq<Name>>, names: seq<Name>, perSet: int)
    requires forall i :: 0 <= i < |combos| ==> Examines(SubsetTally(truth, est, Elems(combos[i]), names, names), perSet)
    ensures Examines(OrderTally(truth, est, combos, names), Times(|combos|, perSet))
    decreases |combos|
  {
    if combos != [] {
      var p := combos[..|combos| - 1];
      assert forall i :: 0 <= i < |p| ==> p[i] == combos[i];
      OrderTriples(truth, est, p, names, perSet);
      assert Examines(SubsetTally(truth, est, Elems(combos[|p|]), names, names), perSet);
    }
  }

  /**
   * The connected and separated triples of order k partition all triples
   * (x, y, z) with |z| = k and x, y distinct and outside z: over n distinct
   * names there are C(n, k) (n - k) (n - k - 1) of them.
   */
  lemma OrderTotal(truth: Graph, est: Graph, k: nat)
    ensures var n := |truth.NameList()|;
      Examines(OrderCounts(truth, est, k), Binomial(n, k) * ((n - k) * (n - k - 1)))
  {
    OrderTotalOver(truth, est, truth.NameList(), k);
    PairsClosed(|truth.NameList()|, k);
  }

  lemma OrderTotalOver(truth: Graph, est: Graph, names: seq<Name>, k: nat)
    requires Distinct(names)
    ensures Examines(OrderTally(truth, est, Combinations(names, k), names), Binomial(|names|, k) * Pairs(|names| - k))
  {
    var combos := Combinations(names, k);
    CombinationsDistinct(names, k);
    forall i | 0 <= i < |combos|
      ensures Examines(SubsetTally(truth, est, Elems(combos[i]), names, names), Pairs(|names| - k))
    {
      SubsetCount(truth, est, combos[i], names, k);
    }
    OrderTriples(truth, est, combos, names, Pairs(|names| - k));
    TimesMul(|combos|, Pairs(|names| - k));
  }

  /** C(n, k) times the pairs outside a k-subset, in closed form; both sides are 0 when k > n. */
  lemma PairsClosed(n: nat, k: nat)
    ensures Binomial(n, k) * Pairs(n - k) == Binomial(n, k) * ((n - k) * (n - k - 1))
  {
    if k <= n {
      PairsFormula(n - k);
    } else {
      BinomialAbove(n, k);
    }
  }

  /** There is no k-subset of fewer than k elements. */
  lemma {:induction false} BinomialAbove(n: nat, k: nat)
    requires k > n
    ensures Binomial(n, k) == 0
  {
    if n > 0 {
      BinomialAbove(n - 1, k - 1);
      BinomialAbove(n - 1, k);
    }
  }
}
