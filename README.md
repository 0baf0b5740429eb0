# SCM: the s-, c- and sc-metrics of an estimated causal graph

causal-learn's `SCM` class compares an estimated causal graph with a
ground-truth graph. It does this by comparing the d-separation statements the
two graphs make.

For every conditioning-set size k = 1 .. N − 2:
- it walks every k-subset S of the node names, in the order
  `itertools.combinations` yields them;
- for each S, it walks every ordered pair (X, Y) of distinct names outside S;
- it asks both graphs whether X and Y are d-connected given S.

Five counters are kept per order:
- spurious connections `SM_k`: the estimate connects what the truth separates;
- missed connections `CM_k`: the estimate separates what the truth connects;
- disagreements `SCM_k`;
- the truth's connected triples `n_C_k_con`;
- the truth's separated triples `n_C_k_sep`.

Each order adds three ratios to the object's fields. The fields are then
divided by N − 1 and read back by three getters.

The project models this in Dafny:

- `graph.dfy` (`Graphs`): a graph as seen by the metric. It is the list of its
  node names plus its d-connection answer `dcon(x, y, S)`.
- `combinatorics.dfy` (`Combinatorics`):
  - `Dedup` gives the key order of the name dictionaries;
  - `Combinations` enumerates k-subsets in `itertools.combinations` order;
  - lemmas prove that every k-subset is listed exactly once.
- `tally.dfy` (`Tallies`): the five counters of one order, as a `Tally` value.
  They are defined as sums over the same enumeration the loops walk (one row,
  one conditioning set, one order). The lemmas cover:
  - the per-triple partition and the exact triple count;
  - consistency (`SCM_k = SM_k + CM_k`, `SM_k ≤ n_C_k_sep`, `CM_k ≤ n_C_k_con`);
  - agreement and exchanging the two graphs.
- `metrics.dfy` (`Metrics`): the per-order ratios, their sum and the final
  average, as pure functions. Errors are results:
  - `NameMismatch` for the failed name assertion;
  - `ZeroDivision` for a zero denominator.

  The c-ratio's numerator is a parameter:
  - `AsWritten` uses `SM_k`, as line 70 does;
  - `Intended` uses `CM_k`, as the comment on line 61 and the class
    documentation say.
- `metric_properties.dfy` (`MetricProperties`) proves four things:
  - when the metrics exist;
  - their bounds;
  - they are zero for an estimate that agrees with the truth;
  - the sc-metric does not change when truth and estimate are exchanged.
- `c_metric_numerator.dfy` (`CMetricNumerator`): the numerator of the c-ratio
  on line 70, as written and as documented.
- `scm.dfy` (`Scm`): the class itself.
  - `SCM.New` runs the constructor's work: the name check, the zeroed fields,
    and the order loop.
  - `SCM.AddOrders` updates the fields in place, order by order.
  - `CountOrder`, `CountSubset` and `CountRow` run the nested loops over
    subsets, x and y with five running counters.
  - Every loop is proved against the counting functions.
  - The getters return the fields, which equal the values `Compute` defines.

## Model

| member | source | states |
|---|---|---|
| `Graphs.Graph.NameList` | causallearn/graph/SCM.py:24-25 | the name-map keys: each name once, exactly the graph's names, as many as nodes when names do not repeat |
| `Combinatorics.Dedup` | causallearn/graph/SCM.py:24-25 | dictionary keys from a list: no repeats, same elements, each drawn from the list |
| `Combinatorics.Combinations` | causallearn/graph/SCM.py:41 | the k-combinations: C(n, k) of them, each of length k and drawn from the names |
| `Combinatorics.CombinationsDistinct` | causallearn/graph/SCM.py:41 | each combination of distinct names has no repeated name |
| `Combinatorics.CombinationsUnique` | causallearn/graph/SCM.py:41 | no k-subset is visited twice |
| `Combinatorics.CombinationsComplete` | causallearn/graph/SCM.py:41 | every k-subset of the names is visited |
| `Tallies.OrderCountsConsistent` | causallearn/graph/SCM.py:59-67 | per order, disagreements are spurious plus missed; spurious ≤ separated; missed ≤ connected |
| `Tallies.RowConsistent` | causallearn/graph/SCM.py:50-67 | the same for the triples of one x |
| `Tallies.SubsetConsistent` | causallearn/graph/SCM.py:46-67 | the same for one conditioning set |
| `Tallies.OrderConsistent` | causallearn/graph/SCM.py:42-67 | the same for a list of conditioning sets |
| `Tallies.ClassifySwap` | causallearn/graph/SCM.py:59-67 | exchanging the two answers for one triple exchanges spurious and missed and keeps the disagreement |
| `Tallies.RowSwap` | causallearn/graph/SCM.py:50-67 | exchanging the graphs gives the exchanged counters of a row |
| `Tallies.SubsetSwap` | causallearn/graph/SCM.py:46-67 | the same for one conditioning set |
| `Tallies.OrderSwap` | causallearn/graph/SCM.py:42-67 | the same for a list of conditioning sets: SM_k and CM_k change places, SCM_k and the triple count stay |
| `Tallies.RowAgree` | causallearn/graph/SCM.py:59-67 | graphs that agree count no spurious, missed or disagreeing triple in a row |
| `Tallies.SubsetAgree` | causallearn/graph/SCM.py:46-67 | the same for one conditioning set |
| `Tallies.OrderAgree` | causallearn/graph/SCM.py:42-67 | the same for a list of conditioning sets |
| `Tallies.RowCovers` | causallearn/graph/SCM.py:60-63 | an estimate connecting all the truth connects counts no missed connection in a row |
| `Tallies.SubsetCovers` | causallearn/graph/SCM.py:46-63 | the same for one conditioning set |
| `Tallies.OrderCovers` | causallearn/graph/SCM.py:42-63 | the same for a list of conditioning sets |
| `Tallies.RowConnectsAll` | causallearn/graph/SCM.py:64-67 | an estimate connecting every triple counts every separated triple of a row as spurious |
| `Tallies.SubsetConnectsAll` | causallearn/graph/SCM.py:46-67 | the same for one conditioning set |
| `Tallies.OrderConnectsAll` | causallearn/graph/SCM.py:42-67 | the same for a list of conditioning sets |
| `Tallies.CountOutsideDistinct` | causallearn/graph/SCM.py:46-52 | among distinct names, those outside a set number all but the ones inside it |
| `Tallies.RowTriples` | causallearn/graph/SCM.py:50-67 | each y outside S and other than x is counted once, as connected or separated |
| `Tallies.RowCount` | causallearn/graph/SCM.py:50-52 | a row examines N − k − 1 triples |
| `Tallies.SubsetTriples` | causallearn/graph/SCM.py:46-67 | a conditioning set examines the rows of the x outside it |
| `Tallies.SubsetCount` | causallearn/graph/SCM.py:42-67 | a k-subset examines (N − k)(N − k − 1) triples |
| `Tallies.RowsCount` | causallearn/graph/SCM.py:46-52 | every row of a conditioning set examines N − k − 1 triples |
| `Tallies.OrderTriples` | causallearn/graph/SCM.py:42-67 | a list of conditioning sets examines the sum of their triples |
| `Tallies.OrderTotalOver` | causallearn/graph/SCM.py:41-67 | connected plus separated triples of order k = C(n, k) times the number of ordered pairs of distinct names outside a k-subset |
| `Tallies.OrderTotal` | causallearn/graph/SCM.py:34-67 | `n_C_k_con + n_C_k_sep = C(N, k)·(N − k)(N − k − 1)` for the truth's names |
| `Metrics.OrderScores` | causallearn/graph/SCM.py:69-71 | the three ratios exist iff both denominators are non-zero; each ratio times its denominator is its numerator |
| `Metrics.Range` | causallearn/graph/SCM.py:34 | `range(lo, hi)`: hi − lo integers (none when lo ≥ hi), the i-th being lo + i |
| `Metrics.MaxOrder` | causallearn/graph/SCM.py:34 | the orders 1 .. r examined are exactly those of `range(1, N - 1)` |
| `Metrics.OrderListSnoc` | causallearn/graph/SCM.py:34 | orders 1 .. k are orders 1 .. k − 1 followed by order k |
| `Metrics.SumScoresSnoc` | causallearn/graph/SCM.py:69-71 | one more order adds its ratios, or stops at the first error |
| `Metrics.OrderListStop` | causallearn/graph/SCM.py:34-71 | once an order raises, the later orders do not change the outcome |
| `MetricProperties.SumScoresOk` | causallearn/graph/SCM.py:69-71 | summing the ratios succeeds iff no order has a zero denominator |
| `MetricProperties.AverageOk` | causallearn/graph/SCM.py:69-75 | the average exists iff N ≠ 1 and no order has a zero denominator |
| `MetricProperties.OrderListOk` | causallearn/graph/SCM.py:34-71 | the listed orders have non-zero denominators iff orders 1 .. k do |
| `MetricProperties.ComputeOk` | causallearn/graph/SCM.py:24-75 | the metrics exist iff the name sets match, N ≠ 1 and every order 1 .. N − 2 has a connected and a separated triple; the name error happens iff the name sets differ |
| `MetricProperties.SumScoresNotMismatch` | causallearn/graph/SCM.py:69-71 | summing never reports a name mismatch |
| `MetricProperties.AverageNotMismatch` | causallearn/graph/SCM.py:69-75 | averaging never reports a name mismatch |
| `MetricProperties.TwoNodes` | causallearn/graph/SCM.py:28-34 | with two nodes no order is examined and all three metrics are 0 |
| `MetricProperties.ConsistentDisagreements` | causallearn/graph/SCM.py:59-67 | disagreements never exceed the triples examined |
| `MetricProperties.SRatioBounds` | causallearn/graph/SCM.py:69 | the s-ratio of an order lies in [0, 1] |
| `MetricProperties.SCRatioBounds` | causallearn/graph/SCM.py:71 | the sc-ratio of an order lies in [0, 1] |
| `MetricProperties.CRatioNonNegative` | causallearn/graph/SCM.py:70 | the c-ratio of an order is not negative |
| `MetricProperties.CRatioInUnit` | causallearn/graph/SCM.py:61-63 | counting missed connections, the c-ratio is at most 1 |
| `MetricProperties.OrderScoresBounds` | causallearn/graph/SCM.py:60-71 | the s- and sc-ratios lie in [0, 1]; the c-ratio is ≥ 0, and ≤ 1 when it counts missed connections |
| `MetricProperties.SumScoresBounds` | causallearn/graph/SCM.py:69-71 | over m orders the summed s and sc lie in [0, m]; c is ≥ 0 (≤ m when intended) |
| `MetricProperties.AverageInUnit` | causallearn/graph/SCM.py:73-75 | at most N − 2 summed unit ratios over N − 1 stay in [0, 1] |
| `MetricProperties.OrderListConsistent` | causallearn/graph/SCM.py:59-67 | every order's counters are consistent |
| `MetricProperties.AverageBounds` | causallearn/graph/SCM.py:69-75 | averaged over N − 1, the metrics of consistent orders stay in range |
| `MetricProperties.ComputeBounds` | causallearn/graph/SCM.py:28-75 | s- and sc-metrics lie in [0, 1]; the c-metric is ≥ 0, and ≤ 1 when it counts missed connections |
| `MetricProperties.SumScoresZero` | causallearn/graph/SCM.py:69-71 | orders with no spurious, missed or disagreeing triple sum to zero |
| `MetricProperties.OrderListAgree` | causallearn/graph/SCM.py:59-67 | graphs that agree give clean counters in every order |
| `MetricProperties.AverageZero` | causallearn/graph/SCM.py:73-75 | the average of zero sums is zero |
| `MetricProperties.ComputeAgree` | causallearn/graph/SCM.py:59-75 | an estimate agreeing with the truth on every triple scores 0 on all three metrics |
| `MetricProperties.OrderScoresSwap` | causallearn/graph/SCM.py:71 | exchanged counters give the same sc-ratio |
| `MetricProperties.SumScoresSwap` | causallearn/graph/SCM.py:71 | exchanged orders sum to the same sc |
| `MetricProperties.OrderListSwap` | causallearn/graph/SCM.py:42-67 | over one node list, exchanging the graphs exchanges every order's counters |
| `MetricProperties.AverageSwap` | causallearn/graph/SCM.py:75 | averages of exchanged orders have the same sc |
| `MetricProperties.ComputeSwap` | causallearn/graph/SCM.py:59-75 | the sc-metric is unchanged when truth and estimate change roles |
| `CMetricNumerator.SumScoresNoneMissed` | causallearn/graph/SCM.py:61-62 | counting missed connections, orders with none sum to a zero c |
| `CMetricNumerator.SumScoresAllSpurious` | causallearn/graph/SCM.py:70 | as written, orders whose separated triples are all spurious sum to a positive c |
| `CMetricNumerator.OrderListCovers` | causallearn/graph/SCM.py:60-63 | an estimate missing nothing has CM_k = 0 in every order |
| `CMetricNumerator.OrderListConnectsAll` | causallearn/graph/SCM.py:64-67 | an estimate connecting everything has SM_k = n_C_k_sep in every order |
| `CMetricNumerator.AverageNoneMissed` | causallearn/graph/SCM.py:74 | averaging a zero c sum gives 0 |
| `CMetricNumerator.AverageAllSpurious` | causallearn/graph/SCM.py:74 | averaging keeps the as-written c positive from three nodes on |
| `CMetricNumerator.ComputeCovers` | causallearn/graph/SCM.py:61-63 | counting missed connections, an estimate that misses none has c-metric 0 |
| `CMetricNumerator.ComputeConnectsAll` | causallearn/graph/SCM.py:70 | as written, an estimate connecting everything has a positive c-metric from three nodes on |
| `CMetricNumerator.CMetricAsWritten` | causallearn/graph/SCM.py:70 | the same estimate misses nothing: the intended c-metric is 0, the written one positive |
| `Scm.CountRow` | causallearn/graph/SCM.py:50-67 | the loop over y adds exactly the row's counters to the running counts |
| `Scm.CountSubset` | causallearn/graph/SCM.py:46-67 | the loop over x adds exactly the conditioning set's counters |
| `Scm.CountOrder` | causallearn/graph/SCM.py:35-67 | the loop over the k-subsets yields exactly order k's counters |
| `Scm.SumScoresStep` | causallearn/graph/SCM.py:69-70 | an order with a zero denominator makes the sum of orders 1 .. k fail |
| `Scm.SumScoresAdd` | causallearn/graph/SCM.py:69-71 | otherwise the sum of orders 1 .. k is the previous sum plus order k's ratios |
| `Scm.SumScoresAddOne` | causallearn/graph/SCM.py:69-71 | one more order with non-zero denominators adds its three ratios |
| `Scm.SCM.Start` | causallearn/graph/SCM.py:28-30 | the three fields start at 0 |
| `Scm.SCM.AddOrders` | causallearn/graph/SCM.py:34-71 | the fields end as the summed ratios of orders 1 .. N − 2, or the result is a zero-division failure |
| `Scm.SCM.New` | causallearn/graph/SCM.py:12-75 | a name mismatch or a zero denominator gives `Compute`'s error; otherwise a fresh object whose fields are `Compute`'s metrics as written |
| `Scm.SCM.GetSMetric` | causallearn/graph/SCM.py:78-79 | returns the s-metric, which lies in [0, 1] |
| `Scm.SCM.GetCMetric` | causallearn/graph/SCM.py:81-82 | returns the c-metric as written, which is not negative |
| `Scm.SCM.GetSCMetric` | causallearn/graph/SCM.py:84-85 | returns the sc-metric, which lies in [0, 1] |

## Left out

- `is_dconnected_to` is a call into graph code outside this model. Each
  graph's d-connection test is a parameter: a deterministic function of two
  names and a set of names.
- `Graph`'s internals are not part of this model: `node_map`, `get_node`,
  `get_num_nodes` and the edges. A graph is its list of node names in
  node-map order; N is the length of that list.
- `float` accumulators and rounding are not modelled. Ratios are exact reals
  and counters are exact naturals.
- `itertools.combinations` is not called. The `Combinations` function
  reproduces its output order, and lemmas prove every k-subset appears
  exactly once.
- The source's `assert` raises `AssertionError` and its divisions raise
  `ZeroDivisionError`. In the model these are the results `Err(NameMismatch)`
  and `Err(ZeroDivision)`, and no object is returned.
- Scm.SCM.New: splits the Python constructor into a factory method and the
  in-place helper `AddOrders`. Both update the same three fields.
- Tallies.OrderSwap: does not claim that exchanging the graphs swaps
  `n_C_k_con` with `n_C_k_sep`. Those counters classify triples by the truth
  graph. After the exchange, the connected triples are the estimate's: the
  truth's connected triples, less the missed, plus the spurious. The total
  stays the same.
- MetricProperties.ComputeSwap: compares the sc-metrics only when both
  directions produce a result; the two directions can fail on different
  denominators. It also requires both graphs to have the same node list.
  That is a limit of the proof, not of the source: for distinct names, a
  reordered node list counts the same set of triples, so the sc-metric does
  not depend on node order. A lemma that `OrderCounts` is independent of the
  order of the names would lift the restriction; it is not part of this
  model.
- MetricProperties.ComputeBounds: bounds the as-written c-metric only from
  below: `SM_k / n_C_k_con` can exceed 1.
- Tallies.OrderTotal: counts triples over the distinct node names. When node
  names repeat, that count differs from N, which is `get_num_nodes`.
- The exponential running time is not modelled.
- No concrete graph is evaluated.

## Findings

| source | as written | input that shows it | evidently intended | confidence | as-written member | corrected member |
|---|---|---|---|---|---|---|
| causallearn/graph/SCM.py:70 | the c-metric adds `SM_k / n_C_k_con`, the spurious-connection count | truth a → b → c; an estimate that d-connects every triple. Order 1 has 4 connected triples, 2 separated and 2 spurious, with no missed connection. The c-metric as written is (2 / 4) / 2 = 0.25 | `CM_k / n_C_k_con` (the comment on line 61 and the class documentation on line 8): 0 here | not executed | `CMetricNumerator.CMetricAsWritten` | `CMetricNumerator.ComputeCovers` |
