/**
 * What the metric sees of a causal graph: the name of each of its nodes and
 * its d-connection test. How the graph stores nodes and edges, and how it
 * decides d-connection, are not part of this model.
 */
module Graphs {
  import opened Combinatorics

  type Name = string

  /**
   * `nodes` lists the name of every node in the graph's node-map order (two
   * nodes may carry the same name). `dcon(x, y, z)` is the graph's answer to
   * "are x and y d-connected given the conditioning set z?"; it is a fixed,
   * deterministic function of the names involved.
   */
  datatype Graph = Graph(nodes: seq<Name>, dcon: (Name, Name, set<Name>) -> bool) {

    /** The graph's node count. */
    function NumNodes(): nat {
      |nodes|
    }

    /** The set of node names. */
    function NameSet(): set<Name> {
      Elems(nodes)
    }

    /**
     * The keys of the name-to-node map built from the node map: each name
     * once, in order of first occurrence.
     */
    function NameList(): (r: seq<Name>)
      ensures Distinct(r) && Elems(r) == NameSet()
      ensures Distinct(nodes) ==> |r| == NumNodes()
    {
      var r := Dedup(nodes);
      if Distinct(nodes) then
        DistinctCard(r);
        DistinctCard(nodes);
        r
      else r
    }
  }

  /** The two graphs give the same d-connection answer for every triple. */
  ghost predicate Agree(truth: Graph, est: Graph) {
    forall x, y, z :: truth.dcon(x, y, z) == est.dcon(x, y, z)
  }

  /** The estimate connects every triple the truth connects: it misses no connection. */
  ghost predicate Covers(truth: Graph, est: Graph) {
    forall x, y, z :: truth.dcon(x, y, z) ==> est.dcon(x, y, z)
  }

  /** The graph d-connects every pair under every conditioning set. */
  ghost predicate ConnectsAll(g: Graph) {
    forall x, y, z :: g.dcon(x, y, z)
  }

}
