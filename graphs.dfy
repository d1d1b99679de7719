/** Undirected affinity graphs over accounts, as maps from an unordered
    account pair to its weight, and the communities a detector returns. */
module Graphs {

  import opened Maps
  import opened Workload

  /** An unordered pair, stored as `(min, max)`. */
  datatype Edge = Edge(lo: Account, hi: Account)

  /** `(min(src, dst), max(src, dst))`: both directions of a transaction share one key. */
  function Key(t: Tx): (e: Edge)
    ensures e.lo <= e.hi
    ensures {e.lo, e.hi} == {t.src, t.dst}
  {
    if t.src <= t.dst then Edge(t.src, t.dst) else Edge(t.dst, t.src)
  }

  /** `G.nodes` of a graph built only by adding edges: the endpoints of its edges. */
  function Nodes(edges: set<Edge>): set<Account>
  {
    (set e | e in edges :: e.lo) + (set e | e in edges :: e.hi)
  }

  /** The weight a batch gives each pair: one per transaction, accumulated. */
  function PairCounts(txs: seq<Tx>): (g: map<Edge, nat>)
    ensures forall e :: e in g ==> g[e] >= 1
  {
    if txs == [] then map[] else Bump(PairCounts(txs[..|txs| - 1]), Key(txs[|txs| - 1]))
  }

  /** The transactions of a batch between `u` and `v`, in either direction. */
  function Between(txs: seq<Tx>, u: Account, v: Account): nat
  {
    if txs == [] then 0
    else
      var t := txs[|txs| - 1];
      Between(txs[..|txs| - 1], u, v) + if (t.src == u && t.dst == v) || (t.src == v && t.dst == u) then 1 else 0
  }

  /** Each edge's weight is the number of transactions between its endpoints. */
  lemma {:induction false} PairCountsAreBetween(txs: seq<Tx>, u: Account, v: Account)
    requires u <= v
    ensures Count(PairCounts(txs), Edge(u, v)) == Between(txs, u, v)
  {
    if txs != [] {
      PairCountsAreBetween(txs[..|txs| - 1], u, v);
    }
  }

  /** The edges are exactly the keys of the batch's transactions. */
  lemma {:induction false} PairCountsKeys(txs: seq<Tx>)
    ensures forall e :: e in PairCounts(txs) <==> exists i :: 0 <= i < |txs| && Key(txs[i]) == e
  {
    if txs != [] {
      var pre := txs[..|txs| - 1];
      PairCountsKeys(pre);
      forall e | e in PairCounts(txs)
        ensures exists i :: 0 <= i < |txs| && Key(txs[i]) == e
      {
        if e in PairCounts(pre) {
          var i :| 0 <= i < |pre| && Key(pre[i]) == e;
          assert Key(txs[i]) == e;
        } else {
          assert Key(txs[|txs| - 1]) == e;
        }
      }
      forall e | exists i :: 0 <= i < |txs| && Key(txs[i]) == e
        ensures e in PairCounts(txs)
      {
        var i :| 0 <= i < |txs| && Key(txs[i]) == e;
        if i < |txs| - 1 {
          assert Key(pre[i]) == e;
        }
      }
    }
  }

  /** The graph's nodes are exactly the accounts active in the batch. */
  lemma PairCountsNodes(txs: seq<Tx>)
    ensures Nodes(PairCounts(txs).Keys) == Accounts(txs)
  {
    var g := PairCounts(txs);
    PairCountsKeys(txs);
    forall a | a in Nodes(g.Keys)
      ensures a in Accounts(txs)
    {
      var e :| e in g && (a == e.lo || a == e.hi);
      var i :| 0 <= i < |txs| && Key(txs[i]) == e;
      assert txs[i] in txs;
    }
    forall a | a in Accounts(txs)
      ensures a in Nodes(g.Keys)
    {
      var t :| t in txs && (a == t.src || a == t.dst);
      var i :| 0 <= i < |txs| && txs[i] == t;
      assert Key(t) in g;
    }
  }

  /** The total edge weight is the number of transactions in the batch. */
  lemma {:induction false} PairCountsTotal(txs: seq<Tx>)
    ensures Sum(PairCounts(txs)) == |txs|
  {
    if txs != [] {
      PairCountsTotal(txs[..|txs| - 1]);
      SumBump(PairCounts(txs[..|txs| - 1]), Key(txs[|txs| - 1]));
    }
  }

  /** A graph has no nodes exactly when it has no edges. */
  lemma NoNodesNoEdges(edges: set<Edge>)
    ensures Nodes(edges) == {} <==> edges == {}
  {
    if edges != {} {
      var e := SetPick(edges);
      assert e.lo in Nodes(edges);
    }
  }

  /** The accumulation loop of both graph builders: one `+= 1` per transaction. */
  method CountPairs(txs: seq<Tx>) returns (g: map<Edge, nat>)
    ensures g == PairCounts(txs)
  {
    g := map[];
    var i := 0;
    while i < |txs|
      invariant 0 <= i <= |txs|
      invariant g == PairCounts(txs[..i])
    {
      assert txs[..i + 1][..i] == txs[..i];
      g := Bump(g, Key(txs[i]));
      i := i + 1;
    }
    assert txs[..|txs|] == txs;
  }

  /** What a community detector returns: one set of accounts per community. */
  type Communities = seq<set<Account>>

  /** Every account some community holds. */
  function Union(cs: Communities): set<Account>
  {
    if cs == [] then {} else Union(cs[..|cs| - 1]) + cs[|cs| - 1]
  }

  /** The contract assumed of a community detector: pairwise disjoint
      communities whose union is the graph's node set. */
  ghost predicate IsCommunityPartition(cs: Communities, nodes: set<Account>)
  {
    && (forall i, j :: 0 <= i < j < |cs| ==> cs[i] !! cs[j])
    && Union(cs) == nodes
  }
}
