/** The sharding protocols: static (address modulo shard count), the two
    reactive ones that partition last epoch's transaction graph, and the
    predictive one, behind one `reconfigure` entry point. */
module Protocols {

  import opened Workload
  import opened Graphs
  import opened Partitions
  import opened ProShard

  // ------------------------------------------------------------------ reactive

  /** `_build_graph_from_history`, as a value: nothing at epoch 0 or for an
      empty history, else the pair counts of the epoch before. */
  function ReactiveGraph(history: History, epoch: int): map<Edge, nat>
  {
    if epoch == 0 || history == map[] then map[] else PairCounts(LastEpochTxs(history, epoch))
  }

  /** `_build_graph_from_history`: the accumulation loop over the epoch before. */
  method BuildGraphFromHistory(history: History, epoch: int) returns (g: map<Edge, nat>)
    ensures g == ReactiveGraph(history, epoch)
  {
    if epoch == 0 || |history| == 0 {
      return map[];
    }
    g := CountPairs(LastEpochTxs(history, epoch));
  }

  /** The graph is empty at epoch 0, for an empty history, and when the
      epoch before has no entry. */
  lemma ReactiveGraphEmpty(history: History, epoch: int)
    requires epoch == 0 || history == map[] || epoch - 1 !in history
    ensures ReactiveGraph(history, epoch) == map[]
  {
  }

  /** Otherwise each pair's weight counts the transactions between the two
      accounts in either direction, the weights add up to the number of those
      transactions, and the nodes are the accounts that took part in them. */
  lemma ReactiveGraphCounts(history: History, epoch: int)
    requires epoch != 0 && history != map[]
    ensures var txs := LastEpochTxs(history, epoch);
            var g := ReactiveGraph(history, epoch);
            && (forall u, v :: u <= v ==> Maps.Count(g, Edge(u, v)) == Between(txs, u, v))
            && (forall e :: e in g ==> e.lo <= e.hi)
            && Maps.Sum(g) == |txs|
            && Nodes(g.Keys) == Accounts(txs)
  {
    var txs := LastEpochTxs(history, epoch);
    forall u, v | u <= v
      ensures Maps.Count(PairCounts(txs), Edge(u, v)) == Between(txs, u, v)
    {
      PairCountsAreBetween(txs, u, v);
    }
    PairCountsKeys(txs);
    PairCountsTotal(txs);
    PairCountsNodes(txs);
  }

  /** When the graph is not empty and the detector keeps its contract, the
      new partition holds exactly the accounts active in the epoch before:
      an inactive account is absent from it. */
  lemma ReactivePartitionDomain(current: Partition, history: History, epoch: int, cs: Communities)
    requires ReactiveGraph(history, epoch) != map[]
    requires IsCommunityPartition(cs, Nodes(ReactiveGraph(history, epoch).Keys))
    ensures var r := AdoptCommunities(current, ReactiveGraph(history, epoch), cs);
            && r.Keys == Accounts(LastEpochTxs(history, epoch))
            && forall a :: a in r ==> 0 <= r[a] < |cs|
  {
    PairCountsNodes(LastEpochTxs(history, epoch));
    FromDisjointCommunities(cs, Nodes(ReactiveGraph(history, epoch).Keys));
    FromCommunitiesLast(cs);
  }

  /** The same holds for the predictive protocol: its graph has an edge for
      every pair that transacted in the epoch before, so a detector that keeps
      its contract yields a partition of exactly the accounts active then. */
  lemma PredictivePartitionDomain(current: Partition, history: History, epoch: int,
                                  predicted: map<Account, real>, cs: Communities)
    requires AboveThreshold(predicted)
    requires Pag(history, epoch, predicted) != map[]
    requires IsCommunityPartition(cs, Nodes(Pag(history, epoch, predicted).Keys))
    ensures var r := AdoptCommunities(current, Pag(history, epoch, predicted), cs);
            && epoch > 0
            && r.Keys == Accounts(LastEpochTxs(history, epoch))
            && forall a :: a in r ==> 0 <= r[a] < |cs|
  {
    PagEdges(history, epoch, predicted);
    PairCountsNodes(LastEpochTxs(history, epoch));
    FromDisjointCommunities(cs, Nodes(Pag(history, epoch, predicted).Keys));
    FromCommunitiesLast(cs);
  }

  /** `CLPAProtocol.reconfigure`. */
  method ClpaReconfigure(labelPropagation: set<Edge> -> Communities,
                         current: Partition, history: History, epoch: int) returns (r: Partition)
    ensures var g := ReactiveGraph(history, epoch);
            r == AdoptCommunities(current, g, labelPropagation(g.Keys))
  {
    var g := BuildGraphFromHistory(history, epoch);
    NoNodesNoEdges(g.Keys);
    if Nodes(g.Keys) == {} {
      return current;
    }
    var communities := labelPropagation(g.Keys);
    r := CreatePartitionFromCommunities(communities);
  }

  /** `DBSRPMLProtocol.reconfigure`: the detector is asked for `numShards` communities. */
  method DbsrpMlReconfigure(greedyModularity: (set<Edge>, nat) -> Communities, numShards: nat,
                            current: Partition, history: History, epoch: int) returns (r: Partition)
    ensures var g := ReactiveGraph(history, epoch);
            r == AdoptCommunities(current, g, greedyModularity(g.Keys, numShards))
  {
    var g := BuildGraphFromHistory(history, epoch);
    NoNodesNoEdges(g.Keys);
    if Nodes(g.Keys) == {} {
      return current;
    }
    var communities := greedyModularity(g.Keys, numShards);
    r := CreatePartitionFromCommunities(communities);
  }

  // ------------------------------------------------------------ the family

  /** A protocol instance. The community detectors of the graph library are
      parameters: label propagation sees the unweighted graph, greedy
      modularity is asked for a number of communities (and sees the weights
      only in the predictive protocol). */
  datatype Protocol =
    | Static(numShards: nat, numAccounts: nat, partition: Partition)
    | Clpa(numShards: nat, numAccounts: nat, labelPropagation: set<Edge> -> Communities)
    | DbsrpMl(numShards: nat, numAccounts: nat, greedyModularity: (set<Edge>, nat) -> Communities)
    | Predictive(engine: ProShardProtocol)
  {
    function Shards(): nat
    {
      if Predictive? then engine.numShards else numShards
    }

    function AccountCount(): nat
    {
      if Predictive? then engine.numAccounts else numAccounts
    }

    /** The objects whose state `reconfigure` may change. */
    function Footprint(): set<object>
    {
      if Predictive? then {engine} else {}
    }

    ghost predicate Valid()
      reads Footprint()
    {
      && (Static? ==> (numAccounts > 0 ==> numShards > 0) && partition == ModuloPartition(numShards, numAccounts))
      && (Predictive? ==> engine.Valid())
    }
  }

  /** `StaticProtocol(num_shards, num_accounts)`: the modulo partition, computed once. */
  function NewStatic(numShards: nat, numAccounts: nat): (p: Protocol)
    requires numAccounts > 0 ==> numShards > 0
    ensures p.Static? && p.Valid()
    ensures p.Shards() == numShards && p.AccountCount() == numAccounts
  {
    Static(numShards, numAccounts, ModuloPartition(numShards, numAccounts))
  }

  /** `protocol.reconfigure(current_partition, workload_history, epoch)`. */
  method Reconfigure(p: Protocol, current: Partition, history: History, epoch: int) returns (r: Partition)
    requires p.Valid()
    modifies p.Footprint()
    ensures p.Valid()
    ensures p.Static? ==> r == p.partition
    ensures p.Clpa? ==>
              var g := ReactiveGraph(history, epoch);
              r == AdoptCommunities(current, g, p.labelPropagation(g.Keys))
    ensures p.DbsrpMl? ==>
              var g := ReactiveGraph(history, epoch);
              r == AdoptCommunities(current, g, p.greedyModularity(g.Keys, p.numShards))
    ensures p.Predictive? ==>
              && p.engine.historical == UpdatedHistorical(old(p.engine.historical), history, epoch)
              && p.engine.predicted == Predicted(p.engine.historical, epoch, p.engine.spikeEpoch)
              && var g := Pag(history, epoch, p.engine.predicted);
                 r == AdoptCommunities(current, g, p.engine.greedyModularity(g, p.engine.numShards))
  {
    match p
    case Static(_, _, partition) =>
      r := partition;
    case Clpa(_, _, labelPropagation) =>
      r := ClpaReconfigure(labelPropagation, current, history, epoch);
    case DbsrpMl(numShards, _, greedyModularity) =>
      r := DbsrpMlReconfigure(greedyModularity, numShards, current, history, epoch);
    case Predictive(engine) =>
      r := engine.Reconfigure(current, history, epoch);
  }
}
