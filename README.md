# ProShard sharding simulator — a Dafny model

This project models the epoch-driven engine of the ProShard blockchain-sharding
simulator and proves properties about it. Each epoch the simulator does four things:

1. It generates a batch of transactions: a power-law baseline plus, in one scripted epoch, a spike into a ten-account NFT cluster.
2. It asks a sharding protocol for a new account-to-shard partition.
3. It charges the accounts that moved as a reconfiguration cost.
4. It measures the epoch under the new partition: cross-shard transactions, per-shard load, average latency, cross-shard ratio, throughput and load imbalance.

Four protocols are modelled:

- **Static** keeps `account mod num_shards` forever.
- **CLPA** runs community detection on the previous epoch's transaction graph. So does **DBSRP-ML**.
- **ProShard** does three things:
  - it keeps an exponential moving average of each account's activity;
  - it forecasts the accounts above a threshold, boosting the NFT cluster one epoch before the spike;
  - it partitions a predictive affinity graph whose edge weights mix a historical, a predictive and a semantic score.

Modules, in dependency order:

- `Wrappers`: `Option`.
- `Config`: the simulator's constants.
- `Maps`: counters with default 0, sums, and maxima and minima.
- `Workload`: transactions, history, workload generation.
- `Graphs`: the pair-count graph, communities.
- `Partitions`: the modulo partition, the partition read off communities.
- `ProShard`: the forecast, the affinity graph, and the `ProShardProtocol` class with its mutable forecast state.
- `Protocols`: the reactive graph, the `Protocol` family and `reconfigure`.
- `Metrics`: the per-epoch metrics.
- `Simulation`: the `Simulator` class and its epoch loop.

The model keeps the shape of the code:

- Loops that accumulate into dictionaries are methods with loop invariants. Each is proved equal to a function on values.
- The properties the code promises are lemmas about those functions.
- The two objects with mutable state are classes. `ProShardProtocol` owns the moving average and the forecast. `Simulator` owns the partition, the workload history and the results.

### Behaviours the model keeps as the code has them

- A partition read off detected communities holds only the accounts that appear in the graph. Accounts inactive in the previous epoch therefore drop out of the partition. `ReactivePartitionDomain` and `PredictivePartitionDomain` state this. A design that carried forward each inactive account's old shard would keep the partition total; the code does not.
- An account missing from the partition looks up as `None` and is not an error. The metrics treat `None` as one more shard, so two unassigned endpoints count as intra-shard, and `None` carries load. A missing account also counts as moved in the reconfiguration cost.
- Shard ids come from the enumeration order of the communities. Nothing bounds them by `num_shards`, because the number of communities is not controlled.

## Model

| member | source | states |
|---|---|---|
| Workload.Reduce | simulator.py:23 | every reduced sample is an account id in `[0, num_accounts)` |
| Workload.PairUpFlatten | simulator.py:24 | pairing consecutive elements and flattening the pairs again gives back the sequence, truncated to even length |
| Workload.BaselinePairsSamples | simulator.py:22-24 | the baseline part of a batch is the reduced samples, paired in order |
| Workload.GenerateWorkload | simulator.py:18-32 | a batch has `TX_PER_EPOCH_BASELINE` transactions, plus `SPIKE_TX_COUNT` only in the spike epoch; baseline endpoints lie in `[0, num_accounts)`; every spike transaction goes from an account in range to an NFT-cluster account |
| Graphs.Key | protocols.py:137 | an edge key is `(min, max)` of the two endpoints and holds exactly those two accounts |
| Graphs.PairCountsAreBetween | protocols.py:48-52 | the weight of edge `{u, v}` is the number of transactions between `u` and `v` in either direction |
| Graphs.PairCountsKeys | protocols.py:48-52 | the edges are exactly the keys of the batch's transactions |
| Graphs.PairCountsNodes | protocols.py:48-52 | the graph's nodes are exactly the accounts active in the batch |
| Graphs.PairCountsTotal | protocols.py:48-52 | the edge weights add up to the number of transactions |
| Graphs.NoNodesNoEdges | protocols.py:63-64 | a graph has no nodes exactly when it has no edges |
| Graphs.CountPairs | protocols.py:133-137 | the accumulation loop builds the pair counts of the batch |
| Partitions.ModuloPartition | protocols.py:34 | the keys are exactly the accounts `0 .. num_accounts-1`, each sent to `a mod num_shards`, which lies in `[0, num_shards)` |
| Partitions.FromCommunitiesLast | protocols.py:21-27 | the keys are the union of the communities; each account goes to the index of the last community holding it, which is below the number of communities |
| Partitions.FromDisjointCommunities | protocols.py:21-27 | with disjoint communities covering a node set, the keys are that set and an account's shard is the index of the community holding it |
| Partitions.CreatePartitionFromCommunities | protocols.py:21-27 | the two nested loops build the partition read off the communities |
| Partitions.AdoptCommunities | protocols.py:61-69 | an empty graph returns the current partition unchanged; otherwise the result's keys are the union of the communities |
| Protocols.BuildGraphFromHistory | protocols.py:42-53 | the method builds the reactive graph of the epoch before |
| Protocols.ReactiveGraphEmpty | protocols.py:44-47 | the graph is empty at epoch 0, for an empty history, and when the epoch before is missing |
| Protocols.ReactiveGraphCounts | protocols.py:47-53 | otherwise weights count the transactions between the two endpoints, keys are ordered, weights add up to the batch size, and the nodes are the batch's accounts |
| Protocols.ReactivePartitionDomain | protocols.py:61-69 | for a non-empty graph and a detector that returns disjoint sets covering the nodes, the new partition holds exactly the accounts active in the epoch before, each at a shard below the number of communities |
| Protocols.PredictivePartitionDomain | protocols.py:171-183 | the same for the predictive graph: the partition holds exactly the accounts active in the epoch before |
| Protocols.ClpaReconfigure | protocols.py:61-69 | the result is the current partition for an empty graph, else the partition read off label propagation of the unweighted graph |
| Protocols.DbsrpMlReconfigure | protocols.py:80-87 | the same, with greedy modularity asked for `num_shards` communities |
| Protocols.NewStatic | protocols.py:31-34 | the static protocol stores the modulo partition |
| Protocols.Reconfigure | protocols.py:36-38 | the static protocol returns its stored map whatever it is given; the others return what their own `reconfigure` computes |
| ProShard.ActivityIsAppearances | protocols.py:107-110 | an account's activity is its number of appearances as source plus as destination, and it is a key exactly when it appears |
| ProShard.CountActivity | protocols.py:107-110 | the accumulation loop builds that activity map |
| ProShard.MovingAverage | protocols.py:105-115 | for `epoch > 0`, an active account becomes `EMA_ALPHA * activity + (1 - EMA_ALPHA) * old`, with `old` defaulting to 0; an inactive account, and every account at epoch 0, keeps its value |
| ProShard.MovingAverageNonNegative | protocols.py:114-115 | the moving average stays non-negative |
| ProShard.ForecastContents | protocols.py:118-127 | the forecast holds exactly the accounts strictly above the threshold, at their average; one epoch before the spike every cluster account also gets `SPIKE_TX_COUNT / NFT_CLUSTER_SIZE` added |
| ProShard.ForecastAboveThreshold | protocols.py:119-127 | every forecast value is above the threshold |
| ProShard.OracleRaisesClusterForecast | protocols.py:123-127 | one epoch before the spike, a cluster account's forecast exceeds the one it had the epoch before |
| ProShard.HistoricalWeights | protocols.py:133-137 | every historical pair count is at least 1 |
| ProShard.MaximaPositive | protocols.py:155-156 | `max_h` is at least 1 and `max_p` is positive, so both normalisations are defined |
| Maps.MaxValue | protocols.py:155-156 | one pass over the keys finds the largest value |
| ProShard.EdgeWeightInUnitInterval | protocols.py:143-164 | each normalised score is at most 1, so a pair that transacted gets a weight in `(0, 1]` |
| ProShard.PagEdges | protocols.py:140-167 | the graph's edges are exactly the pairs of the epoch before, each with a weight in `(0, 1]` |
| ProShard.ProShardProtocol.constructor | protocols.py:92-96 | the moving average and the forecast start empty |
| ProShard.ProShardProtocol.UpdateHistorical | protocols.py:105-115 | the update loop applies the moving average to every active account |
| ProShard.ProShardProtocol.RebuildForecast | protocols.py:118-121 | the cleared forecast is rebuilt from the accounts above the threshold |
| ProShard.ProShardProtocol.ApplyOracle | protocols.py:123-127 | every cluster account's forecast is raised by the spike's share |
| ProShard.ProShardProtocol.Predict | protocols.py:98-127 | the new average and forecast are those of the three steps, and the forecast stays above the threshold |
| ProShard.ProShardProtocol.BuildPredictiveAffinityGraph | protocols.py:129-169 | the loop builds the predictive affinity graph of the current forecast |
| ProShard.ProShardProtocol.Reconfigure | protocols.py:171-183 | forecast, then build the graph; an empty graph keeps the current partition, else the result is read off weighted greedy modularity |
| Metrics.UnassignedIsIntraShard | simulator.py:41-48 | when all endpoints are missing from the partition, there are no cross-shard transactions |
| Metrics.LoadsTotal | simulator.py:44-45 | the per-shard loads add up to twice the number of transactions |
| Metrics.TotalLatencySplit | simulator.py:47-51 | the total latency is `LATENCY_CROSS_SHARD` per cross-shard transaction plus `LATENCY_INTRA_SHARD` per other transaction |
| Metrics.LatencyAndRatioBounds | simulator.py:53-56 | with no transactions, latency and ratio are 0; otherwise the ratio is in `[0, 100]` and the latency lies between the two latency constants; throughput is the batch size over the epoch length |
| Metrics.ImbalanceAtLeastOne | simulator.py:59-60 | the imbalance is at least 1, and exactly 1 when fewer than two shards carry load |
| Metrics.ComputeImbalance | simulator.py:58-60 | one pass over the shards yields largest over smallest nonzero load, or 1 |
| Metrics.ProcessTransactions | simulator.py:34-68 | the loop yields the epoch's metrics, with the ratio, latency and imbalance bounds |
| Simulation.ReconfigCost | simulator.py:86-87 | the cost is non-negative |
| Simulation.ReconfigCostZero | simulator.py:86-87 | the cost is 0 exactly when every account of the old partition keeps its shard in the new one |
| Simulation.ReconfigCostAtMostHundred | simulator.py:86-87 | the cost is at most 100 when the old partition only assigns accounts `0 .. num_accounts-1` |
| Simulation.RecordWellFormed | simulator.py:89-94 | every row has a ratio in `[0, 100]`, a latency between the two constants, an imbalance of at least 1, a throughput of at least the baseline rate and a non-negative cost |
| Simulation.Simulator.constructor | simulator.py:9-16 | the initial partition sends each account `i` to `i mod num_shards`; history and results start empty |
| Simulation.Simulator.RunEpoch | simulator.py:76-94 | the batch is stored under the epoch before `reconfigure` sees the history; the new partition is the one the protocol chooses from that history (`Step`); for ProShard the moving average and the forecast become what `_predict` computes from the stored history; one well-formed row is appended, holding the batch's metrics under the new partition and the cost of moving from the old one; a static protocol keeps its partition and costs 0 |
| Simulation.Simulator.Run | simulator.py:70-96 | `NUM_EPOCHS` rows are appended in epoch order and returned; row `k` holds the metrics of the batch from the `k`-th draw under partition `k+1` of the returned ghost trail and the cost of moving from partition `k`, and is well formed; each epoch `k` moves partition `k` to `k+1`, and the ProShard moving average and forecast, as the protocol does (`Steps`); the trail starts at the initial partition and moving average and ends at the final partition, moving average and forecast; epoch `k` of the history holds the batch from the `k`-th draw; other history entries are untouched |

## Left out

- Community detection comes from networkx: label propagation and greedy modularity. It is a function-valued parameter. The property that it returns disjoint sets covering the graph's nodes is only a hypothesis of the lemmas that need it.
- The greedy-modularity detector is called with a target community count. The model passes that count along but does not constrain what the detector does with it.
- numpy's random draws (`zipf`, `randint`, `choice`) are inputs: one `EpochDraws` value per epoch. `DrawsFromSource` states their lengths and ranges. The distributions are not modelled.
- Floating-point rounding is not modelled. The moving average, the edge weights, the ratios and the cost use exact `real` arithmetic.
- Left out as output: progress printing, the pandas DataFrame wrapper and the protocols' display names. `Run` returns the rows as a sequence.
- The scenario driver and the configuration module are not part of this model. The constants are `Config` constants. The scripted spike epoch is a parameter, because the driver overwrites it per scenario.
- Workload.GenerateWorkload: requires `num_accounts > 0`. With zero accounts numpy's integer `s % 0` yields zeros with a warning rather than an error, so the baseline would be transactions between account 0 and itself; in the spike epoch `randint(0, 0, …)` raises. The model leaves out the zero-account case.
- Partitions.ModuloPartition: requires a shard count when there are accounts. In the code `i % num_shards` with `num_shards == 0` raises `ZeroDivisionError` (protocols.py:34, simulator.py:14); the requires excludes exactly that case, and with no accounts the empty partition needs no shard count.
- Protocols.NewStatic: requires a shard count when there are accounts, for the same `ZeroDivisionError` raised at protocols.py:34; the error path is not modelled.
- Simulation.Simulator.Run: requires `num_accounts > 0`, because the cost divides by it. It also requires draws of the lengths and ranges numpy produces.
- Simulation.Simulator.constructor: requires a shard count when there are accounts, because the modulo divides by it. It also requires a valid protocol and, for ProShard, the same spike epoch as the simulator.
- ProShard.ProShardProtocol.BuildPredictiveAffinityGraph: takes `max_h` and `max_p` once, before the edge loop. The code recomputes them per edge, but they are the same value every time.
- ProShard.OracleRaisesClusterForecast: holds only for accounts whose average is below `SPIKE_PREDICTION_VALUE / EMA_ALPHA`. Above that, the moving average can fall by more than the oracle adds.
- Simulation.ReconfigCostAtMostHundred: the bound needs the old partition to assign only accounts in `[0, num_accounts)`. Spike destinations are accounts 1000 to 1009, so with 1009 accounts or fewer a reactive partition can hold accounts outside that range, and the cost can then exceed 100.
- `old_partition.copy()` and the static protocol handing out its own dictionary are not modelled. Partitions are values, and no code mutates a partition after it is built, so copying and aliasing make no difference.
