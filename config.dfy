/** The simulation constants of config.py, as exact numbers.
    SPIKE_EPOCH is not here: the scenario driver overwrites it per run, so
    the simulator and the predictive protocol take it as a parameter. */
module Config {

  const NUM_EPOCHS: nat := 100
  const EPOCH_DURATION_S: real := 300.0

  const TX_PER_EPOCH_BASELINE: nat := 80000

  const SPIKE_TX_COUNT: nat := 400000
  const NFT_CLUSTER_SIZE: nat := 10
  const NFT_CLUSTER_FIRST: int := 1000

  /** The accounts 1000 .. 1009 that stand for the NFT contracts. */
  const NFT_CLUSTER_ACCOUNTS: set<int> := set a | NFT_CLUSTER_FIRST <= a < NFT_CLUSTER_FIRST + NFT_CLUSTER_SIZE

  /** `list(NFT_CLUSTER_ACCOUNTS)`: the cluster in the order a draw indexes it. */
  const NFT_CLUSTER_LIST: seq<int> := seq(NFT_CLUSTER_SIZE, k => NFT_CLUSTER_FIRST + k)

  const LATENCY_INTRA_SHARD: real := 2.0
  const LATENCY_CROSS_SHARD: real := 10.0

  const PAG_WEIGHT_HISTORICAL: real := 0.2
  const PAG_WEIGHT_PREDICTIVE: real := 0.5
  const PAG_WEIGHT_SEMANTIC: real := 0.3

  const EMA_ALPHA: real := 0.3
  const PREDICTION_ACTIVITY_THRESHOLD: real := 50.0

  /** `SPIKE_TX_COUNT / NFT_CLUSTER_SIZE` (true division): the oracle's boost per cluster account. */
  const SPIKE_PREDICTION_VALUE: real := SPIKE_TX_COUNT as real / NFT_CLUSTER_SIZE as real
}
