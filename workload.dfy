/** Accounts, transactions, the epoch-indexed workload history, and the
    generation of one epoch's transactions from the random draws. */
module Workload {

  import opened Config

  type Account = int

  /** An ordered (source, destination) pair; no amount, no payload. */
  datatype Tx = Tx(src: Account, dst: Account)

  /** Epoch number to that epoch's transactions. */
  type History = map<int, seq<Tx>>

  /** `workload_history.get(epoch - 1, [])`: the batch of the epoch before. */
  function LastEpochTxs(history: History, epoch: int): (txs: seq<Tx>)
    ensures epoch - 1 !in history ==> txs == []
  {
    if epoch - 1 in history then history[epoch - 1] else []
  }

  /** Every account that appears in a batch, as source or as destination. */
  function Accounts(txs: seq<Tx>): set<Account>
  {
    (set t | t in txs :: t.src) + (set t | t in txs :: t.dst)
  }

  /** `[a0, b0, a1, b1, ...]`: the accounts of a batch in the order they appear. */
  function Flatten(txs: seq<Tx>): (s: seq<Account>)
    ensures |s| == 2 * |txs|
  {
    if txs == [] then [] else [txs[0].src, txs[0].dst] + Flatten(txs[1..])
  }

  /** The random draws of one epoch, which the model takes as input:
      the Zipf samples, the spike's uniform sources, and the spike's
      destinations as indices into the NFT cluster list. */
  datatype EpochDraws = EpochDraws(zipfSamples: seq<int>, spikeSources: seq<int>, spikePicks: seq<int>)

  /** What the random source promises: the sizes the simulator asks for,
      `randint(0, numAccounts)` values, and picks from the ten-account list. */
  predicate DrawsFromSource(d: EpochDraws, numAccounts: nat)
  {
    && |d.zipfSamples| == 2 * TX_PER_EPOCH_BASELINE
    && |d.spikeSources| == SPIKE_TX_COUNT
    && |d.spikePicks| == SPIKE_TX_COUNT
    && (forall k :: 0 <= k < SPIKE_TX_COUNT ==> 0 <= d.spikeSources[k] < numAccounts)
    && (forall k :: 0 <= k < SPIKE_TX_COUNT ==> 0 <= d.spikePicks[k] < NFT_CLUSTER_SIZE)
  }

  /** `s % num_accounts` on a numpy array: the floored remainder, which for a
      positive divisor is Dafny's `%`. */
  function Reduce(samples: seq<int>, numAccounts: nat): (accounts: seq<Account>)
    requires numAccounts > 0
    ensures |accounts| == |samples|
    ensures forall i :: 0 <= i < |accounts| ==> 0 <= accounts[i] < numAccounts
  {
    seq(|samples|, i requires 0 <= i < |samples| => samples[i] % numAccounts)
  }

  /** `list(zip(a[::2], a[1::2]))`: consecutive elements paired, an odd last one dropped. */
  function PairUp(a: seq<Account>): (txs: seq<Tx>)
    ensures |txs| == |a| / 2
  {
    seq(|a| / 2, k requires 0 <= k < |a| / 2 => Tx(a[2 * k], a[2 * k + 1]))
  }

  /** Pairing loses nothing but an odd last element: flattening the pairs
      gives the accounts back in order. */
  lemma {:induction false} PairUpFlatten(a: seq<Account>)
    ensures Flatten(PairUp(a)) == a[..2 * (|a| / 2)]
    decreases |a|
  {
    if |a| >= 2 {
      PairUpFlatten(a[2..]);
      assert PairUp(a) == [Tx(a[0], a[1])] + PairUp(a[2..]);
      assert PairUp(a)[1..] == PairUp(a[2..]);
      assert a[..2 * (|a| / 2)] == [a[0], a[1]] + a[2..][..2 * (|a[2..]| / 2)];
    }
  }

  /** The spike: uniform sources into the NFT cluster. */
  function Spike(d: EpochDraws): (txs: seq<Tx>)
    requires |d.spikeSources| == |d.spikePicks|
    requires forall k :: 0 <= k < |d.spikePicks| ==> 0 <= d.spikePicks[k] < NFT_CLUSTER_SIZE
    ensures |txs| == |d.spikeSources|
  {
    seq(|d.spikeSources|, k requires 0 <= k < |d.spikeSources| =>
      Tx(d.spikeSources[k], NFT_CLUSTER_LIST[d.spikePicks[k]]))
  }

  /** One epoch's transactions: the Zipf baseline, followed by the spike
      when this is the spike epoch. */
  function GenerateWorkload(epoch: int, spikeEpoch: int, numAccounts: nat, d: EpochDraws): (txs: seq<Tx>)
    requires numAccounts > 0
    requires DrawsFromSource(d, numAccounts)
    ensures |txs| == TX_PER_EPOCH_BASELINE + (if epoch == spikeEpoch then SPIKE_TX_COUNT else 0)
    ensures forall i :: 0 <= i < TX_PER_EPOCH_BASELINE ==>
              0 <= txs[i].src < numAccounts && 0 <= txs[i].dst < numAccounts
    ensures forall i :: TX_PER_EPOCH_BASELINE <= i < |txs| ==>
              0 <= txs[i].src < numAccounts && txs[i].dst in NFT_CLUSTER_ACCOUNTS
  {
    var baseline := PairUp(Reduce(d.zipfSamples, numAccounts));
    if epoch == spikeEpoch then baseline + Spike(d) else baseline
  }

  /** The baseline part of a batch is the reduced samples, paired in order. */
  lemma BaselinePairsSamples(epoch: int, spikeEpoch: int, numAccounts: nat, d: EpochDraws)
    requires numAccounts > 0
    requires DrawsFromSource(d, numAccounts)
    ensures Flatten(GenerateWorkload(epoch, spikeEpoch, numAccounts, d)[..TX_PER_EPOCH_BASELINE])
            == Reduce(d.zipfSamples, numAccounts)
  {
    var a := Reduce(d.zipfSamples, numAccounts);
    PairUpFlatten(a);
    assert GenerateWorkload(epoch, spikeEpoch, numAccounts, d)[..TX_PER_EPOCH_BASELINE] == PairUp(a);
    assert a[..2 * (|a| / 2)] == a;
  }
}
