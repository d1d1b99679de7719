/** The simulation loop: per epoch, generate the workload, let the protocol
    repartition, charge the accounts that moved, and measure the epoch under
    the new partition. */
module Simulation {

  import opened Config
  import opened Wrappers
  import opened Workload
  import opened Partitions
  import opened Metrics
  import opened Protocols
  import ProShard

  /** One row of the results: the epoch's metrics, its number and its reconfiguration cost. */
  datatype EpochRecord = EpochRecord(epoch: int, metrics: EpochMetrics, reconfigCost: real)

  /** The accounts of the old partition whose shard the new one does not keep. */
  function MovedAccounts(before: Partition, after: Partition): set<Account>
  {
    set a | a in before && Lookup(after, a) != Some(before[a])
  }

  /** `reconfig_cost`: the moved accounts as a percentage of all accounts. */
  function ReconfigCost(before: Partition, after: Partition, numAccounts: nat): (c: real)
    requires numAccounts > 0
    ensures c >= 0.0
  {
    (|MovedAccounts(before, after)| as real / numAccounts as real) * 100.0
  }

  /** The cost is zero exactly when every account of the old partition keeps its shard. */
  lemma ReconfigCostZero(before: Partition, after: Partition, numAccounts: nat)
    requires numAccounts > 0
    ensures ReconfigCost(before, after, numAccounts) == 0.0
            <==> forall a :: a in before ==> a in after && after[a] == before[a]
  {
    if ReconfigCost(before, after, numAccounts) == 0.0 {
      assert |MovedAccounts(before, after)| == 0;
      forall a | a in before
        ensures a in after && after[a] == before[a]
      {
        assert a !in MovedAccounts(before, after);
      }
    } else {
      assert MovedAccounts(before, after) != {};
      var a := Maps.SetPick(MovedAccounts(before, after));
      assert !(a in after && after[a] == before[a]);
    }
  }

  /** The accounts `0 .. n-1`. */
  function Range(n: nat): (r: set<Account>)
    ensures forall a :: a in r <==> 0 <= a < n
    ensures |r| == n
  {
    if n == 0 then {} else Range(n - 1) + {n - 1}
  }

  lemma {:induction false} SubsetSize(small: set<Account>, big: set<Account>)
    requires small <= big
    ensures |small| <= |big|
    decreases big
  {
    if big != {} {
      var x := Maps.SetPick(big);
      SubsetSize(small - {x}, big - {x});
    }
  }

  /** When the old partition assigns only accounts `0 .. n-1`, at most all
      of them move, so the cost is at most 100 percent. */
  lemma ReconfigCostAtMostHundred(before: Partition, after: Partition, numAccounts: nat)
    requires numAccounts > 0
    requires forall a :: a in before ==> 0 <= a < numAccounts
    ensures ReconfigCost(before, after, numAccounts) <= 100.0
  {
    var moved := MovedAccounts(before, after);
    assert moved <= Range(numAccounts);
    SubsetSize(moved, Range(numAccounts));
    QuotientAtMostOne(|moved| as real, numAccounts as real);
  }

  lemma QuotientAtMostOne(m: real, n: real)
    requires 0.0 <= m <= n && n > 0.0
    ensures m / n <= 1.0
  {
    assert m / n * n == m;
  }

  /** The row an epoch appends, as a value. */
  ghost function Record(epoch: int, txs: seq<Tx>, before: Partition, after: Partition, numAccounts: nat): EpochRecord
    requires numAccounts > 0
  {
    EpochRecord(epoch, EpochMetricsOf(txs, after), ReconfigCost(before, after, numAccounts))
  }

  /** What every row of a simulation satisfies: a percentage of cross-shard
      transactions, a latency between the two latency constants, an imbalance
      of at least 1 and a non-negative reconfiguration cost. */
  ghost predicate WellFormed(r: EpochRecord)
  {
    && 0.0 <= r.metrics.cstRatio <= 100.0
    && LATENCY_INTRA_SHARD <= r.metrics.avgLatency <= LATENCY_CROSS_SHARD
    && r.metrics.imbalance >= 1.0
    && r.metrics.throughput >= TX_PER_EPOCH_BASELINE as real / EPOCH_DURATION_S
    && r.reconfigCost >= 0.0
  }

  /** Every epoch of the simulator produces a well-formed row. */
  lemma RecordWellFormed(epoch: int, spikeEpoch: int, numAccounts: nat, d: EpochDraws, before: Partition, after: Partition)
    requires numAccounts > 0 && DrawsFromSource(d, numAccounts)
    ensures WellFormed(Record(epoch, GenerateWorkload(epoch, spikeEpoch, numAccounts, d), before, after, numAccounts))
  {
    var txs := GenerateWorkload(epoch, spikeEpoch, numAccounts, d);
    LatencyAndRatioBounds(txs, after);
    ImbalanceAtLeastOne(Loads(txs, after));
    var n := |txs| as real;
    assert n >= TX_PER_EPOCH_BASELINE as real;
  }

  /** Row `row` is epoch `k`: the metrics of the batch generated from draw
      `d` under partition `after` and the cost of moving to it from `before`;
      it is well formed, and has zero cost when the partition is `fixed`. */
  ghost predicate RowOf(row: EpochRecord, k: nat, before: Partition, after: Partition, fixed: bool,
                        spikeEpoch: int, numAccounts: nat, d: EpochDraws)
  {
    && numAccounts > 0
    && DrawsFromSource(d, numAccounts)
    && row == Record(k, GenerateWorkload(k, spikeEpoch, numAccounts, d), before, after, numAccounts)
    && row.epoch == k
    && WellFormed(row)
    && (fixed ==> row.reconfigCost == 0.0)
  }

  /** The rows from `start` on are the epochs 0, 1, 2, ... in order: row
      `k` holds the metrics of the batch generated from the `k`-th draw under
      partition `ps[k + 1]` and the cost of moving from `ps[k]` to it. */
  ghost predicate RowsFrom(rows: seq<EpochRecord>, start: nat, fixed: bool, ps: seq<Partition>,
                           spikeEpoch: int, numAccounts: nat, draws: seq<EpochDraws>)
  {
    && numAccounts > 0
    && start <= |rows|
    && |ps| == |rows| - start + 1
    && |rows| - start <= |draws|
    && forall i :: start <= i < |rows| ==>
         RowOf(rows[i], i - start, ps[i - start], ps[i - start + 1], fixed, spikeEpoch, numAccounts, draws[i - start])
  }

  lemma RowsExtend(rows: seq<EpochRecord>, start: nat, fixed: bool, ps: seq<Partition>,
                   spikeEpoch: int, numAccounts: nat, draws: seq<EpochDraws>, after: Partition, r: EpochRecord)
    requires RowsFrom(rows, start, fixed, ps, spikeEpoch, numAccounts, draws)
    requires |rows| - start < |draws|
    requires RowOf(r, |rows| - start, ps[|ps| - 1], after, fixed, spikeEpoch, numAccounts, draws[|rows| - start])
    ensures RowsFrom(rows + [r], start, fixed, ps + [after], spikeEpoch, numAccounts, draws)
  {
    var rows', ps' := rows + [r], ps + [after];
    forall i | start <= i < |rows'|
      ensures RowOf(rows'[i], i - start, ps'[i - start], ps'[i - start + 1], fixed, spikeEpoch, numAccounts, draws[i - start])
    {
      if i < |rows| {
        assert rows'[i] == rows[i] && ps'[i - start] == ps[i - start] && ps'[i - start + 1] == ps[i - start + 1];
      } else {
        assert rows'[i] == r && ps'[i - start] == ps[|ps| - 1] && ps'[i - start + 1] == after;
      }
    }
  }

  /** The partition a protocol moves to at `epoch`, from `before`, given the
      history and, for the predictive protocol, the forecast it has just made:
      the stored map for the static protocol, the communities of the graph
      adopted otherwise. */
  ghost predicate Chosen(protocol: Protocol, h: History, epoch: int, before: Partition, after: Partition,
                         forecast: map<Account, real>)
  {
    match protocol
    case Static(_, _, partition) => after == partition
    case Clpa(_, _, labelPropagation) =>
      var g := ReactiveGraph(h, epoch);
      after == AdoptCommunities(before, g, labelPropagation(g.Keys))
    case DbsrpMl(numShards, _, greedyModularity) =>
      var g := ReactiveGraph(h, epoch);
      after == AdoptCommunities(before, g, greedyModularity(g.Keys, numShards))
    case Predictive(engine) =>
      && ProShard.AboveThreshold(forecast)
      && var g := ProShard.Pag(h, epoch, forecast);
         after == AdoptCommunities(before, g, engine.greedyModularity(g, engine.numShards))
  }

  /** One epoch of reconfiguration: the predictive protocol's moving average
      and forecast move from `avgBefore` to `avgAfter` and `forecast` as
      `_predict` computes them, and the partition moves from `before` to
      `after` as the protocol chooses. */
  ghost predicate Step(protocol: Protocol, h: History, epoch: int, spikeEpoch: int, before: Partition, after: Partition,
                       avgBefore: map<Account, real>, avgAfter: map<Account, real>, forecast: map<Account, real>)
  {
    && (protocol.Predictive? ==>
          && avgAfter == ProShard.UpdatedHistorical(avgBefore, h, epoch)
          && forecast == ProShard.Predicted(avgAfter, epoch, spikeEpoch))
    && Chosen(protocol, h, epoch, before, after, forecast)
  }

  /** Epoch `k` took partition `ps[k]` to `ps[k + 1]`, and the moving average
      from `avgs[k]` to `avgs[k + 1]` with forecast `forecasts[k + 1]`. */
  ghost predicate Steps(protocol: Protocol, h: History, spikeEpoch: int,
                        ps: seq<Partition>, avgs: seq<map<Account, real>>, forecasts: seq<map<Account, real>>)
  {
    && |ps| >= 1 && |avgs| == |ps| && |forecasts| == |ps|
    && forall k :: 0 <= k < |ps| - 1 ==>
         Step(protocol, h, k, spikeEpoch, ps[k], ps[k + 1], avgs[k], avgs[k + 1], forecasts[k + 1])
  }

  /** Storing the batch of epoch `e` changes nothing that an epoch up to `e`
      reads: those epochs look at entry `epoch - 1` only. */
  lemma LaterEntryKeepsEpoch(h: History, e: int, txs: seq<Tx>, epoch: int)
    requires epoch <= e
    ensures LastEpochTxs(h[e := txs], epoch) == LastEpochTxs(h, epoch)
    ensures ReactiveGraph(h[e := txs], epoch) == ReactiveGraph(h, epoch)
    ensures ProShard.HistoricalWeights(h[e := txs], epoch) == ProShard.HistoricalWeights(h, epoch)
  {
  }

  lemma StepsExtend(protocol: Protocol, h: History, e: nat, txs: seq<Tx>, spikeEpoch: int,
                    ps: seq<Partition>, avgs: seq<map<Account, real>>, forecasts: seq<map<Account, real>>,
                    after: Partition, avgAfter: map<Account, real>, forecast: map<Account, real>)
    requires Steps(protocol, h, spikeEpoch, ps, avgs, forecasts) && |ps| == e + 1
    requires Step(protocol, h[e := txs], e, spikeEpoch, ps[e], after, avgs[e], avgAfter, forecast)
    ensures Steps(protocol, h[e := txs], spikeEpoch, ps + [after], avgs + [avgAfter], forecasts + [forecast])
  {
    var ps', avgs', forecasts' := ps + [after], avgs + [avgAfter], forecasts + [forecast];
    forall k | 0 <= k < |ps'| - 1
      ensures Step(protocol, h[e := txs], k, spikeEpoch, ps'[k], ps'[k + 1], avgs'[k], avgs'[k + 1], forecasts'[k + 1])
    {
      if k < e {
        assert Step(protocol, h, k, spikeEpoch, ps[k], ps[k + 1], avgs[k], avgs[k + 1], forecasts[k + 1]);
        LaterEntryKeepsEpoch(h, e, txs, k);
        assert ps'[k] == ps[k] && ps'[k + 1] == ps[k + 1];
        assert avgs'[k] == avgs[k] && avgs'[k + 1] == avgs[k + 1] && forecasts'[k + 1] == forecasts[k + 1];
      }
    }
  }

  /** Epochs `0 .. upto-1` of the history hold the batches generated from their draws. */
  ghost predicate HoldsBatches(h: History, spikeEpoch: int, numAccounts: nat, draws: seq<EpochDraws>, upto: nat)
  {
    && numAccounts > 0
    && upto <= |draws|
    && forall k :: 0 <= k < upto ==>
         && DrawsFromSource(draws[k], numAccounts)
         && k in h
         && h[k] == GenerateWorkload(k, spikeEpoch, numAccounts, draws[k])
  }

  lemma HistoryExtend(h: History, spikeEpoch: int, numAccounts: nat, draws: seq<EpochDraws>, epoch: nat)
    requires HoldsBatches(h, spikeEpoch, numAccounts, draws, epoch)
    requires epoch < |draws| && DrawsFromSource(draws[epoch], numAccounts)
    ensures HoldsBatches(h[epoch := GenerateWorkload(epoch, spikeEpoch, numAccounts, draws[epoch])],
                         spikeEpoch, numAccounts, draws, epoch + 1)
  {
  }

  /** Besides epochs `0 .. upto-1`, the history holds exactly what it held before. */
  ghost predicate KeepsOthers(h: History, before: History, upto: nat)
  {
    && (forall e :: e in h <==> e in before || 0 <= e < upto)
    && (forall e :: e in before && !(0 <= e < upto) ==> h[e] == before[e])
  }

  lemma KeepsOthersExtend(h: History, before: History, epoch: nat, txs: seq<Tx>)
    requires KeepsOthers(h, before, epoch)
    ensures KeepsOthers(h[epoch := txs], before, epoch + 1)
  {
  }

  /** The trail of partitions, moving averages and forecasts after `epoch`
      epochs: it starts at `p0` and `avg0` and ends at the values now held. */
  ghost predicate Trail(p0: Partition, avg0: map<Account, real>, epoch: nat, partition: Partition,
                        avg: map<Account, real>, forecast: map<Account, real>,
                        ps: seq<Partition>, avgs: seq<map<Account, real>>, forecasts: seq<map<Account, real>>)
  {
    && |ps| == epoch + 1 && ps[0] == p0 && ps[epoch] == partition
    && |avgs| == epoch + 1 && avgs[0] == avg0 && avgs[epoch] == avg
    && |forecasts| == epoch + 1 && forecasts[epoch] == forecast
  }

  lemma TrailExtend(p0: Partition, avg0: map<Account, real>, epoch: nat, partition: Partition,
                    avg: map<Account, real>, forecast: map<Account, real>,
                    ps: seq<Partition>, avgs: seq<map<Account, real>>, forecasts: seq<map<Account, real>>,
                    partition': Partition, avg': map<Account, real>, forecast': map<Account, real>)
    requires Trail(p0, avg0, epoch, partition, avg, forecast, ps, avgs, forecasts)
    ensures Trail(p0, avg0, epoch + 1, partition', avg', forecast',
                  ps + [partition'], avgs + [avg'], forecasts + [forecast'])
  {
  }

  /** The rows after `epoch` epochs: the rows `rows0` held before, then one
      row per epoch as `RowsFrom` describes. */
  ghost predicate RowsTrace(fixed: bool, spikeEpoch: int, numAccounts: nat, draws: seq<EpochDraws>,
                            rows0: seq<EpochRecord>, epoch: nat, rows: seq<EpochRecord>, ps: seq<Partition>)
  {
    && epoch <= |draws|
    && |rows| == |rows0| + epoch && rows[..|rows0|] == rows0
    && RowsFrom(rows, |rows0|, fixed, ps, spikeEpoch, numAccounts, draws)
  }

  lemma RowsTraceExtend(fixed: bool, spikeEpoch: int, numAccounts: nat, draws: seq<EpochDraws>,
                        rows0: seq<EpochRecord>, epoch: nat, rows: seq<EpochRecord>, ps: seq<Partition>,
                        after: Partition, r: EpochRecord)
    requires RowsTrace(fixed, spikeEpoch, numAccounts, draws, rows0, epoch, rows, ps)
    requires epoch < |draws|
    requires RowOf(r, epoch, ps[epoch], after, fixed, spikeEpoch, numAccounts, draws[epoch])
    ensures RowsTrace(fixed, spikeEpoch, numAccounts, draws, rows0, epoch + 1, rows + [r], ps + [after])
  {
    assert |rows| - |rows0| == epoch && |ps| - 1 == epoch;
    RowsExtend(rows, |rows0|, fixed, ps, spikeEpoch, numAccounts, draws, after, r);
    assert (rows + [r])[..|rows0|] == rows[..|rows0|];
  }

  /** The state of `run` after `epoch` epochs, started from rows `rows0`,
      history `h0`, partition `p0` and moving average `avg0`: the rows, the
      history, the partition, the moving average and the forecast now held,
      with the partitions, moving averages and forecasts of every epoch so far. */
  ghost predicate Trace(protocol: Protocol, spikeEpoch: int, numAccounts: nat, draws: seq<EpochDraws>,
                        rows0: seq<EpochRecord>, h0: History, p0: Partition, avg0: map<Account, real>,
                        epoch: nat, rows: seq<EpochRecord>, h: History, partition: Partition,
                        avg: map<Account, real>, forecast: map<Account, real>,
                        ps: seq<Partition>, avgs: seq<map<Account, real>>, forecasts: seq<map<Account, real>>)
  {
    && Trail(p0, avg0, epoch, partition, avg, forecast, ps, avgs, forecasts)
    && RowsTrace(protocol.Static?, spikeEpoch, numAccounts, draws, rows0, epoch, rows, ps)
    && Steps(protocol, h, spikeEpoch, ps, avgs, forecasts)
    && HoldsBatches(h, spikeEpoch, numAccounts, draws, epoch)
    && KeepsOthers(h, h0, epoch)
  }

  /** One more epoch, as `RunEpoch` describes it, extends the trace. */
  lemma TraceExtend(protocol: Protocol, spikeEpoch: int, numAccounts: nat, draws: seq<EpochDraws>,
                    rows0: seq<EpochRecord>, h0: History, p0: Partition, avg0: map<Account, real>,
                    epoch: nat, rows: seq<EpochRecord>, h: History, partition: Partition,
                    avg: map<Account, real>, forecast: map<Account, real>,
                    ps: seq<Partition>, avgs: seq<map<Account, real>>, forecasts: seq<map<Account, real>>,
                    r: EpochRecord, partition': Partition, avg': map<Account, real>, forecast': map<Account, real>)
    requires Trace(protocol, spikeEpoch, numAccounts, draws, rows0, h0, p0, avg0,
                   epoch, rows, h, partition, avg, forecast, ps, avgs, forecasts)
    requires epoch < |draws|
    requires RowOf(r, epoch, partition, partition', protocol.Static?, spikeEpoch, numAccounts, draws[epoch])
    requires Step(protocol, h[epoch := GenerateWorkload(epoch, spikeEpoch, numAccounts, draws[epoch])],
                  epoch, spikeEpoch, partition, partition', avg, avg', forecast')
    ensures Trace(protocol, spikeEpoch, numAccounts, draws, rows0, h0, p0, avg0,
                  epoch + 1, rows + [r], h[epoch := GenerateWorkload(epoch, spikeEpoch, numAccounts, draws[epoch])],
                  partition', avg', forecast', ps + [partition'], avgs + [avg'], forecasts + [forecast'])
  {
    var txs := GenerateWorkload(epoch, spikeEpoch, numAccounts, draws[epoch]);
    TrailExtend(p0, avg0, epoch, partition, avg, forecast, ps, avgs, forecasts, partition', avg', forecast');
    RowsTraceExtend(protocol.Static?, spikeEpoch, numAccounts, draws, rows0, epoch, rows, ps, partition', r);
    StepsExtend(protocol, h, epoch, txs, spikeEpoch, ps, avgs, forecasts, partition', avg', forecast');
    HistoryExtend(h, spikeEpoch, numAccounts, draws, epoch);
    KeepsOthersExtend(h, h0, epoch, txs);
  }

  class Simulator {
    const protocol: Protocol
    const numAccounts: nat
    const numShards: nat
    /** `config.SPIKE_EPOCH`, which the predictive protocol reads as well. */
    const spikeEpoch: int
    var partition: Partition
    var workloadHistory: History
    var results: seq<EpochRecord>

    ghost predicate Valid()
      reads this, protocol.Footprint()
    {
      && protocol.Valid()
      && numAccounts == protocol.AccountCount()
      && numShards == protocol.Shards()
      && (protocol.Predictive? ==> protocol.engine.spikeEpoch == spikeEpoch)
      && (protocol.Static? ==> partition == protocol.partition)
    }

    /** The predictive protocol's moving average (empty for the others). */
    ghost function Averages(): map<Account, real>
      reads this, protocol.Footprint()
    {
      if protocol.Predictive? then protocol.engine.historical else map[]
    }

    /** The predictive protocol's forecast (empty for the others). */
    ghost function Forecast(): map<Account, real>
      reads this, protocol.Footprint()
    {
      if protocol.Predictive? then protocol.engine.predicted else map[]
    }

    /** `Simulator(protocol)`: the modulo partition, no history, no rows. */
    constructor (protocol: Protocol, spikeEpoch: int)
      requires protocol.Valid()
      requires protocol.AccountCount() > 0 ==> protocol.Shards() > 0
      requires protocol.Predictive? ==> protocol.engine.spikeEpoch == spikeEpoch
      ensures Valid()
      ensures this.protocol == protocol && this.spikeEpoch == spikeEpoch
      ensures numAccounts == protocol.AccountCount() && numShards == protocol.Shards()
      ensures partition == ModuloPartition(numShards, numAccounts)
      ensures workloadHistory == map[] && results == []
    {
      this.protocol := protocol;
      this.spikeEpoch := spikeEpoch;
      numAccounts := protocol.AccountCount();
      numShards := protocol.Shards();
      partition := ModuloPartition(protocol.Shards(), protocol.AccountCount());
      workloadHistory := map[];
      results := [];
    }

    /** One iteration of `run`'s loop, with the epoch's random draws as a
        parameter: the batch is stored before the protocol sees the history,
        the protocol's forecast state and the partition move one step, and
        one row is appended. */
    method RunEpoch(epoch: int, d: EpochDraws)
      requires Valid() && numAccounts > 0 && DrawsFromSource(d, numAccounts)
      modifies this, protocol.Footprint()
      ensures Valid()
      ensures var txs := GenerateWorkload(epoch, spikeEpoch, numAccounts, d);
              && workloadHistory == old(workloadHistory)[epoch := txs]
              && results == old(results) + [Record(epoch, txs, old(partition), partition, numAccounts)]
      ensures WellFormed(results[|results| - 1])
      ensures protocol.Static? ==> partition == old(partition) && results[|results| - 1].reconfigCost == 0.0
      ensures protocol.Predictive? ==>
                && protocol.engine.historical == ProShard.UpdatedHistorical(old(protocol.engine.historical), workloadHistory, epoch)
                && protocol.engine.predicted == ProShard.Predicted(protocol.engine.historical, epoch, spikeEpoch)
      ensures Step(protocol, workloadHistory, epoch, spikeEpoch, old(partition), partition,
                   old(Averages()), Averages(), Forecast())
    {
      var transactions := GenerateWorkload(epoch, spikeEpoch, numAccounts, d);
      workloadHistory := workloadHistory[epoch := transactions];
      var oldPartition := partition;
      var newPartition := Reconfigure(protocol, oldPartition, workloadHistory, epoch);
      partition := newPartition;
      var reconfigCost := ReconfigCost(oldPartition, newPartition, numAccounts);
      var metrics := ProcessTransactions(transactions, partition);
      results := results + [EpochRecord(epoch, metrics, reconfigCost)];
      RecordWellFormed(epoch, spikeEpoch, numAccounts, d, oldPartition, newPartition);
      if protocol.Static? {
        ReconfigCostZero(oldPartition, newPartition, numAccounts);
      }
    }

    /** `run`: `NUM_EPOCHS` epochs, one draw per epoch; the rows are appended
        to `results`, which is also what is returned. The ghost outputs are
        the partitions before and after each epoch, and the predictive
        protocol's moving averages and forecasts along the way. */
    method Run(draws: seq<EpochDraws>)
      returns (records: seq<EpochRecord>, ghost partitions: seq<Partition>,
               ghost averages: seq<map<Account, real>>, ghost forecasts: seq<map<Account, real>>)
      requires Valid() && numAccounts > 0
      requires |draws| == NUM_EPOCHS
      requires forall k :: 0 <= k < |draws| ==> DrawsFromSource(draws[k], numAccounts)
      modifies this, protocol.Footprint()
      ensures Valid()
      ensures records == results
      ensures Trace(protocol, spikeEpoch, numAccounts, draws,
                    old(results), old(workloadHistory), old(partition), old(Averages()),
                    NUM_EPOCHS, results, workloadHistory, partition, Averages(), Forecast(),
                    partitions, averages, forecasts)
    {
      partitions, averages, forecasts := [partition], [Averages()], [Forecast()];
      var epoch := 0;
      assert results[..|results|] == results;
      while epoch < NUM_EPOCHS
        invariant 0 <= epoch <= NUM_EPOCHS
        invariant Valid()
        invariant Trace(protocol, spikeEpoch, numAccounts, draws,
                        old(results), old(workloadHistory), old(partition), old(Averages()),
                        epoch, results, workloadHistory, partition, Averages(), Forecast(),
                        partitions, averages, forecasts)
      {
        ghost var rows, h, p, avg, forecast := results, workloadHistory, partition, Averages(), Forecast();
        RunEpoch(epoch, draws[epoch]);
        ghost var r := results[|rows|];
        assert results == rows + [r];
        TraceExtend(protocol, spikeEpoch, numAccounts, draws,
                    old(results), old(workloadHistory), old(partition), old(Averages()),
                    epoch, rows, h, p, avg, forecast, partitions, averages, forecasts,
                    r, partition, Averages(), Forecast());
        partitions, averages, forecasts := partitions + [partition], averages + [Averages()], forecasts + [Forecast()];
        epoch := epoch + 1;
      }
      records := results;
    }
  }
}
