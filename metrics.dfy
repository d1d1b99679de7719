/** The per-epoch metrics: cross-shard transactions, per-shard load,
    latency, cross-shard ratio, throughput and load imbalance. */
module Metrics {

  import opened Config
  import opened Wrappers
  import opened Maps
  import opened Workload
  import opened Partitions

  datatype EpochMetrics = EpochMetrics(throughput: real, avgLatency: real, cstRatio: real, imbalance: real, numCst: nat)

  /** A transaction whose endpoints look up to different shards. A missing
      account looks up as `None`, so two unassigned endpoints share a shard. */
  predicate IsCrossShard(t: Tx, p: Partition)
  {
    Lookup(p, t.src) != Lookup(p, t.dst)
  }

  /** `num_cst`: the cross-shard transactions of a batch. */
  function CrossShard(txs: seq<Tx>, p: Partition): (n: nat)
    ensures n <= |txs|
  {
    if txs == [] then 0
    else CrossShard(txs[..|txs| - 1], p) + if IsCrossShard(txs[|txs| - 1], p) then 1 else 0
  }

  function Latency(t: Tx, p: Partition): real
  {
    if IsCrossShard(t, p) then LATENCY_CROSS_SHARD else LATENCY_INTRA_SHARD
  }

  /** `total_latency`: each transaction's latency, summed. */
  function TotalLatency(txs: seq<Tx>, p: Partition): real
  {
    if txs == [] then 0.0 else TotalLatency(txs[..|txs| - 1], p) + Latency(txs[|txs| - 1], p)
  }

  /** `shard_load`: one per endpoint, keyed by the endpoint's looked-up shard
      (`None` included). */
  function Loads(txs: seq<Tx>, p: Partition): map<Option<int>, nat>
  {
    if txs == [] then map[]
    else
      var t := txs[|txs| - 1];
      Bump(Bump(Loads(txs[..|txs| - 1], p), Lookup(p, t.src)), Lookup(p, t.dst))
  }

  /** The busy shards among `done`, and their loads. */
  function BusyIn(loads: map<Option<int>, nat>, done: set<Option<int>>): set<Option<int>>
  {
    set k | k in done && k in loads && loads[k] > 0
  }

  function LoadsIn(loads: map<Option<int>, nat>, done: set<Option<int>>): set<real>
  {
    set k | k in done && k in loads && loads[k] > 0 :: loads[k] as real
  }

  /** The shards with nonzero load. */
  function Busy(loads: map<Option<int>, nat>): set<Option<int>>
  {
    BusyIn(loads, loads.Keys)
  }

  /** `[v for v in shard_load.values() if v > 0]`, as a set of values. */
  function BusyLoads(loads: map<Option<int>, nat>): set<real>
  {
    LoadsIn(loads, loads.Keys)
  }

  lemma BusyLoadsAtLeastOne(loads: map<Option<int>, nat>)
    ensures Busy(loads) != {} ==> BusyLoads(loads) != {}
    ensures forall x :: x in BusyLoads(loads) ==> x >= 1.0
  {
    if Busy(loads) != {} {
      var k := SetPick(Busy(loads));
      assert loads[k] as real in BusyLoads(loads);
    }
  }

  /** The largest nonzero load over the smallest, or 1 when fewer than two shards carry load. */
  ghost function Imbalance(loads: map<Option<int>, nat>): real
  {
    BusyLoadsAtLeastOne(loads);
    if |Busy(loads)| > 1 then SetMax(BusyLoads(loads)) / SetMin(BusyLoads(loads)) else 1.0
  }

  /** `_process_transactions`, as a value. */
  ghost function EpochMetricsOf(txs: seq<Tx>, p: Partition): EpochMetrics
  {
    var n := |txs|;
    var cst := CrossShard(txs, p);
    EpochMetrics(
      throughput := n as real / EPOCH_DURATION_S,
      avgLatency := if n > 0 then TotalLatency(txs, p) / n as real else 0.0,
      cstRatio := if n > 0 then (cst as real / n as real) * 100.0 else 0.0,
      imbalance := Imbalance(Loads(txs, p)),
      numCst := cst)
  }

  /** Each transaction adds one to its source's shard and one to its
      destination's shard, so the loads add up to twice the batch size. */
  lemma {:induction false} LoadsTotal(txs: seq<Tx>, p: Partition)
    ensures Sum(Loads(txs, p)) == 2 * |txs|
  {
    if txs != [] {
      var t := txs[|txs| - 1];
      var before := Loads(txs[..|txs| - 1], p);
      LoadsTotal(txs[..|txs| - 1], p);
      SumBump(before, Lookup(p, t.src));
      SumBump(Bump(before, Lookup(p, t.src)), Lookup(p, t.dst));
    }
  }

  /** The total latency charges the cross-shard cost to each cross-shard
      transaction and the intra-shard cost to every other one. */
  lemma {:induction false} TotalLatencySplit(txs: seq<Tx>, p: Partition)
    ensures TotalLatency(txs, p)
            == LATENCY_CROSS_SHARD * CrossShard(txs, p) as real
             + LATENCY_INTRA_SHARD * (|txs| - CrossShard(txs, p)) as real
  {
    if txs != [] {
      TotalLatencySplit(txs[..|txs| - 1], p);
    }
  }

  /** A batch whose endpoints are all missing from the partition has no
      cross-shard transaction: every endpoint looks up as `None`. */
  lemma {:induction false} UnassignedIsIntraShard(txs: seq<Tx>, p: Partition)
    requires forall i :: 0 <= i < |txs| ==> txs[i].src !in p && txs[i].dst !in p
    ensures CrossShard(txs, p) == 0
  {
    if txs != [] {
      UnassignedIsIntraShard(txs[..|txs| - 1], p);
    }
  }

  lemma RatioBounds(x: real, n: real, lo: real, hi: real)
    requires n > 0.0 && lo * n <= x <= hi * n
    ensures lo <= x / n <= hi
  {
    assert x / n * n == x;
  }

  /** With no transactions the latency and the ratio are 0; otherwise the
      ratio is a percentage and the average latency lies between the two
      latency constants. */
  lemma LatencyAndRatioBounds(txs: seq<Tx>, p: Partition)
    ensures var m := EpochMetricsOf(txs, p);
            && m.throughput == |txs| as real / EPOCH_DURATION_S
            && (|txs| == 0 ==> m.avgLatency == 0.0 && m.cstRatio == 0.0)
            && 0.0 <= m.cstRatio <= 100.0
            && (|txs| > 0 ==> LATENCY_INTRA_SHARD <= m.avgLatency <= LATENCY_CROSS_SHARD)
  {
    var n := |txs|;
    if n > 0 {
      var cst := CrossShard(txs, p);
      RatioBounds(cst as real, n as real, 0.0, 1.0);
      TotalLatencySplit(txs, p);
      RatioBounds(TotalLatency(txs, p), n as real, LATENCY_INTRA_SHARD, LATENCY_CROSS_SHARD);
    }
  }

  /** The imbalance is at least 1, and exactly 1 with fewer than two busy shards. */
  lemma ImbalanceAtLeastOne(loads: map<Option<int>, nat>)
    ensures Imbalance(loads) >= 1.0
    ensures |Busy(loads)| < 2 ==> Imbalance(loads) == 1.0
  {
    if |Busy(loads)| > 1 {
      BusyLoadsAtLeastOne(loads);
      var hi, lo := SetMax(BusyLoads(loads)), SetMin(BusyLoads(loads));
      assert lo <= hi;
      RatioBounds(hi, lo, 1.0, hi / lo);
    }
  }

  /** Visiting key `k` adds it to the busy shards seen so far exactly when its load is nonzero. */
  lemma ImbalanceVisit(loads: map<Option<int>, nat>, done: set<Option<int>>, k: Option<int>)
    requires k in loads && k !in done
    ensures BusyIn(loads, done + {k}) == BusyIn(loads, done) + (if loads[k] > 0 then {k} else {})
    ensures k !in BusyIn(loads, done)
    ensures LoadsIn(loads, done + {k}) == LoadsIn(loads, done) + (if loads[k] > 0 then {loads[k] as real} else {})
  {
  }

  lemma MaxMinInsert(s: set<real>, hi: real, lo: real, v: real)
    requires IsMax(s, hi) && IsMin(s, lo)
    ensures IsMax(s + {v}, if v > hi then v else hi)
    ensures IsMin(s + {v}, if v < lo then v else lo)
  {
  }

  /** What one pass over the shards leaves behind determines the imbalance. */
  lemma ImbalanceFromPass(loads: map<Option<int>, nat>, busy: nat, hi: real, lo: real)
    requires busy == |Busy(loads)|
    requires busy > 0 ==> IsMax(BusyLoads(loads), hi) && IsMin(BusyLoads(loads), lo)
    ensures (if busy > 1 then hi / lo else 1.0) == Imbalance(loads)
  {
    if busy > 1 {
      BusyLoadsAtLeastOne(loads);
      assert hi == SetMax(BusyLoads(loads)) && lo == SetMin(BusyLoads(loads));
    }
  }

  /** After visiting the shards of `done`: `busy` counts the busy ones, and
      `hi` and `lo` are their largest and smallest loads. */
  ghost predicate PassState(loads: map<Option<int>, nat>, done: set<Option<int>>, busy: nat, hi: real, lo: real)
  {
    && busy == |BusyIn(loads, done)|
    && (busy == 0 ==> LoadsIn(loads, done) == {})
    && (busy > 0 ==> IsMax(LoadsIn(loads, done), hi) && IsMin(LoadsIn(loads, done), lo))
  }

  lemma PassVisit(loads: map<Option<int>, nat>, done: set<Option<int>>, k: Option<int>, busy: nat, hi: real, lo: real)
    requires k in loads && k !in done && PassState(loads, done, busy, hi, lo)
    ensures var v := loads[k] as real;
            if loads[k] > 0 then
              PassState(loads, done + {k}, busy + 1, if busy == 0 || v > hi then v else hi,
                                                     if busy == 0 || v < lo then v else lo)
            else PassState(loads, done + {k}, busy, hi, lo)
  {
    ImbalanceVisit(loads, done, k);
    if loads[k] > 0 && busy > 0 {
      MaxMinInsert(LoadsIn(loads, done), hi, lo, loads[k] as real);
    }
  }

  /** The imbalance computation: one pass over the shards, keeping the count
      of busy shards and their largest and smallest loads. */
  method ComputeImbalance(loads: map<Option<int>, nat>) returns (imbalance: real)
    ensures imbalance == Imbalance(loads)
  {
    var busy: nat := 0;
    var hi, lo := 0.0, 0.0;
    var todo := loads.Keys;
    ghost var done: set<Option<int>> := {};
    while todo != {}
      invariant todo <= loads.Keys && done == loads.Keys - todo
      invariant PassState(loads, done, busy, hi, lo)
      decreases todo
    {
      var k := Choose(todo);
      PassVisit(loads, done, k, busy, hi, lo);
      if loads[k] > 0 {
        var v := loads[k] as real;
        if busy == 0 || v > hi {
          hi := v;
        }
        if busy == 0 || v < lo {
          lo := v;
        }
        busy := busy + 1;
      }
      todo := todo - {k};
      done := done + {k};
    }
    assert done == loads.Keys;
    imbalance := if busy > 1 then hi / lo else 1.0;
    ImbalanceFromPass(loads, busy, hi, lo);
  }

  /** `_process_transactions`: one pass over the batch, then the derived metrics. */
  method ProcessTransactions(txs: seq<Tx>, p: Partition) returns (m: EpochMetrics)
    ensures m == EpochMetricsOf(txs, p)
    ensures 0.0 <= m.cstRatio <= 100.0
    ensures |txs| > 0 ==> LATENCY_INTRA_SHARD <= m.avgLatency <= LATENCY_CROSS_SHARD
    ensures m.imbalance >= 1.0
  {
    var numCst: nat := 0;
    var totalLatency := 0.0;
    var shardLoad: map<Option<int>, nat> := map[];
    var i := 0;
    while i < |txs|
      invariant 0 <= i <= |txs|
      invariant numCst == CrossShard(txs[..i], p)
      invariant totalLatency == TotalLatency(txs[..i], p)
      invariant shardLoad == Loads(txs[..i], p)
    {
      assert txs[..i + 1][..i] == txs[..i];
      var srcShard := Lookup(p, txs[i].src);
      var dstShard := Lookup(p, txs[i].dst);
      shardLoad := Bump(Bump(shardLoad, srcShard), dstShard);
      if srcShard != dstShard {
        numCst := numCst + 1;
        totalLatency := totalLatency + LATENCY_CROSS_SHARD;
      } else {
        totalLatency := totalLatency + LATENCY_INTRA_SHARD;
      }
      i := i + 1;
    }
    assert txs[..|txs|] == txs;
    var n := |txs|;
    var avgLatency := if n > 0 then totalLatency / n as real else 0.0;
    var cstRatio := if n > 0 then (numCst as real / n as real) * 100.0 else 0.0;
    var throughput := n as real / EPOCH_DURATION_S;
    var imbalance := ComputeImbalance(shardLoad);
    m := EpochMetrics(throughput, avgLatency, cstRatio, imbalance, numCst);
    LatencyAndRatioBounds(txs, p);
    ImbalanceAtLeastOne(shardLoad);
  }
}
