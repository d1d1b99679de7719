/** The predictive protocol: an exponential-moving-average forecast of each
    account's activity, an oracle boost before the scripted spike, and the
    predictive affinity graph that mixes historical, predictive and
    semantic scores into one edge weight. */
module ProShard {

  import opened Config
  import opened Maps
  import opened Workload
  import opened Graphs
  import opened Partitions

  /** `scores.get(a, 0)` on a map of real-valued scores. */
  function Score(m: map<Account, real>, a: Account): real
  {
    if a in m then m[a] else 0.0
  }

  ghost predicate NonNegative(m: map<Account, real>)
  {
    forall a :: a in m ==> m[a] >= 0.0
  }

  ghost predicate AboveThreshold(m: map<Account, real>)
  {
    forall a :: a in m ==> m[a] > PREDICTION_ACTIVITY_THRESHOLD
  }

  // ---------------------------------------------------------------- forecast

  /** `last_epoch_activity`: one per appearance as source and one per
      appearance as destination, accumulated in batch order. */
  function Activity(txs: seq<Tx>): map<Account, nat>
  {
    if txs == [] then map[]
    else
      var t := txs[|txs| - 1];
      Bump(Bump(Activity(txs[..|txs| - 1]), t.src), t.dst)
  }

  /** How often `a` appears in a batch, as source plus as destination. */
  function Appearances(txs: seq<Tx>, a: Account): nat
  {
    if txs == [] then 0
    else
      var t := txs[|txs| - 1];
      Appearances(txs[..|txs| - 1], a) + (if t.src == a then 1 else 0) + (if t.dst == a then 1 else 0)
  }

  /** The accumulated activity of an account is its number of appearances. */
  lemma {:induction false} ActivityIsAppearances(txs: seq<Tx>, a: Account)
    ensures Count(Activity(txs), a) == Appearances(txs, a)
    ensures a in Activity(txs) <==> Appearances(txs, a) > 0
  {
    if txs != [] {
      ActivityIsAppearances(txs[..|txs| - 1], a);
    }
  }

  /** The accumulation loop of `_predict` over the previous epoch's batch. */
  method CountActivity(txs: seq<Tx>) returns (activity: map<Account, nat>)
    ensures activity == Activity(txs)
  {
    activity := map[];
    var i := 0;
    while i < |txs|
      invariant 0 <= i <= |txs|
      invariant activity == Activity(txs[..i])
    {
      assert txs[..i + 1][..i] == txs[..i];
      activity := Bump(Bump(activity, txs[i].src), txs[i].dst);
      i := i + 1;
    }
    assert txs[..|txs|] == txs;
  }

  /** The moving average after the accounts of `done` have had their update. */
  function EmaOn(historical: map<Account, real>, activity: map<Account, nat>, done: set<Account>): map<Account, real>
    requires done <= activity.Keys
  {
    map a | a in historical.Keys + done ::
      if a in done then EMA_ALPHA * activity[a] as real + (1.0 - EMA_ALPHA) * Score(historical, a)
      else historical[a]
  }

  /** Updating one more account changes only that account's average. */
  lemma EmaOnVisit(historical: map<Account, real>, activity: map<Account, nat>, done: set<Account>, a: Account)
    requires done <= activity.Keys && a in activity && a !in done
    ensures var now := EmaOn(historical, activity, done);
            EmaOn(historical, activity, done + {a})
              == now[a := EMA_ALPHA * activity[a] as real + (1.0 - EMA_ALPHA) * Score(now, a)]
  {
  }

  /** Step 1 of `_predict`: the moving average folded over the previous
      epoch's activity; nothing happens at epoch 0 or before. */
  function UpdatedHistorical(historical: map<Account, real>, history: History, epoch: int): map<Account, real>
  {
    if epoch > 0 then
      var activity := Activity(LastEpochTxs(history, epoch));
      EmaOn(historical, activity, activity.Keys)
    else historical
  }

  /** The forecast built from the accounts of `done`: those above the threshold, at their average. */
  function ForecastOn(historical: map<Account, real>, done: set<Account>): map<Account, real>
    requires done <= historical.Keys
  {
    map a | a in done && historical[a] > PREDICTION_ACTIVITY_THRESHOLD :: historical[a]
  }

  lemma ForecastOnVisit(historical: map<Account, real>, done: set<Account>, a: Account)
    requires done <= historical.Keys && a in historical
    ensures ForecastOn(historical, done + {a})
              == if historical[a] > PREDICTION_ACTIVITY_THRESHOLD
                 then ForecastOn(historical, done)[a := historical[a]]
                 else ForecastOn(historical, done)
  {
  }

  /** The forecast after the accounts of `done` have had the oracle's boost. */
  function OracleOn(predicted: map<Account, real>, done: set<Account>): map<Account, real>
  {
    map a | a in predicted.Keys + done ::
      if a in done then Score(predicted, a) + SPIKE_PREDICTION_VALUE else predicted[a]
  }

  lemma OracleOnVisit(predicted: map<Account, real>, done: set<Account>, a: Account)
    requires a !in done
    ensures var now := OracleOn(predicted, done);
            OracleOn(predicted, done + {a}) == now[a := Score(now, a) + SPIKE_PREDICTION_VALUE]
  {
  }

  /** Steps 2 and 3 of `_predict`: the thresholded forecast, boosted on the
      NFT cluster exactly one epoch before the spike. */
  function Predicted(historical: map<Account, real>, epoch: int, spikeEpoch: int): map<Account, real>
  {
    var forecast := ForecastOn(historical, historical.Keys);
    if epoch == spikeEpoch - 1 then OracleOn(forecast, NFT_CLUSTER_ACCOUNTS) else forecast
  }

  /** An active account's average moves toward its activity by EMA_ALPHA (an
      unseen account starting from 0); an inactive account's is untouched. */
  lemma MovingAverage(historical: map<Account, real>, history: History, epoch: int, a: Account)
    ensures var updated := UpdatedHistorical(historical, history, epoch);
            var n := Appearances(LastEpochTxs(history, epoch), a);
            && (epoch > 0 && n > 0 ==>
                  a in updated && updated[a] == EMA_ALPHA * n as real + (1.0 - EMA_ALPHA) * Score(historical, a))
            && (epoch <= 0 || n == 0 ==>
                  (a in updated <==> a in historical) && Score(updated, a) == Score(historical, a))
  {
    ActivityIsAppearances(LastEpochTxs(history, epoch), a);
  }

  /** The moving average of non-negative activity stays non-negative. */
  lemma MovingAverageNonNegative(historical: map<Account, real>, history: History, epoch: int)
    requires NonNegative(historical)
    ensures NonNegative(UpdatedHistorical(historical, history, epoch))
  {
  }

  /** The forecast holds exactly the accounts whose average is above the
      threshold, at that average, except that one epoch before the spike every
      NFT-cluster account also gets SPIKE_TX_COUNT / NFT_CLUSTER_SIZE added. */
  lemma ForecastContents(historical: map<Account, real>, epoch: int, spikeEpoch: int, a: Account)
    ensures var predicted := Predicted(historical, epoch, spikeEpoch);
            var above := a in historical && historical[a] > PREDICTION_ACTIVITY_THRESHOLD;
            if epoch == spikeEpoch - 1 && a in NFT_CLUSTER_ACCOUNTS then
              a in predicted && predicted[a] == (if above then historical[a] else 0.0) + SPIKE_PREDICTION_VALUE
            else
              (a in predicted <==> above) && (above ==> predicted[a] == historical[a])
  {
  }

  /** Every forecast value is above the threshold. */
  lemma ForecastAboveThreshold(historical: map<Account, real>, epoch: int, spikeEpoch: int)
    ensures AboveThreshold(Predicted(historical, epoch, spikeEpoch))
  {
  }

  /** One epoch before the spike the oracle raises the forecast of every
      cluster account above the previous epoch's, provided that account's
      average was below SPIKE_PREDICTION_VALUE / EMA_ALPHA. */
  lemma OracleRaisesClusterForecast(historical: map<Account, real>, history: History, spikeEpoch: int, a: Account)
    requires NonNegative(historical)
    requires a in NFT_CLUSTER_ACCOUNTS
    requires Score(historical, a) < SPIKE_PREDICTION_VALUE / EMA_ALPHA
    ensures var before := Predicted(historical, spikeEpoch - 2, spikeEpoch);
            var after := Predicted(UpdatedHistorical(historical, history, spikeEpoch - 1), spikeEpoch - 1, spikeEpoch);
            Score(after, a) > Score(before, a)
  {
    var updated := UpdatedHistorical(historical, history, spikeEpoch - 1);
    MovingAverage(historical, history, spikeEpoch - 1, a);
    ForecastContents(historical, spikeEpoch - 2, spikeEpoch, a);
    ForecastContents(updated, spikeEpoch - 1, spikeEpoch, a);
    assert Score(updated, a) >= (1.0 - EMA_ALPHA) * Score(historical, a);
  }

  // ------------------------------------------------- predictive affinity graph

  /** `historical_weights`: the pair counts of the previous epoch, or none at epoch 0 and before. */
  function HistoricalWeights(history: History, epoch: int): (h: map<Edge, nat>)
    ensures forall e :: e in h ==> h[e] >= 1
  {
    if epoch > 0 then PairCounts(LastEpochTxs(history, epoch)) else map[]
  }

  function AsReals(h: map<Edge, nat>): map<Edge, real>
  {
    map e | e in h :: h[e] as real
  }

  /** `max_h`: the largest pair count, or 1 for no pairs. */
  ghost function MaxHistorical(h: map<Edge, nat>): real
  {
    if h == map[] then 1.0 else SetMax(AsReals(h).Values)
  }

  /** `max_p`: the square of the largest forecast, or 1 for an empty forecast. */
  ghost function MaxPredictive(predicted: map<Account, real>): real
  {
    if predicted == map[] then 1.0 else SetMax(predicted.Values) * SetMax(predicted.Values)
  }

  /** Whether both endpoints are NFT contracts. */
  predicate SemanticMatch(e: Edge)
  {
    e.lo in NFT_CLUSTER_ACCOUNTS && e.hi in NFT_CLUSTER_ACCOUNTS
  }

  /** The weight of one pair: historical, predictive and semantic scores,
      the first two normalised by their maxima. */
  function EdgeWeight(e: Edge, h: map<Edge, nat>, predicted: map<Account, real>, maxH: real, maxP: real): real
    requires maxH != 0.0 && maxP != 0.0
  {
    var normH := Count(h, e) as real / maxH;
    var normP := Score(predicted, e.lo) * Score(predicted, e.hi) / maxP;
    var s := if SemanticMatch(e) then 1.0 else 0.0;
    PAG_WEIGHT_HISTORICAL * normH + PAG_WEIGHT_PREDICTIVE * normP + PAG_WEIGHT_SEMANTIC * s
  }

  /** The graph after the pairs of `done` have been visited: each pair with a positive weight. */
  function PagOn(h: map<Edge, nat>, predicted: map<Account, real>, maxH: real, maxP: real, done: set<Edge>): map<Edge, real>
    requires maxH != 0.0 && maxP != 0.0
  {
    map e | e in done && EdgeWeight(e, h, predicted, maxH, maxP) > 0.0 :: EdgeWeight(e, h, predicted, maxH, maxP)
  }

  lemma MaximaPositive(h: map<Edge, nat>, predicted: map<Account, real>)
    requires forall e :: e in h ==> h[e] >= 1
    requires AboveThreshold(predicted)
    ensures MaxHistorical(h) >= 1.0
    ensures MaxPredictive(predicted) > 0.0
  {
    if h != map[] {
      var e := SetPick(h.Keys);
      assert AsReals(h)[e] in AsReals(h).Values;
    }
    if predicted != map[] {
      var m := SetMax(predicted.Values);
      var a := KeyOf(predicted, m);
    }
  }

  /** `_build_predictive_affinity_graph`, as a value. */
  ghost function Pag(history: History, epoch: int, predicted: map<Account, real>): map<Edge, real>
    requires AboveThreshold(predicted)
  {
    var h := HistoricalWeights(history, epoch);
    MaximaPositive(h, predicted);
    PagOn(h, predicted, MaxHistorical(h), MaxPredictive(predicted), h.Keys)
  }

  lemma ProductBound(x: real, y: real, m: real)
    requires 0.0 <= x <= m && 0.0 <= y <= m
    ensures 0.0 <= x * y <= m * m
  {
    assert x * y <= m * y;
    assert m * y <= m * m;
  }

  lemma RatioAtMostOne(x: real, m: real)
    requires 0.0 <= x <= m && m > 0.0
    ensures 0.0 <= x / m <= 1.0
  {
    assert x / m * m == x;
  }

  /** A forecast score lies between 0 and the largest forecast. */
  lemma ScoreBelowMax(predicted: map<Account, real>, a: Account)
    requires AboveThreshold(predicted) && predicted != map[]
    ensures 0.0 <= Score(predicted, a) <= SetMax(predicted.Values)
  {
    var m := SetMax(predicted.Values);
    assert IsMax(predicted.Values, m);
    assert m > 0.0 by {
      var k := KeyOf(predicted, m);
    }
    if a in predicted {
      assert predicted[a] in predicted.Values;
      assert predicted[a] <= m;
    }
  }

  /** Each normalised score is at most 1 and the three weights sum to 1, so
      a transacting pair's weight lies in (0, 1]. */
  lemma EdgeWeightInUnitInterval(e: Edge, h: map<Edge, nat>, predicted: map<Account, real>)
    requires e in h
    requires forall e :: e in h ==> h[e] >= 1
    requires AboveThreshold(predicted)
    ensures MaxHistorical(h) > 0.0 && MaxPredictive(predicted) > 0.0
    ensures 0.0 < EdgeWeight(e, h, predicted, MaxHistorical(h), MaxPredictive(predicted)) <= 1.0
  {
    MaximaPositive(h, predicted);
    var maxH, maxP := MaxHistorical(h), MaxPredictive(predicted);
    assert AsReals(h)[e] in AsReals(h).Values;
    var normH := Count(h, e) as real / maxH;
    RatioAtMostOne(Count(h, e) as real, maxH);
    assert 0.0 < normH;
    var pu, pv := Score(predicted, e.lo), Score(predicted, e.hi);
    if predicted != map[] {
      ScoreBelowMax(predicted, e.lo);
      ScoreBelowMax(predicted, e.hi);
      ProductBound(pu, pv, SetMax(predicted.Values));
    }
    RatioAtMostOne(pu * pv, maxP);
  }

  /** Every pair that transacted in the previous epoch gets a weight in
      (0, 1], so the graph's edges are exactly those pairs. */
  lemma PagEdges(history: History, epoch: int, predicted: map<Account, real>)
    requires AboveThreshold(predicted)
    ensures var g := Pag(history, epoch, predicted);
            && g.Keys == HistoricalWeights(history, epoch).Keys
            && forall e :: e in g ==> 0.0 < g[e] <= 1.0
  {
    var h := HistoricalWeights(history, epoch);
    MaximaPositive(h, predicted);
    var maxH, maxP := MaxHistorical(h), MaxPredictive(predicted);
    var g := Pag(history, epoch, predicted);
    assert g == PagOn(h, predicted, maxH, maxP, h.Keys);
    forall e | e in h
      ensures e in g && 0.0 < g[e] <= 1.0
    {
      EdgeWeightInUnitInterval(e, h, predicted);
    }
  }

  /** Visiting one more pair adds it exactly when its weight is positive. */
  lemma PagOnVisit(h: map<Edge, nat>, predicted: map<Account, real>, maxH: real, maxP: real, done: set<Edge>, e: Edge)
    requires maxH != 0.0 && maxP != 0.0
    ensures var w := EdgeWeight(e, h, predicted, maxH, maxP);
            PagOn(h, predicted, maxH, maxP, done + {e})
              == if w > 0.0 then PagOn(h, predicted, maxH, maxP, done)[e := w] else PagOn(h, predicted, maxH, maxP, done)
  {
  }

  // ---------------------------------------------------------------- the class

  /** The predictive protocol instance and the forecast state it owns. */
  class ProShardProtocol {
    const numShards: nat
    const numAccounts: nat
    /** The epoch of the scripted spike, as the scenario has set it. */
    const spikeEpoch: int
    /** Weighted greedy-modularity community detection, aiming at a number of communities. */
    const greedyModularity: (map<Edge, real>, nat) -> Communities

    /** `historical_activity`: the per-account moving average. */
    var historical: map<Account, real>
    /** `predicted_activity`: the forecast for the coming epoch. */
    var predicted: map<Account, real>

    ghost predicate Valid()
      reads this
    {
      NonNegative(historical) && AboveThreshold(predicted)
    }

    constructor (numShards: nat, numAccounts: nat, spikeEpoch: int,
                 greedyModularity: (map<Edge, real>, nat) -> Communities)
      ensures Valid()
      ensures this.numShards == numShards && this.numAccounts == numAccounts
      ensures this.spikeEpoch == spikeEpoch && this.greedyModularity == greedyModularity
      ensures historical == map[] && predicted == map[]
    {
      this.numShards := numShards;
      this.numAccounts := numAccounts;
      this.spikeEpoch := spikeEpoch;
      this.greedyModularity := greedyModularity;
      historical := map[];
      predicted := map[];
    }

    /** `_predict`: fold the previous epoch into the moving average, then
        rebuild the forecast from scratch and apply the oracle. */
    method Predict(history: History, epoch: int)
      requires Valid()
      modifies this
      ensures Valid()
      ensures historical == UpdatedHistorical(old(historical), history, epoch)
      ensures predicted == Predicted(historical, epoch, spikeEpoch)
    {
      if epoch > 0 {
        UpdateHistorical(LastEpochTxs(history, epoch));
      }
      MovingAverageNonNegative(old(historical), history, epoch);
      RebuildForecast();
      if epoch == spikeEpoch - 1 {
        ApplyOracle();
      }
      ForecastAboveThreshold(historical, epoch, spikeEpoch);
    }

    /** Step 1 of `_predict`: one moving-average update per active account. */
    method UpdateHistorical(txs: seq<Tx>)
      modifies this`historical
      ensures var activity := Activity(txs);
              historical == EmaOn(old(historical), activity, activity.Keys)
    {
      var activity := CountActivity(txs);
      var todo := activity.Keys;
      while todo != {}
        invariant todo <= activity.Keys
        invariant historical == EmaOn(old(historical), activity, activity.Keys - todo)
        decreases todo
      {
        var a := Choose(todo);
        EmaOnVisit(old(historical), activity, activity.Keys - todo, a);
        assert activity.Keys - (todo - {a}) == (activity.Keys - todo) + {a};
        historical := historical[a := EMA_ALPHA * activity[a] as real + (1.0 - EMA_ALPHA) * Score(historical, a)];
        todo := todo - {a};
      }
      assert activity.Keys - {} == activity.Keys;
    }

    /** Step 2 of `_predict`: clear the forecast, then keep every account above the threshold. */
    method RebuildForecast()
      modifies this`predicted
      ensures predicted == ForecastOn(historical, historical.Keys)
    {
      predicted := map[];
      var todo := historical.Keys;
      while todo != {}
        invariant todo <= historical.Keys
        invariant predicted == ForecastOn(historical, historical.Keys - todo)
        decreases todo
      {
        var a := Choose(todo);
        ForecastOnVisit(historical, historical.Keys - todo, a);
        assert historical.Keys - (todo - {a}) == (historical.Keys - todo) + {a};
        if historical[a] > PREDICTION_ACTIVITY_THRESHOLD {
          predicted := predicted[a := historical[a]];
        }
        todo := todo - {a};
      }
      assert historical.Keys - {} == historical.Keys;
    }

    /** Step 3 of `_predict`: add the spike's share to every cluster account. */
    method ApplyOracle()
      modifies this`predicted
      ensures predicted == OracleOn(old(predicted), NFT_CLUSTER_ACCOUNTS)
    {
      var cluster := NFT_CLUSTER_ACCOUNTS;
      while cluster != {}
        invariant cluster <= NFT_CLUSTER_ACCOUNTS
        invariant predicted == OracleOn(old(predicted), NFT_CLUSTER_ACCOUNTS - cluster)
        decreases cluster
      {
        var a := Choose(cluster);
        OracleOnVisit(old(predicted), NFT_CLUSTER_ACCOUNTS - cluster, a);
        assert NFT_CLUSTER_ACCOUNTS - (cluster - {a}) == (NFT_CLUSTER_ACCOUNTS - cluster) + {a};
        predicted := predicted[a := Score(predicted, a) + SPIKE_PREDICTION_VALUE];
        cluster := cluster - {a};
      }
      assert NFT_CLUSTER_ACCOUNTS - {} == NFT_CLUSTER_ACCOUNTS;
    }

    /** `_build_predictive_affinity_graph` against the current forecast. The
        two maxima do not change inside the edge loop, so they are taken once. */
    method BuildPredictiveAffinityGraph(history: History, epoch: int) returns (g: map<Edge, real>)
      requires Valid()
      ensures g == Pag(history, epoch, predicted)
    {
      var h: map<Edge, nat> := map[];
      if epoch > 0 {
        h := CountPairs(LastEpochTxs(history, epoch));
      }
      assert h == HistoricalWeights(history, epoch);
      MaximaPositive(h, predicted);
      var maxH := 1.0;
      if h != map[] {
        maxH := MaxValue(AsReals(h));
      }
      var maxP := 1.0;
      if predicted != map[] {
        var top := MaxValue(predicted);
        maxP := top * top;
      }
      assert maxH == MaxHistorical(h);
      assert maxP == MaxPredictive(predicted);
      g := map[];
      var todo := h.Keys;
      while todo != {}
        invariant todo <= h.Keys
        invariant g == PagOn(h, predicted, maxH, maxP, h.Keys - todo)
        decreases todo
      {
        var e := Choose(todo);
        var w := EdgeWeight(e, h, predicted, maxH, maxP);
        PagOnVisit(h, predicted, maxH, maxP, h.Keys - todo, e);
        assert h.Keys - (todo - {e}) == (h.Keys - todo) + {e};
        if w > 0.0 {
          g := g[e := w];
        }
        todo := todo - {e};
      }
      assert h.Keys - {} == h.Keys;
    }

    /** `reconfigure`: forecast, build the graph, and partition it; an empty
        graph keeps the current partition. */
    method Reconfigure(current: Partition, history: History, epoch: int) returns (r: Partition)
      requires Valid()
      modifies this
      ensures Valid()
      ensures historical == UpdatedHistorical(old(historical), history, epoch)
      ensures predicted == Predicted(historical, epoch, spikeEpoch)
      ensures var g := Pag(history, epoch, predicted);
              r == AdoptCommunities(current, g, greedyModularity(g, numShards))
    {
      Predict(history, epoch);
      var g := BuildPredictiveAffinityGraph(history, epoch);
      NoNodesNoEdges(g.Keys);
      if Nodes(g.Keys) == {} {
        return current;
      }
      var communities := greedyModularity(g, numShards);
      r := CreatePartitionFromCommunities(communities);
    }
  }
}
