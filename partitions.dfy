/** Account-to-shard partitions: the address-modulo partition and the
    partition read off a list of communities. */
module Partitions {

  import opened Wrappers
  import opened Maps
  import opened Workload
  import opened Graphs

  /** Account to shard id. */
  type Partition = map<Account, int>

  /** `partition.get(account)`: `None` for an account the map does not hold. */
  function Lookup(p: Partition, a: Account): Option<int>
  {
    if a in p then Some(p[a]) else None
  }

  /** `{i: i % num_shards for i in range(num_accounts)}`: accounts dealt round-robin. */
  function ModuloPartition(numShards: nat, numAccounts: nat): (p: Partition)
    requires numAccounts > 0 ==> numShards > 0
    ensures forall a :: a in p <==> 0 <= a < numAccounts
    ensures forall a :: a in p ==> 0 <= p[a] < numShards && p[a] == a % numShards
  {
    map a | 0 <= a < numAccounts :: a % numShards
  }

  /** `_create_partition_from_communities`, as a value: community `k` in
      enumeration order becomes shard `k`; a later community overwrites an
      earlier one. */
  function FromCommunities(cs: Communities): Partition
  {
    if cs == [] then map[]
    else FromCommunities(cs[..|cs| - 1]) + ToShard(cs[|cs| - 1], |cs| - 1)
  }

  /** Every account of one community, sent to one shard. */
  function ToShard(community: set<Account>, shard: int): (p: Partition)
    ensures p.Keys == community
  {
    map a | a in community :: shard
  }

  /** The result holds exactly the accounts of the communities, and sends
      each one to the index of the last community that contains it. */
  lemma {:induction false} FromCommunitiesLast(cs: Communities)
    ensures FromCommunities(cs).Keys == Union(cs)
    ensures forall a :: a in FromCommunities(cs) ==>
              && 0 <= FromCommunities(cs)[a] < |cs|
              && a in cs[FromCommunities(cs)[a]]
              && forall j :: FromCommunities(cs)[a] < j < |cs| ==> a !in cs[j]
  {
    if cs != [] {
      FromCommunitiesLast(cs[..|cs| - 1]);
    }
  }

  /** With disjoint communities, an account's shard is the one community that holds it. */
  lemma FromDisjointCommunities(cs: Communities, nodes: set<Account>)
    requires IsCommunityPartition(cs, nodes)
    ensures FromCommunities(cs).Keys == nodes
    ensures forall a, k :: a in nodes && 0 <= k < |cs| ==> (a in cs[k] <==> FromCommunities(cs)[a] == k)
  {
    FromCommunitiesLast(cs);
    var p := FromCommunities(cs);
    forall a, k | a in nodes && 0 <= k < |cs| && a in cs[k]
      ensures p[a] == k
    {
    }
  }

  /** The two nested loops of `_create_partition_from_communities`. */
  method CreatePartitionFromCommunities(cs: Communities) returns (p: Partition)
    ensures p == FromCommunities(cs)
  {
    p := map[];
    var k := 0;
    while k < |cs|
      invariant 0 <= k <= |cs|
      invariant p == FromCommunities(cs[..k])
    {
      var todo := cs[k];
      while todo != {}
        invariant todo <= cs[k]
        invariant p == FromCommunities(cs[..k]) + ToShard(cs[k] - todo, k)
        decreases todo
      {
        var a := Choose(todo);
        p := p[a := k];
        todo := todo - {a};
      }
      assert cs[..k + 1][..k] == cs[..k];
      k := k + 1;
    }
    assert cs[..|cs|] == cs;
  }

  /** What every graph-based protocol returns: the current partition when
      its graph has no edges (hence no nodes), else the partition read off
      the detected communities. */
  function AdoptCommunities<W>(current: Partition, g: map<Edge, W>, cs: Communities): (r: Partition)
    ensures g == map[] ==> r == current
    ensures g != map[] ==> r.Keys == Union(cs)
  {
    FromCommunitiesLast(cs);
    if g == map[] then current else FromCommunities(cs)
  }
}
