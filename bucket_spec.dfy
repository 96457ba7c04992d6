/**
 * The operations of the region store of Registry/pkg/memstore as functions
 * of the store's value: a bucket (MemData) is a BucketView, the whole store
 * is a map from region name to bucket. The imperative classes of MemStore
 * are specified by these functions, and the properties the source promises
 * are lemmas about them.
 */
module BucketSpec {
  import opened Wrappers
  import opened Ranking
  import opened RankIndex
  import opened Records

  /** The content of one MemData: gateways by address, agents by domain, the ranking index. */
  datatype BucketView = BucketView(gateways: map<string, Gateway>, agents: map<string, Agent>, ranked: seq<RankItem>)

  /** A bucket as RegionExist creates it. */
  const EmptyBucket := BucketView(map[], map[], [])

  /** The regions map of MemStore, by value. */
  type StoreView = map<string, BucketView>

  /** The index entry of the gateway stored under key. */
  function ItemOf(key: string, g: Gateway): RankItem
  {
    RankItem(Rank(g.capacity), key)
  }

  /** The entries the index must hold for a gateway map: one (rank, key) pair per stored gateway. */
  ghost function IndexOf(m: map<string, Gateway>): set<RankItem>
  {
    set k | k in m :: ItemOf(k, m[k])
  }

  /** Every gateway is stored under its own address, which is its ip:port. */
  ghost predicate KeyedByEndpoint(m: map<string, Gateway>)
  {
    forall k :: k in m ==> m[k].address == k && k == Address(m[k].ip, m[k].port)
  }

  /** The bucket invariant that AddGateway keeps: the index is in step with the map. */
  ghost predicate Consistent(b: BucketView)
  {
    && Sorted(b.ranked)
    && Elems(b.ranked) == IndexOf(b.gateways)
    && KeyedByEndpoint(b.gateways)
  }

  /** Every entry of the index names a stored gateway. */
  ghost predicate IdsPresent(b: BucketView)
  {
    forall i :: 0 <= i < |b.ranked| ==> b.ranked[i].id in b.gateways
  }

  lemma ConsistentIdsPresent(b: BucketView)
    requires Consistent(b)
    ensures IdsPresent(b)
  {
    forall i | 0 <= i < |b.ranked| ensures b.ranked[i].id in b.gateways {
      assert b.ranked[i] in Elems(b.ranked);
    }
  }

  /** A fresh bucket: no gateways, no agents, an empty index; it is consistent. */
  lemma EmptyBucketConsistent()
    ensures Consistent(EmptyBucket)
    ensures EmptyBucket.gateways == map[] && EmptyBucket.agents == map[] && EmptyBucket.ranked == []
  {
  }

  /**
   * AddGateway on one bucket (Registry/pkg/memstore/gatewayops.go:15-36):
   * the record is stored under ip:port with that address filled in; an
   * existing entry under the same key keeps its identity and has its old
   * index entry deleted before the new one is inserted. The second
   * component is the record returned to the caller.
   */
  function PutGateway(b: BucketView, g: Gateway): (r: (BucketView, Gateway))
    ensures var key := Address(g.ip, g.port);
      && key in r.0.gateways && r.0.gateways[key] == r.1
      && r.1.address == key
      && r.1.ip == g.ip && r.1.port == g.port && r.1.wssPort == g.wssPort
      && r.1.capacity == g.capacity && r.1.credHash == g.credHash
      && r.1.id == (if key in b.gateways then b.gateways[key].id else g.id)
      && r.0.gateways.Keys == b.gateways.Keys + {key}
      && (forall k :: k in b.gateways && k != key ==> r.0.gateways[k] == b.gateways[k])
      && r.0.agents == b.agents
  {
    var key := Address(g.ip, g.port);
    var placed := g.(address := key);
    if key in b.gateways then
      var previous := b.gateways[key];
      var stored := placed.(id := previous.id);
      var ranked := Delete(b.ranked, ItemOf(key, previous));
      (b.(gateways := b.gateways[key := stored], ranked := Insert(ranked, ItemOf(key, stored))), stored)
    else
      (b.(gateways := b.gateways[key := placed], ranked := Insert(b.ranked, ItemOf(key, placed))), placed)
  }

  /** Changing the record under one key changes the expected index by that key's entry alone. */
  lemma IndexOfUpdate(m: map<string, Gateway>, key: string, g: Gateway)
    ensures key in m ==> IndexOf(m[key := g]) == IndexOf(m) - {ItemOf(key, m[key])} + {ItemOf(key, g)}
    ensures key !in m ==> IndexOf(m[key := g]) == IndexOf(m) + {ItemOf(key, g)}
  {
    var m' := m[key := g];
    forall x | x in IndexOf(m')
      ensures x in IndexOf(m) - (if key in m then {ItemOf(key, m[key])} else {}) + {ItemOf(key, g)}
    {
      var k :| k in m' && x == ItemOf(k, m'[k]);
      if k != key {
        assert x in IndexOf(m);
      }
    }
    forall x | x in IndexOf(m) - (if key in m then {ItemOf(key, m[key])} else {}) + {ItemOf(key, g)}
      ensures x in IndexOf(m')
    {
      if x == ItemOf(key, g) {
        assert key in m';
      } else {
        assert x in IndexOf(m);
        var k :| k in m && x == ItemOf(k, m[k]);
        assert k != key;
        assert k in m' && x == ItemOf(k, m'[k]);
      }
    }
  }

  /**
   * AddGateway keeps the bucket invariant: afterwards the index is exactly
   * {(Rank(g.Capacity), key) | Gateways[key] = g}, with no stale entry.
   */
  lemma PutGatewayConsistent(b: BucketView, g: Gateway)
    requires Consistent(b)
    ensures Consistent(PutGateway(b, g).0)
  {
    var key := Address(g.ip, g.port);
    var (b', stored) := PutGateway(b, g);
    IndexOfUpdate(b.gateways, key, stored);
  }

  /** The index has one entry per stored gateway. */
  lemma {:induction false} IndexOfCard(m: map<string, Gateway>)
    ensures |IndexOf(m)| == |m|
    decreases |m|
  {
    if |m| > 0 {
      var k :| k in m;
      var m' := m - {k};
      IndexOfCard(m');
      assert m == m'[k := m[k]];
      IndexOfUpdate(m', k, m[k]);
      assert ItemOf(k, m[k]) !in IndexOf(m');
    }
  }

  /** In a consistent bucket the index is as long as the gateway map. */
  lemma RankedSize(b: BucketView)
    requires Consistent(b)
    ensures |b.ranked| == |b.gateways|
  {
    SortedCard(b.ranked);
    IndexOfCard(b.gateways);
    assert |b.gateways.Keys| == |b.gateways|;
  }

  /** A stored gateway has exactly one index entry, its (rank, key) pair. */
  lemma OneEntryPerGateway(b: BucketView, key: string)
    requires Consistent(b) && key in b.gateways
    ensures exists i :: 0 <= i < |b.ranked| && b.ranked[i] == ItemOf(key, b.gateways[key])
    ensures forall i, j :: 0 <= i < |b.ranked| && 0 <= j < |b.ranked| && b.ranked[i].id == key && b.ranked[j].id == key ==> i == j
  {
    assert ItemOf(key, b.gateways[key]) in IndexOf(b.gateways);
    forall i, j | 0 <= i < |b.ranked| && 0 <= j < |b.ranked| && b.ranked[i].id == key && b.ranked[j].id == key
      ensures i == j
    {
      assert b.ranked[i] in Elems(b.ranked) && b.ranked[j] in Elems(b.ranked);
      assert b.ranked[i] == ItemOf(key, b.gateways[key]) == b.ranked[j];
      if i < j { LessIrreflexive(b.ranked[i]); } else if j < i { LessIrreflexive(b.ranked[i]); }
    }
  }

  /**
   * Registering the same record twice is the same as registering it once:
   * the second call leaves the bucket as the first left it (one map entry,
   * one index entry) and returns the same record.
   */
  lemma PutGatewayIdempotent(b: BucketView, g: Gateway)
    requires Consistent(b)
    ensures PutGateway(PutGateway(b, g).0, g) == PutGateway(b, g)
  {
    PutGatewayConsistent(b, g);
    PutGatewayFixpoint(PutGateway(b, g).0, g);
  }

  /** A bucket already holding the record g would be stored as is unchanged by PutGateway. */
  lemma PutGatewayFixpoint(b: BucketView, g: Gateway)
    requires Consistent(b)
    requires var key := Address(g.ip, g.port);
      key in b.gateways && b.gateways[key] == g.(address := key, id := b.gateways[key].id)
    ensures PutGateway(b, g) == (b, b.gateways[Address(g.ip, g.port)])
  {
    var key := Address(g.ip, g.port);
    var stored := b.gateways[key];
    var item := ItemOf(key, stored);
    assert item in Elems(b.ranked) by {
      assert item in IndexOf(b.gateways);
    }
    var (b', stored') := PutGateway(b, g);
    assert stored' == stored;
    assert b'.gateways == b.gateways && b'.agents == b.agents;
    assert b'.ranked == Insert(Delete(b.ranked, item), item);
    assert Elems(b'.ranked) == Elems(b.ranked);
    SortedUnique(b'.ranked, b.ranked);
  }

  function Min(a: int, b: int): int { if a < b then a else b }

  /**
   * GetTopKGateways on one bucket: the records of the first k entries of the
   * ascending walk of the index, and nothing when k <= 0.
   */
  function TopK(b: BucketView, k: int): (r: seq<Gateway>)
    requires IdsPresent(b)
    ensures |r| == if k <= 0 then 0 else Min(k, |b.ranked|)
    ensures forall i :: 0 <= i < |r| ==> r[i] == b.gateways[b.ranked[i].id]
  {
    var n := if k <= 0 then 0 else Min(k, |b.ranked|);
    seq(n, i requires 0 <= i < n => b.gateways[b.ranked[i].id])
  }

  /** One more step of the ascending walk appends the record of the next entry. */
  lemma TopKStep(b: BucketView, i: int)
    requires IdsPresent(b) && 0 <= i < |b.ranked|
    ensures TopK(b, i + 1) == TopK(b, i) + [b.gateways[b.ranked[i].id]]
  {
  }

  /** The rank entry a returned record sits at. */
  function EntryOf(g: Gateway): RankItem
  {
    ItemOf(g.address, g)
  }

  /**
   * What GetTopKGateways promises of a consistent bucket: min(k, |Gateways|)
   * stored records, strictly ascending by (rank, address), and no gateway
   * left out ranks before any gateway returned.
   */
  lemma TopKLowest(b: BucketView, k: int)
    requires Consistent(b)
    ensures IdsPresent(b)
    ensures |TopK(b, k)| == if k <= 0 then 0 else Min(k, |b.gateways|)
    ensures forall i :: 0 <= i < |TopK(b, k)| ==>
      TopK(b, k)[i].address in b.gateways && b.gateways[TopK(b, k)[i].address] == TopK(b, k)[i]
    ensures forall i, j :: 0 <= i < j < |TopK(b, k)| ==> Less(EntryOf(TopK(b, k)[i]), EntryOf(TopK(b, k)[j]))
    ensures forall key, i ::
      (key in b.gateways && 0 <= i < |TopK(b, k)| &&
       (forall j :: 0 <= j < |TopK(b, k)| ==> TopK(b, k)[j].address != key)) ==>
      Less(EntryOf(TopK(b, k)[i]), ItemOf(key, b.gateways[key]))
  {
    ConsistentIdsPresent(b);
    RankedSize(b);
    var r := TopK(b, k);
    TopKEntries(b, k);
    forall key, i | key in b.gateways && 0 <= i < |r| && (forall j :: 0 <= j < |r| ==> r[j].address != key)
      ensures Less(EntryOf(r[i]), ItemOf(key, b.gateways[key]))
    {
      LeftOutRanksLater(b, k, key, i);
    }
  }

  /** A gateway GetTopKGateways leaves out ranks after the i-th one it returns. */
  lemma LeftOutRanksLater(b: BucketView, k: int, key: string, i: int)
    requires Consistent(b) && IdsPresent(b) && key in b.gateways
    requires 0 <= i < |TopK(b, k)|
    requires forall j :: 0 <= j < |TopK(b, k)| ==> TopK(b, k)[j].address != key
    ensures Less(EntryOf(TopK(b, k)[i]), ItemOf(key, b.gateways[key]))
  {
    var r := TopK(b, k);
    TopKEntries(b, k);
    assert ItemOf(key, b.gateways[key]) in Elems(b.ranked);
    var p :| 0 <= p < |b.ranked| && b.ranked[p] == ItemOf(key, b.gateways[key]);
    assert p >= |r|;
  }

  /** The records GetTopKGateways returns sit at the first entries of the index, in order. */
  lemma TopKEntries(b: BucketView, k: int)
    requires Consistent(b)
    ensures IdsPresent(b)
    ensures forall i :: 0 <= i < |TopK(b, k)| ==> EntryOf(TopK(b, k)[i]) == b.ranked[i]
  {
    ConsistentIdsPresent(b);
    var r := TopK(b, k);
    forall i | 0 <= i < |r| ensures EntryOf(r[i]) == b.ranked[i] {
      assert b.ranked[i] in IndexOf(b.gateways);
    }
  }

  /** What AddAgent hands back: the bucket after the call, the agent, the gateway and the error. */
  datatype AgentOutcome = AgentOutcome(bucket: BucketView, agent: Agent, gateway: Option<Gateway>, err: Option<Error>)

  /**
   * AddAgent on one bucket (Registry/pkg/memstore/agentsops.go:11-27): the
   * gateway must be stored under the agent's GatewayAddress; an agent
   * already stored under the domain has only its three binding fields
   * refreshed from that gateway, a new one is stored as given.
   */
  function PutAgent(b: BucketView, region: string, a: Agent): (r: AgentOutcome)
    ensures r.err.None? <==> a.gatewayAddress in b.gateways
    ensures r.err.Some? ==> r == AgentOutcome(b, EmptyAgent, None, Some(GatewayNotFound(a.gatewayAddress, region)))
    ensures r.err.None? ==>
      && r.gateway == Some(b.gateways[a.gatewayAddress])
      && r.bucket.gateways == b.gateways && r.bucket.ranked == b.ranked
      && r.bucket.agents.Keys == b.agents.Keys + {a.domain}
      && r.bucket.agents[a.domain] == r.agent
      && (forall d :: d in b.agents && d != a.domain ==> r.bucket.agents[d] == b.agents[d])
    ensures r.err.None? && a.domain in b.agents ==>
      var previous, gw := b.agents[a.domain], b.gateways[a.gatewayAddress];
      && r.agent.id == previous.id && r.agent.domain == previous.domain && r.agent.credHash == previous.credHash
      && r.agent.gatewayId == gw.id && r.agent.gatewayIp == gw.ip && r.agent.gatewayAddress == gw.address
    ensures r.err.None? && a.domain !in b.agents ==> r.agent == a
  {
    if a.gatewayAddress !in b.gateways then
      AgentOutcome(b, EmptyAgent, None, Some(GatewayNotFound(a.gatewayAddress, region)))
    else
      var gw := b.gateways[a.gatewayAddress];
      if a.domain in b.agents then
        var stored := b.agents[a.domain].(gatewayId := gw.id, gatewayIp := gw.ip, gatewayAddress := gw.address);
        AgentOutcome(b.(agents := b.agents[a.domain := stored]), stored, Some(gw), None)
      else
        AgentOutcome(b.(agents := b.agents[a.domain := a]), a, Some(gw), None)
  }

  /** AddAgent never touches the gateways or the index, so the bucket stays consistent. */
  lemma PutAgentConsistent(b: BucketView, region: string, a: Agent)
    requires Consistent(b)
    ensures Consistent(PutAgent(b, region, a).bucket)
  {
  }

  /**
   * Adding the same agent again never creates a second entry: the domains
   * stay those of the first call, and the repeated call succeeds and binds
   * the agent to the same gateway.
   */
  lemma PutAgentRepeatKeepsDomains(b: BucketView, region: string, a: Agent)
    ensures var o := PutAgent(b, region, a);
      o.err.None? ==>
        var o2 := PutAgent(o.bucket, region, a);
        && o2.err.None?
        && o2.bucket.agents.Keys == o.bucket.agents.Keys
        && o2.gateway == o.gateway
        && o2.agent.gatewayAddress == o.gateway.value.address
  {
  }

  /**
   * No gateway is ever stored under the empty address, so an agent whose
   * GatewayAddress is empty is always refused by AddAgent.
   */
  lemma EmptyAddressNeverBound(b: BucketView, region: string, a: Agent)
    requires Consistent(b) && a.gatewayAddress == ""
    ensures PutAgent(b, region, a).err == Some(GatewayNotFound("", region))
  {
  }

  /** The bucket of a region, or the one RegionExist would create. */
  function BucketOf(s: StoreView, region: string): BucketView
  {
    if region in s then s[region] else EmptyBucket
  }

  /**
   * RegionExist (Registry/pkg/memstore/mem.go:54-73) on the store's value:
   * the region is present afterwards, an existing bucket is kept as it was,
   * a missing one is created empty, and no other region changes.
   */
  function Touch(s: StoreView, region: string): (t: StoreView)
    ensures t.Keys == s.Keys + {region}
    ensures region in s ==> t == s
    ensures region !in s ==> t[region] == EmptyBucket
    ensures forall r :: r in s ==> t[r] == s[r]
  {
    s[region := BucketOf(s, region)]
  }

  /** RegionExist is idempotent. */
  lemma TouchIdempotent(s: StoreView, region: string)
    ensures Touch(Touch(s, region), region) == Touch(s, region)
  {
  }

  /** Every bucket of the store keeps its invariant. */
  ghost predicate StoreValid(s: StoreView)
  {
    forall r :: r in s ==> Consistent(s[r])
  }

  /** MemStore.AddGateway: the region's bucket after PutGateway, and the stored record. */
  function AddGatewayTo(s: StoreView, region: string, g: Gateway): (r: (StoreView, Gateway))
    ensures r.0.Keys == s.Keys + {region}
    ensures forall x :: x in s && x != region ==> r.0[x] == s[x]
  {
    var (b, stored) := PutGateway(BucketOf(s, region), g);
    (s[region := b], stored)
  }

  /** MemStore.AddAgent: the region is created even when the gateway is missing. */
  function AddAgentTo(s: StoreView, region: string, a: Agent): (r: (StoreView, AgentOutcome))
    ensures r.0.Keys == s.Keys + {region}
    ensures forall x :: x in s && x != region ==> r.0[x] == s[x]
    ensures r.1.err.Some? ==> r.0 == Touch(s, region)
  {
    var o := PutAgent(BucketOf(s, region), region, a);
    (s[region := o.bucket], o)
  }

  lemma AddGatewayToValid(s: StoreView, region: string, g: Gateway)
    requires StoreValid(s)
    ensures StoreValid(AddGatewayTo(s, region, g).0)
  {
    PutGatewayConsistent(BucketOf(s, region), g);
  }

  lemma AddAgentToValid(s: StoreView, region: string, a: Agent)
    requires StoreValid(s)
    ensures StoreValid(AddAgentTo(s, region, a).0)
  {
  }

  lemma TouchValid(s: StoreView, region: string)
    requires StoreValid(s)
    ensures StoreValid(Touch(s, region))
  {
  }
}
