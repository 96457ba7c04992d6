/**
 * The older revision of the region store, pkg/memstore. Gateways are keyed
 * by their domain rather than by ip:port, and the upsert is different: a
 * domain that is registered again keeps its first record, and its entry is
 * removed from the ranking index without being put back, so the gateway
 * drops out of every later GetTopKGateways. AddAgent looks the gateway up
 * by domain and overwrites the agent record whole.
 *
 * The package's record structs and its RegionExist are not part of this
 * model: the records carry the fields these operations read, and RegionExist
 * is taken to behave as the one of Registry/pkg/memstore.
 */
module LegacyStore {
  import opened Wrappers
  import opened Ranking
  import opened RankIndex
  import opened Records
  import BucketSpec

  /** GatewayData of pkg/memstore: the fields the operations read. */
  datatype LegacyGateway = LegacyGateway(domain: string, ip: string, id: string, capacity: Capacity)

  /** AgentData of pkg/memstore: the fields the operations read. */
  datatype LegacyAgent = LegacyAgent(domain: string, id: string, gatewayDomain: string)

  const NoAgent := LegacyAgent("", "", "")

  /** The content of one MemData. */
  datatype LegacyView = LegacyView(gateways: map<string, LegacyGateway>, agents: map<string, LegacyAgent>, ranked: seq<RankItem>)

  const Empty := LegacyView(map[], map[], [])

  type LegacyStoreView = map<string, LegacyView>

  /** The index entry of the gateway registered under a domain. */
  function EntryFor(domain: string, g: LegacyGateway): RankItem
  {
    RankItem(Rank(g.capacity), domain)
  }

  ghost function IndexOf(m: map<string, LegacyGateway>): set<RankItem>
  {
    set d | d in m :: EntryFor(d, m[d])
  }

  /**
   * The invariant this revision keeps: the index is sorted, holds only
   * entries of stored gateways (but may miss some), and every record sits
   * under its own domain.
   */
  ghost predicate Indexed(b: LegacyView)
  {
    && Sorted(b.ranked)
    && Elems(b.ranked) <= IndexOf(b.gateways)
    && (forall d :: d in b.gateways ==> b.gateways[d].domain == d)
  }

  ghost predicate IdsPresent(b: LegacyView)
  {
    forall i :: 0 <= i < |b.ranked| ==> b.ranked[i].id in b.gateways
  }

  lemma IndexedIdsPresent(b: LegacyView)
    requires Indexed(b)
    ensures IdsPresent(b)
  {
    forall i | 0 <= i < |b.ranked| ensures b.ranked[i].id in b.gateways {
      assert b.ranked[i] in Elems(b.ranked);
    }
  }

  /**
   * AddGateway on one bucket (pkg/memstore/gatewayops.go:11-28): a known
   * domain gives up its index entry and its old record is returned, the new
   * one being dropped; a new domain is stored and indexed, and the input is
   * returned.
   */
  function PutGateway(b: LegacyView, g: LegacyGateway): (r: (LegacyView, LegacyGateway))
    ensures r.0.agents == b.agents
    ensures g.domain in b.gateways ==> r.1 == b.gateways[g.domain] && r.0.gateways == b.gateways
    ensures g.domain !in b.gateways ==> r.1 == g && r.0.gateways == b.gateways[g.domain := g]
  {
    if g.domain in b.gateways then
      var previous := b.gateways[g.domain];
      (b.(ranked := Delete(b.ranked, EntryFor(g.domain, previous))), previous)
    else
      (b.(gateways := b.gateways[g.domain := g], ranked := Insert(b.ranked, EntryFor(g.domain, g))), g)
  }

  lemma IndexOfAdd(m: map<string, LegacyGateway>, d: string, g: LegacyGateway)
    requires d !in m
    ensures IndexOf(m[d := g]) == IndexOf(m) + {EntryFor(d, g)}
  {
    var m' := m[d := g];
    forall x | x in IndexOf(m')
      ensures x in IndexOf(m) + {EntryFor(d, g)}
    {
      var e :| e in m' && x == EntryFor(e, m'[e]);
      if e != d {
        assert x == EntryFor(e, m[e]);
      }
    }
    forall x | x in IndexOf(m) ensures x in IndexOf(m') {
      var e :| e in m && x == EntryFor(e, m[e]);
      assert e != d && m'[e] == m[e];
    }
    assert d in m' && m'[d] == g;
    assert EntryFor(d, g) in IndexOf(m');
  }

  /** AddGateway keeps the bucket invariant. */
  lemma PutGatewayIndexed(b: LegacyView, g: LegacyGateway)
    requires Indexed(b)
    ensures Indexed(PutGateway(b, g).0)
  {
    if g.domain !in b.gateways {
      IndexOfAdd(b.gateways, g.domain, g);
    }
  }

  /**
   * Only one entry of the index can name a given domain: all entries are
   * entries of stored records, one per domain, and the index has no
   * repeats.
   */
  lemma OneEntryPerDomain(b: LegacyView, i: int, j: int)
    requires Indexed(b)
    requires 0 <= i < |b.ranked| && 0 <= j < |b.ranked| && b.ranked[i].id == b.ranked[j].id
    ensures i == j
  {
    assert b.ranked[i] in Elems(b.ranked) && b.ranked[j] in Elems(b.ranked);
    assert b.ranked[i] == b.ranked[j];
    if i < j {
      LessIrreflexive(b.ranked[i]);
    } else if j < i {
      LessIrreflexive(b.ranked[j]);
    }
  }

  /**
   * Registering a new domain stores the record as given and gives it
   * exactly one index entry, (rank, domain).
   */
  lemma NewDomainIndexed(b: LegacyView, g: LegacyGateway)
    requires Indexed(b) && g.domain !in b.gateways
    ensures var (b', stored) := PutGateway(b, g);
      && stored == g && b'.gateways[g.domain] == g
      && EntryFor(g.domain, g) in Elems(b'.ranked)
      && forall i, j :: 0 <= i < |b'.ranked| && 0 <= j < |b'.ranked| && b'.ranked[i].id == g.domain && b'.ranked[j].id == g.domain ==> i == j
  {
    var b' := PutGateway(b, g).0;
    PutGatewayIndexed(b, g);
    forall i, j | 0 <= i < |b'.ranked| && 0 <= j < |b'.ranked| && b'.ranked[i].id == g.domain && b'.ranked[j].id == g.domain
      ensures i == j
    {
      OneEntryPerDomain(b', i, j);
    }
  }

  /**
   * GetTopKGateways on one bucket (pkg/memstore/gatewayops.go:37-48): the
   * records of the first k entries of the ascending walk of the index.
   */
  function TopK(b: LegacyView, k: int): (r: seq<LegacyGateway>)
    requires IdsPresent(b)
    ensures |r| == if k <= 0 then 0 else BucketSpec.Min(k, |b.ranked|)
    ensures forall i :: 0 <= i < |r| ==> r[i] == b.gateways[b.ranked[i].id]
  {
    var n := if k <= 0 then 0 else BucketSpec.Min(k, |b.ranked|);
    seq(n, i requires 0 <= i < n => b.gateways[b.ranked[i].id])
  }

  lemma TopKStep(b: LegacyView, i: int)
    requires IdsPresent(b) && 0 <= i < |b.ranked|
    ensures TopK(b, i + 1) == TopK(b, i) + [b.gateways[b.ranked[i].id]]
  {
  }

  /**
   * What GetTopKGateways returns from this revision's index: stored
   * records, at most k, strictly ascending by (rank, domain).
   */
  lemma TopKAscending(b: LegacyView, k: int)
    requires Indexed(b)
    ensures IdsPresent(b)
    ensures |TopK(b, k)| <= |b.gateways|
    ensures forall i :: 0 <= i < |TopK(b, k)| ==>
      TopK(b, k)[i].domain in b.gateways && b.gateways[TopK(b, k)[i].domain] == TopK(b, k)[i]
    ensures forall i, j :: 0 <= i < j < |TopK(b, k)| ==>
      Less(EntryFor(TopK(b, k)[i].domain, TopK(b, k)[i]), EntryFor(TopK(b, k)[j].domain, TopK(b, k)[j]))
  {
    IndexedIdsPresent(b);
    var r := TopK(b, k);
    forall i | 0 <= i < |r| ensures EntryFor(r[i].domain, r[i]) == b.ranked[i] {
      assert b.ranked[i] in IndexOf(b.gateways);
    }
    IndexSize(b);
  }

  /** The index has at most one entry per stored gateway. */
  lemma IndexSize(b: LegacyView)
    requires Indexed(b)
    ensures |b.ranked| <= |b.gateways|
  {
    SortedCard(b.ranked);
    IndexOfCard(b.gateways);
    assert |Elems(b.ranked)| <= |IndexOf(b.gateways)| by {
      SubsetCard(Elems(b.ranked), IndexOf(b.gateways));
    }
  }

  lemma SubsetCard<T>(a: set<T>, b: set<T>)
    requires a <= b
    ensures |a| <= |b|
  {
    assert b == a + (b - a);
  }

  lemma {:induction false} IndexOfCard(m: map<string, LegacyGateway>)
    ensures |IndexOf(m)| <= |m|
    decreases |m|
  {
    if |m| > 0 {
      var d :| d in m;
      var rest := map e | e in m && e != d :: m[e];
      assert m == rest[d := m[d]];
      IndexOfCard(rest);
      IndexOfAdd(rest, d, m[d]);
    }
  }

  /**
   * Re-registering a domain hides it: the record stays stored, but no later
   * GetTopKGateways returns it, whatever k.
   */
  lemma ReRegistrationHides(b: LegacyView, g: LegacyGateway, k: int)
    requires Indexed(b) && g.domain in b.gateways
    ensures var b' := PutGateway(b, g).0;
      && Indexed(b') && IdsPresent(b')
      && g.domain in b'.gateways
      && forall i :: 0 <= i < |TopK(b', k)| ==> TopK(b', k)[i].domain != g.domain
  {
    var b' := PutGateway(b, g).0;
    PutGatewayIndexed(b, g);
    IndexedIdsPresent(b');
    var gone := EntryFor(g.domain, b.gateways[g.domain]);
    forall i | 0 <= i < |b'.ranked| ensures b'.ranked[i].id != g.domain {
      assert b'.ranked[i] in Elems(b.ranked) - {gone};
      assert b'.ranked[i] in IndexOf(b.gateways);
    }
  }

  /** What AddAgent hands back: the bucket after the call, the agent, the gateway and the error. */
  datatype AgentOutcome = AgentOutcome(bucket: LegacyView, agent: LegacyAgent, gateway: Option<LegacyGateway>, err: Option<Error>)

  /**
   * AddAgent on one bucket (pkg/memstore/agentsops.go:11-21): the gateway is
   * looked up by domain; if it is there the agent record replaces whatever
   * was stored under the agent's domain.
   */
  function PutAgent(b: LegacyView, region: string, a: LegacyAgent): (o: AgentOutcome)
    ensures o.err.None? <==> a.gatewayDomain in b.gateways
    ensures o.err.Some? ==> o == AgentOutcome(b, NoAgent, None, Some(GatewayNotFound(a.gatewayDomain, region)))
    ensures o.err.None? ==>
      && o.bucket == b.(agents := b.agents[a.domain := a])
      && o.agent == a && o.gateway == Some(b.gateways[a.gatewayDomain])
  {
    if a.gatewayDomain !in b.gateways then
      AgentOutcome(b, NoAgent, None, Some(GatewayNotFound(a.gatewayDomain, region)))
    else
      AgentOutcome(b.(agents := b.agents[a.domain := a]), a, Some(b.gateways[a.gatewayDomain]), None)
  }

  /** AddAgent leaves the gateways and the index alone, so it keeps the invariant. */
  lemma PutAgentIndexed(b: LegacyView, region: string, a: LegacyAgent)
    requires Indexed(b)
    ensures Indexed(PutAgent(b, region, a).bucket)
    ensures PutAgent(b, region, a).bucket.gateways == b.gateways && PutAgent(b, region, a).bucket.ranked == b.ranked
  {
  }

  /** Adding the same agent twice leaves the same bucket as adding it once. */
  lemma PutAgentIdempotent(b: LegacyView, region: string, a: LegacyAgent)
    ensures PutAgent(PutAgent(b, region, a).bucket, region, a) == PutAgent(b, region, a)
  {
  }

  function BucketOf(s: LegacyStoreView, region: string): LegacyView
  {
    if region in s then s[region] else Empty
  }

  function Touch(s: LegacyStoreView, region: string): (t: LegacyStoreView)
    ensures t.Keys == s.Keys + {region}
    ensures forall r :: r in s ==> t[r] == s[r]
    ensures region !in s ==> t[region] == Empty
  {
    s[region := BucketOf(s, region)]
  }

  ghost predicate StoreIndexed(s: LegacyStoreView)
  {
    forall r :: r in s ==> Indexed(s[r])
  }

  /** MemStore.AddGateway: the region's bucket after PutGateway, and the returned record. */
  function AddGatewayTo(s: LegacyStoreView, region: string, g: LegacyGateway): (r: (LegacyStoreView, LegacyGateway))
    ensures r.0.Keys == s.Keys + {region}
    ensures forall x :: x in s && x != region ==> r.0[x] == s[x]
  {
    var (b, stored) := PutGateway(BucketOf(s, region), g);
    (s[region := b], stored)
  }

  /** MemStore.AddAgent: the region is created even when the gateway is missing. */
  function AddAgentTo(s: LegacyStoreView, region: string, a: LegacyAgent): (r: (LegacyStoreView, AgentOutcome))
    ensures r.0.Keys == s.Keys + {region}
    ensures forall x :: x in s && x != region ==> r.0[x] == s[x]
    ensures r.1.err.Some? ==> r.0 == Touch(s, region)
  {
    var o := PutAgent(BucketOf(s, region), region, a);
    (s[region := o.bucket], o)
  }

  lemma TouchIndexed(s: LegacyStoreView, region: string)
    requires StoreIndexed(s)
    ensures StoreIndexed(Touch(s, region))
  {
  }

  lemma AddGatewayToIndexed(s: LegacyStoreView, region: string, g: LegacyGateway)
    requires StoreIndexed(s)
    ensures StoreIndexed(AddGatewayTo(s, region, g).0)
  {
    PutGatewayIndexed(BucketOf(s, region), g);
  }

  lemma AddAgentToIndexed(s: LegacyStoreView, region: string, a: LegacyAgent)
    requires StoreIndexed(s)
    ensures StoreIndexed(AddAgentTo(s, region, a).0)
  {
    PutAgentIndexed(BucketOf(s, region), region, a);
  }

  /** MemData: the gateways by domain, the agents by domain and the ranking index of one region. */
  class Bucket {
    var gateways: map<string, LegacyGateway>
    var agents: map<string, LegacyAgent>
    var ranked: seq<RankItem>

    constructor ()
      ensures View() == Empty
    {
      gateways := map[];
      agents := map[];
      ranked := [];
    }

    function View(): LegacyView
      reads this
    {
      LegacyView(gateways, agents, ranked)
    }

    /** The body of AddGateway under the bucket's lock (pkg/memstore/gatewayops.go:11-28). */
    method Upsert(g: LegacyGateway) returns (stored: LegacyGateway)
      modifies this
      ensures View() == PutGateway(old(View()), g).0 && stored == PutGateway(old(View()), g).1
    {
      if g.domain in gateways {
        stored := gateways[g.domain];
        ranked := Delete(ranked, RankItem(Rank(stored.capacity), g.domain));
      } else {
        gateways := gateways[g.domain := g];
        ranked := Insert(ranked, RankItem(Rank(g.capacity), g.domain));
        stored := g;
      }
    }

    /** The walk of GetTopKGateways under the bucket's read lock (pkg/memstore/gatewayops.go:37-48). */
    method Lowest(k: int) returns (result: seq<LegacyGateway>)
      requires Indexed(View())
      ensures IdsPresent(View()) && result == TopK(View(), k)
    {
      ghost var b := View();
      IndexedIdsPresent(b);
      result := [];
      var count := 0;
      var i := 0;
      while i < |ranked|
        invariant b == View()
        invariant 0 <= i <= |ranked| && count == i
        invariant count <= k || count == 0
        invariant result == TopK(b, i)
      {
        if count >= k {
          break;
        }
        var item := ranked[i];
        TopKStep(b, i);
        result := result + [gateways[item.id]];
        count := count + 1;
        i := i + 1;
      }
    }

    /** The body of AddAgent under the bucket's lock (pkg/memstore/agentsops.go:11-21). */
    method Bind(region: string, a: LegacyAgent) returns (agent: LegacyAgent, gateway: Option<LegacyGateway>, err: Option<Error>)
      modifies this
      ensures var o := PutAgent(old(View()), region, a);
        View() == o.bucket && agent == o.agent && gateway == o.gateway && err == o.err
    {
      if a.gatewayDomain !in gateways {
        agent, gateway, err := NoAgent, None, Some(GatewayNotFound(a.gatewayDomain, region));
      } else {
        gateway := Some(gateways[a.gatewayDomain]);
        agents := agents[a.domain := a];
        agent, err := a, None;
      }
    }
  }

  /** MemStore of pkg/memstore: the regions and the separate `global` bucket. */
  class Store {
    var regions: map<string, Bucket>
    var global: Bucket

    /**
     * Every region has a bucket of its own, the global bucket is none of them
     * and stays empty, and every bucket keeps its invariant.
     */
    ghost predicate Valid()
      reads this, regions.Values, global
    {
      && (forall r1, r2 :: r1 in regions && r2 in regions && r1 != r2 ==> regions[r1] != regions[r2])
      && global !in regions.Values
      && global.View() == Empty
      && StoreIndexed(View())
    }

    function View(): LegacyStoreView
      reads this, regions.Values
    {
      map r | r in regions :: regions[r].View()
    }

    /** NewMemStore (pkg/memstore/index.go:5-10). */
    constructor ()
      ensures Valid() && fresh(global)
      ensures regions == map[] && View() == map[]
    {
      regions := map[];
      global := new Bucket();
    }

    /** RegionExist: the region's bucket, created empty when the region is new. */
    method RegionExist(region: string) returns (data: Bucket)
      requires Valid()
      modifies this
      ensures Valid() && global == old(global)
      ensures region in regions && data == regions[region]
      ensures region in old(regions) ==> regions == old(regions)
      ensures region !in old(regions) ==> fresh(data) && regions == old(regions)[region := data]
      ensures View() == Touch(old(View()), region)
    {
      if region !in regions {
        ghost var before := View();
        var created := new Bucket();
        assert created !in regions.Values && created != global;
        regions := regions[region := created];
        assert View() == Touch(before, region);
        TouchIndexed(before, region);
      }
      data := regions[region];
    }

    /** AddGateway (pkg/memstore/gatewayops.go:5-29). */
    method AddGateway(region: string, g: LegacyGateway) returns (stored: LegacyGateway)
      requires Valid()
      modifies this, regions.Values
      ensures Valid() && global == old(global)
      ensures View() == AddGatewayTo(old(View()), region, g).0
      ensures stored == AddGatewayTo(old(View()), region, g).1
    {
      ghost var before := View();
      var data := RegionExist(region);
      assert data.View() == BucketOf(before, region);
      ghost var touched := regions;
      stored := data.Upsert(g);
      assert regions == touched;
      assert View() == AddGatewayTo(before, region, g).0 by {
        OneBucketChanged(before, region, data.View());
      }
      AddGatewayToIndexed(before, region, g);
    }

    /** GetTopKGateways (pkg/memstore/gatewayops.go:31-49). */
    method GetTopKGateways(region: string, k: int) returns (result: seq<LegacyGateway>)
      requires Valid()
      modifies this
      ensures Valid() && global == old(global)
      ensures View() == Touch(old(View()), region)
      ensures IdsPresent(View()[region]) && result == TopK(View()[region], k)
    {
      var data := RegionExist(region);
      result := data.Lowest(k);
    }

    /** GetGateway (pkg/memstore/gatewayops.go:51-58): a lookup by domain. */
    method GetGateway(region: string, domain: string) returns (gateway: Option<LegacyGateway>)
      requires Valid()
      modifies this
      ensures Valid() && View() == Touch(old(View()), region)
      ensures gateway.Some? <==> domain in BucketOf(old(View()), region).gateways
      ensures gateway.Some? ==> gateway.value == BucketOf(old(View()), region).gateways[domain]
    {
      var data := RegionExist(region);
      if domain in data.gateways {
        gateway := Some(data.gateways[domain]);
      } else {
        gateway := None;
      }
    }

    /** AddAgent (pkg/memstore/agentsops.go:5-22). */
    method AddAgent(region: string, a: LegacyAgent) returns (agent: LegacyAgent, gateway: Option<LegacyGateway>, err: Option<Error>)
      requires Valid()
      modifies this, regions.Values
      ensures Valid() && global == old(global)
      ensures var (s, o) := AddAgentTo(old(View()), region, a);
        View() == s && agent == o.agent && gateway == o.gateway && err == o.err
    {
      ghost var before := View();
      var data := RegionExist(region);
      assert data.View() == BucketOf(before, region);
      ghost var touched := regions;
      agent, gateway, err := data.Bind(region, a);
      assert regions == touched;
      assert View() == AddAgentTo(before, region, a).0 by {
        OneBucketChanged(before, region, data.View());
      }
      AddAgentToIndexed(before, region, a);
    }

    /** Only the bucket of `region` changed since the store's value was `before`. */
    lemma OneBucketChanged(before: LegacyStoreView, region: string, b: LegacyView)
      requires region in regions && regions[region].View() == b
      requires regions.Keys == before.Keys + {region}
      requires forall r :: r in regions && r != region ==> regions[r].View() == before[r]
      ensures View() == before[region := b]
    {
    }
  }
}
