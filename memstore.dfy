/**
 * The region-sharded store of Registry/pkg/memstore, as the source has it:
 * a MemStore object whose regions map points at MemData buckets that its
 * methods update in place. Every method is specified by the functions of
 * BucketSpec on the store's value (View), so the lemmas proved there hold of
 * the objects. Locking is left out: the model is single-threaded.
 */
module MemStore {
  import opened Wrappers
  import opened Ranking
  import opened RankIndex
  import opened Records
  import opened BucketSpec

  /** MemData: the gateways by address, the agents by domain and the ranking index of one region. */
  class Bucket {
    var gateways: map<string, Gateway>
    var agents: map<string, Agent>
    var ranked: seq<RankItem>

    /** newMemData: empty maps and an empty index. */
    constructor ()
      ensures View() == EmptyBucket
    {
      gateways := map[];
      agents := map[];
      ranked := [];
    }

    function View(): BucketView
      reads this
    {
      BucketView(gateways, agents, ranked)
    }

    /**
     * The body of AddGateway under the bucket's lock
     * (Registry/pkg/memstore/gatewayops.go:15-33): the address is composed,
     * an existing record gives up its index entry and lends its identity,
     * the record is stored and its entry inserted.
     */
    method Upsert(g: Gateway) returns (stored: Gateway)
      modifies this
      ensures View() == PutGateway(old(View()), g).0 && stored == PutGateway(old(View()), g).1
    {
      var address := Address(g.ip, g.port);
      stored := g.(address := address);
      if address in gateways {
        var previous := gateways[address];
        ranked := Delete(ranked, ItemOf(address, previous));
        stored := stored.(id := previous.id);
      }
      gateways := gateways[address := stored];
      ranked := Insert(ranked, ItemOf(address, stored));
    }

    /**
     * The walk of GetTopKGateways under the bucket's read lock
     * (Registry/pkg/memstore/gatewayops.go:45-56): the index is visited in
     * ascending order and the record of each entry taken until k are taken.
     */
    method Lowest(k: int) returns (result: seq<Gateway>)
      requires Consistent(View())
      ensures IdsPresent(View()) && result == TopK(View(), k)
    {
      ghost var b := View();
      ConsistentIdsPresent(b);
      result := [];
      var count := 0;
      var i := 0;
      while i < |ranked|
        invariant b == View()
        invariant 0 <= i <= |ranked| && count == i
        invariant count <= k || count == 0
        invariant result == TopK(b, i)
      {
        if count >= k {
          break;
        }
        var item := ranked[i];
        TopKStep(b, i);
        result := result + [gateways[item.id]];
        count := count + 1;
        i := i + 1;
      }
    }

    /**
     * The body of AddAgent under the bucket's lock
     * (Registry/pkg/memstore/agentsops.go:11-27): the gateway is looked up by
     * the agent's GatewayAddress; an agent already stored under the domain
     * has its binding refreshed, a new one is stored as given.
     */
    method Bind(region: string, a: Agent) returns (agent: Agent, gateway: Option<Gateway>, err: Option<Error>)
      modifies this
      ensures var o := PutAgent(old(View()), region, a);
        View() == o.bucket && agent == o.agent && gateway == o.gateway && err == o.err
    {
      if a.gatewayAddress !in gateways {
        return EmptyAgent, None, Some(GatewayNotFound(a.gatewayAddress, region));
      }
      var found := gateways[a.gatewayAddress];
      if a.domain in agents {
        var existing := agents[a.domain];
        existing := existing.(gatewayId := found.id, gatewayIp := found.ip, gatewayAddress := found.address);
        agents := agents[a.domain := existing];
        return existing, Some(found), None;
      }
      agents := agents[a.domain := a];
      return a, Some(found), None;
    }
  }

  /** MemStore: the regions and the separate `global` bucket that no operation uses. */
  class Store {
    var regions: map<string, Bucket>
    var global: Bucket

    /** Every region has a bucket of its own, and the global bucket is none of them. */
    ghost predicate Framed()
      reads this, regions.Values, global
    {
      && (forall r1, r2 :: r1 in regions && r2 in regions && r1 != r2 ==> regions[r1] != regions[r2])
      && global !in regions.Values
      && global.View() == EmptyBucket
    }

    /** A framed store whose every bucket is consistent. */
    ghost predicate Valid()
      reads this, regions.Values, global
    {
      Framed() && StoreValid(View())
    }

    /** The store's value: each region's bucket content. */
    function View(): StoreView
      reads this, regions.Values
    {
      map r | r in regions :: regions[r].View()
    }

    /** No region of `before` was removed or given another bucket. */
    ghost predicate Extends(before: map<string, Bucket>)
      reads this
    {
      forall r :: r in before ==> r in regions && regions[r] == before[r]
    }

    /** NewMemStore (pkg/memstore/index.go:5-10): no regions and an empty global bucket. */
    constructor ()
      ensures Valid() && fresh(global)
      ensures regions == map[] && View() == map[]
    {
      regions := map[];
      global := new Bucket();
    }

    /**
     * RegionExist: returns the region's bucket, creating an empty one first
     * when the region is new. Regions are only ever added.
     */
    method RegionExist(region: string) returns (data: Bucket)
      requires Framed()
      modifies this
      ensures Framed() && global == old(global)
      ensures old(Valid()) ==> Valid()
      ensures region in regions && data == regions[region]
      ensures region in old(regions) ==> regions == old(regions)
      ensures region !in old(regions) ==> fresh(data) && regions == old(regions)[region := data]
      ensures Extends(old(regions))
      ensures View() == Touch(old(View()), region)
    {
      if region !in regions {
        ghost var before := View();
        var created := new Bucket();
        assert created !in regions.Values && created != global;
        regions := regions[region := created];
        assert View() == Touch(before, region);
        if StoreValid(before) {
          TouchValid(before, region);
        }
      }
      data := regions[region];
    }

    /**
     * AddGateway (Registry/pkg/memstore/gatewayops.go:9-37): stores the
     * record under ip:port, keeping an existing identity, and moves its
     * index entry. The source's error result is always nil.
     */
    method AddGateway(region: string, g: Gateway) returns (stored: Gateway)
      requires Valid()
      modifies this, regions.Values
      ensures Valid() && global == old(global)
      ensures View() == AddGatewayTo(old(View()), region, g).0
      ensures stored == AddGatewayTo(old(View()), region, g).1
      ensures Extends(old(regions))
      ensures forall r :: r in regions && r !in old(regions) ==> fresh(regions[r])
    {
      ghost var before := View();
      var data := RegionExist(region);
      assert data.View() == BucketOf(before, region);
      ghost var touched := regions;
      stored := data.Upsert(g);
      assert regions == touched;
      assert View() == AddGatewayTo(before, region, g).0 by {
        OneBucketChanged(before, region, data.View());
      }
      assert StoreValid(View()) by {
        AddGatewayToValid(before, region, g);
      }
    }

    /**
     * GetTopKGateways (Registry/pkg/memstore/gatewayops.go:39-57): walks the
     * index in ascending order, taking the stored record of each entry until
     * k have been taken. The region is created if it is new.
     */
    method GetTopKGateways(region: string, k: int) returns (result: seq<Gateway>)
      requires Valid()
      modifies this
      ensures Valid() && global == old(global)
      ensures View() == Touch(old(View()), region)
      ensures IdsPresent(View()[region])
      ensures result == TopK(View()[region], k)
    {
      var data := RegionExist(region);
      result := data.Lowest(k);
    }

    /** GetGateway (Registry/pkg/memstore/gatewayops.go:59-66): a lookup by address. */
    method GetGateway(region: string, address: string) returns (gateway: Option<Gateway>)
      requires Valid()
      modifies this
      ensures Valid() && global == old(global)
      ensures View() == Touch(old(View()), region)
      ensures gateway.Some? <==> address in BucketOf(old(View()), region).gateways
      ensures gateway.Some? ==> gateway.value == BucketOf(old(View()), region).gateways[address]
    {
      var data := RegionExist(region);
      if address in data.gateways {
        gateway := Some(data.gateways[address]);
      } else {
        gateway := None;
      }
    }

    /**
     * AddAgent (Registry/pkg/memstore/agentsops.go:5-28). The source looks
     * the gateway up through GetGateway while holding the bucket's write
     * lock; here that lookup is a plain read of the bucket.
     */
    method AddAgent(region: string, a: Agent) returns (agent: Agent, gateway: Option<Gateway>, err: Option<Error>)
      requires Framed()
      modifies this, regions.Values
      ensures Framed() && global == old(global)
      ensures old(Valid()) ==> Valid()
      ensures var (s, o) := AddAgentTo(old(View()), region, a);
        View() == s && agent == o.agent && gateway == o.gateway && err == o.err
      ensures Extends(old(regions))
      ensures forall r :: r in regions && r !in old(regions) ==> fresh(regions[r])
    {
      ghost var before := View();
      var data := RegionExist(region);
      assert data.View() == BucketOf(before, region);
      ghost var touched := regions;
      agent, gateway, err := data.Bind(region, a);
      assert regions == touched;
      assert View() == AddAgentTo(before, region, a).0 by {
        OneBucketChanged(before, region, data.View());
      }
      if StoreValid(before) {
        AddAgentToValid(before, region, a);
      }
    }

    /** Only the bucket of `region` changed since the store's value was `touched`. */
    lemma OneBucketChanged(before: StoreView, region: string, b: BucketView)
      requires region in regions && regions[region].View() == b
      requires regions.Keys == before.Keys + {region}
      requires forall r :: r in regions && r != region ==> regions[r].View() == before[r]
      ensures View() == before[region := b]
    {
    }

    /**
     * GetAgent as ResolveGatewayForProxy calls it: the agent stored under the
     * domain in the region, if any. Its source is not part of this model; it
     * is modelled as a lookup that creates no region.
     */
    method GetAgent(region: string, domain: string) returns (agent: Option<Agent>)
      requires Valid()
      ensures agent.Some? <==> region in View() && domain in View()[region].agents
      ensures agent.Some? ==> agent.value == View()[region].agents[domain]
    {
      if region in regions && domain in regions[region].agents {
        agent := Some(regions[region].agents[domain]);
      } else {
        agent := None;
      }
    }
  }
}
