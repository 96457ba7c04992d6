/**
 * The request handlers of seeder/pkg/maps: validation, the "global" region
 * default and the identity are pure; each registration then changes the
 * store and appends to the write-ahead log, in that order. The handlers run
 * against the store of Registry/pkg/memstore and the log of Registry/wal;
 * the seeder's own copies of those packages are not part of this model.
 *
 * Each handler is a method of RpcMap proved to compute a function of the
 * store's value and the log's bytes; the lemmas relate those functions to
 * each other and to replay.
 */
module Handlers {
  import opened Wrappers
  import opened Ranking
  import opened Records
  import opened BucketSpec
  import opened MemStore
  import opened Codec
  import opened Wal
  import opened Replay

  /** mapper.Error. */
  datatype RpcError = RpcError(code: int, message: string)

  /** GatewayPutRequest: the fields RegisterGateway reads. */
  datatype GatewayRequest = GatewayRequest(
    gatewayIp: string,
    gatewayPort: int32,
    wssPort: int32,
    credHash: string,
    region: string,
    capacity: Capacity)

  /** GatewayResponse; a nil Capacity is None. */
  datatype GatewayReply = GatewayReply(
    gatewayId: string,
    gatewayIp: string,
    gatewayAddress: string,
    gatewayPort: int32,
    wssPort: int32,
    identity: string,
    capacity: Option<Capacity>,
    error: Option<RpcError>)

  /** AgentConnectionRequest: the fields RegisterAgent reads. */
  datatype AgentRequest = AgentRequest(credHash: string, agentDomain: string, gatewayId: string, region: string)

  /** AgentResponse; a nil Capacity is None. */
  datatype AgentReply = AgentReply(
    agentId: string,
    agentDomain: string,
    gatewayId: string,
    gatewayAddress: string,
    gatewayIp: string,
    gatewayPort: int32,
    wssPort: int32,
    identity: string,
    capacity: Option<Capacity>,
    error: Option<RpcError>)

  /** MultipleGateways. */
  datatype GatewayList = GatewayList(gateways: seq<GatewayReply>, error: Option<RpcError>)

  /** ProxyMapping. */
  datatype ProxyRequest = ProxyRequest(agentDomain: string, region: string)

  /** What a handler leaves behind: the store's value, the log's bytes and the reply. */
  datatype Effect<R> = Effect(store: StoreView, log: seq<byte>, reply: R)

  const Global := "global"
  const ResolveLimit := 10
  const InvalidGateway := "invalid gateway registration request"
  const InvalidAgent := "invalid agent registration request"
  const NoGateway := "no gateway found"
  const GatewayMissing := "gateway not found"

  // ------------------------------------------------------------ RegisterGateway

  /** The request check of seeder/pkg/maps/gateway.go:15. */
  predicate GatewayRequestValid(req: GatewayRequest)
  {
    req.gatewayIp != "" && req.gatewayPort != 0 && req.credHash != ""
  }

  /** The region a gateway registers in: the request's, or "global" when it names none. */
  function RegionOf(req: GatewayRequest): (region: string)
    ensures region != ""
    ensures req.region != "" ==> region == req.region
  {
    if req.region == "" then Global else req.region
  }

  /**
   * The record RegisterGateway hands to the store
   * (seeder/pkg/maps/gateway.go:24-41): the identity derived from the
   * credential hash and the IP, no address yet, and a capacity whose
   * bandwidth is never copied from the request.
   */
  function GatewayFromRequest(req: GatewayRequest): (g: Gateway)
    ensures g.id == Identity(req.credHash, req.gatewayIp)
    ensures g.ip == req.gatewayIp && g.port == req.gatewayPort && g.wssPort == req.wssPort && g.credHash == req.credHash
    ensures g.capacity == req.capacity.(bandwidth := 0)
  {
    Gateway(Identity(req.credHash, req.gatewayIp), req.gatewayIp, "", req.gatewayPort, req.wssPort,
      Capacity(req.capacity.cpu, req.capacity.memory, req.capacity.storage, 0), req.credHash)
  }

  /** The capacity as the handlers copy it into a log record or a reply: without the bandwidth. */
  function WithoutBandwidth(c: Capacity): Capacity
  {
    Capacity(c.cpu, c.memory, c.storage, 0)
  }

  /** The record RegisterGateway logs for the stored gateway (seeder/pkg/maps/gateway.go:62-79). */
  function GatewayLogEntry(region: string, data: Gateway): WalRecord
  {
    WalRecord(OpPutGateway, Some(GatewayPut(region, data.ip, data.id, data.port, data.address, data.wssPort,
      data.credHash, WithoutBandwidth(data.capacity))), None)
  }

  /** A reply that carries only an error. */
  function GatewayFailure(code: int, message: string): GatewayReply
  {
    GatewayReply("", "", "", 0, 0, "", None, Some(RpcError(code, message)))
  }

  /** The reply to a successful registration (seeder/pkg/maps/gateway.go:89-102). */
  function GatewayAnswer(data: Gateway): GatewayReply
  {
    GatewayReply(data.id, data.ip, data.address, data.port, data.wssPort, data.credHash, Some(WithoutBandwidth(data.capacity)), None)
  }

  /**
   * RegisterGateway (seeder/pkg/maps/gateway.go:13-103) on values: an
   * invalid request changes nothing; otherwise the store takes the record
   * first and the log second, and a failed append is reported while the
   * store change stands. The store's AddGateway never fails, so the
   * handler's store-error reply is never produced.
   */
  function RegisterGatewaySpec(s: StoreView, log: seq<byte>, open: bool, req: GatewayRequest, fault: Option<string>): (e: Effect<GatewayReply>)
    ensures !GatewayRequestValid(req) ==> e == Effect(s, log, GatewayFailure(1, InvalidGateway))
    ensures GatewayRequestValid(req) ==> e.store == AddGatewayTo(s, RegionOf(req), GatewayFromRequest(req)).0
    ensures e.reply.error.None? ==>
      && e.log != log
      && e.reply.gatewayAddress == Address(req.gatewayIp, req.gatewayPort)
      && e.reply.identity == req.credHash
  {
    if !GatewayRequestValid(req) then
      Effect(s, log, GatewayFailure(1, InvalidGateway))
    else
      var region := RegionOf(req);
      var (stored, data) := AddGatewayTo(s, region, GatewayFromRequest(req));
      var (after, err) := AppendTo(log, open, GatewayLogEntry(region, data), fault);
      if err.Some? then Effect(stored, after, GatewayFailure(1, Message(err.value)))
      else Effect(stored, after, GatewayAnswer(data))
  }

  /**
   * What a valid registration does (seeder/pkg/maps/gateway.go:24-102): the
   * store holds the gateway under ip:port in the request's region (or
   * "global"), with the identity it already had there or else the one
   * derived from the credential hash and the IP, and with no bandwidth;
   * other regions are untouched. The store changes whether or not the
   * append succeeds: a failed append leaves the log as it was and is
   * reported with code 1, a successful one extends the log and the reply
   * describes the stored record.
   */
  lemma RegisterGatewayOutcome(s: StoreView, log: seq<byte>, open: bool, req: GatewayRequest, fault: Option<string>)
    requires GatewayRequestValid(req)
    ensures var e := RegisterGatewaySpec(s, log, open, req, fault);
      var region, key := RegionOf(req), Address(req.gatewayIp, req.gatewayPort);
      && region in e.store && key in e.store[region].gateways
      && e.store[region].gateways[key].id == (if key in BucketOf(s, region).gateways then BucketOf(s, region).gateways[key].id else Identity(req.credHash, req.gatewayIp))
      && e.store[region].gateways[key].capacity == req.capacity.(bandwidth := 0)
      && (forall r :: r in s && r != region ==> r in e.store && e.store[r] == s[r])
    ensures var e := RegisterGatewaySpec(s, log, open, req, fault);
      var (after, err) := AppendTo(log, open, LoggedGateway(s, req), fault);
      && e.log == after
      && (e.reply.error.None? <==> err.None?)
      && (err.Some? ==> e.reply == GatewayFailure(1, Message(err.value)))
      && (err.None? ==> e.reply == GatewayAnswer(e.store[RegionOf(req)].gateways[Address(req.gatewayIp, req.gatewayPort)]))
  {
  }

  /** RegisterGatewaySpec told step by step: the store's outcome, then the append's. */
  lemma GatewaySteps(s: StoreView, log: seq<byte>, open: bool, req: GatewayRequest, fault: Option<string>,
                     stored: StoreView, data: Gateway, entry: WalRecord, after: seq<byte>, err: Option<Error>)
    requires GatewayRequestValid(req)
    requires stored == AddGatewayTo(s, RegionOf(req), GatewayFromRequest(req)).0
    requires data == AddGatewayTo(s, RegionOf(req), GatewayFromRequest(req)).1
    requires entry == GatewayLogEntry(RegionOf(req), data)
    requires (after, err) == AppendTo(log, open, entry, fault)
    ensures RegisterGatewaySpec(s, log, open, req, fault)
      == Effect(stored, after, if err.Some? then GatewayFailure(1, Message(err.value)) else GatewayAnswer(data))
  {
  }

  /** The record a valid registration logs, given the store it meets. */
  function LoggedGateway(s: StoreView, req: GatewayRequest): WalRecord
  {
    GatewayLogEntry(RegionOf(req), AddGatewayTo(s, RegionOf(req), GatewayFromRequest(req)).1)
  }

  /**
   * Live and replayed registrations agree: ApplyRecord of the record a
   * registration logs, applied to the store the registration met, builds
   * the same store the registration built. Both derive the identity from
   * the credential hash and the IP, and the address the log carries is
   * recomputed by AddGateway.
   */
  lemma LoggedGatewayReplays(s: StoreView, req: GatewayRequest)
    requires GatewayRequestValid(req)
    ensures Apply(s, LoggedGateway(s, req)) == (AddGatewayTo(s, RegionOf(req), GatewayFromRequest(req)).0, None)
  {
    var region := RegionOf(req);
    var g := GatewayFromRequest(req);
    var data := AddGatewayTo(s, region, g).1;
    var put := LoggedGateway(s, req).gateway.value;
    assert GatewayOf(put) == g.(address := data.address);
    assert PutGateway(BucketOf(s, region), g.(address := data.address)) == PutGateway(BucketOf(s, region), g);
  }

  /**
   * A successful registration keeps the log in step with the store: if
   * replaying the log from the store `start` rebuilds the current store,
   * then after the registration replaying the grown log rebuilds the new
   * store, and the log holds the registration's record last.
   */
  lemma RegistrationKeepsLogInStep(start: StoreView, recs: seq<WalRecord>, s: StoreView, req: GatewayRequest, fault: Option<string>)
    requires AllLoggable(recs) && ReplayFrom(start, Log(recs)) == (s, None)
    requires Loggable(LoggedGateway(s, req))
    ensures var e := RegisterGatewaySpec(s, Log(recs), true, req, fault);
      e.reply.error.None? ==>
        && AllLoggable(recs + [LoggedGateway(s, req)])
        && e.log == Log(recs + [LoggedGateway(s, req)])
        && ReplayFrom(start, e.log) == (e.store, None)
  {
    var e := RegisterGatewaySpec(s, Log(recs), true, req, fault);
    if e.reply.error.None? {
      var rec := LoggedGateway(s, req);
      LogSnoc(recs, rec);
      ReplayOfLog(start, recs);
      ReplayOfLog(start, recs + [rec]);
      ApplyAllSnoc(start, recs, rec);
      LoggedGatewayReplays(s, req);
    }
  }

  // ------------------------------------------------------------ RegisterAgent

  /** The request check of seeder/pkg/maps/agent.go:16: no region default here. */
  predicate AgentRequestValid(req: AgentRequest)
  {
    req.credHash != "" && req.agentDomain != "" && req.gatewayId != "" && req.region != ""
  }

  /**
   * The record RegisterAgent hands to the store
   * (seeder/pkg/maps/agent.go:25-40): the identity derived from the
   * credential hash and the domain, and no gateway address.
   */
  function AgentFromRequest(req: AgentRequest): (a: Agent)
    ensures a.id == Identity(req.credHash, req.agentDomain)
    ensures a.domain == req.agentDomain && a.gatewayId == req.gatewayId && a.credHash == req.credHash
    ensures a.gatewayIp == "" && a.gatewayAddress == ""
  {
    Agent(Identity(req.credHash, req.agentDomain), req.agentDomain, req.gatewayId, "", "", req.credHash)
  }

  /** The record RegisterAgent logs (seeder/pkg/maps/agent.go:51-61): the address of the bound gateway, the region of the request. */
  function AgentLogEntry(region: string, agent: Agent, gateway: Gateway): WalRecord
  {
    WalRecord(OpPutAgent, None, Some(AgentPut(agent.credHash, agent.domain, agent.gatewayId, region, gateway.address, agent.id)))
  }

  function AgentFailure(code: int, message: string): AgentReply
  {
    AgentReply("", "", "", "", "", 0, 0, "", None, Some(RpcError(code, message)))
  }

  /**
   * The reply to a stored agent (seeder/pkg/maps/agent.go:63-78): the
   * binding comes from the stored agent, the capacity from the bound
   * gateway. The Registry agent record has no gateway port or WSS port, so
   * those are zero.
   */
  function AgentAnswer(agent: Agent, gateway: Gateway): AgentReply
  {
    AgentReply(agent.id, agent.domain, agent.gatewayId, agent.gatewayAddress, agent.gatewayIp, 0, 0, agent.credHash,
      Some(WithoutBandwidth(gateway.capacity)), None)
  }

  /**
   * RegisterAgent (seeder/pkg/maps/agent.go:15-78) on values: an invalid
   * request changes nothing; a store error is reported and nothing is
   * logged; otherwise the record is appended and the reply is a success
   * whatever the append returned.
   */
  function RegisterAgentSpec(s: StoreView, log: seq<byte>, open: bool, req: AgentRequest, fault: Option<string>): (e: Effect<AgentReply>)
    ensures !AgentRequestValid(req) ==> e == Effect(s, log, AgentFailure(1, InvalidAgent))
    ensures AgentRequestValid(req) ==>
      var (stored, o) := AddAgentTo(s, req.region, AgentFromRequest(req));
      && e.store == stored
      && (e.reply.error.None? <==> o.err.None?)
      && (o.err.Some? ==> e.log == log && e.reply == AgentFailure(1, Message(o.err.value)))
      && (o.err.None? ==> e.log == AppendTo(log, open, AgentLogEntry(req.region, o.agent, o.gateway.value), fault).0)
    ensures e.reply.error.None? ==>
      && req.region in e.store && req.agentDomain in e.store[req.region].agents
      && e.reply.agentId == e.store[req.region].agents[req.agentDomain].id
      && e.reply.gatewayId == e.store[req.region].agents[req.agentDomain].gatewayId
      && e.reply.gatewayAddress == e.store[req.region].agents[req.agentDomain].gatewayAddress
  {
    if !AgentRequestValid(req) then
      Effect(s, log, AgentFailure(1, InvalidAgent))
    else
      var (stored, o) := AddAgentTo(s, req.region, AgentFromRequest(req));
      if o.err.Some? then Effect(stored, log, AgentFailure(1, Message(o.err.value)))
      else
        var entry := AgentLogEntry(req.region, o.agent, o.gateway.value);
        Effect(stored, AppendTo(log, open, entry, fault).0, AgentAnswer(o.agent, o.gateway.value))
  }

  /** RegisterAgentSpec told step by step: the store's outcome, then, on success, the append's. */
  lemma AgentSteps(s: StoreView, log: seq<byte>, open: bool, req: AgentRequest, fault: Option<string>,
                   stored: StoreView, o: AgentOutcome, after: seq<byte>)
    requires AgentRequestValid(req)
    requires (stored, o) == AddAgentTo(s, req.region, AgentFromRequest(req))
    requires o.err.Some? ==> after == log
    requires o.err.None? ==> o.gateway.Some? && after == AppendTo(log, open, AgentLogEntry(req.region, o.agent, o.gateway.value), fault).0
    ensures RegisterAgentSpec(s, log, open, req, fault)
      == Effect(stored, after, if o.err.Some? then AgentFailure(1, Message(o.err.value)) else AgentAnswer(o.agent, o.gateway.value))
  {
  }

  /**
   * The append's error is never looked at: the reply of RegisterAgent is
   * the same whether the log is open or closed and whatever the file system
   * reports.
   */
  lemma AgentReplyIgnoresLog(s: StoreView, log1: seq<byte>, open1: bool, fault1: Option<string>,
                             log2: seq<byte>, open2: bool, fault2: Option<string>, req: AgentRequest)
    ensures RegisterAgentSpec(s, log1, open1, req, fault1).reply == RegisterAgentSpec(s, log2, open2, req, fault2).reply
    ensures RegisterAgentSpec(s, log1, open1, req, fault1).store == RegisterAgentSpec(s, log2, open2, req, fault2).store
  {
  }

  /**
   * Against the Registry store RegisterAgent is always refused: the record
   * it stores carries no gateway address, and no gateway is ever stored
   * under the empty address. The region is still created, and nothing is
   * logged.
   */
  lemma RegisterAgentRefused(s: StoreView, log: seq<byte>, open: bool, req: AgentRequest, fault: Option<string>)
    requires StoreValid(s) && AgentRequestValid(req)
    ensures RegisterAgentSpec(s, log, open, req, fault)
      == Effect(Touch(s, req.region), log, AgentFailure(1, Message(GatewayNotFound("", req.region))))
  {
    var b := BucketOf(s, req.region);
    assert Consistent(b) by {
      EmptyBucketConsistent();
    }
    EmptyAddressNeverBound(b, req.region, AgentFromRequest(req));
  }

  // ------------------------------------------------------------ poll.go

  /** A gateway as ResolveGatewayForAgent lists it (seeder/pkg/maps/poll.go:17-30): the full capacity, bandwidth included. */
  function Listed(g: Gateway): (r: GatewayReply)
    ensures r.error.None? && r.capacity == Some(g.capacity)
    ensures r.gatewayId == g.id && r.gatewayAddress == g.address && r.identity == g.credHash
  {
    GatewayReply(g.id, g.ip, g.address, g.port, g.wssPort, g.credHash, Some(g.capacity), None)
  }

  /**
   * The reply of ResolveGatewayForAgent for the gateways GetTopKGateways
   * returned (seeder/pkg/maps/poll.go:14-45): one entry each, in their
   * order, or the error "no gateway found" with an empty list.
   */
  function Listing(top: seq<Gateway>): (l: GatewayList)
    ensures |l.gateways| == |top|
    ensures forall i :: 0 <= i < |top| ==> l.gateways[i] == Listed(top[i])
    ensures l.error.Some? <==> |top| == 0
    ensures l.error.Some? ==> l.error.value == RpcError(2, NoGateway)
  {
    GatewayList(seq(|top|, i requires 0 <= i < |top| => Listed(top[i])), if |top| == 0 then Some(RpcError(2, NoGateway)) else None)
  }

  /** The loop of ResolveGatewayForAgent (seeder/pkg/maps/poll.go:14-45): one reply per gateway, then the empty-list check. */
  method ListGateways(gateways: seq<Gateway>) returns (list: GatewayList)
    ensures list == Listing(gateways)
  {
    var responses: seq<GatewayReply> := [];
    var i := 0;
    while i < |gateways|
      invariant 0 <= i <= |gateways|
      invariant |responses| == i
      invariant forall j :: 0 <= j < i ==> responses[j] == Listed(gateways[j])
    {
      responses := responses + [Listed(gateways[i])];
      i := i + 1;
    }
    if |responses| == 0 {
      list := GatewayList([], Some(RpcError(2, NoGateway)));
    } else {
      list := GatewayList(responses, None);
    }
  }

  /**
   * What ResolveGatewayForAgent answers for a store: at most ten gateways
   * of "global", the lowest-ranked ones in ascending order, and the error
   * "no gateway found" exactly when "global" holds none.
   */
  lemma ResolveListsLowest(s: StoreView)
    requires StoreValid(s)
    ensures IdsPresent(BucketOf(s, Global))
    ensures var b := BucketOf(s, Global);
      var l := Listing(TopK(b, ResolveLimit));
      && |l.gateways| == Min(ResolveLimit, |b.gateways|)
      && (l.error.Some? <==> |b.gateways| == 0)
      && (forall i, j :: 0 <= i < j < |l.gateways| ==>
            Less(EntryOf(TopK(b, ResolveLimit)[i]), EntryOf(TopK(b, ResolveLimit)[j])))
  {
    var b := BucketOf(s, Global);
    assert Consistent(b) by {
      EmptyBucketConsistent();
    }
    TopKLowest(b, ResolveLimit);
  }

  /** The reply of ResolveGatewayForProxy for the lookup's outcome (seeder/pkg/maps/poll.go:50-74). */
  function ProxyAnswer(agent: Option<Agent>): (r: AgentReply)
    ensures r.error.None? <==> agent.Some?
    ensures agent.None? ==> r == AgentFailure(2, GatewayMissing)
    ensures agent.Some? ==>
      && r.agentId == agent.value.id && r.gatewayId == agent.value.gatewayId
      && r.gatewayAddress == agent.value.gatewayAddress && r.gatewayIp == agent.value.gatewayIp
      && r.capacity.None?
  {
    match agent
    case None => AgentFailure(2, GatewayMissing)
    case Some(a) => AgentReply(a.id, a.domain, a.gatewayId, a.gatewayAddress, a.gatewayIp, 0, 0, a.credHash, None, None)
  }

  // ------------------------------------------------------------ the server

  /** RPCMap: the store and the write-ahead log the handlers share. */
  class RpcMap {
    const store: Store
    const wal: WriteAheadLog

    constructor (store: Store, wal: WriteAheadLog)
      ensures this.store == store && this.wal == wal
    {
      this.store := store;
      this.wal := wal;
    }

    /** rpc.WALer.Append as the handlers call it: only the log changes. */
    method Log(rec: WalRecord, fault: Option<string>) returns (err: Option<Error>)
      requires store.Framed()
      modifies wal
      ensures store.Framed() && store.View() == old(store.View())
      ensures old(store.Valid()) ==> store.Valid()
      ensures wal.open == old(wal.open) && (wal.bytes, err) == AppendTo(old(wal.bytes), wal.open, rec, fault)
    {
      err := wal.Append(rec, fault);
    }

    /** RegisterGateway (seeder/pkg/maps/gateway.go:13-103). `fault` is what the log's file system reports. */
    method RegisterGateway(req: GatewayRequest, fault: Option<string>) returns (reply: GatewayReply)
      requires store.Valid()
      modifies store, store.regions.Values, wal
      ensures store.Valid() && wal.open == old(wal.open)
      ensures Effect(store.View(), wal.bytes, reply) == RegisterGatewaySpec(old(store.View()), old(wal.bytes), old(wal.open), req, fault)
    {
      if !GatewayRequestValid(req) {
        reply := GatewayFailure(1, InvalidGateway);
      } else {
        ghost var before, log := store.View(), wal.bytes;
        var region := RegionOf(req);
        var data := store.AddGateway(region, GatewayFromRequest(req));
        ghost var stored := store.View();
        var entry := GatewayLogEntry(region, data);
        var err := Log(entry, fault);
        ghost var after := wal.bytes;
        if err.Some? {
          reply := GatewayFailure(1, Message(err.value));
        } else {
          reply := GatewayAnswer(data);
        }
        GatewaySteps(before, log, wal.open, req, fault, stored, data, entry, after, err);
      }
    }

    /** RegisterAgent (seeder/pkg/maps/agent.go:15-78). The append's error is dropped, as in the source. */
    method RegisterAgent(req: AgentRequest, fault: Option<string>) returns (reply: AgentReply)
      requires store.Framed()
      modifies store, store.regions.Values, wal
      ensures store.Framed() && wal.open == old(wal.open)
      ensures old(store.Valid()) ==> store.Valid()
      ensures Effect(store.View(), wal.bytes, reply) == RegisterAgentSpec(old(store.View()), old(wal.bytes), old(wal.open), req, fault)
    {
      if !AgentRequestValid(req) {
        reply := AgentFailure(1, InvalidAgent);
      } else {
        ghost var before, log := store.View(), wal.bytes;
        var agent, gateway, err := store.AddAgent(req.region, AgentFromRequest(req));
        ghost var outcome := AddAgentTo(before, req.region, AgentFromRequest(req));
        assert store.View() == outcome.0 && agent == outcome.1.agent && gateway == outcome.1.gateway && err == outcome.1.err;
        if err.Some? {
          reply := AgentFailure(1, Message(err.value));
        } else {
          var _ := Log(AgentLogEntry(req.region, agent, gateway.value), fault);
          reply := AgentAnswer(agent, gateway.value);
        }
        AgentSteps(before, log, wal.open, req, fault, store.View(), outcome.1, wal.bytes);
      }
    }

    /**
     * ResolveGatewayForAgent (seeder/pkg/maps/poll.go:10-46): the request
     * is not read; the ten lowest-ranked gateways of "global" are listed.
     */
    method ResolveGatewayForAgent() returns (list: GatewayList)
      requires store.Valid()
      modifies store
      ensures store.Valid()
      ensures store.View() == Touch(old(store.View()), Global)
      ensures IdsPresent(store.View()[Global])
      ensures list == Listing(TopK(store.View()[Global], ResolveLimit))
    {
      var gateways := store.GetTopKGateways(Global, ResolveLimit);
      list := ListGateways(gateways);
    }

    /**
     * ResolveGatewayForProxy (seeder/pkg/maps/poll.go:48-75): the binding of
     * the agent stored under the domain in the region, or "gateway not
     * found".
     */
    method ResolveGatewayForProxy(req: ProxyRequest) returns (reply: AgentReply)
      requires store.Valid()
      ensures var view := store.View();
        reply == ProxyAnswer(if req.region in view && req.agentDomain in view[req.region].agents
                             then Some(view[req.region].agents[req.agentDomain]) else None)
    {
      var agent := store.GetAgent(req.region, req.agentDomain);
      reply := ProxyAnswer(agent);
    }
  }
}
