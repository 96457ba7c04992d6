# Gateway registry storage engine, modelled in Dafny

This project models the storage core of the registry that maps agents to
gateways (odio4u/memstore). The registry holds, per region, the gateways that
registered there and the agents bound to them. Gateways are kept in a
capacity-ranked index so that the least loaded ones can be handed out first.
Every accepted registration is appended to a write-ahead log. Replaying that
log at start-up rebuilds the in-memory store.

The model covers:

- **`Ranking`** (`ranking.dfy`): the capacity rank and the `(rank, id)`
  ordering of rank items. It proves that the order is a strict total order and
  that two items are equivalent exactly when they are equal. The float rank
  `cpu + mem/1024 + storage/10240 + bw/1024` is scaled by 10240 to an exact
  integer, and a lemma shows that the scaling keeps the order.
- **`RankIndex`** (`rank_index.dfy`): the B-tree of rank items as a strictly
  sorted sequence, with `Insert` and `Delete` (`ReplaceOrInsert` and `Delete`).
- **`Records`** (`records.dfy`): gateway and agent records, the
  `"ip:port"` address, and the identity that the handlers derive from the
  credential hash. The address is proved to identify the endpoint.
- **`BucketSpec`** (`bucket_spec.dfy`): one region of the Registry store as a
  value. It holds the gateway map keyed by address, the agent map and the
  ranked index. The spec functions say what `AddGateway`, `GetTopKGateways`
  and `AddAgent` do to a region, and lemmas prove that each keeps the index
  consistent with the map.
- **`MemStore`** (`memstore.dfy`): the Registry store as objects.
  - `Bucket` is one `MemData` region.
  - `Store` is the `MemStore`: a map from region name to `Bucket`, plus the
    `global` bucket.
  - Each method is proved against the spec functions of `BucketSpec`.
- **`Codec`** (`codec.dfy`): a self-delimiting byte encoding of `WalRecord`,
  with round-trip lemmas for every field and for whole records.
- **`Crc32`** (`crc32.dfy`): CRC-32 (IEEE 802.3, reflected polynomial
  0xEDB88320).
- **`Wal`** (`wal.dfy`): the frame layout, `Append` and `Close` of the
  write-ahead log. The log file is the byte sequence of a `WriteAheadLog`
  object.
- **`Replay`** (`replay.dfy`): frame parsing, `ApplyRecord` and `Replay`.
  - The main lemma is `LogRoundTrip`: a log written by successful appends
    parses back to exactly the records that were appended.
  - `ReplayOfLog` carries this to the store: replay reapplies those records
    in order.
  - A damaged frame stops replay with an error. This covers bad magic, a CRC
    mismatch and truncation.
- **`Handlers`** (`handlers.dfy`): the seeder's RPC handlers
  `RegisterGateway`, `RegisterAgent`, `ResolveGatewayForAgent` and
  `ResolveGatewayForProxy`. Each is a spec function over the store value, the
  log bytes and the file system's fault, plus an `RpcMap` method proved
  against it. `RegistrationKeepsLogInStep` proves that a successful gateway
  registration keeps the invariant "replaying the log rebuilds the store".
- **`LegacyStore`** (`legacy_store.dfy`): the older `pkg/memstore` store.
  Its gateways are keyed by domain. Re-registering a domain removes its rank
  entry and stores nothing new (`ReRegistrationHides`). Its records are keyed
  by domain and have no address, so its region, index and store-level
  definitions (`IndexOf`, `Touch`, `AddGatewayTo`, `AddAgentTo`, ...) are
  written again over its own record types rather than shared with
  `BucketSpec`.
- **`Locking`** (`locking.dfy`): the per-region read/write mutexes and the
  order in which the store operations take them. Everywhere else, each store
  operation runs as if it took and released its lock around its body. This
  module shows that `AddAgent` as written waits for itself (see Findings).

The seeder handlers run against the Registry store and write-ahead log
(`Registry/pkg/memstore`, `Registry/wal`). The seeder's own `memstore` and
`wal` packages are not part of this model.

## Model

| member | source | states |
|---|---|---|
| Ranking.Rank | pkg/memstore/index.go:20-22 | the integer rank is exactly 10240 times the float rank cpu + mem/1024 + storage/10240 + bw/1024 |
| Ranking.RankOrderEquivalent | pkg/memstore/index.go:20-22 | comparing scaled ranks orders (and equates) capacities exactly as comparing the float ranks does |
| Ranking.RankMonotone | pkg/memstore/index.go:20-22 | more of every resource never lowers the rank; equal ranks under componentwise order means equal capacities |
| Ranking.LessIrreflexive | pkg/memstore/index.go:29-34 | no rank item is Less than itself |
| Ranking.LessTransitive | pkg/memstore/index.go:29-34 | Less (rank first, then id) is transitive |
| Ranking.LessTrichotomous | pkg/memstore/index.go:29-34 | any two items are equal or strictly ordered one way, never both ways |
| Ranking.EquivalentIffEqual | pkg/memstore/index.go:29-34 | the B-tree's equivalence (neither Less) is equality, so Delete finds exactly the item with that rank and id |
| RankIndex.Insert | Registry/pkg/memstore/gatewayops.go:30-33 | ReplaceOrInsert adds the item to the element set and keeps the index strictly sorted |
| RankIndex.Delete | Registry/pkg/memstore/gatewayops.go:22-25 | Delete removes exactly that item, keeps the index sorted and never grows it |
| RankIndex.SortedCard | Registry/pkg/memstore/gatewayops.go:47-55 | a strictly sorted index holds no duplicates: its length is its number of distinct items |
| RankIndex.SortedUnique | Registry/pkg/memstore/gatewayops.go:47-55 | two strictly sorted indexes with the same items are the same sequence, so Ascend's order is determined by the item set |
| Records.Digits | Registry/pkg/memstore/gatewayops.go:15 | the decimal rendering of a port is a non-empty string of digits |
| Records.DigitsRoundTrip | Registry/pkg/memstore/gatewayops.go:15 | reading the digits of a natural number back gives the number |
| Records.DecimalRoundTrip | Registry/pkg/memstore/gatewayops.go:15 | %d of any port, sign included, reads back as the same number |
| Records.DecimalHasNoColon | Registry/pkg/memstore/gatewayops.go:15 | the rendered port contains no ':' |
| Records.Address | Registry/pkg/memstore/gatewayops.go:15-16 | the address is the ip, a ':' right after it, then the port |
| Records.AddressIdentifiesEndpoint | Registry/pkg/memstore/gatewayops.go:15-18 | equal addresses mean the same ip and the same port, so the address key identifies one endpoint |
| BucketSpec.ConsistentIdsPresent | Registry/pkg/memstore/gatewayops.go:47-55 | in a consistent region every ranked id names a stored gateway, so the lookup at line 52 never misses |
| BucketSpec.EmptyBucketConsistent | Registry/pkg/memstore/mem.go:63-67 | a fresh region is empty and consistent |
| BucketSpec.PutGateway | Registry/pkg/memstore/gatewayops.go:15-36 | the gateway is stored under ip:port with that address; a known address keeps the old id and swaps the old rank entry for the new; a new address adds one entry; agents are untouched; the stored record is returned |
| BucketSpec.IndexOfUpdate | Registry/pkg/memstore/gatewayops.go:18-33 | overwriting a key swaps its old rank item for the new one, and adding a key adds one item |
| BucketSpec.PutGatewayConsistent | Registry/pkg/memstore/gatewayops.go:9-37 | AddGateway keeps the ranked index equal to the set of (rank, address) pairs of the stored gateways |
| BucketSpec.IndexOfCard | Registry/pkg/memstore/gatewayops.go:29-33 | the gateway map has as many rank items as gateways |
| BucketSpec.RankedSize | Registry/pkg/memstore/gatewayops.go:29-33 | in a consistent region the index has exactly one entry per stored gateway |
| BucketSpec.OneEntryPerGateway | Registry/pkg/memstore/gatewayops.go:18-33 | every stored gateway has exactly one rank entry, the one with its current capacity |
| BucketSpec.PutGatewayIdempotent | Registry/pkg/memstore/gatewayops.go:9-37 | registering the same gateway twice leaves the region as registering it once does and returns the same record |
| BucketSpec.PutGatewayFixpoint | Registry/pkg/memstore/gatewayops.go:18-33 | re-registering the stored record unchanged leaves the region unchanged |
| BucketSpec.TopK | Registry/pkg/memstore/gatewayops.go:39-57 | the result has min(k, size) gateways, those of the first ranked entries in order, and is empty for k <= 0 |
| BucketSpec.TopKStep | Registry/pkg/memstore/gatewayops.go:47-55 | one more step of Ascend appends the next ranked gateway |
| BucketSpec.TopKLowest | Registry/pkg/memstore/gatewayops.go:39-57 | GetTopKGateways returns min(k, number of gateways) gateways in strictly ascending (rank, address) order, each ranking before every gateway it leaves out |
| BucketSpec.LeftOutRanksLater | Registry/pkg/memstore/gatewayops.go:39-57 | any stored gateway missing from the answer ranks after every returned gateway |
| BucketSpec.TopKEntries | Registry/pkg/memstore/gatewayops.go:47-55 | the i-th returned gateway's current (rank, address) is the i-th index entry |
| BucketSpec.PutAgent | Registry/pkg/memstore/agentsops.go:5-28 | without a gateway at the agent's address: the error, an empty agent, nothing changed; a known agent gets that gateway's id, ip and address and is returned; a new agent is stored as given; gateways and index untouched |
| BucketSpec.PutAgentConsistent | Registry/pkg/memstore/agentsops.go:5-28 | AddAgent keeps the region consistent |
| BucketSpec.PutAgentRepeatKeepsDomains | Registry/pkg/memstore/agentsops.go:16-27 | an agent domain is stored at most once: a repeat registration keeps the set of agent domains |
| BucketSpec.EmptyAddressNeverBound | Registry/pkg/memstore/agentsops.go:11-14 | an agent with an empty gateway address is always refused in a consistent region, since no address is empty |
| BucketSpec.Touch | Registry/pkg/memstore/mem.go:54-73 | RegionExist adds an empty region when the name is new and changes nothing else |
| BucketSpec.TouchIdempotent | Registry/pkg/memstore/mem.go:54-73 | a second RegionExist for the same region changes nothing |
| BucketSpec.AddGatewayTo | Registry/pkg/memstore/gatewayops.go:9-37 | the store gains at most the named region and every other region is unchanged |
| BucketSpec.AddAgentTo | Registry/pkg/memstore/agentsops.go:5-28 | the store gains at most the named region, others are unchanged, and a refused agent only creates the region |
| BucketSpec.AddGatewayToValid | Registry/pkg/memstore/gatewayops.go:9-37 | AddGateway keeps every region of the store consistent |
| BucketSpec.AddAgentToValid | Registry/pkg/memstore/agentsops.go:5-28 | AddAgent keeps every region of the store consistent |
| BucketSpec.TouchValid | Registry/pkg/memstore/mem.go:54-73 | RegionExist keeps every region consistent |
| MemStore.Bucket.constructor | Registry/pkg/memstore/mem.go:63-67 | a new MemData is the empty region |
| MemStore.Bucket.Upsert | Registry/pkg/memstore/gatewayops.go:15-36 | the region's new state and the returned record are those of PutGateway |
| MemStore.Bucket.Lowest | Registry/pkg/memstore/gatewayops.go:45-56 | the Ascend loop returns exactly TopK of the region |
| MemStore.Bucket.Bind | Registry/pkg/memstore/agentsops.go:11-27 | the region's new state and the returned agent, gateway and error are those of PutAgent |
| MemStore.Store.constructor | pkg/memstore/index.go:5-10 | a new store has no regions and an empty, separate global bucket |
| MemStore.Store.RegionExist | Registry/pkg/memstore/mem.go:54-73 | returns the region's bucket; a new name gets a fresh empty bucket and no other region changes; the store's view becomes Touch of the old one |
| MemStore.Store.AddGateway | Registry/pkg/memstore/gatewayops.go:9-37 | the store's view becomes AddGatewayTo of the old one, the stored record is returned, and consistency is kept |
| MemStore.Store.GetTopKGateways | Registry/pkg/memstore/gatewayops.go:39-57 | only the region is created if missing, and the result is TopK of that region |
| MemStore.Store.GetGateway | Registry/pkg/memstore/gatewayops.go:59-66 | found exactly when the address is stored in the region, and then it is that record; only the region is created if missing |
| MemStore.Store.AddAgent | Registry/pkg/memstore/agentsops.go:5-28 | the store's view and the three results are those of AddAgentTo, the function's evident intent without the nested lock; consistency is kept when it held |
| MemStore.Store.OneBucketChanged | Registry/pkg/memstore/mem.go:16-52 | changing one region's bucket changes the store's view at that region only |
| MemStore.Store.GetAgent | seeder/pkg/maps/poll.go:50-53 | found exactly when the region holds an agent with that domain, and then it is that agent; nothing changes |
| Codec.EncU32 | Registry/wal/wal.go:67-69 | a u32 encodes to 4 bytes |
| Codec.DecU32 | Registry/wal/replay.go:44 | a decoded u32 lies in 0 .. 2^32-1 |
| Codec.U32RoundTrip | Registry/wal/wal.go:67-69 | binary.BigEndian.Uint32 inverts PutUint32 on every u32 |
| Codec.EncI32 | Registry/wal/wal.go:58 | an int32 field encodes to 4 bytes ahead of what follows |
| Codec.I32RoundTrip | Registry/wal/replay.go:62-67 | an int32 field decodes back with the rest of the input untouched |
| Codec.EncChar | Registry/wal/wal.go:58 | a character encodes to 3 bytes |
| Codec.CharRoundTrip | Registry/wal/replay.go:62-67 | every character decodes back to itself |
| Codec.EncChars | Registry/wal/wal.go:58 | a string's characters take 3 bytes each |
| Codec.CharsRoundTrip | Registry/wal/replay.go:62-67 | a run of characters decodes back with the rest untouched |
| Codec.StrRoundTrip | Registry/wal/replay.go:62-67 | a length-prefixed string decodes back with the rest untouched |
| Codec.CapacityRoundTrip | Registry/wal/replay.go:62-67 | a capacity decodes back to itself |
| Codec.GatewayRoundTrip | Registry/wal/replay.go:62-67 | a gateway put request decodes back to itself |
| Codec.AgentRoundTrip | Registry/wal/replay.go:62-67 | an agent connection request decodes back to itself |
| Codec.OptGatewayRoundTrip | Registry/wal/replay.go:62-67 | an optional gateway message decodes back to itself |
| Codec.OptAgentRoundTrip | Registry/wal/replay.go:62-67 | an optional agent message decodes back to itself |
| Codec.Marshal | Registry/wal/wal.go:58-61 | marshalling succeeds exactly for records whose strings fit the length prefix; otherwise the marshal error |
| Codec.Unmarshal | Registry/wal/replay.go:62-67 | a failed decode is reported as the unmarshal error |
| Codec.MarshalRoundTrip | Registry/wal/replay.go:62-67 | unmarshalling a marshalled record gives back that record |
| Wal.Header | Registry/wal/wal.go:65-69 | a frame header is 8 bytes |
| Wal.Frame | Registry/wal/wal.go:54-86 | a frame is 12 bytes longer than its payload |
| Wal.FrameLayout | Registry/wal/wal.go:15-22 | magic 0xCAFE big-endian, version 1, the op's low byte, the payload length, the payload, then the payload's CRC-32 big-endian |
| Wal.AppendTo | Registry/wal/wal.go:54-86 | success exactly when the record marshals and the file accepts the write; then the file grows by the record's frame; otherwise the marshal or write error and no change |
| Wal.CloseOutcome | Registry/wal/wal.go:45-52 | Close always leaves the file closed; a second Close or a failing close reports an error |
| Wal.AppendAfterClose | Registry/wal/wal.go:45-86 | after Close every Append fails and leaves the file unchanged |
| Wal.PutUint16 | Registry/wal/wal.go:66 | writes the value big-endian into two bytes and nothing else |
| Wal.PutUint32 | Registry/wal/wal.go:68-69 | writes the value big-endian into four bytes and nothing else |
| Wal.FillHeader | Registry/wal/wal.go:65-69 | the header buffer holds Header(op, size) |
| Wal.FillTrailer | Registry/wal/wal.go:63 | the trailer buffer holds the big-endian checksum |
| Wal.WriteFrame | Registry/wal/wal.go:63-83 | header, payload and trailer together are the frame |
| Wal.WriteAheadLog.Open | Registry/wal/wal.go:33-43 | an opened log is open and holds what the file held |
| Wal.WriteAheadLog.Append | Registry/wal/wal.go:54-86 | the file and the error are those of AppendTo; the open flag is kept |
| Wal.WriteAheadLog.Close | Registry/wal/wal.go:45-52 | the bytes are kept; the open flag and error are those of CloseOutcome |
| Replay.ReadFull | Registry/wal/replay.go:29-36 | io.ReadFull succeeds exactly when enough bytes remain; otherwise EOF at a clean end and unexpected EOF inside a frame |
| Replay.ParseFrame | Registry/wal/replay.go:29-67 | a frame that parses lies within the remaining input and is at least 12 bytes |
| Replay.ParseBody | Registry/wal/replay.go:46-67 | a body that parses spans payload and trailer |
| Replay.CheckPayload | Registry/wal/replay.go:51-67 | a CRC mismatch is corruption; with a matching CRC the frame is accepted exactly when the payload unmarshals |
| Replay.HeaderRead | Registry/wal/replay.go:29-44 | reading a header this log wrote hands the body to the payload check with the written size |
| Replay.BodyRead | Registry/wal/replay.go:46-60 | the payload and stored CRC are read from the frame's body |
| Replay.GatewayOf | Registry/wal/replay.go:78-104 | the replayed gateway takes the logged fields and an id derived from the credential hash and ip |
| Replay.AgentOf | Registry/wal/replay.go:106-124 | the replayed agent takes the logged fields, an id derived from credential hash and domain, and an empty ip and hash |
| Replay.Apply | Registry/wal/replay.go:75-128 | an unknown op is an error that changes nothing; a gateway record is AddGateway of its gateway into its region; an agent record is AddAgent of its agent |
| Replay.ApplyValid | Registry/wal/replay.go:75-128 | applying any record keeps every region consistent |
| Replay.ReplayTurn | Registry/wal/replay.go:27-72 | one turn of the loop: clean EOF ends replay, a bad frame stops it with that error, a good frame is applied and replay goes on |
| Replay.ReplayAppliesFrames | Registry/wal/replay.go:18-73 | replay applies the frames the file parses into, in order, then reports the first parse error |
| Replay.AppendsBuildLog | Registry/wal/wal.go:54-86 | appending loggable records one by one to an open, healthy file builds exactly their log |
| Replay.FrameRoundTrip | Registry/wal/replay.go:29-67 | a frame written by Append parses back to its record, consuming exactly the frame |
| Replay.FramesCons | Registry/wal/replay.go:27-72 | a written frame in front of more bytes contributes its record first |
| Replay.LogThen | Registry/wal/replay.go:27-72 | a written log in front of more bytes parses to its records followed by whatever the rest parses to |
| Replay.LogRoundTrip | Registry/wal/replay.go:18-73 | a log written by successful appends parses back to exactly the appended records, with no error |
| Replay.ReplayOfLog | Registry/wal/replay.go:18-73 | replaying such a log applies the appended records in order and ends cleanly |
| Replay.LogSnoc | Registry/wal/wal.go:54-86 | one more append adds that record's frame at the end of the log |
| Replay.ApplyAllSnoc | Registry/wal/replay.go:69-71 | applying one more record after a clean run applies it to the result |
| Replay.BadMagicStops | Registry/wal/replay.go:38-41 | a header without the magic stops replay with "invalid magic" and nothing applied |
| Replay.CrcMismatchStops | Registry/wal/replay.go:51-60 | a stored CRC that differs from the payload's stops replay with "crc mismatch" |
| Replay.TruncatedFrameFails | Registry/wal/replay.go:29-49 | a frame cut short parses to EOF or unexpected EOF, never to a record |
| Replay.TruncatedLogFails | Registry/wal/replay.go:18-73 | a log whose last frame is cut short parses to exactly its complete records, then EOF or unexpected EOF |
| Replay.VersionAndOpIgnored | Registry/wal/replay.go:43-44 | the header's version and op bytes do not change what is parsed or applied |
| Replay.ApplyRecord | Registry/wal/replay.go:75-128 | the store's new view and the error are those of Apply; consistency is kept |
| Replay.Replay | Registry/wal/replay.go:18-73 | the store's new view and the error are those of ReplayLog on the file's bytes, with os.Open's failure as a parameter |
| Handlers.RegionOf | seeder/pkg/maps/gateway.go:43-46 | an empty region means "global"; any other region is kept |
| Handlers.GatewayFromRequest | seeder/pkg/maps/gateway.go:24-41 | the record takes the request's ip, port, wss port and hash, an identity derived from the hash and ip, and the capacity without bandwidth |
| Handlers.RegisterGatewaySpec | seeder/pkg/maps/gateway.go:13-103 | an invalid request changes nothing and answers code 1; a valid one adds the gateway; on success the log changed and the reply carries the ip:port address and the credential hash as identity |
| Handlers.RegisterGatewayOutcome | seeder/pkg/maps/gateway.go:30-102 | a valid registration stores the gateway at ip:port in its region with the old or derived id and the capacity without bandwidth; other regions are unchanged; the log is Append's; the reply fails exactly when the append fails |
| Handlers.GatewaySteps | seeder/pkg/maps/gateway.go:48-102 | the store step followed by the log step of the handler is the handler's effect |
| Handlers.LoggedGatewayReplays | Registry/wal/replay.go:78-104 | replaying the record the handler logs re-adds the same gateway to the same region |
| Handlers.RegistrationKeepsLogInStep | seeder/pkg/maps/gateway.go:48-88 | if replaying the log rebuilt the store before a gateway registration, it does after a successful one, and the log is one record longer |
| Handlers.AgentFromRequest | seeder/pkg/maps/agent.go:25-37 | the agent takes the request's domain, gateway id and hash, an identity derived from hash and domain, and no gateway address |
| Handlers.RegisterAgentSpec | seeder/pkg/maps/agent.go:14-77 | an invalid request changes nothing; a store refusal answers code 1 with its message and leaves the log; success appends to the log and replies with the stored agent's ids and address |
| Handlers.AgentSteps | seeder/pkg/maps/agent.go:39-76 | the store step followed by the log step of the handler is the handler's effect |
| Handlers.AgentReplyIgnoresLog | seeder/pkg/maps/agent.go:49-76 | the reply and the store do not depend on whether the append succeeds |
| Handlers.RegisterAgentRefused | seeder/pkg/maps/agent.go:32-47 | against a consistent store every valid agent registration is refused with "gateway  not found", because the request never sets a gateway address; only the region is created |
| Handlers.Listed | seeder/pkg/maps/poll.go:17-30 | a listed gateway carries the stored record's fields, bandwidth included |
| Handlers.Listing | seeder/pkg/maps/poll.go:33-45 | an empty list answers code 2, "no gateway found"; otherwise all gateways in order with no error |
| Handlers.ListGateways | seeder/pkg/maps/poll.go:14-45 | the loop builds exactly the Listing of the gateways |
| Handlers.ResolveListsLowest | seeder/pkg/maps/poll.go:10-46 | the answer lists min(10, number of global gateways) gateways in ascending rank order and is an error exactly when there are none |
| Handlers.ProxyAnswer | seeder/pkg/maps/poll.go:57-74 | a found agent is answered with its fields and no error; a missing one with code 2, "gateway not found" |
| Handlers.RpcMap.constructor | seeder/pkg/maps/rpc.go:9-13 | the handler set holds the given store and log |
| Handlers.RpcMap.Log | seeder/pkg/maps/gateway.go:62-79 | appending changes only the log, as AppendTo says, and leaves the store as it was |
| Handlers.RpcMap.RegisterGateway | seeder/pkg/maps/gateway.go:13-103 | the new store, the new log and the reply are those of RegisterGatewaySpec |
| Handlers.RpcMap.RegisterAgent | seeder/pkg/maps/agent.go:14-77 | the new store, the new log and the reply are those of RegisterAgentSpec |
| Handlers.RpcMap.ResolveGatewayForAgent | seeder/pkg/maps/poll.go:10-46 | the answer is the Listing of the ten lowest-ranked global gateways; only the global region is touched |
| Handlers.RpcMap.ResolveGatewayForProxy | seeder/pkg/maps/poll.go:48-75 | the answer is ProxyAnswer of the agent found in the region for the domain; nothing changes |
| LegacyStore.IndexedIdsPresent | pkg/memstore/gatewayops.go:39-47 | in an indexed region every ranked id names a stored gateway |
| LegacyStore.PutGateway | pkg/memstore/gatewayops.go:5-29 | a known domain keeps its old record, loses its rank entry and the old record is returned; a new domain is stored, indexed and returned; agents untouched |
| LegacyStore.IndexOfAdd | pkg/memstore/gatewayops.go:22-26 | storing a new domain adds exactly its rank entry |
| LegacyStore.PutGatewayIndexed | pkg/memstore/gatewayops.go:5-29 | AddGateway keeps the index sorted, keyed by domain and within the stored gateways |
| LegacyStore.OneEntryPerDomain | pkg/memstore/gatewayops.go:22-26 | no domain has two rank entries |
| LegacyStore.NewDomainIndexed | pkg/memstore/gatewayops.go:22-26 | a newly registered domain has its rank entry in the index |
| LegacyStore.TopK | pkg/memstore/gatewayops.go:31-49 | the result has min(k, index size) gateways, those of the first ranked entries in order |
| LegacyStore.TopKStep | pkg/memstore/gatewayops.go:39-47 | one more step of Ascend appends the next ranked gateway |
| LegacyStore.TopKAscending | pkg/memstore/gatewayops.go:31-49 | the result is no longer than the gateway map, in strictly ascending (rank, domain) order, each entry that gateway's |
| LegacyStore.IndexSize | pkg/memstore/gatewayops.go:22-26 | the index never has more entries than there are gateways |
| LegacyStore.IndexOfCard | pkg/memstore/gatewayops.go:22-26 | a gateway map has at most as many rank entries as gateways |
| LegacyStore.ReRegistrationHides | pkg/memstore/gatewayops.go:11-21 | re-registering a domain keeps it stored but removes it from every later GetTopKGateways answer |
| LegacyStore.PutAgent | pkg/memstore/agentsops.go:5-22 | without the gateway domain: the error and nothing changed; otherwise the agent is stored as given, over any earlier one, and returned with that gateway |
| LegacyStore.PutAgentIndexed | pkg/memstore/agentsops.go:5-22 | AddAgent leaves gateways and index as they were and keeps the region indexed |
| LegacyStore.PutAgentIdempotent | pkg/memstore/agentsops.go:16-21 | registering the same agent twice is the same as once |
| LegacyStore.Touch | pkg/memstore/gatewayops.go:6 | RegionExist adds an empty region when the name is new and changes nothing else |
| LegacyStore.AddGatewayTo | pkg/memstore/gatewayops.go:5-29 | the store gains at most the named region and every other region is unchanged |
| LegacyStore.AddAgentTo | pkg/memstore/agentsops.go:5-22 | the store gains at most the named region, others are unchanged, and a refused agent only creates the region |
| LegacyStore.TouchIndexed | pkg/memstore/gatewayops.go:6 | RegionExist keeps every region indexed |
| LegacyStore.AddGatewayToIndexed | pkg/memstore/gatewayops.go:5-29 | AddGateway keeps every region indexed |
| LegacyStore.AddAgentToIndexed | pkg/memstore/agentsops.go:5-22 | AddAgent keeps every region indexed |
| LegacyStore.Bucket.constructor | pkg/memstore/index.go:12-18 | a new MemData is the empty region |
| LegacyStore.Bucket.Upsert | pkg/memstore/gatewayops.go:11-28 | the region's new state and the returned record are those of PutGateway |
| LegacyStore.Bucket.Lowest | pkg/memstore/gatewayops.go:37-48 | the Ascend loop returns exactly TopK of the region |
| LegacyStore.Bucket.Bind | pkg/memstore/agentsops.go:11-21 | the region's new state and the results are those of PutAgent |
| LegacyStore.Store.constructor | pkg/memstore/index.go:5-10 | a new store has no regions and a separate empty global bucket |
| LegacyStore.Store.RegionExist | pkg/memstore/gatewayops.go:6 | returns the region's bucket, fresh and empty for a new name; the view becomes Touch of the old one |
| LegacyStore.Store.AddGateway | pkg/memstore/gatewayops.go:5-29 | the store's view becomes AddGatewayTo of the old one and the returned record is its result |
| LegacyStore.Store.GetTopKGateways | pkg/memstore/gatewayops.go:31-49 | only the region is created if missing, and the result is TopK of that region |
| LegacyStore.Store.GetGateway | pkg/memstore/gatewayops.go:51-58 | found exactly when the domain is stored in the region, and then it is that record |
| LegacyStore.Store.AddAgent | pkg/memstore/agentsops.go:5-22 | the store's view and the results are those of AddAgentTo, the function's evident intent without the nested lock; the store stays indexed |
| Locking.Acquire | Registry/pkg/memstore/agentsops.go:8 | Lock waits while anyone holds the region's mutex and then holds it alone; RLock waits only while a writer holds it and adds a reader; no other region's mutex changes |
| Locking.Guarded | Registry/pkg/memstore/gatewayops.go:40-43 | an operation that locks its region with a deferred unlock returns its body exactly when it can take the lock, and leaves the locks as they were |
| Locking.AddAgentAsWritten | Registry/pkg/memstore/agentsops.go:8-11 | AddAgent never returns: it takes the write lock, then GetGateway's read lock on the same mutex waits for it; the region stays write-locked and no other region's lock changes |
| Locking.RegionLockedForGood | Registry/pkg/memstore/gatewayops.go:59-66 | after AddAgent on a free region, every later read-locked or write-locked call on that region and every later AddAgent there waits |
| Locking.ApplyRecordAsWritten | Registry/wal/replay.go:75-128 | an agent record never finishes applying; any other record that gets its lock is applied as Apply says and leaves the locks free |
| Locking.BlocksAtFirstAgent | Registry/wal/replay.go:69-71 | the replay loop gets past gateway records but hangs on the first agent record |
| Locking.ReplayHangsOnLoggedAgent | Registry/cmd/main.go:138 | start-up replay of a log written by successful appends hangs at its first agent record when only gateway records come before it |
| LegacyStore.Store.OneBucketChanged | pkg/memstore/index.go:5-10 | changing one region's bucket changes the store's view at that region only |

## Left out

- Locking: concurrent callers, the store-wide mutex `MemStore.mu` and writers waiting on a read lock are not modelled. Outside `Locking`, every store operation is atomic, and `AddAgent` is modelled as its body evidently intends. As written it deadlocks (see Findings): it calls `GetGateway` while holding the region's write lock (Registry/pkg/memstore/agentsops.go:8-11, pkg/memstore/agentsops.go:8-11).
- Ranking.Rank: the float64 rank is replaced by the exact rational rank scaled by 10240. Floating-point rounding, which could make two different capacities tie, is not modelled.
- Codec.Marshal: protobuf wire format is replaced by a self-delimiting encoding with the same round-trip property. Strings of 2^32 characters or more, which the length prefix cannot hold, are treated as unmarshallable.
- Records.Identity: the SHA-256 digest and its hex encoding are not computed. The identity is the text that would be hashed, `credHash + "|" + subject`. Two different pairs can share that text, for example ("a|", "b") and ("a", "|b"). Such pairs share an identity in the model, and in the Go code too, because the Go code hashes the same concatenation. Hash collisions between different texts are not modelled.
- Crc32.Checksum: the CRC is computed, but nothing is proved about which corruptions it detects. Only the mismatch path is modelled (`Replay.CrcMismatchStops`).
- Wal.WriteAheadLog.Append: bufio's buffering, its sticky errors and partial writes are not modelled. A failed write leaves the file unchanged.
- Aliasing of records: the Go store keeps the caller's `*GatewayData`/`*AgentData` pointers, and `AddGateway` mutates its argument. Records are values here.
- Replay.Apply: a record without the message its op needs makes the Go code dereference nil; the model reports the error MissingMessage instead. A nil `Capacity` in a request is not modelled.
- MemStore.Store.GetAgent: its Go source is not part of this model. It is modelled from its call site in seeder/pkg/maps/poll.go:50-53. That call passes `(req.AgentDomain, req.Region)`, and the model takes the region first.
- The seeder's own `memstore` and `wal` packages are not part of this model. The handlers use the Registry store and log.
- Agent replies: `AgentData` ports and wss ports, which the store never sets, are 0 in replies.
- The other handler copies (Registry/pkg/maps, pkg/maps) are not part of this model. Neither are the certificate code and `main`, apart from the point below.
- The replay error is discarded at start-up (Registry/cmd/main.go:138). The model returns it, and leaves ignoring it to the caller.
- os.Open: its failure is a parameter of `Replay.Replay`.
- Handlers.RegisterGatewaySpec: the store-error branch (seeder/pkg/maps/gateway.go:52-59) cannot be reached, because `AddGateway` never fails.
- Replay.LogRoundTrip: payloads of 2^32 bytes or more, whose length field wraps, are not covered. The lemma requires loggable records.
- LegacyStore.Store.RegionExist: the legacy `MemStore` struct definitions and its `RegionExist` are not part of this model. They are taken to match the Registry ones.
- Gateway records carry a wss port: Registry/pkg/memstore/mem.go has no `Wssport` field, yet the handlers and replay set one (Registry/wal/replay.go:91). The model keeps the field.
- Handlers.RegistrationKeepsLogInStep: "replaying the log rebuilds the store" is proved for gateway registration only. `RegisterAgent` (always refused against a consistent store) and both Resolve handlers create regions through `RegionExist` without logging anything. After them, the property holds only up to empty regions.
- Handlers.RpcMap.RegisterAgent: it requires only that the store's objects are separate, not that its regions are consistent. Its success path is reachable only from stores that break the region invariant (see `Handlers.RegisterAgentRefused`).
- File-system faults are `Option<string>` parameters naming the error text, and are not drawn from an operating-system model.

## Findings

| source | as written | input that shows it | evidently intended | confidence | as-written member | corrected member |
|---|---|---|---|---|---|---|
| Registry/pkg/memstore/agentsops.go:8-11 | `AddAgent` holds the region's `Mu.Lock()`, then calls `GetGateway`, which asks for `Mu.RLock()` on the same non-reentrant `sync.RWMutex` (Registry/pkg/memstore/gatewayops.go:62). The call waits for itself for ever, and the region stays write-locked for every later call. | any call, e.g. `AddAgent("global", agent)` on a new store | look the gateway up under the lock already held, then bind or store the agent as lines 11-27 do | high; not executed | Locking.AddAgentAsWritten | BucketSpec.AddAgentTo |
| pkg/memstore/agentsops.go:8-11 | the same nested lock: `mu.Lock()`, then `GetGateway` takes `mu.RLock()` on the same mutex (pkg/memstore/gatewayops.go:54) | any call, e.g. `AddAgent("global", agent)` on a new store | look the gateway up under the lock already held, then store the agent as lines 11-21 do | high; not executed | Locking.AddAgentAsWritten | LegacyStore.AddAgentTo |
| Registry/wal/replay.go:120 | start-up replay (Registry/cmd/main.go:138) sends every agent record to `AddAgent`, so it hangs at the first agent record in the log | a log holding one gateway registration and then one agent registration | replay applies every logged record in order | high; not executed | Locking.ReplayHangsOnLoggedAgent | Replay.ReplayOfLog |
