/**
 * The WAL record (walpb.WalRecord) and the byte encoding of its payload.
 * The source hands the record to proto.Marshal and proto.Unmarshal; the
 * model replaces the protobuf wire format by a plain tag-and-length layout
 * of its own, and keeps the one property the WAL relies on: decoding an
 * encoded record gives the record back.
 */
module Codec {
  import opened Wrappers
  import opened Ranking
  import opened Records

  type byte = x: int | 0 <= x < 256

  const TwoTo32: int := 0x1_0000_0000

  /** GatewayPutRequest as the WAL logs it. */
  datatype GatewayPut = GatewayPut(
    region: string,
    gatewayIp: string,
    gatewayId: string,
    gatewayPort: int32,
    gatewayAddress: string,
    wssPort: int32,
    credHash: string,
    capacity: Capacity)

  /** AgentConnectionRequest as the WAL logs it. */
  datatype AgentPut = AgentPut(
    credHash: string,
    agentDomain: string,
    gatewayId: string,
    region: string,
    gatewayAddress: string,
    agentId: string)

  /** WalRecord: the operation and whichever of the two messages it carries (a nil message is None). */
  datatype WalRecord = WalRecord(op: int32, gateway: Option<GatewayPut>, agent: Option<AgentPut>)

  // ---------------------------------------------------------------- integers
  //
  // Every encoder below writes its value in front of the bytes that follow
  // it (`rest`), so that each decoder can be shown to read its value back
  // and hand over exactly `rest`.

  /** binary.BigEndian.PutUint32. */
  function EncU32(n: int): (r: seq<byte>)
    requires 0 <= n < TwoTo32
    ensures |r| == 4
  {
    var b3, m3 := n % 256, n / 256;
    var b2, m2 := m3 % 256, m3 / 256;
    var b1, b0 := m2 % 256, m2 / 256;
    [b0, b1, b2, b3]
  }

  /** binary.BigEndian.Uint32. */
  function DecU32(b: seq<byte>): (n: int)
    requires |b| == 4
    ensures 0 <= n < TwoTo32
  {
    ((b[0] as int * 256 + b[1] as int) * 256 + b[2] as int) * 256 + b[3] as int
  }

  lemma U32RoundTrip(n: int)
    requires 0 <= n < TwoTo32
    ensures DecU32(EncU32(n)) == n
  {
  }

  /** An int32 as its two's-complement bit pattern, in front of `rest`. */
  function EncI32(x: int32, rest: seq<byte>): (r: seq<byte>)
    ensures |r| == 4 + |rest|
  {
    EncU32(x % TwoTo32) + rest
  }

  /** Reads an int32 and hands back the bytes after it. */
  function DecI32(b: seq<byte>): Option<(int32, seq<byte>)>
  {
    if |b| < 4 then None
    else
      var n := DecU32(b[..4]);
      Some((if n < 0x8000_0000 then n else n - TwoTo32, b[4..]))
  }

  lemma I32RoundTrip(x: int32, rest: seq<byte>)
    ensures DecI32(EncI32(x, rest)) == Some((x, rest))
  {
    var b := EncI32(x, rest);
    assert b[..4] == EncU32(x % TwoTo32);
    assert b[4..] == rest;
    U32RoundTrip(x % TwoTo32);
  }

  // ---------------------------------------------------------------- strings

  /** A Unicode scalar value, the range of a Dafny char. */
  predicate IsScalar(v: int)
  {
    0 <= v < 0xD800 || 0xE000 <= v < 0x11_0000
  }

  /** One character as three bytes of its scalar value. */
  function EncChar(c: char): (r: seq<byte>)
    ensures |r| == 3
  {
    var v := c as int;
    [v / 0x1_0000, (v / 256) % 256, v % 256]
  }

  function DecChar(b: seq<byte>): Option<char>
    requires |b| == 3
  {
    var v := (b[0] as int * 256 + b[1] as int) * 256 + b[2] as int;
    if IsScalar(v) then Some(v as char) else None
  }

  lemma CharRoundTrip(c: char)
    ensures DecChar(EncChar(c)) == Some(c)
  {
  }

  function EncChars(s: string, rest: seq<byte>): (r: seq<byte>)
    ensures |r| == 3 * |s| + |rest|
  {
    if |s| == 0 then rest else EncChar(s[0]) + EncChars(s[1..], rest)
  }

  /** Reads n characters, handing back the bytes after them. */
  function DecChars(n: nat, b: seq<byte>): Option<(string, seq<byte>)>
    decreases n
  {
    if n == 0 then Some(("", b))
    else if |b| < 3 then None
    else
      var c :- DecChar(b[..3]);
      var tail :- DecChars(n - 1, b[3..]);
      Some(([c] + tail.0, tail.1))
  }

  lemma {:induction false} CharsRoundTrip(s: string, rest: seq<byte>)
    ensures DecChars(|s|, EncChars(s, rest)) == Some((s, rest))
  {
    if |s| > 0 {
      var b := EncChars(s, rest);
      assert b[..3] == EncChar(s[0]);
      assert b[3..] == EncChars(s[1..], rest);
      CharRoundTrip(s[0]);
      CharsRoundTrip(s[1..], rest);
      assert [s[0]] + s[1..] == s;
    }
  }

  /** A string: its length as a u32, then its characters. */
  function EncStr(s: string, rest: seq<byte>): seq<byte>
    requires |s| < TwoTo32
  {
    EncU32(|s|) + EncChars(s, rest)
  }

  function DecStr(b: seq<byte>): Option<(string, seq<byte>)>
  {
    if |b| < 4 then None else DecChars(DecU32(b[..4]), b[4..])
  }

  lemma StrRoundTrip(s: string, rest: seq<byte>)
    requires |s| < TwoTo32
    ensures DecStr(EncStr(s, rest)) == Some((s, rest))
  {
    var b := EncStr(s, rest);
    assert b[..4] == EncU32(|s|);
    assert b[4..] == EncChars(s, rest);
    U32RoundTrip(|s|);
    CharsRoundTrip(s, rest);
  }

  // ---------------------------------------------------------------- messages

  predicate Short(s: string)
  {
    |s| < TwoTo32
  }

  /** Every string of the message fits a u32 length prefix. */
  predicate GatewayFits(g: GatewayPut)
  {
    Short(g.region) && Short(g.gatewayIp) && Short(g.gatewayId) && Short(g.gatewayAddress) && Short(g.credHash)
  }

  predicate AgentFits(a: AgentPut)
  {
    Short(a.credHash) && Short(a.agentDomain) && Short(a.gatewayId) && Short(a.region) && Short(a.gatewayAddress) && Short(a.agentId)
  }

  function EncCapacity(c: Capacity, rest: seq<byte>): seq<byte>
  {
    EncI32(c.cpu, EncI32(c.memory, EncI32(c.storage, EncI32(c.bandwidth, rest))))
  }

  function EncGateway(g: GatewayPut, rest: seq<byte>): seq<byte>
    requires GatewayFits(g)
  {
    EncStr(g.region, EncStr(g.gatewayIp, EncStr(g.gatewayId, EncI32(g.gatewayPort,
      EncStr(g.gatewayAddress, EncI32(g.wssPort, EncStr(g.credHash, EncCapacity(g.capacity, rest))))))))
  }

  function EncAgent(a: AgentPut, rest: seq<byte>): seq<byte>
    requires AgentFits(a)
  {
    EncStr(a.credHash, EncStr(a.agentDomain, EncStr(a.gatewayId, EncStr(a.region,
      EncStr(a.gatewayAddress, EncStr(a.agentId, rest))))))
  }

  function DecCapacity(b: seq<byte>): Option<(Capacity, seq<byte>)>
  {
    var cpu :- DecI32(b);
    var memory :- DecI32(cpu.1);
    var storage :- DecI32(memory.1);
    var bandwidth :- DecI32(storage.1);
    Some((Capacity(cpu.0, memory.0, storage.0, bandwidth.0), bandwidth.1))
  }

  function DecGateway(b: seq<byte>): Option<(GatewayPut, seq<byte>)>
  {
    var region :- DecStr(b);
    var ip :- DecStr(region.1);
    var id :- DecStr(ip.1);
    var port :- DecI32(id.1);
    var address :- DecStr(port.1);
    var wss :- DecI32(address.1);
    var cred :- DecStr(wss.1);
    var capacity :- DecCapacity(cred.1);
    Some((GatewayPut(region.0, ip.0, id.0, port.0, address.0, wss.0, cred.0, capacity.0), capacity.1))
  }

  function DecAgent(b: seq<byte>): Option<(AgentPut, seq<byte>)>
  {
    var cred :- DecStr(b);
    var domain :- DecStr(cred.1);
    var gatewayId :- DecStr(domain.1);
    var region :- DecStr(gatewayId.1);
    var address :- DecStr(region.1);
    var agentId :- DecStr(address.1);
    Some((AgentPut(cred.0, domain.0, gatewayId.0, region.0, address.0, agentId.0), agentId.1))
  }

  lemma CapacityRoundTrip(c: Capacity, rest: seq<byte>)
    ensures DecCapacity(EncCapacity(c, rest)) == Some((c, rest))
  {
    var b3 := EncI32(c.bandwidth, rest);
    var b2 := EncI32(c.storage, b3);
    var b1 := EncI32(c.memory, b2);
    I32RoundTrip(c.cpu, b1);
    I32RoundTrip(c.memory, b2);
    I32RoundTrip(c.storage, b3);
    I32RoundTrip(c.bandwidth, rest);
  }

  lemma GatewayRoundTrip(g: GatewayPut, rest: seq<byte>)
    requires GatewayFits(g)
    ensures DecGateway(EncGateway(g, rest)) == Some((g, rest))
  {
    var b7 := EncCapacity(g.capacity, rest);
    var b6 := EncStr(g.credHash, b7);
    var b5 := EncI32(g.wssPort, b6);
    var b4 := EncStr(g.gatewayAddress, b5);
    var b3 := EncI32(g.gatewayPort, b4);
    var b2 := EncStr(g.gatewayId, b3);
    var b1 := EncStr(g.gatewayIp, b2);
    StrRoundTrip(g.region, b1);
    StrRoundTrip(g.gatewayIp, b2);
    StrRoundTrip(g.gatewayId, b3);
    I32RoundTrip(g.gatewayPort, b4);
    StrRoundTrip(g.gatewayAddress, b5);
    I32RoundTrip(g.wssPort, b6);
    StrRoundTrip(g.credHash, b7);
    CapacityRoundTrip(g.capacity, rest);
  }

  lemma AgentRoundTrip(a: AgentPut, rest: seq<byte>)
    requires AgentFits(a)
    ensures DecAgent(EncAgent(a, rest)) == Some((a, rest))
  {
    var b5 := EncStr(a.agentId, rest);
    var b4 := EncStr(a.gatewayAddress, b5);
    var b3 := EncStr(a.region, b4);
    var b2 := EncStr(a.gatewayId, b3);
    var b1 := EncStr(a.agentDomain, b2);
    StrRoundTrip(a.credHash, b1);
    StrRoundTrip(a.agentDomain, b2);
    StrRoundTrip(a.gatewayId, b3);
    StrRoundTrip(a.region, b4);
    StrRoundTrip(a.gatewayAddress, b5);
    StrRoundTrip(a.agentId, rest);
  }

  // ---------------------------------------------------------------- records

  predicate Fits(r: WalRecord)
  {
    (r.gateway.Some? ==> GatewayFits(r.gateway.value)) && (r.agent.Some? ==> AgentFits(r.agent.value))
  }

  /** A present message behind a 1 byte, an absent one as a 0 byte. */
  function EncOptGateway(g: Option<GatewayPut>, rest: seq<byte>): seq<byte>
    requires g.Some? ==> GatewayFits(g.value)
  {
    if g.Some? then [1] + EncGateway(g.value, rest) else [0] + rest
  }

  function EncOptAgent(a: Option<AgentPut>, rest: seq<byte>): seq<byte>
    requires a.Some? ==> AgentFits(a.value)
  {
    if a.Some? then [1] + EncAgent(a.value, rest) else [0] + rest
  }

  function DecOptGateway(b: seq<byte>): Option<(Option<GatewayPut>, seq<byte>)>
  {
    if |b| == 0 then None
    else if b[0] == 0 then Some((None, b[1..]))
    else if b[0] == 1 then
      var g :- DecGateway(b[1..]);
      Some((Some(g.0), g.1))
    else None
  }

  function DecOptAgent(b: seq<byte>): Option<(Option<AgentPut>, seq<byte>)>
  {
    if |b| == 0 then None
    else if b[0] == 0 then Some((None, b[1..]))
    else if b[0] == 1 then
      var a :- DecAgent(b[1..]);
      Some((Some(a.0), a.1))
    else None
  }

  lemma OptGatewayRoundTrip(g: Option<GatewayPut>, rest: seq<byte>)
    requires g.Some? ==> GatewayFits(g.value)
    ensures DecOptGateway(EncOptGateway(g, rest)) == Some((g, rest))
  {
    var b := EncOptGateway(g, rest);
    if g.Some? {
      assert b[1..] == EncGateway(g.value, rest);
      GatewayRoundTrip(g.value, rest);
    } else {
      assert b[1..] == rest;
    }
  }

  lemma OptAgentRoundTrip(a: Option<AgentPut>, rest: seq<byte>)
    requires a.Some? ==> AgentFits(a.value)
    ensures DecOptAgent(EncOptAgent(a, rest)) == Some((a, rest))
  {
    var b := EncOptAgent(a, rest);
    if a.Some? {
      assert b[1..] == EncAgent(a.value, rest);
      AgentRoundTrip(a.value, rest);
    } else {
      assert b[1..] == rest;
    }
  }

  /** A record: its op, then each message behind its presence byte. */
  function Encode(r: WalRecord): seq<byte>
    requires Fits(r)
  {
    EncI32(r.op, EncOptGateway(r.gateway, EncOptAgent(r.agent, [])))
  }

  /**
   * proto.Marshal: the record's payload, refused when a string is too long
   * for the layout's u32 length prefix.
   */
  function Marshal(r: WalRecord): (res: Result<seq<byte>, Error>)
    ensures res.Ok? <==> Fits(r)
    ensures res.Err? ==> res.error == MarshalFailed
  {
    if Fits(r) then Ok(Encode(r)) else Err(MarshalFailed)
  }

  /**
   * proto.Unmarshal into a fresh WalRecord: every field comes from the
   * payload, and a payload that is not exactly one encoded record is refused.
   */
  function Unmarshal(b: seq<byte>): (res: Result<WalRecord, Error>)
    ensures res.Err? ==> res.error == UnmarshalFailed
  {
    match DecI32(b)
    case None => Err(UnmarshalFailed)
    case Some((op, b1)) =>
      match DecOptGateway(b1)
      case None => Err(UnmarshalFailed)
      case Some((gateway, b2)) =>
        match DecOptAgent(b2)
        case None => Err(UnmarshalFailed)
        case Some((agent, b3)) =>
          if |b3| == 0 then Ok(WalRecord(op, gateway, agent)) else Err(UnmarshalFailed)
  }

  /** What the WAL relies on: a payload Marshal produced unmarshals to the same record. */
  lemma MarshalRoundTrip(r: WalRecord)
    requires Marshal(r).Ok?
    ensures Unmarshal(Marshal(r).value) == Ok(r)
  {
    var b2 := EncOptAgent(r.agent, []);
    var b1 := EncOptGateway(r.gateway, b2);
    I32RoundTrip(r.op, b1);
    OptGatewayRoundTrip(r.gateway, b2);
    OptAgentRoundTrip(r.agent, []);
  }
}
