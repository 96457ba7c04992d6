/**
 * Reading the write-ahead log back (Registry/wal/replay.go): the loop of
 * Replay takes the file frame by frame, checks the magic and the CRC-32,
 * unmarshals the payload and hands the record to ApplyRecord, which sends
 * it to the same store operation the live request used.
 *
 * The pure half states what one turn of the loop reads (ParseFrame), what
 * the whole file decodes to (Frames) and what replaying it does to the
 * store's value (ReplayFrom); the imperative half runs the loop over the
 * objects of MemStore and is proved to compute ReplayFrom.
 */
module Replay {
  import opened Wrappers
  import opened Ranking
  import opened Records
  import opened BucketSpec
  import opened MemStore
  import opened Codec
  import opened Crc32
  import opened Wal

  // ------------------------------------------------------------ reading

  /**
   * io.ReadFull of n bytes from the unread rest of the file: nothing at all
   * left is io.EOF, a short read is io.ErrUnexpectedEOF, and a read of zero
   * bytes always succeeds.
   */
  function ReadFull(rest: seq<byte>, n: nat): (r: Result<seq<byte>, Error>)
    ensures r.Ok? <==> n <= |rest|
    ensures r.Ok? ==> r.value == rest[..n]
    ensures r.Err? ==> r.error == (if |rest| == 0 then Eof else UnexpectedEof)
  {
    if n == 0 then Ok([])
    else if |rest| == 0 then Err(Eof)
    else if |rest| < n then Err(UnexpectedEof)
    else Ok(rest[..n])
  }

  /** binary.BigEndian.Uint16 of the first two bytes. */
  function Uint16(b: seq<byte>): int
    requires |b| >= 2
  {
    b[0] as int * 256 + b[1] as int
  }

  /** One turn of the loop of Replay: the end of the file, an error that ends the loop, or a record and the bytes its frame took. */
  datatype Step = End | Stop(err: Error) | Next(rec: WalRecord, size: nat)

  /**
   * One turn of the loop of Replay (Registry/wal/replay.go:29-67) on the
   * unread rest of the file: the header, then its magic. The version byte
   * and the op byte of the header are read past: proto.Unmarshal resets the
   * record before filling it, so the op set from the header never survives.
   */
  function ParseFrame(rest: seq<byte>): (r: Step)
    ensures r.Next? ==> HeaderSize + TrailerSize <= r.size <= |rest|
  {
    match ReadFull(rest, HeaderSize)
    case Err(e) => if e == Eof then End else Stop(e)
    case Ok(header) =>
      if Uint16(header) != Magic then Stop(Corrupt("invalid magic"))
      else ParseBody(rest[HeaderSize..], DecU32(header[4..8]))
  }

  /** The rest of the turn once the header is read (Registry/wal/replay.go:46-54): the payload of the announced size, then the trailer. */
  function ParseBody(body: seq<byte>, size: nat): (r: Step)
    ensures r.Next? ==> r.size == HeaderSize + size + TrailerSize && size + TrailerSize <= |body|
  {
    match ReadFull(body, size)
    case Err(e) => Stop(e)
    case Ok(payload) =>
      match ReadFull(body[size..], TrailerSize)
      case Err(e) => Stop(e)
      case Ok(trailer) => CheckPayload(payload, DecU32(trailer))
  }

  /** The CRC check and the unmarshalling of the payload (Registry/wal/replay.go:56-67). */
  function CheckPayload(payload: seq<byte>, crc: int): (r: Step)
    ensures r.Next? ==> r.size == HeaderSize + |payload| + TrailerSize
    ensures crc != Checksum(payload) as int ==> r == Stop(Corrupt("crc mismatch"))
    ensures crc == Checksum(payload) as int ==> (r.Next? <==> Unmarshal(payload).Ok?)
  {
    if crc != Checksum(payload) as int then Stop(Corrupt("crc mismatch"))
    else
      match Unmarshal(payload)
      case Err(e) => Stop(e)
      case Ok(rec) => Next(rec, HeaderSize + |payload| + TrailerSize)
  }

  /** A well-formed header hands the bytes after it to ParseBody with the size it announces. */
  lemma HeaderRead(op: int32, size: nat, body: seq<byte>)
    requires size < TwoTo32
    ensures ParseFrame(Header(op, size) + body) == ParseBody(body, size)
  {
    var h := Header(op, size);
    var t := h + body;
    assert t[..HeaderSize] == h;
    assert h[4..8] == EncU32(size);
    U32RoundTrip(size);
    assert t[HeaderSize..] == body;
  }

  /** A payload followed by a whole trailer reaches the CRC check with the trailer's value. */
  lemma BodyRead(payload: seq<byte>, trailer: seq<byte>, after: seq<byte>)
    requires |trailer| == TrailerSize
    ensures ParseBody(payload + (trailer + after), |payload|) == CheckPayload(payload, DecU32(trailer))
  {
    var body := payload + (trailer + after);
    assert body[..|payload|] == payload;
    assert body[|payload|..] == trailer + after;
    assert (trailer + after)[..TrailerSize] == trailer;
  }

  /** The bytes of a frame followed by more, grouped as ParseFrame reads them. */
  lemma FrameSplit(op: int32, payload: seq<byte>, after: seq<byte>)
    ensures Frame(op, payload) + after
      == Header(op, |payload|) + (payload + (EncU32(Checksum(payload) as int) + after))
  {
  }

  /**
   * The records the loop hands to apply, in file order, when apply accepts
   * every one of them, and the error the loop then ends with (None when the
   * file ends on a frame boundary).
   */
  function Frames(rest: seq<byte>): (r: (seq<WalRecord>, Option<Error>))
    decreases |rest|
  {
    match ParseFrame(rest)
    case End => ([], None)
    case Stop(e) => ([], Some(e))
    case Next(rec, size) =>
      var (recs, err) := Frames(rest[size..]);
      ([rec] + recs, err)
  }

  // ------------------------------------------------------------ applying

  /** The gateway record ApplyRecord builds from a logged registration (Registry/wal/replay.go:79-98). */
  function GatewayOf(g: GatewayPut): (r: Gateway)
    ensures r.id == Identity(g.credHash, g.gatewayIp)
    ensures r.ip == g.gatewayIp && r.address == g.gatewayAddress && r.port == g.gatewayPort
    ensures r.wssPort == g.wssPort && r.capacity == g.capacity && r.credHash == g.credHash
  {
    Gateway(Identity(g.credHash, g.gatewayIp), g.gatewayIp, g.gatewayAddress, g.gatewayPort, g.wssPort, g.capacity, g.credHash)
  }

  /**
   * The agent record ApplyRecord builds from a logged connection
   * (Registry/wal/replay.go:107-118): neither the gateway's IP nor the
   * credential hash is carried over.
   */
  function AgentOf(a: AgentPut): (r: Agent)
    ensures r.id == Identity(a.credHash, a.agentDomain)
    ensures r.domain == a.agentDomain && r.gatewayId == a.gatewayId && r.gatewayAddress == a.gatewayAddress
    ensures r.gatewayIp == "" && r.credHash == ""
  {
    Agent(Identity(a.credHash, a.agentDomain), a.agentDomain, a.gatewayId, "", a.gatewayAddress, "")
  }

  /**
   * ApplyRecord on the store's value (Registry/wal/replay.go:75-128). A
   * record whose op needs a message it does not carry makes the source
   * dereference nil; here that is the error MissingMessage.
   */
  function Apply(s: StoreView, rec: WalRecord): (r: (StoreView, Option<Error>))
    ensures rec.op != OpPutGateway && rec.op != OpPutAgent ==> r == (s, Some(UnknownOp(rec.op)))
    ensures rec.op == OpPutGateway && rec.gateway.Some? ==>
      var g := rec.gateway.value;
      r.1.None? && r.0 == AddGatewayTo(s, g.region, GatewayOf(g)).0
    ensures rec.op == OpPutAgent && rec.agent.Some? ==>
      var a := rec.agent.value;
      (r.1.None? <==> a.gatewayAddress in BucketOf(s, a.region).gateways) && r.0 == AddAgentTo(s, a.region, AgentOf(a)).0
  {
    if rec.op == OpPutGateway then
      if rec.gateway.None? then (s, Some(MissingMessage))
      else
        var g := rec.gateway.value;
        (AddGatewayTo(s, g.region, GatewayOf(g)).0, None)
    else if rec.op == OpPutAgent then
      if rec.agent.None? then (s, Some(MissingMessage))
      else
        var a := rec.agent.value;
        var (s', o) := AddAgentTo(s, a.region, AgentOf(a));
        (s', o.err)
    else
      (s, Some(UnknownOp(rec.op)))
  }

  /** Applying a record keeps every bucket consistent. */
  lemma ApplyValid(s: StoreView, rec: WalRecord)
    requires StoreValid(s)
    ensures StoreValid(Apply(s, rec).0)
  {
    if rec.op == OpPutGateway && rec.gateway.Some? {
      AddGatewayToValid(s, rec.gateway.value.region, GatewayOf(rec.gateway.value));
    } else if rec.op == OpPutAgent && rec.agent.Some? {
      AddAgentToValid(s, rec.agent.value.region, AgentOf(rec.agent.value));
    }
  }

  /**
   * Replay with apply fixed to ApplyRecord, as Registry/cmd/main.go:138
   * calls it, on the store's value and the unread rest of the file: the
   * first error, of reading or of apply, ends it.
   */
  function ReplayFrom(s: StoreView, rest: seq<byte>): (StoreView, Option<Error>)
    decreases |rest|
  {
    match ParseFrame(rest)
    case End => (s, None)
    case Stop(e) => (s, Some(e))
    case Next(rec, size) =>
      var (s', err) := Apply(s, rec);
      if err.Some? then (s', err) else ReplayFrom(s', rest[size..])
  }

  /** One turn of ReplayFrom, as the loop of Replay takes it. */
  lemma ReplayTurn(s: StoreView, rest: seq<byte>)
    ensures ParseFrame(rest).End? ==> ReplayFrom(s, rest) == (s, None)
    ensures ParseFrame(rest).Stop? ==> ReplayFrom(s, rest) == (s, Some(ParseFrame(rest).err))
    ensures ParseFrame(rest).Next? ==>
      var next := ParseFrame(rest);
      var (s', err) := Apply(s, next.rec);
      ReplayFrom(s, rest) == if err.Some? then (s', err) else ReplayFrom(s', rest[next.size..])
  {
  }

  /** Replay of the whole file; `openFault` is the error os.Open reports, if any. */
  function ReplayLog(s: StoreView, file: seq<byte>, openFault: Option<string>): (StoreView, Option<Error>)
  {
    if openFault.Some? then (s, Some(IoFailed(openFault.value))) else ReplayFrom(s, file)
  }

  /** Applying a list of records in order, stopping at the first error; `tail` is the error that follows the last one. */
  function ApplyAll(s: StoreView, recs: seq<WalRecord>, tail: Option<Error>): (StoreView, Option<Error>)
    decreases |recs|
  {
    if |recs| == 0 then (s, tail)
    else
      var (s', err) := Apply(s, recs[0]);
      if err.Some? then (s', err) else ApplyAll(s', recs[1..], tail)
  }

  /**
   * Replay calls apply on the decoded records in file order, one call each,
   * until apply fails or the records run out; then it returns the error the
   * reading stopped with. Records applied before an error are not undone.
   */
  lemma {:induction false} ReplayAppliesFrames(s: StoreView, rest: seq<byte>)
    ensures ReplayFrom(s, rest) == ApplyAll(s, Frames(rest).0, Frames(rest).1)
    decreases |rest|
  {
    match ParseFrame(rest)
    case End =>
    case Stop(e) =>
    case Next(rec, size) =>
      var (s', err) := Apply(s, rec);
      var (recs, tail) := Frames(rest[size..]);
      assert Frames(rest) == ([rec] + recs, tail);
      assert ([rec] + recs)[1..] == recs;
      if err.None? {
        ReplayAppliesFrames(s', rest[size..]);
      }
  }

  // ------------------------------------------------------------ the log

  /** A record Append writes: it marshals, and its payload length fits the header's 32 bits. */
  predicate Loggable(r: WalRecord)
  {
    Marshal(r).Ok? && |Marshal(r).value| < TwoTo32
  }

  /** Every record of the list is one Append writes. */
  predicate AllLoggable(recs: seq<WalRecord>)
    decreases |recs|
  {
    |recs| == 0 || (Loggable(recs[0]) && AllLoggable(recs[1..]))
  }

  /** The file a run of successful Appends of `recs` leaves behind, starting from an empty file. */
  function Log(recs: seq<WalRecord>): seq<byte>
    requires AllLoggable(recs)
  {
    if |recs| == 0 then []
    else Frame(recs[0].op, Marshal(recs[0]).value) + Log(recs[1..])
  }

  /** Successful Appends build the file Log describes. */
  lemma {:induction false} AppendsBuildLog(recs: seq<WalRecord>, file: seq<byte>)
    requires AllLoggable(recs)
    ensures AppendTo(file, true, recs[0], None).1.None? <== |recs| > 0
    ensures |recs| > 0 ==> AppendTo(file, true, recs[0], None).0 + Log(recs[1..]) == file + Log(recs)
  {
    if |recs| > 0 {
      assert file + Frame(recs[0].op, Marshal(recs[0]).value) + Log(recs[1..]) == file + Log(recs);
    }
  }

  /** The frame Append writes for a record reads back as that record, whatever follows it. */
  lemma FrameRoundTrip(r: WalRecord, rest: seq<byte>)
    requires Loggable(r)
    ensures ParseFrame(Frame(r.op, Marshal(r).value) + rest) == Next(r, |Frame(r.op, Marshal(r).value)|)
  {
    var data := Marshal(r).value;
    var c := Checksum(data) as int;
    FrameSplit(r.op, data, rest);
    HeaderRead(r.op, |data|, data + (EncU32(c) + rest));
    BodyRead(data, EncU32(c), rest);
    U32RoundTrip(c);
    MarshalRoundTrip(r);
  }

  /** A frame followed by more bytes decodes to its record, then to the records of what follows. */
  lemma FramesCons(r: WalRecord, rest: seq<byte>)
    requires Loggable(r)
    ensures Frames(Frame(r.op, Marshal(r).value) + rest) == ([r] + Frames(rest).0, Frames(rest).1)
  {
    var f := Frame(r.op, Marshal(r).value);
    FrameRoundTrip(r, rest);
    assert (f + rest)[|f|..] == rest;
  }

  /** A file followed by more bytes decodes to its own records first, then to those of what follows. */
  lemma {:induction false} LogThen(recs: seq<WalRecord>, tail: seq<byte>)
    requires AllLoggable(recs)
    ensures Frames(Log(recs) + tail) == (recs + Frames(tail).0, Frames(tail).1)
  {
    var (later, err) := Frames(tail);
    if |recs| == 0 {
      assert Log(recs) + tail == tail;
      assert recs + later == later;
    } else {
      var f := Frame(recs[0].op, Marshal(recs[0]).value);
      var rest := Log(recs[1..]) + tail;
      assert Log(recs) + tail == f + rest;
      FramesCons(recs[0], rest);
      LogThen(recs[1..], tail);
      assert Frames(rest) == (recs[1..] + later, err);
      ConsAppend(recs, later);
    }
  }

  lemma ConsAppend<T>(s: seq<T>, t: seq<T>)
    requires |s| > 0
    ensures [s[0]] + (s[1..] + t) == s + t
  {
    assert s == [s[0]] + s[1..];
  }

  /**
   * Round trip: the file a run of Appends builds decodes to exactly the
   * appended records, in order, and the loop ends without an error; the
   * empty file is the case of no records.
   */
  lemma LogRoundTrip(recs: seq<WalRecord>)
    requires AllLoggable(recs)
    ensures Frames(Log(recs)) == (recs, None)
  {
    LogThen(recs, []);
    assert Log(recs) + [] == Log(recs);
    assert recs + [] == recs;
  }

  /** Replaying such a file applies each record once, in order, and returns the first error of apply, if any. */
  lemma ReplayOfLog(s: StoreView, recs: seq<WalRecord>)
    requires AllLoggable(recs)
    ensures ReplayFrom(s, Log(recs)) == ApplyAll(s, recs, None)
  {
    ReplayAppliesFrames(s, Log(recs));
    LogRoundTrip(recs);
  }

  /** One more successful Append adds its record at the end of the list the file holds. */
  lemma {:induction false} LogSnoc(recs: seq<WalRecord>, r: WalRecord)
    requires AllLoggable(recs) && Loggable(r)
    ensures AllLoggable(recs + [r])
    ensures Log(recs + [r]) == Log(recs) + Frame(r.op, Marshal(r).value)
  {
    if |recs| > 0 {
      assert (recs + [r])[1..] == recs[1..] + [r];
      LogSnoc(recs[1..], r);
    } else {
      assert recs + [r] == [r];
    }
  }

  /** Applying one record more continues from where the others left the store, unless they failed. */
  lemma {:induction false} ApplyAllSnoc(s: StoreView, recs: seq<WalRecord>, r: WalRecord)
    ensures ApplyAll(s, recs, None).1.None? ==> ApplyAll(s, recs + [r], None) == Apply(ApplyAll(s, recs, None).0, r)
    decreases |recs|
  {
    if |recs| > 0 {
      assert (recs + [r])[1..] == recs[1..] + [r];
      if Apply(s, recs[0]).1.None? {
        ApplyAllSnoc(Apply(s, recs[0]).0, recs[1..], r);
      }
    } else {
      assert recs + [r] == [r];
    }
  }

  // ------------------------------------------------------------ damage

  /** A frame whose first two bytes are not the magic stops the loop with ErrCorrupt; it and everything after it are never applied. */
  lemma BadMagicStops(rest: seq<byte>)
    requires |rest| >= HeaderSize && Uint16(rest) != Magic
    ensures ParseFrame(rest) == Stop(Corrupt("invalid magic"))
    ensures Frames(rest) == ([], Some(Corrupt("invalid magic")))
  {
    assert Uint16(rest[..HeaderSize]) == Uint16(rest);
  }

  /** A frame whose trailer is not the CRC-32 of its payload stops the loop with ErrCorrupt. */
  lemma CrcMismatchStops(op: int32, payload: seq<byte>, crc: int, after: seq<byte>)
    requires |payload| < TwoTo32 && 0 <= crc < TwoTo32 && crc != Checksum(payload) as int
    ensures ParseFrame(Header(op, |payload|) + (payload + (EncU32(crc) + after))) == Stop(Corrupt("crc mismatch"))
  {
    HeaderRead(op, |payload|, payload + (EncU32(crc) + after));
    BodyRead(payload, EncU32(crc), after);
    U32RoundTrip(crc);
  }

  /**
   * A frame cut short anywhere after its first byte stops the loop with a
   * read error: a cut inside the header or inside the payload or trailer
   * is io.ErrUnexpectedEOF, a cut exactly after the header or the payload
   * is io.EOF.
   */
  lemma TruncatedFrameFails(r: WalRecord, cut: nat)
    requires Loggable(r)
    requires 0 < cut < |Frame(r.op, Marshal(r).value)|
    ensures var s := ParseFrame(Frame(r.op, Marshal(r).value)[..cut]);
      s == Stop(Eof) || s == Stop(UnexpectedEof)
  {
    var data := Marshal(r).value;
    var f := Frame(r.op, data);
    var t := f[..cut];
    if cut >= HeaderSize {
      FrameLayout(r.op, data);
      assert t[..HeaderSize] == f[..HeaderSize];
      assert Uint16(t[..HeaderSize]) == Magic;
      assert t[..HeaderSize][4..8] == f[4..8];
      if cut >= HeaderSize + |data| {
        assert t[HeaderSize..][..|data|] == f[HeaderSize..HeaderSize + |data|];
      }
    }
  }

  /** A log whose last frame is cut short replays every complete frame before it, then reports the read error. */
  lemma TruncatedLogFails(recs: seq<WalRecord>, r: WalRecord, cut: nat)
    requires AllLoggable(recs)
    requires Loggable(r) && 0 < cut < |Frame(r.op, Marshal(r).value)|
    ensures var (decoded, err) := Frames(Log(recs) + Frame(r.op, Marshal(r).value)[..cut]);
      decoded == recs && (err == Some(Eof) || err == Some(UnexpectedEof))
  {
    var t := Frame(r.op, Marshal(r).value)[..cut];
    LogThen(recs, t);
    TruncatedFrameFails(r, cut);
    assert recs + [] == recs;
  }

  /**
   * The version byte and the op byte of a header are never looked at: a
   * file that differs from another only there decodes to the same records
   * and the same error.
   */
  lemma VersionAndOpIgnored(rest: seq<byte>, version: byte, op: byte)
    requires |rest| >= 4
    ensures ParseFrame(rest[2 := version][3 := op]) == ParseFrame(rest)
    ensures Frames(rest[2 := version][3 := op]) == Frames(rest)
  {
    var t := rest[2 := version][3 := op];
    if |rest| >= HeaderSize {
      assert Uint16(t[..HeaderSize]) == Uint16(rest[..HeaderSize]);
      assert t[..HeaderSize][4..8] == rest[..HeaderSize][4..8];
      assert t[HeaderSize..] == rest[HeaderSize..];
    }
    match ParseFrame(rest)
    case End =>
    case Stop(e) =>
    case Next(rec, size) =>
      assert t[size..] == rest[size..];
  }

  // ------------------------------------------------------------ the objects

  /**
   * ApplyRecord (Registry/wal/replay.go:75-128): the switch on the record's
   * op, building the record the store operation takes.
   */
  method ApplyRecord(store: Store, rec: WalRecord) returns (err: Option<Error>)
    requires store.Valid()
    modifies store, store.regions.Values
    ensures store.Valid() && store.global == old(store.global)
    ensures (store.View(), err) == Apply(old(store.View()), rec)
    ensures store.Extends(old(store.regions))
    ensures forall r :: r in store.regions && r !in old(store.regions) ==> fresh(store.regions[r])
  {
    if rec.op == OpPutGateway {
      if rec.gateway.None? {
        return Some(MissingMessage);
      }
      var g := rec.gateway.value;
      var _ := store.AddGateway(g.region, GatewayOf(g));
      err := None;
    } else if rec.op == OpPutAgent {
      if rec.agent.None? {
        return Some(MissingMessage);
      }
      var a := rec.agent.value;
      var _, _, e := store.AddAgent(a.region, AgentOf(a));
      err := e;
    } else {
      err := Some(UnknownOp(rec.op));
    }
  }

  /**
   * Replay (Registry/wal/replay.go:18-73) with apply fixed to ApplyRecord
   * into `store`: the loop reads the log's file frame by frame and returns
   * the first error. `openFault` is the error os.Open reports, if any.
   */
  method Replay(w: WriteAheadLog, store: Store, openFault: Option<string>) returns (err: Option<Error>)
    requires store.Valid()
    modifies store, store.regions.Values
    ensures store.Valid()
    ensures (store.View(), err) == ReplayLog(old(store.View()), w.bytes, openFault)
  {
    if openFault.Some? {
      return Some(IoFailed(openFault.value));
    }
    // The unread rest of the file, which the buffered reader consumes frame by frame.
    var rest := w.bytes;
    ghost var goal := ReplayFrom(store.View(), rest);
    while true
      invariant store.Valid()
      invariant ReplayFrom(store.View(), rest) == goal
      invariant forall r :: r in store.regions ==> store.regions[r] in old(store.regions.Values) || fresh(store.regions[r])
      decreases |rest|
    {
      ghost var current := store.View();
      var step := ParseFrame(rest);
      ReplayTurn(current, rest);
      match step
      case End =>
        return None;
      case Stop(e) =>
        return Some(e);
      case Next(rec, size) =>
        err := ApplyRecord(store, rec);
        if err.Some? {
          return;
        }
        rest := rest[size..];
    }
  }
}
