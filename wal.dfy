/**
 * The write-ahead log of Registry/wal/wal.go. Every record is written as one
 * frame: an 8-byte header (magic 0xCAFE big-endian, version 1, the low byte
 * of the op, the payload length as a big-endian u32), the marshalled payload
 * and the big-endian CRC-32 of the payload. The log file is the byte
 * sequence `bytes` of a WriteAheadLog object, which a successful Append
 * extends by one frame.
 */
module Wal {
  import opened Wrappers
  import opened Ranking
  import opened Records
  import opened Codec
  import opened Crc32

  const Magic: int := 0xCAFE
  const Version: byte := 1
  const HeaderSize: nat := 8
  const TrailerSize: nat := 4

  /** walpb.Operation values. */
  const OpPutGateway: int32 := 1
  const OpPutAgent: int32 := 2

  /** The header of a frame: magic, version, op byte, payload length truncated to 32 bits as uint32(len(data)) does. */
  function Header(op: int32, size: nat): (h: seq<byte>)
    ensures |h| == HeaderSize
  {
    [Magic / 256, Magic % 256, Version, op % 256] + EncU32(size % TwoTo32)
  }

  /** The bytes one Append writes for an op and a payload. */
  function Frame(op: int32, payload: seq<byte>): (f: seq<byte>)
    ensures |f| == HeaderSize + |payload| + TrailerSize
  {
    Header(op, |payload|) + payload + EncU32(Checksum(payload) as int)
  }

  /**
   * The layout of a frame as a reader sees it: bytes 0-1 hold the magic
   * big-endian, byte 2 the version, byte 3 the low byte of the op, bytes 4-7
   * the payload length, then the payload, then the CRC-32 of the payload
   * alone, big-endian.
   */
  lemma FrameLayout(op: int32, payload: seq<byte>)
    requires |payload| < TwoTo32
    ensures var f := Frame(op, payload);
      && |f| == 12 + |payload|
      && f[0] as int * 256 + f[1] as int == Magic
      && f[2] == Version
      && f[3] == op % 256
      && DecU32(f[4..8]) == |payload|
      && f[8..8 + |payload|] == payload
      && DecU32(f[8 + |payload|..]) == Checksum(payload) as int
  {
    var f := Frame(op, payload);
    var h := Header(op, |payload|);
    var t := EncU32(Checksum(payload) as int);
    assert f == h + (payload + t);
    assert f[..8] == h;
    assert |payload| % TwoTo32 == |payload|;
    assert h[4..] == EncU32(|payload|);
    assert f[4..8] == h[4..];
    U32RoundTrip(|payload|);
    assert f[8..] == payload + t;
    assert f[8 + |payload|..] == t;
    U32RoundTrip(Checksum(payload) as int);
  }

  /** The error the file system gives a write: a closed file refuses it, an open one fails when told to. */
  function WriteFailure(open: bool, fault: Option<string>): Option<string>
  {
    if !open then Some("write wal.log: file already closed") else fault
  }

  /**
   * Append on the log's value (Registry/wal/wal.go:54-86): a record that
   * cannot be marshalled writes nothing; a write or flush failure is
   * returned and, partial writes aside, leaves the file as it was; otherwise
   * the file grows by the record's frame.
   */
  function AppendTo(log: seq<byte>, open: bool, rec: WalRecord, fault: Option<string>): (r: (seq<byte>, Option<Error>))
    ensures r.1.None? <==> Marshal(rec).Ok? && WriteFailure(open, fault).None?
    ensures r.1.None? ==> r.0 == log + Frame(rec.op, Marshal(rec).value)
    ensures r.1.Some? ==> r.0 == log
    ensures Marshal(rec).Err? ==> r.1 == Some(MarshalFailed)
    ensures Marshal(rec).Ok? && WriteFailure(open, fault).Some? ==> r.1 == Some(IoFailed(WriteFailure(open, fault).value))
  {
    match Marshal(rec)
    case Err(e) => (log, Some(e))
    case Ok(data) =>
      match WriteFailure(open, fault)
      case Some(reason) => (log, Some(IoFailed(reason)))
      case None => (log + Frame(rec.op, data), None)
  }

  /** Close on the log's value (Registry/wal/wal.go:45-52): the flush has nothing left to write, then the file is closed. */
  function CloseOutcome(open: bool, fault: Option<string>): (r: (bool, Option<Error>))
    ensures !r.0
    ensures !open ==> r.1 == Some(IoFailed("close wal.log: file already closed"))
    ensures open ==> r.1 == (if fault.Some? then Some(IoFailed(fault.value)) else None)
  {
    if !open then (false, Some(IoFailed("close wal.log: file already closed")))
    else (false, if fault.Some? then Some(IoFailed(fault.value)) else None)
  }

  /** Once the log is closed every append fails and the file no longer changes. */
  lemma AppendAfterClose(log: seq<byte>, open: bool, closeFault: Option<string>, rec: WalRecord, fault: Option<string>)
    ensures var (open', _) := CloseOutcome(open, closeFault);
      var (after, err) := AppendTo(log, open', rec, fault);
      err.Some? && after == log
  {
  }

  /** binary.BigEndian.PutUint16. */
  method PutUint16(buf: array<byte>, off: nat, v: int)
    requires off + 2 <= buf.Length && 0 <= v < 0x1_0000
    modifies buf
    ensures buf[off] as int * 256 + buf[off + 1] as int == v
    ensures forall i :: 0 <= i < buf.Length && i != off && i != off + 1 ==> buf[i] == old(buf[i])
  {
    buf[off] := v / 256;
    buf[off + 1] := v % 256;
  }

  /** binary.BigEndian.PutUint32. */
  method PutUint32(buf: array<byte>, off: nat, v: int)
    requires off + 4 <= buf.Length && 0 <= v < TwoTo32
    modifies buf
    ensures buf[off..off + 4] == EncU32(v)
    ensures forall i :: 0 <= i < buf.Length && !(off <= i < off + 4) ==> buf[i] == old(buf[i])
  {
    var w := v;
    buf[off + 3] := w % 256;
    w := w / 256;
    buf[off + 2] := w % 256;
    w := w / 256;
    buf[off + 1] := w % 256;
    buf[off] := w / 256;
  }

  /** The header buffer of Append (Registry/wal/wal.go:65-69). */
  method FillHeader(op: int32, size: nat) returns (header: array<byte>)
    ensures fresh(header)
    ensures header[..] == Header(op, size)
  {
    header := new byte[HeaderSize];
    PutUint16(header, 0, Magic);
    header[2] := Version;
    header[3] := op % 256;
    PutUint32(header, 4, size % TwoTo32);
    assert header[..4] == [Magic / 256, Magic % 256, Version, op % 256];
    assert header[..] == header[..4] + header[4..8];
  }

  /** The trailer buffer of Append (Registry/wal/wal.go:79-80). */
  method FillTrailer(crc: int) returns (trailer: array<byte>)
    requires 0 <= crc < TwoTo32
    ensures fresh(trailer)
    ensures trailer[..] == EncU32(crc)
  {
    trailer := new byte[TrailerSize];
    PutUint32(trailer, 0, crc);
    assert trailer[..] == trailer[0..4];
  }

  /** The three buffers Append writes for a marshalled payload: header, payload and CRC trailer. */
  method WriteFrame(op: int32, data: seq<byte>) returns (frame: seq<byte>)
    ensures frame == Frame(op, data)
  {
    var crc := Checksum(data) as int;
    var header := FillHeader(op, |data|);
    var trailer := FillTrailer(crc);
    frame := header[..] + data + trailer[..];
  }

  /** WALer: the bytes of wal.log and whether the file is still open. */
  class WriteAheadLog {
    var bytes: seq<byte>
    var open: bool

    /** OpenWAL: wal.log opened for appending, with whatever it already holds. */
    constructor Open(existing: seq<byte>)
      ensures bytes == existing && open
    {
      bytes := existing;
      open := true;
    }

    /**
     * Append (Registry/wal/wal.go:54-86): marshal the record, checksum the
     * payload, fill the header and the trailer, write the three pieces and
     * flush. `fault` is the failure the file system reports, if any.
     */
    method Append(rec: WalRecord, fault: Option<string>) returns (err: Option<Error>)
      modifies this
      ensures open == old(open)
      ensures (bytes, err) == AppendTo(old(bytes), open, rec, fault)
    {
      var marshalled := Marshal(rec);
      if marshalled.Err? {
        err := Some(marshalled.error);
      } else {
        var frame := WriteFrame(rec.op, marshalled.value);
        var failure := WriteFailure(open, fault);
        if failure.Some? {
          err := Some(IoFailed(failure.value));
        } else {
          bytes := bytes + frame;
          err := None;
        }
      }
    }

    /** Close (Registry/wal/wal.go:45-52). `fault` is the failure f.Close reports, if any. */
    method Close(fault: Option<string>) returns (err: Option<Error>)
      modifies this
      ensures bytes == old(bytes)
      ensures (open, err) == CloseOutcome(old(open), fault)
    {
      if !open {
        return Some(IoFailed("close wal.log: file already closed"));
      }
      open := false;
      if fault.Some? {
        return Some(IoFailed(fault.value));
      }
      return None;
    }
  }
}
