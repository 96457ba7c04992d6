/**
 * The records of Registry/pkg/memstore/mem.go, the composed gateway address,
 * the derived identity and the errors the core returns.
 */
module Records {
  import opened Ranking

  /**
   * GatewayData. The wssPort field is the Wssport field that the handler and
   * the replay path set, which the revision of mem.go at hand does not list.
   */
  datatype Gateway = Gateway(
    id: string,
    ip: string,
    address: string,
    port: int32,
    wssPort: int32,
    capacity: Capacity,
    credHash: string)

  /** AgentData: the agent and a denormalised snapshot of its bound gateway. */
  datatype Agent = Agent(
    id: string,
    domain: string,
    gatewayId: string,
    gatewayIp: string,
    gatewayAddress: string,
    credHash: string)

  /** The zero AgentData, `&AgentData{}`. */
  const EmptyAgent := Agent("", "", "", "", "", "")

  /**
   * The identity derived from a credential hash and a subject (an IP or a
   * domain). The source takes the hex form of the SHA-256 of
   * `cred + "|" + subject`; the model keeps the hashed text itself and relies
   * only on the identity being a function of its two inputs.
   */
  function Identity(credHash: string, subject: string): string
  {
    credHash + "|" + subject
  }

  predicate IsDigit(c: char) { '0' <= c <= '9' }

  /** Decimal digits of a natural number, most significant first, as `%d` prints them. */
  function Digits(n: nat): (s: string)
    ensures |s| > 0 && forall i :: 0 <= i < |s| ==> IsDigit(s[i])
  {
    if n < 10 then [('0' as int + n) as char]
    else Digits(n / 10) + [('0' as int + n % 10) as char]
  }

  /** `%d` of a Go integer: a minus sign before the digits of a negative number. */
  function Decimal(n: int): string
  {
    if n < 0 then "-" + Digits(-n) else Digits(n)
  }

  /** The value of a string of decimal digits, read from the right. */
  function ParseDigits(s: string): nat
  {
    if |s| == 0 then 0
    else
      var d := s[|s| - 1] as int - '0' as int;
      ParseDigits(s[..|s| - 1]) * 10 + (if 0 <= d < 10 then d else 0)
  }

  function ParseDecimal(s: string): int
  {
    if |s| > 0 && s[0] == '-' then -(ParseDigits(s[1..]) as int) else ParseDigits(s)
  }

  lemma {:induction false} DigitsRoundTrip(n: nat)
    ensures ParseDigits(Digits(n)) == n
  {
    if n >= 10 {
      DigitsRoundTrip(n / 10);
      var s := Digits(n);
      assert s[..|s| - 1] == Digits(n / 10);
    }
  }

  /** Printing a number with `%d` loses nothing: the text reads back as the number. */
  lemma DecimalRoundTrip(n: int)
    ensures ParseDecimal(Decimal(n)) == n
  {
    if n < 0 {
      DigitsRoundTrip(-n);
      assert Decimal(n)[1..] == Digits(-n);
    } else {
      DigitsRoundTrip(n);
    }
  }

  /** No colon ever appears in the decimal form of a number. */
  lemma DecimalHasNoColon(n: int)
    ensures ':' !in Decimal(n)
  {
    var d := if n < 0 then -n else n;
    assert forall i :: 0 <= i < |Digits(d)| ==> IsDigit(Digits(d)[i]);
  }

  /** The key a gateway is stored under: `fmt.Sprintf("%s:%d", ip, port)`. */
  function Address(ip: string, port: int): (a: string)
    ensures |a| >= |ip| + 2 && a[|ip|] == ':'
  {
    ip + ":" + Decimal(port)
  }

  /**
   * The composed address names one endpoint: two (ip, port) pairs share an
   * address only if they are the same pair, even when the IP itself holds
   * colons, since the text after the last colon is the port.
   */
  lemma AddressIdentifiesEndpoint(ip1: string, p1: int, ip2: string, p2: int)
    requires Address(ip1, p1) == Address(ip2, p2)
    ensures ip1 == ip2 && p1 == p2
  {
    var a := Address(ip1, p1);
    var d1, d2 := Decimal(p1), Decimal(p2);
    assert a == ip1 + ":" + d1 == ip2 + ":" + d2;
    DecimalHasNoColon(p1);
    DecimalHasNoColon(p2);
    if |ip1| != |ip2| {
      assert false;
    } else {
      assert ip1 == a[..|ip1|] == ip2;
      assert d1 == a[|ip1| + 1..] == d2;
      DecimalRoundTrip(p1);
      DecimalRoundTrip(p2);
    }
  }

  /** The errors of the core, one per way the source fails. */
  datatype Error =
    | GatewayNotFound(address: string, region: string)   // AddAgent: no gateway under the address
    | MarshalFailed                                       // proto.Marshal refused the record
    | IoFailed(reason: string)                            // the file system refused a write or a close
    | Eof                                                 // io.EOF: nothing left to read
    | UnexpectedEof                                       // io.ErrUnexpectedEOF: a read stopped short
    | Corrupt(reason: string)                             // ErrCorrupt wrapped with its reason
    | UnmarshalFailed                                     // proto.Unmarshal refused the payload
    | MissingMessage                                      // the record lacks the sub-message its op needs
    | UnknownOp(op: int32)                                // ApplyRecord met an op it does not handle

  /** err.Error() as the handlers put it into a response. */
  function Message(e: Error): string
  {
    match e
    case GatewayNotFound(a, r) => "gateway " + a + " not found in region " + r
    case MarshalFailed => "proto: cannot marshal record"
    case IoFailed(reason) => reason
    case Eof => "EOF"
    case UnexpectedEof => "unexpected EOF"
    case Corrupt(reason) => "wal corruption detected: " + reason
    case UnmarshalFailed => "proto: cannot parse invalid wire-format data"
    case MissingMessage => "invalid memory address or nil pointer dereference"
    case UnknownOp(op) => "unknown op: " + Decimal(op)
  }
}
