/**
  socks5.go: the protocol constants, the method-negotiation message of
  section 3 of RFC 1928, the request layout of section 4 with the address
  encodings of section 5, and the `Socks5` client greeting.
 */
module Socks5 {
  import opened Base
  import opened Streams

  const Version5: byte := 5

  /** `Ver5`, the version byte the connection code writes, is declared in a
      file that is not part of this model; it is taken to equal Version5. */
  const Ver5: byte := Version5

  // Authentication methods.
  const MethodNoAuth: byte := 0
  const MethodGSSAPI: byte := 1
  const MethodUserPass: byte := 2
  const MethodNoAcceptable: byte := 0xFF

  // Commands.
  const CmdConnect: byte := 1
  const CmdBind: byte := 2
  const CmdUdp: byte := 3

  // Address types.
  const AddrIPv4: byte := 1
  const AddrDomainName: byte := 3
  const AddrIPv6: byte := 4

  // Reply codes.
  const Succeeded: byte := 0
  const Failure: byte := 1
  const NotAllowed: byte := 2
  const NetUnreachable: byte := 3
  const HostUnreachable: byte := 4
  const ConnRefused: byte := 5
  const TTLExpired: byte := 6
  const CmdUnsupported: byte := 7
  const AddrUnsupported: byte := 8

  // ---------------------------------------------------------------------
  // The method-negotiation message: VER | NMETHODS | METHODS

  /** The message offering `methods`, as a value. */
  function MethodsMessage(methods: seq<byte>): seq<byte>
    requires |methods| <= 255
  {
    var n: byte := |methods|;
    [Version5, n] + methods
  }

  /** A reader of the method-negotiation message, written from its layout:
      version 5, a count, and exactly that many method bytes. It is the
      inverse that `MethodsMessage` is checked against. */
  function DecodeMethods(b: seq<byte>): Option<seq<byte>> {
    if |b| >= 2 && b[0] == Version5 && |b| == 2 + b[1] as int then Some(b[2..]) else None
  }

  lemma MethodsMessageDecodes(methods: seq<byte>)
    requires |methods| <= 255
    ensures DecodeMethods(MethodsMessage(methods)) == Some(methods)
  {
    assert MethodsMessage(methods)[2..] == methods;
  }

  lemma DecodedMethodsEncode(b: seq<byte>, methods: seq<byte>)
    requires DecodeMethods(b) == Some(methods)
    ensures |methods| <= 255 && MethodsMessage(methods) == b
  {
    assert b == b[..2] + b[2..];
  }

  /** A stream reader of the same message that trusts the count, reading
      the version, the count and then that many method bytes, and leaving
      whatever follows for the next read. */
  function ReadCountedMethods(b: seq<byte>): Parsed<seq<byte>> {
    if |b| == 0 then Parsed(Err(EOF), 0)
    else if |b| < 2 then Parsed(Err(UnexpectedEOF), |b|)
    else if b[0] != Version5 then Parsed(Err(BadVersion), 2)
    else if |b| < 2 + b[1] as int then Parsed(Err(UnexpectedEOF), |b|)
    else Parsed(Ok(b[2..2 + b[1] as int]), 2 + b[1] as int)
  }

  /** On a well-formed message, whatever follows it, the stream reader
      takes exactly the message and finds the methods `DecodeMethods` does. */
  lemma CountedReaderReadsMessage(b: seq<byte>, rest: seq<byte>)
    requires DecodeMethods(b).Some?
    ensures ReadCountedMethods(b + rest) == Parsed(Ok(DecodeMethods(b).value), |b|)
  {
    assert (b + rest)[..|b|] == b;
    assert (b + rest)[2..|b|] == b[2..];
  }

  /** `Methods.Encode`: fills a 257-byte buffer with the version, the count
      and the methods in order, and returns the filled part. More than 255
      methods would overrun the buffer, so the caller must not pass them. */
  method EncodeMethods(methods: seq<byte>) returns (b: seq<byte>)
    requires |methods| <= 255
    ensures |b| == 2 + |methods|
    ensures b == MethodsMessage(methods)
  {
    var buf := new byte[257](_ => 0);
    var pos := 0;
    buf[pos] := Version5;
    pos := pos + 1;
    buf[pos] := |methods|;
    pos := pos + 1;
    for i := 0 to |methods|
      invariant pos == 2 + i
      invariant buf[..pos] == [Version5, |methods|] + methods[..i]
    {
      buf[pos] := methods[i];
      assert methods[..i + 1] == methods[..i] + [methods[i]];
      pos := pos + 1;
    }
    assert methods[..|methods|] == methods;
    b := buf[..pos];
  }

  // ---------------------------------------------------------------------
  // The greeting of a Socks5 client

  /** `Socks5`: a connection and the methods it offers. */
  class Socks5 {
    var conn: Stream
    var methods: seq<byte>

    /** `NewSocks5`: an empty method list becomes the list [NoAuth]. */
    constructor NewSocks5(conn: Stream, methods: seq<byte>)
      ensures this.conn == conn
      ensures this.methods == if |methods| == 0 then [MethodNoAuth] else methods
    {
      this.conn := conn;
      this.methods := methods;
      new;
      if |this.methods| == 0 {
        this.methods := this.methods + [MethodNoAuth];
      }
    }

    /** `Init`: sends the method list, then reads up to two bytes without
        looking at them. No read happens once the write has failed. */
    method Init() returns (err: Option<Error>)
      requires |methods| <= 255
      modifies this`conn
      ensures old(conn).writeFails ==> err == Some(WriteFailure) && conn == old(conn)
      ensures !old(conn).writeFails ==>
        var r := ReadSome(old(conn).(output := old(conn).output + MethodsMessage(methods)), 2);
        conn == r.s && err == r.result.ErrorOf()
    {
      var b := new byte[2](_ => 0);
      var hello := EncodeMethods(methods);
      var w := Write(conn, hello);
      conn := w.s;
      if w.result.Err? {
        return Some(w.result.error);
      }
      var r := ReadSome(conn, b.Length);
      conn := r.s;
      if r.result.Err? {
        return Some(r.result.error);
      }
      return None;
    }
  }

  // ---------------------------------------------------------------------
  // The request layout: VER | CMD | RSV | ATYP | DST.ADDR | DST.PORT

  /** The fields of a `CMD`. The address is held as bytes: the text of a
      domain name, or the raw bytes of an IP address (the parsing and
      printing of IP text is not part of this model). */
  datatype CmdFields = CmdFields(cmd: byte, atype: byte, addr: seq<byte>, port: uint16)

  /** The twelve bytes that begin an IPv4 address held in 16 bytes. */
  const V4InV6Prefix: seq<byte> := [0, 0, 0, 0, 0, 0, 0, 0, 0, 0, 0xff, 0xff]

  /** `net.IP.To4` on raw bytes: a 4-byte address as it is, the last four
      bytes of an IPv4-mapped 16-byte address, and nil otherwise. */
  function To4(ip: seq<byte>): seq<byte> {
    if |ip| == 4 then ip
    else if |ip| == 16 && ip[..12] == V4InV6Prefix then ip[12..]
    else []
  }

  /** `net.IP.To16` on raw bytes: a 4-byte address mapped into 16 bytes, a
      16-byte address as it is, and nil otherwise. */
  function To16(ip: seq<byte>): seq<byte> {
    if |ip| == 4 then V4InV6Prefix + ip
    else if |ip| == 16 then ip
    else []
  }

  /** `CMD.Encode` writes into a 128-byte buffer: a domain name longer than
      121 bytes leaves no room for the port and the write panics. */
  predicate Encodable(f: CmdFields) {
    f.atype == AddrDomainName ==> |f.addr| <= 121
  }

  predicate KnownAType(atype: byte) {
    atype == AddrIPv4 || atype == AddrDomainName || atype == AddrIPv6
  }

  /** The address bytes `CMD.Encode` writes for each address type; an
      unknown type writes none. */
  function AddrField(f: CmdFields): seq<byte>
    requires Encodable(f)
  {
    if f.atype == AddrIPv4 then To4(f.addr)
    else if f.atype == AddrDomainName then
      var n: byte := |f.addr|;
      [n] + f.addr
    else if f.atype == AddrIPv6 then To16(f.addr)
    else []
  }

  /** `binary.BigEndian.PutUint16`. */
  function PortBytes(p: uint16): seq<byte> {
    [p / 0x100, p % 0x100]
  }

  /** `binary.BigEndian.Uint16`. */
  function BigEndian16(b: seq<byte>): uint16
    requires |b| >= 2
  {
    b[0] as int * 0x100 + b[1] as int
  }

  /** The bytes of a request, as a value; RSV is always 0. */
  function RequestBytes(f: CmdFields): seq<byte>
    requires Encodable(f)
  {
    [Version5, f.cmd, 0, f.atype] + AddrField(f) + PortBytes(f.port)
  }

  /** What `CMD.Decode` needs of its input not to index past its end. */
  predicate DecodeFits(data: seq<byte>) {
    |data| >= 4 &&
    if data[3] == AddrIPv4 then |data| >= 10
    else if data[3] == AddrDomainName then |data| >= 5 && |data| >= 7 + data[4] as int
    else if data[3] == AddrIPv6 then |data| >= 22
    else |data| >= 6
  }

  /** The fields `CMD.Decode` leaves in a receiver that held `prev`. The
      version and RSV bytes are not looked at, and an unknown address type
      leaves the old address in place. */
  function Decoded(prev: CmdFields, data: seq<byte>): CmdFields
    requires DecodeFits(data)
  {
    var at := data[3];
    if at == AddrIPv4 then CmdFields(data[1], at, data[4..8], BigEndian16(data[8..]))
    else if at == AddrDomainName then
      var n := data[4];
      CmdFields(data[1], at, data[5..5 + n as int], BigEndian16(data[5 + n as int..]))
    else if at == AddrIPv6 then CmdFields(data[1], at, data[4..20], BigEndian16(data[20..]))
    else CmdFields(data[1], at, prev.addr, BigEndian16(data[4..]))
  }

  /** Version, command, a zero RSV byte and the address type lead every
      request, and the port is its last two bytes, big-endian. */
  lemma RequestFrame(f: CmdFields)
    requires Encodable(f)
    ensures var b := RequestBytes(f);
      && |b| >= 6 && b[0] == Version5 && b[1] == f.cmd && b[2] == 0 && b[3] == f.atype
      && b[|b| - 2..] == PortBytes(f.port)
      && BigEndian16(b[|b| - 2..]) == f.port
  {
  }

  /** The encoded length for each address type; it always fits the
      128-byte buffer. */
  lemma RequestLength(f: CmdFields)
    requires Encodable(f)
    ensures |RequestBytes(f)| <= 128
    ensures f.atype == AddrIPv4 && |f.addr| == 4 ==> |RequestBytes(f)| == 10
    ensures f.atype == AddrIPv6 && (|f.addr| == 4 || |f.addr| == 16) ==> |RequestBytes(f)| == 22
    ensures f.atype == AddrDomainName ==> |RequestBytes(f)| == 7 + |f.addr|
    ensures !KnownAType(f.atype) ==> |RequestBytes(f)| == 6
  {
  }

  /** Decoding an encoded request gives back its fields; for an unknown
      address type the receiver keeps its old address, since neither side
      looks at one. IP addresses come back when they are given in the width
      of their type. */
  lemma DecodeEncode(prev: CmdFields, f: CmdFields)
    requires Encodable(f)
    requires f.atype == AddrIPv4 ==> |f.addr| == 4
    requires f.atype == AddrIPv6 ==> |f.addr| == 16
    ensures DecodeFits(RequestBytes(f))
    ensures Decoded(prev, RequestBytes(f)) == if KnownAType(f.atype) then f else f.(addr := prev.addr)
  {
    var b := RequestBytes(f);
    var field := AddrField(f);
    assert b == [Version5, f.cmd, 0, f.atype] + field + PortBytes(f.port);
    assert b[4..4 + |field|] == field;
    assert b[4 + |field|..] == PortBytes(f.port);
    if f.atype == AddrDomainName {
      assert b[5..5 + |f.addr|] == f.addr;
    }
  }

  /** Conversely, a well-formed request that `Decode` reads in full is
      given back byte for byte by `Encode`. */
  lemma EncodeDecode(prev: CmdFields, data: seq<byte>)
    requires DecodeFits(data)
    requires data[0] == Version5 && data[2] == 0
    requires data[3] == AddrDomainName ==> data[4] <= 121
    requires |data| == 6 + |AddrFieldOf(data)|
    ensures Encodable(Decoded(prev, data))
    ensures RequestBytes(Decoded(prev, data)) == data
  {
    var f := Decoded(prev, data);
    DecodedParts(prev, data);
    var n := |AddrFieldOf(data)|;
    PortRoundTrip(data[4 + n..]);
    Reassemble(data, [Version5, f.cmd, 0, f.atype], AddrField(f), PortBytes(f.port));
  }

  /** Two bytes read as a big-endian port are written back unchanged. */
  lemma PortRoundTrip(b: seq<byte>)
    requires |b| == 2
    ensures PortBytes(BigEndian16(b)) == b
  {
  }

  /** A byte string is its first four bytes, the field after them and the
      rest. */
  lemma Reassemble(data: seq<byte>, head: seq<byte>, field: seq<byte>, tail: seq<byte>)
    requires |head| == 4 && |data| == 4 + |field| + |tail|
    requires data[..4] == head && data[4..4 + |field|] == field && data[4 + |field|..] == tail
    ensures head + field + tail == data
  {
    assert data == data[..4] + data[4..4 + |field|] + data[4 + |field|..];
  }

  /** The parts of a decoded request: the command and type bytes, the
      address bytes `Decode` delimited (which the decoded fields encode
      to), and the port after them. */
  lemma DecodedParts(prev: CmdFields, data: seq<byte>)
    requires DecodeFits(data)
    requires data[3] == AddrDomainName ==> data[4] <= 121
    ensures var f := Decoded(prev, data);
      var n := |AddrFieldOf(data)|;
      && Encodable(f)
      && f.cmd == data[1] && f.atype == data[3]
      && 4 + n + 2 <= |data|
      && data[4..4 + n] == AddrFieldOf(data)
      && AddrField(f) == AddrFieldOf(data)
      && f.port == BigEndian16(data[4 + n..])
  {
    var f := Decoded(prev, data);
    if data[3] == AddrDomainName {
      assert f.addr == data[5..5 + data[4] as int];
      assert data[4..5 + data[4] as int] == [data[4]] + data[5..5 + data[4] as int];
    }
  }

  /** The address bytes of a request as `Decode` delimits them. */
  function AddrFieldOf(data: seq<byte>): seq<byte>
    requires DecodeFits(data)
  {
    var at := data[3];
    if at == AddrIPv4 then data[4..8]
    else if at == AddrDomainName then data[4..5 + data[4] as int]
    else if at == AddrIPv6 then data[4..20]
    else []
  }

  /** `Decode` does not look at the version or the RSV byte. */
  lemma DecodeIgnoresVersionAndReserved(prev: CmdFields, data: seq<byte>, v: byte, r: byte)
    requires DecodeFits(data)
    ensures DecodeFits(data[0 := v][2 := r])
    ensures Decoded(prev, data[0 := v][2 := r]) == Decoded(prev, data)
  {
    var d := data[0 := v][2 := r];
    assert d[3..] == data[3..];
    assert d[1] == data[1];
  }

  /** An IPv4 request whose address is not an IPv4 address is encoded with
      no address bytes at all, and `Decode` cannot read the result back. */
  lemma NonIPv4AddressIsDropped(f: CmdFields)
    requires f.atype == AddrIPv4 && To4(f.addr) == []
    ensures |RequestBytes(f)| == 6 && !DecodeFits(RequestBytes(f))
  {
  }

  /** Go's built-in `copy(dst[at:], src)`: copies as much of `src` as fits. */
  method Copy(dst: array<byte>, at: nat, src: seq<byte>) returns (n: nat)
    requires at <= dst.Length
    modifies dst
    ensures n == Min(|src|, dst.Length - at)
    ensures dst[at..at + n] == src[..n]
    ensures dst[..at] == old(dst[..at]) && dst[at + n..] == old(dst[at + n..])
  {
    n := Min(|src|, dst.Length - at);
    for i := 0 to n
      invariant forall k :: 0 <= k < i ==> dst[at + k] == src[k]
      invariant forall k :: 0 <= k < dst.Length && !(at <= k < at + i) ==> dst[k] == old(dst[k])
    {
      dst[at + i] := src[i];
    }
  }

  /** The `switch` of `CMD.Encode`: writes the address bytes of `f` from
      offset 4 and returns the offset after them. */
  method PutAddr(buf: array<byte>, f: CmdFields) returns (pos: nat)
    requires buf.Length == 128 && Encodable(f)
    modifies buf
    ensures pos == 4 + |AddrField(f)|
    ensures buf[..pos] == old(buf[..4]) + AddrField(f)
  {
    pos := 4;
    if f.atype == AddrIPv4 {
      var field := To4(f.addr);
      var n := Copy(buf, pos, field);
      assert n == |field|;
      assert buf[..pos + n] == buf[..pos] + buf[pos..pos + n];
      pos := pos + n;
    } else if f.atype == AddrDomainName {
      buf[pos] := |f.addr|;
      pos := pos + 1;
      var n := Copy(buf, pos, f.addr);
      assert n == |f.addr|;
      assert buf[..pos + n] == buf[..pos] + buf[pos..pos + n];
      pos := pos + n;
    } else if f.atype == AddrIPv6 {
      var field := To16(f.addr);
      var n := Copy(buf, pos, field);
      assert n == |field|;
      assert buf[..pos + n] == buf[..pos] + buf[pos..pos + n];
      pos := pos + n;
    }
  }

  /** `CMD`: a request whose fields `Decode` overwrites. */
  class Cmd {
    var cmd: byte
    var atype: byte
    var addr: seq<byte>
    var port: uint16

    /** `NewCMD`. */
    constructor NewCMD(cmd: byte, atype: byte, addr: seq<byte>, port: uint16)
      ensures Fields() == CmdFields(cmd, atype, addr, port)
    {
      this.cmd, this.atype, this.addr, this.port := cmd, atype, addr, port;
    }

    function Fields(): CmdFields
      reads this
    {
      CmdFields(cmd, atype, addr, port)
    }

    /** `CMD.Encode`: fills a zeroed 128-byte buffer field by field and
        returns the filled part. */
    method Encode() returns (b: seq<byte>)
      requires Encodable(Fields())
      ensures b == RequestBytes(Fields())
    {
      var buf := new byte[128](_ => 0);
      buf[0] := Version5;
      buf[1] := cmd;
      buf[3] := atype;
      assert buf[..4] == [Version5, cmd, 0, atype];
      var pos := PutAddr(buf, Fields());
      ghost var head := buf[..pos];
      buf[pos] := port / 0x100;
      buf[pos + 1] := port % 0x100;
      b := buf[..pos + 2];
      assert b == head + PortBytes(port);
    }

    /** `CMD.Decode`: overwrites the receiver's fields from `data`. */
    method Decode(data: seq<byte>)
      requires DecodeFits(data)
      modifies this
      ensures Fields() == Decoded(old(Fields()), data)
    {
      cmd := data[1];
      atype := data[3];
      var pos: int := 4;
      if atype == AddrIPv4 {
        addr := data[pos..pos + 4];
        pos := pos + 4;
      } else if atype == AddrDomainName {
        var length: int := data[pos];
        pos := pos + 1;
        addr := data[pos..pos + length];
        pos := pos + length;
      } else if atype == AddrIPv6 {
        addr := data[pos..pos + 16];
        pos := pos + 16;
      }
      port := BigEndian16(data[pos..]);
    }
  }
}
