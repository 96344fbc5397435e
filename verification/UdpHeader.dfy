/**
 The address header of a UDP packet: construct_udprelay_header and parse_udprelay_header of src/udprelay.c,
 and the socket addresses they read and fill.
 */
module UdpHeader {
  import opened Bytes

  const AF_UNSPEC: nat := 0
  const AF_INET: nat := 2
  const AF_INET6: nat := 10
  const STORAGE_SIZE: nat := 128

  /** struct sockaddr_storage. The family is in bytes 0 and 1 and the port, in network order, in bytes 2 and 3; an IPv4
      address is in bytes 4 to 7, an IPv6 address in bytes 8 to 23. */
  type Addr = a: seq<byte> | |a| == STORAGE_SIZE witness seq(STORAGE_SIZE, _ => 0)

  function Family(a: Addr): nat {
    a[0] as int + 256 * a[1] as int
  }

  function Storage4(addr: seq<byte>, port: seq<byte>): Addr
    requires |addr| == 4 && |port| == 2
  {
    [2, 0] + port + addr + Zeros(120)
  }

  function Storage6(addr: seq<byte>, port: seq<byte>): Addr
    requires |addr| == 16 && |port| == 2
  {
    [10, 0] + port + Zeros(4) + addr + Zeros(104)
  }

  /** construct_udprelay_header; an empty header stands for its result 0. */
  function Construct(a: Addr): seq<byte> {
    if Family(a) == AF_INET then [1] + a[4..8] + a[2..4]
    else if Family(a) == AF_INET6 then [4] + a[8..24] + a[2..4]
    else []
  }

  /** What cork_ip_init and inet_pton make of a name. */
  datatype Literal = NotAnIp | Ip4(addr: seq<byte>) | Ip6(addr: seq<byte>)

  /** Addresses have their lengths. */
  ghost predicate Sized(literal: seq<byte> -> Literal) {
    forall name :: (literal(name).Ip4? ==> |literal(name).addr| == 4) &&
      (literal(name).Ip6? ==> |literal(name).addr| == 16)
  }

  /** The host: the bytes of an address, or a name. */
  datatype Host = Host4(addr: seq<byte>) | Name(name: seq<byte>) | Host6(addr: seq<byte>)

  datatype Parsed = Invalid | Parsed(offset: nat, host: Host, port: nat, storage: Addr)

  /** parse_udprelay_header on a buffer that is not empty. A name that is an IPv6 literal gets the family and
      the port but no address, because the source converts it as an IPv4 address. */
  function Parse(buf: seq<byte>, literal: seq<byte> -> Literal): Parsed
    requires |buf| > 0
    requires Sized(literal)
  {
    var atyp := buf[0] as int % 16;
    if atyp == 1 && |buf| >= 7 then
      Parsed(7, Host4(buf[1..5]), Load16Be(buf[5..7]), Storage4(buf[1..5], buf[5..7]))
    else if atyp == 3 && |buf| >= 2 && buf[1] as int + 4 <= |buf| then
      var end := 2 + buf[1] as int;
      var name, port := buf[2..end], buf[end..end + 2];
      var storage := match literal(name)
        case NotAnIp => Zeros(128)
        case Ip4(addr) => Storage4(addr, port)
        case Ip6(_) => Storage6(Zeros(16), port);
      Parsed(end + 2, Name(name), Load16Be(port), storage)
    else if atyp == 4 && |buf| >= 19 then
      Parsed(19, Host6(buf[1..17]), Load16Be(buf[17..19]), Storage6(buf[1..17], buf[17..19]))
    else
      Invalid
  }

  /** Where the parts of a parsed header come from, in plain bytes; a port has its high byte first. */
  lemma ParsedFields(buf: seq<byte>, literal: seq<byte> -> Literal)
    requires |buf| > 0 && Sized(literal) && Parse(buf, literal).Parsed?
    ensures var p := Parse(buf, literal);
            && 2 < p.offset <= |buf| && p.port == 256 * (buf[p.offset - 2] as int) + buf[p.offset - 1]
            && match p.host
               case Host4(addr) =>
                 && buf[0] % 16 == 1 && p.offset == 7 && addr == buf[1..5]
                 && p.storage[2..4] == buf[5..7] && p.storage[4..8] == addr
               case Name(name) => buf[0] % 16 == 3 && |name| == buf[1] && p.offset == |name| + 4 &&
                 name == buf[2..2 + |name|]
               case Host6(addr) =>
                 && buf[0] % 16 == 4 && p.offset == 19 && addr == buf[1..17]
                 && p.storage[2..4] == buf[17..19] && p.storage[8..24] == addr
  {
    var p := Parse(buf, literal);
    if p.host.Host4? {
      Storage4Parts(buf[1..5], buf[5..7]);
    } else if p.host.Host6? {
      Storage6Parts(buf[1..17], buf[17..19]);
    }
  }

  /** Which buffers hold a header: the types 1, 3 and 4 in the low four bits, with all of their address and port. */
  lemma ParsedExactly(buf: seq<byte>, literal: seq<byte> -> Literal)
    requires |buf| > 0 && Sized(literal)
    ensures Parse(buf, literal).Invalid? <==>
              match buf[0] as int % 16
              case 1 => |buf| < 1 + 4 + 2
              case 3 => |buf| < 2 || |buf| < 1 + 1 + buf[1] as int + 2
              case 4 => |buf| < 1 + 16 + 2
              case _ => true
  {
  }

  /** sockaddr_cmp gives 0: the two name the same peer. */
  predicate SockaddrEqual(a: Addr, b: Addr) {
    && Family(a) == Family(b)
    && if Family(a) == AF_INET then a[2..4] == b[2..4] && a[4..8] == b[4..8]
       else if Family(a) == AF_INET6 then a[2..4] == b[2..4] && a[8..24] == b[8..24]
       else a == b
  }

  lemma Storage4Parts(addr: seq<byte>, port: seq<byte>)
    requires |addr| == 4 && |port| == 2
    ensures var a := Storage4(addr, port); Family(a) == AF_INET && a[2..4] == port && a[4..8] == addr
  {
    var a := Storage4(addr, port);
    assert a[0] == 2 && a[1] == 0;
    assert a[2..4] == port;
    assert a[4..8] == addr;
  }

  lemma Storage6Parts(addr: seq<byte>, port: seq<byte>)
    requires |addr| == 16 && |port| == 2
    ensures var a := Storage6(addr, port); Family(a) == AF_INET6 && a[2..4] == port && a[8..24] == addr
  {
    var a := Storage6(addr, port);
    assert a[0] == 10 && a[1] == 0;
    assert a[2..4] == port;
    assert a[8..24] == addr;
  }

  /** A constructed header is parsed, whatever follows it, to the same peer, and the offset is its length. */
  lemma HeaderRoundTrip(a: Addr, payload: seq<byte>, literal: seq<byte> -> Literal)
    requires Sized(literal)
    requires Family(a) == AF_INET || Family(a) == AF_INET6
    ensures var p := Parse(Construct(a) + payload, literal);
            p.Parsed? && p.offset == |Construct(a)| && SockaddrEqual(p.storage, a)
            && (Construct(a) + payload)[p.offset..] == payload
  {
    var buf := Construct(a) + payload;
    if Family(a) == AF_INET {
      assert buf[0] == 1;
      assert buf[1..5] == a[4..8];
      assert buf[5..7] == a[2..4];
      Storage4Parts(a[4..8], a[2..4]);
    } else {
      assert buf[0] == 4;
      assert buf[1..17] == a[8..24];
      assert buf[17..19] == a[2..4];
      Storage6Parts(a[8..24], a[2..4]);
    }
  }

  /** Conversely, an address header whose type byte is exactly 1 or 4 is what its address is constructed into. */
  lemma ParsedRebuilds(buf: seq<byte>, literal: seq<byte> -> Literal)
    requires |buf| > 0 && Sized(literal)
    requires (buf[0] == 1 || buf[0] == 4) && Parse(buf, literal).Parsed?
    ensures var p := Parse(buf, literal); p.offset <= |buf| && Construct(p.storage) == buf[..p.offset]
  {
    if buf[0] == 1 {
      Storage4Parts(buf[1..5], buf[5..7]);
      assert buf[..7] == [buf[0]] + buf[1..5] + buf[5..7];
    } else {
      Storage6Parts(buf[1..17], buf[17..19]);
      assert buf[..19] == [buf[0]] + buf[1..17] + buf[17..19];
    }
  }

  /** The address that a literal stands for. */
  function Meant(l: Literal, port: seq<byte>): Addr
    requires |port| == 2 && (l.Ip4? ==> |l.addr| == 4) && (l.Ip6? ==> |l.addr| == 16)
  {
    match l
    case NotAnIp => Zeros(128)
    case Ip4(addr) => Storage4(addr, port)
    case Ip6(addr) => Storage6(addr, port)
  }

  /** A header of type 3 with all of its name and port. */
  predicate Named(buf: seq<byte>) {
    |buf| >= 2 && buf[0] as int % 16 == 3 && buf[1] as int + 4 <= |buf|
  }

  /** A name that is an address literal is parsed to the address that it stands for exactly when it is an IPv4
      literal, or stands for the IPv6 address of zeros. */
  lemma LiteralExactly(buf: seq<byte>, literal: seq<byte> -> Literal)
    requires Sized(literal) && Named(buf)
    ensures var end := 2 + buf[1] as int;
            var l := literal(buf[2..end]);
            SockaddrEqual(Parse(buf, literal).storage, Meant(l, buf[end..end + 2])) <==>
              (l.Ip6? ==> l.addr == Zeros(16))
  {
    var end := 2 + buf[1] as int;
    var l, port := literal(buf[2..end]), buf[end..end + 2];
    if l.Ip6? {
      Storage6Parts(Zeros(16), port);
      Storage6Parts(l.addr, port);
    }
  }

  const LOOPBACK: seq<byte> := [58, 58, 49]   // ::1

  /** The name ::1 is parsed to the address :: instead. */
  lemma LoopbackMisread(literal: seq<byte> -> Literal)
    requires Sized(literal) && literal(LOOPBACK) == Ip6(Zeros(15) + [1])
    ensures Named([3, 3] + LOOPBACK + [0, 80])
    ensures Parse([3, 3] + LOOPBACK + [0, 80], literal).storage == Storage6(Zeros(16), [0, 80])
    ensures !SockaddrEqual(Storage6(Zeros(16), [0, 80]), Storage6(Zeros(15) + [1], [0, 80]))
  {
    var buf := [3, 3] + LOOPBACK + [0, 80];
    assert buf[2..5] == LOOPBACK && buf[5..7] == [0, 80];
    Storage6Parts(Zeros(16), [0, 80]);
    Storage6Parts(Zeros(15) + [1], [0, 80]);
    assert Zeros(16)[15] != (Zeros(15) + [1])[15];
  }
}
