/**
 The address header at the start of a TCP stream, as server_recv_cb of src/server.c reads it.
 */
module TcpHeader {
  import opened Bytes

  /** Where the client wants to go; the port is in network order. */
  datatype Target =
    | Ip4(addr: seq<byte>, port: seq<byte>)
    | Domain(name: seq<byte>, port: seq<byte>)
    | Ip6(addr: seq<byte>, port: seq<byte>)

  /** What the server knows about names: which are address literals, which are valid, which are blocked. */
  datatype Policy = Policy(isLiteral: seq<byte> -> bool, isValid: seq<byte> -> bool, isBlocked: seq<byte> -> bool)

  datatype Header =
    | Rejected                                             // the server stops
    | Blocked                                              // the connection is closed
    | Accepted(target: Target, offset: nat, query: bool)   // query: the name must be resolved

  const ADDRTYPE_MASK := 16   // the type is atyp & 0xF

  function Parse(p: seq<byte>, policy: Policy): (h: Header)
    requires |p| > 0
    ensures h.Accepted? ==> 0 < h.offset <= |p|
  {
    var atyp := p[0] as int % ADDRTYPE_MASK;
    if atyp == 1 then
      if |p| >= 7 then Accepted(Ip4(p[1..5], p[5..7]), 7, false) else Rejected
    else if atyp == 3 then
      if |p| >= 2 && p[1] as int + 4 <= |p| then
        var end := 2 + p[1] as int;
        var name := p[2..end];
        if policy.isBlocked(name) then Blocked
        else if policy.isLiteral(name) then Accepted(Domain(name, p[end..end + 2]), end + 2, false)
        else if policy.isValid(name) then Accepted(Domain(name, p[end..end + 2]), end + 2, true)
        else Rejected
      else Rejected
    else if atyp == 4 then
      if |p| >= 19 then Accepted(Ip6(p[1..17], p[17..19]), 19, false) else Rejected
    else Rejected
  }

  /** The bytes of the address after the type byte, in a header. */
  function AddressBytes(t: Target): seq<byte> {
    match t
    case Ip4(addr, _) => addr
    case Domain(name, _) => if |name| < 256 then [|name| as byte] + name else []
    case Ip6(addr, _) => addr
  }

  /** An accepted header is the type byte, the address and the port, with the payload right after it; only a name that
      is no literal is resolved. */
  lemma AcceptedFields(p: seq<byte>, policy: Policy)
    requires |p| > 0 && Parse(p, policy).Accepted?
    ensures var h := Parse(p, policy);
            && p[..h.offset] == [p[0]] + AddressBytes(h.target) + h.target.port && |h.target.port| == 2
            && p[0] as int % 16 == (match h.target case Ip4(_, _) => 1 case Domain(_, _) => 3 case Ip6(_, _) => 4)
            && (h.target.Ip4? ==> |h.target.addr| == 4) && (h.target.Ip6? ==> |h.target.addr| == 16)
            && (h.query <==> h.target.Domain? && !policy.isLiteral(h.target.name))
  {
  }

  /** Which headers are not accepted: an unknown type, one cut short, and a name that is blocked, or neither a
      literal nor valid. */
  lemma AcceptedExactly(p: seq<byte>, policy: Policy)
    requires |p| > 0
    ensures Parse(p, policy).Accepted? <==>
              match p[0] as int % 16
              case 1 => |p| >= 1 + 4 + 2
              case 3 =>
                && |p| >= 2 && |p| >= 1 + 1 + p[1] as int + 2
                && (var name := p[2..2 + p[1] as int];
                    !policy.isBlocked(name) && (policy.isLiteral(name) || policy.isValid(name)))
              case 4 => |p| >= 1 + 16 + 2
              case _ => false
    ensures Parse(p, policy).Blocked? <==>
              p[0] as int % 16 == 3 && |p| >= 2 && |p| >= 4 + p[1] as int && policy.isBlocked(p[2..2 + p[1] as int])
  {
  }
}
