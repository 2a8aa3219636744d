/** Socket addresses as the port mapper compares them. */
module Sockaddr {

  /** The address family of a `sockaddr_storage`; anything but the two Internet
      families is kept apart because the code treats it as never equal to anything. */
  datatype Family = Inet | Inet6 | OtherFamily(code: bv16)

  /** The IP address is kept as its bytes in network order (4 or 16 of them). */
  datatype Addr = Addr(family: Family, ip: seq<bv8>, port: bv16)

  /** A port number handed out by a successful bind. */
  type TcpPort = p: bv16 | p != 0 witness 1

  /** UDP port of the port mapper service. */
  const PM_PORT: bv16 := 3935

  predicate Internet(f: Family) {
    f == Inet || f == Inet6
  }

  function IpLength(f: Family): nat {
    match f
    case Inet => 4
    case Inet6 => 16
    case OtherFamily(_) => 0
  }

  function Wildcard(f: Family): seq<bv8> {
    seq(IpLength(f), _ => 0)
  }

  /** `get_sockaddr_port`: 0 for a family it does not know. */
  function PortOf(a: Addr): bv16 {
    if Internet(a.family) then a.port else 0
  }

  /** `check_same_sockaddr`: equality, but never for an unknown family. */
  predicate Same(a: Addr, b: Addr) {
    a.family == b.family && Internet(a.family) && a.ip == b.ip && a.port == b.port
  }

  /** `is_wcard_ipaddr` */
  predicate IsWild(a: Addr) {
    Internet(a.family) && a.ip == Wildcard(a.family)
  }

  /** The wildcard addresses are 0.0.0.0 and ::. */
  lemma WildcardsAreZero(a: Addr)
    ensures IsWild(a) <==>
            || (a.family == Inet && a.ip == [0, 0, 0, 0])
            || (a.family == Inet6 && a.ip == [0, 0, 0, 0, 0, 0, 0, 0, 0, 0, 0, 0, 0, 0, 0, 0])
  {
    assert Wildcard(Inet) == [0, 0, 0, 0];
    assert Wildcard(Inet6) == [0, 0, 0, 0, 0, 0, 0, 0, 0, 0, 0, 0, 0, 0, 0, 0];
  }

  /** `copy_iwpm_sockaddr` into message fields of family `f`. Reading a sockaddr of the
      other family through the wrong struct layout yields bytes the model does not
      predict; they are the parameter `alien`. */
  function CopyAs(f: Family, a: Addr, alien: Addr): Addr {
    if a.family == f then a else Addr(f, alien.ip, alien.port)
  }
}
