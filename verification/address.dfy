/**
  The network address value of the proxy core: a host that is an IPv4
  address, an IPv6 address or a domain name, never more than one of them,
  plus a 16-bit port.

  The three variants mirror the three implementations of the `Address`
  interface; each embeds the shared port, so every constructor here has a
  field named `port`. The source panics when it is asked for something a
  variant does not have; here those calls return a `Failure` naming the
  panic, and never a default value.
 */
module Net {
  import opened Wrappers
  import Text

  type byte = x: int | 0 <= x < 0x100
  type uint16 = x: int | 0 <= x < 0x1_0000

  /** Lengths of the raw forms of the two IP families. */
  const IPv4Len: nat := 4
  const IPv6Len: nat := 16

  type IPv4Bytes = s: seq<byte> | |s| == IPv4Len witness [0, 0, 0, 0]
  type IPv6Bytes = s: seq<byte> | |s| == IPv6Len witness [0, 0, 0, 0, 0, 0, 0, 0, 0, 0, 0, 0, 0, 0, 0, 0]

  datatype Address =
    | IPv4Address(port: uint16, ip4: IPv4Bytes)
    | IPv6Address(port: uint16, ip6: IPv6Bytes)
    | DomainAddressImpl(port: uint16, domain: string)

  /** The panics the source raises on misuse. */
  datatype Panic =
    | UnknownIPFormat(ip: seq<byte>)
    | DomainOfIPv4
    | DomainOfIPv6
    | IPOfDomain

  predicate IsIPv4(a: Address) {
    a.IPv4Address?
  }

  predicate IsIPv6(a: Address) {
    a.IPv6Address?
  }

  predicate IsDomain(a: Address) {
    a.DomainAddressImpl?
  }

  /** Raw IP of an address; a panic on a domain address. */
  function IP(a: Address): (r: Result<seq<byte>, Panic>)
    ensures r.Success? <==> !IsDomain(a)
    ensures r.Failure? ==> r.error == IPOfDomain
    ensures r.Success? ==> (|r.value| == IPv4Len <==> IsIPv4(a))
    ensures r.Success? ==> (|r.value| == IPv6Len <==> IsIPv6(a))
  {
    match a
    case IPv4Address(_, ip) => Success(ip)
    case IPv6Address(_, ip) => Success(ip)
    case DomainAddressImpl(_, _) => Failure(IPOfDomain)
  }

  /** Domain name of an address; a panic on an IP address. */
  function Domain(a: Address): (r: Result<string, Panic>)
    ensures r.Success? <==> IsDomain(a)
    ensures IsIPv4(a) ==> r == Failure(DomainOfIPv4)
    ensures IsIPv6(a) ==> r == Failure(DomainOfIPv6)
  {
    match a
    case IPv4Address(_, _) => Failure(DomainOfIPv4)
    case IPv6Address(_, _) => Failure(DomainOfIPv6)
    case DomainAddressImpl(_, d) => Success(d)
  }

  function Port(a: Address): uint16 {
    a.port
  }

  /** Builds an address from a raw IP, choosing the family by its length;
      any length other than 4 or 16 is the "unknown IP format" panic. */
  function IPAddress(ip: seq<byte>, port: uint16): (r: Result<Address, Panic>)
    ensures r.Success? <==> |ip| == IPv4Len || |ip| == IPv6Len
    ensures r.Failure? ==> r.error == UnknownIPFormat(ip)
    ensures r.Success? ==> IP(r.value) == Success(ip) && Port(r.value) == port
    ensures |ip| == IPv4Len ==> r.Success? && IsIPv4(r.value)
    ensures |ip| == IPv6Len ==> r.Success? && IsIPv6(r.value)
  {
    if |ip| == IPv4Len then Success(IPv4Address(port, ip))
    else if |ip| == IPv6Len then Success(IPv6Address(port, ip))
    else Failure(UnknownIPFormat(ip))
  }

  /** Builds a domain address; the name is taken as given, without checks. */
  function DomainAddress(domain: string, port: uint16): (r: Address)
    ensures IsDomain(r)
    ensures Domain(r) == Success(domain)
    ensures Port(r) == port
  {
    DomainAddressImpl(port, domain)
  }

  /** The port in network byte order: high byte first. */
  function PortBytes(a: Address): (r: seq<byte>)
    ensures |r| == 2
    ensures r[0] as int * 256 + r[1] as int == Port(a)
  {
    [(a.port / 256) % 256, a.port % 256]
  }

  /** Reads a port back from its two network-order bytes. */
  function DecodePort(b: seq<byte>): (p: uint16)
    requires |b| == 2
  {
    b[0] as int * 256 + b[1] as int
  }

  /** The host part of the text of an address: an IPv4 host in dotted
      decimal; an IPv6 host as written by `ipv6Text` (the library's own
      textual form, not modelled here) between '[' and ']'; a domain as it
      is. */
  function HostText(a: Address, ipv6Text: IPv6Bytes -> string): string {
    match a
    case IPv4Address(_, ip) => Text.Dotted(ip)
    case IPv6Address(_, ip) => "[" + ipv6Text(ip) + "]"
    case DomainAddressImpl(_, d) => d
  }

  /** The host:port text of an address. It splits at its last ':' into the
      host text and the decimal port, whatever ':' the host text holds. */
  function String(a: Address, ipv6Text: IPv6Bytes -> string): (r: string)
    ensures Text.SplitLast(r, ':') == Some((HostText(a, ipv6Text), Text.Itoa(Port(a))))
  {
    var digits := Text.Itoa(a.port);
    Text.NonDigitNotIn(digits, ':');
    Text.SplitLastJoin(HostText(a, ipv6Text), ':', digits);
    HostText(a, ipv6Text) + ":" + digits
  }
}
