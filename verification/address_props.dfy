/**
  Properties of the address value that relate several of its operations:
  exclusivity of the variants, constructors and accessors as inverses,
  the port's byte encoding as a bijection, and what can be read back from
  the host:port text.
 */
module AddressProps {
  import opened Wrappers
  import opened Net
  import Text

  /** Exactly one of the three variant predicates holds. */
  lemma ExactlyOneVariant(a: Address)
    ensures IsIPv4(a) || IsIPv6(a) || IsDomain(a)
    ensures !(IsIPv4(a) && IsIPv6(a))
    ensures !(IsIPv4(a) && IsDomain(a))
    ensures !(IsIPv6(a) && IsDomain(a))
  {
  }

  /** Every address is what a constructor builds from its own accessors:
      `IPAddress` from an IP address's raw IP and port, `DomainAddress`
      from a domain address's name and port. */
  lemma ConstructorsFromAccessors(a: Address)
    ensures IP(a).Success? ==> IPAddress(IP(a).value, Port(a)) == Success(a)
    ensures Domain(a).Success? ==> DomainAddress(Domain(a).value, Port(a)) == a
  {
  }

  /** Two addresses are equal exactly when they are of the same variant and
      agree on payload and port: the structural equality a map key needs. */
  lemma AddressEquality(a: Address, b: Address)
    ensures a == b <==> Port(a) == Port(b) && IP(a) == IP(b) && Domain(a) == Domain(b)
  {
  }

  /** The port bytes decode back to the port. */
  lemma DecodePortBytes(a: Address)
    ensures DecodePort(PortBytes(a)) == Port(a)
  {
  }

  /** Every pair of bytes is the network-order encoding of some port. */
  lemma PortBytesOnto(b: seq<byte>)
    requires |b| == 2
    ensures PortBytes(DomainAddress("", DecodePort(b))) == b
  {
    var p := DecodePort(b);
    assert p / 256 == b[0] && p % 256 == b[1];
  }

  /** The port as read back from a host:port text. */
  function RenderedPort(s: string): Option<nat> {
    match Text.SplitLast(s, ':')
    case None => None
    case Some((_, t)) => if Text.IsCanonical(t) then Some(Text.ParseDecimal(t)) else None
  }

  /** The port can be read back from the text of every address. */
  lemma PortRecoverable(a: Address, ipv6Text: IPv6Bytes -> string)
    ensures RenderedPort(String(a, ipv6Text)) == Some(Port(a) as nat)
  {
    Text.ParseItoa(Port(a));
  }

  /** The raw IP of an IPv4 address can be read back from its text, and the
      text of an IPv6 address holds the library's IPv6 text between the
      brackets. */
  lemma HostRecoverable(a: Address, ipv6Text: IPv6Bytes -> string)
    ensures IsIPv4(a) ==>
      var h := Text.SplitLast(String(a, ipv6Text), ':').value.0;
      Text.ParseDotted(h) == Some(a.ip4)
    ensures IsIPv6(a) ==>
      var h := Text.SplitLast(String(a, ipv6Text), ':').value.0;
      |h| >= 2 && h[0] == '[' && h[|h| - 1] == ']' && h[1..|h| - 1] == ipv6Text(a.ip6)
    ensures IsDomain(a) ==> Text.SplitLast(String(a, ipv6Text), ':').value.0 == a.domain
  {
    if IsIPv4(a) {
      Text.DottedRoundTrip(a.ip4);
    }
  }

  /** Fixed text of two example addresses. */
  lemma StringExamples(ipv6Text: IPv6Bytes -> string)
    ensures String(IPAddress([1, 2, 3, 4], 80).value, ipv6Text) == "1.2.3.4:80"
    ensures String(DomainAddress("example.com", 443), ipv6Text) == "example.com:443"
  {
    var v4 := IPv4Address(80, [1, 2, 3, 4]);
    assert IPAddress([1, 2, 3, 4], 80).value == v4;
    assert Text.Itoa(80) == "80" by {
      assert Text.Itoa(8) == "8";
    }
    assert HostText(v4, ipv6Text) == "1.2.3.4";
  }

  /** The IPv6 loopback address renders as "[::1]:80" with port 80 whenever
      the library writes its IP as "::1". */
  lemma StringExampleIPv6(ipv6Text: IPv6Bytes -> string)
    requires ipv6Text([0, 0, 0, 0, 0, 0, 0, 0, 0, 0, 0, 0, 0, 0, 0, 1]) == "::1"
    ensures String(IPAddress([0, 0, 0, 0, 0, 0, 0, 0, 0, 0, 0, 0, 0, 0, 0, 1], 80).value, ipv6Text) == "[::1]:80"
  {
  }

  /** The text does not tell a domain from an IP: a domain that looks like
      a dotted IPv4 address renders exactly as that IPv4 address. */
  lemma StringNotInjective(ipv6Text: IPv6Bytes -> string)
    ensures String(DomainAddress("1.2.3.4", 80), ipv6Text) == String(IPAddress([1, 2, 3, 4], 80).value, ipv6Text)
    ensures DomainAddress("1.2.3.4", 80) != IPAddress([1, 2, 3, 4], 80).value
  {
  }
}
