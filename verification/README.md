# Network address value

A model of the `Address` value of v2ray-core's `common/net` package. An
address names one endpoint. Its host is an IPv4 address, an IPv6 address or
a domain name, never more than one. Every address also carries a 16-bit
port.

- `wrappers.dfy`, module `Wrappers`: `Option` and `Result`.
- `address.dfy`, module `Net`: the `Address` datatype and the operations of
  `common/net/address.go`. The three constructors mirror the source's three
  implementations, `IPv4Address`, `IPv6Address` and `DomainAddressImpl`. Each
  one has a `port` field, as each Go struct embeds `PortAddress`. The source
  panics at four sites, for three kinds of misuse: `IPAddress` with an IP
  that is neither 4 nor 16 bytes long (line 44), `Domain()` on an IPv4 or an
  IPv6 address (lines 78 and 107), and `IP()` on a domain address (line 132).
  Each site has its own `Panic` constructor. In
  the model these calls return `Failure(panic)`, so the contracts can state
  exactly when the error happens. They never return a default value.
- `text.dfy`, module `Text`: the text forms the rendering uses.
  - The decimal port comes from `strconv.Itoa`.
  - An IPv4 host is written the way `net.IP.String` writes a 4-byte IP.
  - Each encoder has an inverse: `ParseDecimal` and `ParseDotted`.
  - `SplitLast` splits a text at the last occurrence of a separator.
- `address_props.dfy`, module `AddressProps`: properties that relate several
  operations.
  - The variants exclude each other.
  - The constructors and accessors are inverses.
  - The port's byte encoding is a bijection.
  - The port, and the host, can be read back from the host:port text.

The IPv6 text comes from `net.IP.String`, which implements the
zero-compression of section 4 of RFC 5952. The model does not reimplement
it. `Net.String` takes it as a function parameter, `ipv6Text`. Only the
`[`…`]:port` wrapping around it is modelled.

## Model

| member | source | states |
|---|---|---|
| Net.IPAddress | common/net/address.go:26-46 | An address is produced exactly when the IP is 4 or 16 bytes long. Any other length gives the unknown-IP-format panic and no address. For 4 bytes the result is IPv4, for 16 bytes it is IPv6. `IP()` of the result is the input byte for byte, and `Port()` is the port given. |
| Net.DomainAddress | common/net/address.go:49-54 | The result is a domain address. `Domain()` returns the name unchanged, with no validation, and `Port()` is the port given. |
| Net.IP | common/net/address.go:73-75 | `IP()` succeeds exactly on IP addresses; on a domain address it is the `IP()`-on-domain panic. The IP has 4 bytes exactly for IPv4 and 16 bytes exactly for IPv6. |
| Net.Domain | common/net/address.go:77-79 | `Domain()` succeeds exactly on domain addresses. On IPv4 and IPv6 it is the panic for that variant, never a default string. |
| Net.PortBytes | common/net/address.go:64-66 | Always two bytes, high byte first: `b[0]*256 + b[1]` is the port. |
| AddressProps.ExactlyOneVariant | common/net/address.go:81-91 | For every address, exactly one of `IsIPv4`, `IsIPv6` and `IsDomain` holds. |
| AddressProps.ConstructorsFromAccessors | common/net/address.go:26-54 | Every address is rebuilt exactly by a constructor. `IPAddress` rebuilds an IP address from its `IP()` and `Port()`. `DomainAddress` rebuilds a domain address from its `Domain()` and `Port()`. |
| AddressProps.AddressEquality | common/net/address.go:56-129 | Two addresses are equal exactly when they agree on `Port()`, `IP()` and `Domain()`: same variant, same payload, same port. This is Go's `==` on the four comparable value structs `PortAddress`, `IPv4Address`, `IPv6Address` and `DomainAddressImpl`. |
| AddressProps.DecodePortBytes | common/net/address.go:64-66 | Decoding the two port bytes as a big-endian number gives `Port()` back. |
| AddressProps.PortBytesOnto | common/net/address.go:64-66 | Every two-byte sequence is the `PortBytes()` of an address, namely the one whose port is the bytes read big-endian. |
| Net.String | common/net/address.go:93-153 | The three `String()` methods (lines 93-95, 122-124 and 151-153). Every address's text splits at its last ':' into the host text and the decimal port. The host text is the dotted IPv4 form, the bracketed IPv6 text, or the domain. This holds even when a domain or the IPv6 text contains ':'. |
| AddressProps.PortRecoverable | common/net/address.go:93-153 | For all three `String()` methods (lines 93-95, 122-124 and 151-153), the port read back from the text is the address's port. |
| AddressProps.HostRecoverable | common/net/address.go:93-153 | For all three `String()` methods (lines 93-95, 122-124 and 151-153): the host part of an IPv4 text reads back, as dotted decimal, to the address's 4 bytes. The host part of an IPv6 text is `[`, the library's IPv6 text, then `]`. The host part of a domain text is the domain itself. |
| AddressProps.StringExamples | common/net/address.go:93-95 | The IPv4 address 1.2.3.4 with port 80 renders as `1.2.3.4:80`. The domain `example.com` with port 443 renders as `example.com:443`. |
| AddressProps.StringExampleIPv6 | common/net/address.go:122-124 | Suppose the library writes the IPv6 loopback IP as `::1`. Then with port 80 it renders as `[::1]:80`. |
| AddressProps.StringNotInjective | common/net/address.go:93-153 | The `String()` methods of `IPv4Address` (lines 93-95) and `DomainAddressImpl` (lines 151-153) can agree: a domain spelled like a dotted IPv4 address renders the same as that IPv4 address, although the two addresses differ. The text alone does not tell the variant. |
| Text.Itoa | common/net/address.go:94 | The decimal port is a canonical numeral. It has only digits and at least one digit. It starts with '0' only when the port is 0, and it is one digit long exactly when the port is below 10. |
| Text.ParseItoa | common/net/address.go:94 | Reading back what `Itoa` wrote gives the number it was given. |
| Text.ItoaParse | common/net/address.go:94 | Every canonical numeral is what `Itoa` writes for its own value, so `Itoa` is a bijection onto canonical numerals. |
| Text.DottedRoundTrip | common/net/address.go:94 | Reading back the dotted-decimal text of four octets gives the four octets. |

## Left out

- The IPv6 text of `net.IP.String` (zero-compression per section 4 of RFC 5952, and the IPv4-mapped special case) is library code and is not part of this model. It is the parameter `ipv6Text`. For an IPv4 address, `Text.Dotted` models the library's dotted form directly.
- The defensive copy into fixed-size arrays (`common/net/address.go:31`, `36-41`) holds by construction, because Dafny sequences are immutable values.
- The panic messages and the `log.Error` formatting are not modelled. Each panic is a `Panic` value naming its cause.
- `Net.HostText` carries no contract of its own. It is the host half of `Net.String`, whose contract states it.
- `Net.IsIPv4`, `Net.IsIPv6`, `Net.IsDomain` and `Net.Port` carry no contract of their own. Their meaning is stated by `AddressProps.ExactlyOneVariant`, `Net.IP`, `Net.Domain`, `Net.IPAddress` and `Net.DomainAddress`.
- Go strings are byte strings; the model uses `string` (a sequence of characters) for the domain name.
