/**
 * `Host` (testcontainers/src/core/image.rs): the target of an extra host alias, an IP
 * address or the engine's reserved name for the host gateway, and its `Display`.
 */
module HostAliases {
  import opened Numbers

  type u8 = x: int | 0 <= x < 0x100

  /**
   * `std::net::IpAddr`, kept opaque: the lengths of the parts (4 octets, 8 segments) are not
   * constrained, and its text form comes from the standard library.
   */
  datatype IpAddr = V4(octets: seq<u8>) | V6(segments: seq<u16>)

  datatype Host = Addr(addr: IpAddr) | HostGateway

  const HOST_GATEWAY: string := "host-gateway"

  /** `impl Display for Host`; `showAddr` stands for `IpAddr`'s own `Display`. */
  function Display(h: Host, showAddr: IpAddr -> string): (s: string)
    ensures h.HostGateway? ==> s == HOST_GATEWAY
    ensures h.Addr? ==> s == showAddr(h.addr)
  {
    match h
    case Addr(addr) => showAddr(addr)
    case HostGateway => HOST_GATEWAY
  }

  /** The characters an IPv4 or IPv6 address is written with: digits, hex letters, `.` and `:`. */
  predicate AddressText(s: string) {
    forall i :: 0 <= i < |s| ==> s[i] in "0123456789abcdefABCDEF.:"
  }

  lemma GatewayIsNotAddressText()
    ensures !AddressText(HOST_GATEWAY)
  {
    assert HOST_GATEWAY[0] == 'h';
  }

  /**
   * As long as addresses print as addresses, the text `host-gateway` is produced by
   * `HostGateway` and by nothing else, so the engine can tell the two kinds apart.
   */
  lemma GatewayTextIsUnambiguous(h: Host, showAddr: IpAddr -> string)
    requires forall a :: AddressText(showAddr(a))
    ensures Display(h, showAddr) == HOST_GATEWAY <==> h.HostGateway?
  {
    GatewayIsNotAddressText();
    if h.Addr? {
      assert AddressText(showAddr(h.addr));
    }
  }
}
