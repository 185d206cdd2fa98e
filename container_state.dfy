/**
 * `ContainerState` (testcontainers/src/core/image.rs): what a runner knows about a
 * started container, namely which host port each published internal port was bound to.
 * The `Ports` type lives in ports.rs, which is not part of this model; it is represented
 * by what its two lookups return, a map per address family.
 */
module ContainerStates {
  import opened Wrappers
  import opened Numbers

  datatype Ports = Ports(ipv4: map<u16, u16>, ipv6: map<u16, u16>)

  datatype ContainerState = ContainerState(ports: Ports)

  /** The outcome of a host-port lookup: the port, or the panic the source raises. */
  datatype HostPort = Mapped(port: u16) | Panic(message: string)

  const NOT_MAPPED_PREFIX: string := "Container does not have a mapped port for "

  function NotMappedMessage(internalPort: u16): string {
    NOT_MAPPED_PREFIX + ToDecimal(internalPort)
  }

  /** `host_port_ipv4`: the IPv4 host port bound to `internalPort`; panics when there is none. */
  function HostPortIpv4(cs: ContainerState, internalPort: u16): (r: HostPort)
    ensures r.Mapped? <==> internalPort in cs.ports.ipv4
    ensures r.Mapped? ==> r.port == cs.ports.ipv4[internalPort]
    ensures r.Panic? ==> r.message == NotMappedMessage(internalPort)
  {
    if internalPort in cs.ports.ipv4 then Mapped(cs.ports.ipv4[internalPort])
    else Panic(NotMappedMessage(internalPort))
  }

  /** `host_port_ipv6`: the same lookup in the IPv6 bindings. */
  function HostPortIpv6(cs: ContainerState, internalPort: u16): (r: HostPort)
    ensures r.Mapped? <==> internalPort in cs.ports.ipv6
    ensures r.Mapped? ==> r.port == cs.ports.ipv6[internalPort]
    ensures r.Panic? ==> r.message == NotMappedMessage(internalPort)
  {
    if internalPort in cs.ports.ipv6 then Mapped(cs.ports.ipv6[internalPort])
    else Panic(NotMappedMessage(internalPort))
  }

  /** The panic message names the port that was asked for: its tail parses back to it. */
  lemma PanicNamesPort(internalPort: u16)
    ensures ParseU64(NotMappedMessage(internalPort)[|NOT_MAPPED_PREFIX|..]) == Some(internalPort)
  {
    DecimalRoundTrip(internalPort);
    assert NotMappedMessage(internalPort)[|NOT_MAPPED_PREFIX|..] == ToDecimal(internalPort);
  }

  /**
   * A container that published internal port 80 on host port 32768 over IPv4 only: the
   * IPv4 lookup finds it, the IPv6 lookup panics, and so does any port never published
   * (8080, as in the "port not exposed" test).
   */
  lemma Ipv4OnlyBinding()
    ensures var cs := ContainerState(Ports(map[80 := 32768], map[]));
      && HostPortIpv4(cs, 80) == Mapped(32768)
      && HostPortIpv6(cs, 80).Panic?
      && HostPortIpv4(cs, 8080).Panic?
  {
  }
}
