/** What the port guard and the shared-port router both need to know of an inbound. */
module NodeModel {

  datatype Protocol =
    | VLESS | VMess | Trojan | Shadowsocks | SOCKS | HTTP
    | Hysteria2 | TUIC | AnyTLS | WireGuard | AmneziaWG | ShadowTLS
    | SSH | Brook | ForgeDNS

  /** `Unset` is the empty network, and any the panel does not know. */
  datatype Network = Unset | TCP | WS | GRPC | HTTPUpgrade | XHTTP | H2 | MKCP | QUIC

  predicate UsesTransport(p: Protocol) {
    p in {VLESS, VMess, Trojan, Shadowsocks, SOCKS, HTTP}
  }
}
