/** Which inbounds share the platform's port and at which path, by the platform's and the
    transports' own rules; what the core is given; and which requests a path is for. */
module PaasShare {

  import opened NodeModel
  import opened PaasRouter
  import opened Texts
  import opened Wrappers

  // ---------- Path, own port or reason ----------

  predicate OverUDP(n: Node) {
    n.protocol in {Hysteria2, TUIC, WireGuard, AmneziaWG} || n.network in {QUIC, MKCP}
  }

  /** The platform routes the inbound's own port, on the transport it uses. */
  predicate Direct(pa: PaaS, n: Node) {
    (OverUDP(n) && n.port in pa.udpPorts) || (!OverUDP(n) && n.port in pa.tcpPorts)
  }

  /** A path as it is entered, with a slash put first if there is none. */
  predicate Slashed(p: string, path: string) {
    if |p| > 0 && p[0] == '/' then path == p else |path| == |p| + 1 && path[0] == '/' && path[1..] == p
  }

  predicate BrookSocket(n: Node) {
    n.protocol == Brook && n.brook.Some? && n.brook.value.mode in {"wsserver", "wssserver"}
  }

  /** A WebSocket-like transport the edge in front of the platform lets through. */
  predicate Carried(pa: PaaS, n: Node) {
    n.protocol != Brook && (n.network in {WS, XHTTP} || (n.network == HTTPUpgrade && !pa.cdnFronted))
  }

  predicate WantsUDP(n: Node) {
    if n.protocol == Brook then n.brook.Some? && n.brook.value.mode == "quicserver"
    else OverUDP(n) && n.network !in {WS, HTTPUpgrade, XHTTP, GRPC, H2}
  }

  predicate WantsTCP(n: Node) {
    if n.protocol == Brook then n.brook.None? || n.brook.value.mode !in {"wsserver", "wssserver", "quicserver"}
    else !OverUDP(n) && n.network !in {WS, HTTPUpgrade, XHTTP, GRPC, H2}
  }

  predicate SharesAt(pa: PaaS, n: Node, path: string) {
    && !Direct(pa, n)
    && ((BrookSocket(n) && !pa.cdnFronted && Slashed(if n.brook.value.path == "" then "/ws" else n.brook.value.path, path))
        || (Carried(pa, n) && TrimSpace(n.path) != "" && Slashed(TrimSpace(n.path), path)))
  }

  lemma SlashedIff(p: string, path: string)
    ensures Slashed(p, path) <==> path == Rooted(p)
  {
    if Slashed(p, path) && !(|p| > 0 && p[0] == '/') {
      assert path == [path[0]] + path[1..];
    }
  }

  /** An inbound shares the port at a path if and only if these rules say so. */
  lemma SharedIff(pa: PaaS, n: Node, path: string)
    requires path != ""
    ensures Routable(pa, Some(n)).path == path <==> SharesAt(pa, n, path)
  {
    hide TrimSpace, Slashed, Rooted;
    if BrookSocket(n) {
      SlashedIff(if n.brook.value.path == "" then "/ws" else n.brook.value.path, path);
    }
    SlashedIff(TrimSpace(n.path), path);
  }

  /** It has its own port if and only if the platform routes that; and where it has neither,
      this is why. */
  lemma RefusedIff(pa: PaaS, n: Node)
    ensures var r := Routable(pa, Some(n));
      && (r.ownPort <==> Direct(pa, n))
      && (r.why == CdnDropsBrook <==> !Direct(pa, n) && BrookSocket(n) && pa.cdnFronted)
      && (r.why == CdnDropsUpgrade <==> !Direct(pa, n) && n.protocol != Brook && n.network == HTTPUpgrade && pa.cdnFronted)
      && (r.why == NeedsPath <==> !Direct(pa, n) && Carried(pa, n) && TrimSpace(n.path) == "")
      && (r.why == NeedsHTTP2 <==> !Direct(pa, n) && n.protocol != Brook && n.network in {GRPC, H2})
      && (r.why == NeedsUDP <==> !Direct(pa, n) && WantsUDP(n))
      && (r.why == NeedsTCP <==> !Direct(pa, n) && WantsTCP(n))
      && (r.why == NoReason || r.why in {CdnDropsBrook, CdnDropsUpgrade, NeedsPath, NeedsHTTP2, NeedsUDP, NeedsTCP})
  {
    hide TrimSpace, Rooted;
  }

  // ---------- What the core is given ----------

  /** Shared by path: on loopback at the port it is told, in the clear, and the rest as stored;
      but for brook's mode, which carries its own TLS. */
  lemma SharedCopy(pa: PaaS, n: Node, port: int)
    requires !Direct(pa, n)
    ensures var c := ServeNode(pa, n, port);
      && c.address == "127.0.0.1" && c.port == port && c.security == Plain
      && c.remark == n.remark && c.protocol == n.protocol && c.network == n.network && c.path == n.path
      && (n.protocol == Brook && n.brook.Some? && n.brook.value.mode == "wssserver" ==>
            c.brook == Some(BrookOptions("wsserver", n.brook.value.path)))
      && (n.protocol != Brook || n.brook.None? || n.brook.value.mode != "wssserver" ==> c.brook == n.brook)
  {
    RefusedIff(pa, n);
    hide Routable;
  }

  /** On its own port: as stored, but that a UDP listener binds where the platform wants it. */
  lemma OwnCopy(pa: PaaS, n: Node, port: int)
    requires Direct(pa, n)
    ensures ServeNode(pa, n, port) == if OverUDP(n) && pa.udpBindHost != "" then n.(address := pa.udpBindHost) else n
  {
    RefusedIff(pa, n);
    hide Routable;
  }

  /** The users of a row are served as they are; its certificate is the core's only where
      nothing terminates in front. */
  lemma SpecKeepsUsers(pa: PaaS, rows: seq<Spec>, i: nat)
    requires i < |rows| && rows[i].node.Some?
    ensures var s := EngineSpec(pa, rows, i);
      && s.clients == rows[i].clients
      && s.node == Some(ServeNode(pa, rows[i].node.value, 39000 + i))
      && (s.cert, s.key) == if Direct(pa, rows[i].node.value) then (rows[i].cert, rows[i].key) else ("", "")
  {
    RefusedIff(pa, rows[i].node.value);
    hide Routable;
    if Direct(pa, rows[i].node.value) {
      OwnCopy(pa, rows[i].node.value, 0);
      OwnCopy(pa, rows[i].node.value, 39000 + i);
    }
  }

  // ---------- Requests ----------

  /** The path less one slash at its end. */
  predicate Bare(prefix: string, bare: string) {
    if |prefix| > 0 && prefix[|prefix| - 1] == '/' then prefix == bare + "/" else prefix == bare
  }

  /** A path is for itself and for whatever is below it, and not for its neighbours. */
  lemma MatchIff(prefix: string, bare: string, path: string)
    requires Bare(prefix, bare)
    ensures Matches(prefix, path) <==> path == prefix || exists rest :: path == bare + "/" + rest
  {
    assert WithoutSlash(prefix) == bare;
    if bare + "/" <= path {
      assert path == bare + "/" + path[|bare| + 1..];
    }
  }

  // ---------- The table ----------

  /** Each path in use has one route, to the first row with that path, at 39000 and the row's
      place in the list, under the row's name. */
  lemma RouteIsFirst(pa: PaaS, rows: seq<Spec>, table: seq<Route>, r: Route)
    requires TableOf(pa, rows, table) && r in table
    ensures exists i: nat :: FirstWith(pa, rows, r.prefix, i) && r.port == 39000 + i && rows[i].node.Some? && r.remark == rows[i].node.value.remark
  {
    RoutesAreByPath(pa, rows, table);
    hide TableOf, Routable;
    var i: nat :| i < |rows| && ByPath(pa, rows, i) && rows[i].node.Some? && r == RouteFor(pa, rows, i);
    assert FirstWith(pa, rows, r.prefix, i);
  }

  lemma EveryPathRouted(pa: PaaS, rows: seq<Spec>, table: seq<Route>, path: string, i: nat)
    requires TableOf(pa, rows, table) && FirstWith(pa, rows, path, i)
    ensures exists r :: r in table && r.prefix == path && r.port == 39000 + i
  {
    RoutesAreByPath(pa, rows, table);
    hide TableOf, Routable;
    assert ByPath(pa, rows, i);
    assert RouteFor(pa, rows, i) in table;
  }

  /** Row `i` is the first that shares the port at this path. */
  ghost predicate FirstWith(pa: PaaS, rows: seq<Spec>, path: string, i: nat) {
    && path != "" && i < |rows| && Routable(pa, rows[i].node).path == path
    && forall j :: 0 <= j < i ==> Routable(pa, rows[j].node).path != path
  }
}
