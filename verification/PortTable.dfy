/** What an inbound claims, by protocol and port, from the panel's own table of transports;
    and what a port-hopping list says. */
module PortTable {

  import opened NodeModel
  import opened PortGuard
  import opened Texts
  import opened Wrappers

  // ---------- Transports ----------

  /** Carried by a transport that rides UDP. */
  predicate OverUDP(n: Node) {
    n.protocol in {VLESS, VMess, Trojan, Shadowsocks, SOCKS, HTTP} && n.network in {QUIC, MKCP}
  }

  predicate UsesTcp(n: Node) {
    && !OverUDP(n)
    && n.protocol !in {Hysteria2, TUIC, WireGuard}
    && !(n.protocol == Brook && n.brookMode == "quicserver")
  }

  predicate UsesUdp(n: Node) {
    || OverUDP(n)
    || n.protocol in {Hysteria2, TUIC, WireGuard, Shadowsocks, SOCKS}
    || (n.protocol == Brook && n.brookMode !in {"wsserver", "wssserver"})
  }

  /** Some entry of a port-hopping list is a range with this port in it. */
  ghost predicate Hopped(spec: string, port: int) {
    exists i: nat, lo: nat, hi: nat :: i < |Split(spec, ',')| && EntrySays(Split(spec, ',')[i], lo, hi) && lo <= port <= hi
  }

  /** The table: an inbound with a proper port, other than a DNS zone, claims its own port on
      the transports it uses, and Hysteria2 the ports it hops over, on UDP; nothing else. */
  lemma ClaimsIff(n: Node, id: nat, port: int, l4: L4)
    ensures CoveredBy(Claims(n, id), port, l4) <==>
      && 1 <= n.port <= 65535 && n.protocol != ForgeDNS
      && ((port == n.port && if l4 == Tcp then UsesTcp(n) else UsesUdp(n))
          || (l4 == Udp && n.protocol == Hysteria2 && Hopped(n.hopping, port)))
  {
    ClaimedIff(n, id, port, l4);
    if n.protocol != ForgeDNS {
      ListensIff(n, l4);
    }
    if n.protocol == Hysteria2 {
      HoppedIff(n.hopping, port, l4);
    }
    hide Claims, HopRanges, Hopped, UsesTcp, UsesUdp, Listens, Required;
    assert CoveredBy([], port, l4) == false;
    if n.hopping == "" {
      EmptyHops(port);
    }
  }

  lemma ListensIff(n: Node, l4: L4)
    requires n.protocol != ForgeDNS
    ensures Listens(n, l4) <==> if l4 == Tcp then UsesTcp(n) else UsesUdp(n)
  {
  }

  // ---------- Port hopping ----------

  /** A text stands for a number: digits, perhaps after a plus sign, white space aside. */
  ghost predicate SaysNumber(s: string, n: nat) {
    var t := TrimSpace(s);
    Numeral(if t != "" && t[0] == '+' then t[1..] else t, n)
  }

  predicate NoSeparator(s: string) {
    forall i :: 0 <= i < |s| ==> s[i] != '-' && s[i] != ':'
  }

  ghost predicate TwoEnds(part: string, x: string, y: string) {
    || (NoSeparator(part) && x == part && y == part)
    || (NoSeparator(x) && |x| < |part| && part[..|x|] == x && part[|x|] in {'-', ':'} && part[|x| + 1..] == y)
  }

  /** An entry names the ports from `lo` to `hi`: two numbers around a dash or a colon, in
      either order, or one; both of them ports. */
  ghost predicate EntrySays(entry: string, lo: nat, hi: nat) {
    && 1 <= lo <= hi <= 65535
    && exists x, y :: TwoEnds(TrimSpace(entry), x, y) &&
         ((SaysNumber(x, lo) && SaysNumber(y, hi)) || (SaysNumber(x, hi) && SaysNumber(y, lo)))
  }

  lemma AtoiIff(s: string, n: nat)
    ensures Atoi(TrimSpace(s)) == Some(n) <==> SaysNumber(s, n)
  {
    var t := TrimSpace(s);
    NumeralIff(if t != "" && t[0] == '+' then t[1..] else t, n);
  }

  lemma CutIsThere(part: string, x: string)
    requires NoSeparator(x) && |x| < |part| && part[..|x|] == x && part[|x|] in {'-', ':'}
    ensures CutAt(part) == |x|
  {
    assert forall i :: 0 <= i < |x| ==> part[i] == x[i];
  }

  lemma EndsAreCut(part: string, x: string, y: string)
    ensures TwoEnds(part, x, y) <==>
      var n := CutAt(part); x == part[..n] && y == if n < |part| then part[n + 1..] else part
  {
    var n := CutAt(part);
    if n == |part| {
      assert part[..n] == part;
    }
    if TwoEnds(part, x, y) && !NoSeparator(part) {
      CutIsThere(part, x);
    }
    hide CutAt;
  }

  /** The two ends of an entry, as numbers. */
  function Ends(entry: string): (Option<nat>, Option<nat>) {
    var part := TrimSpace(entry);
    var n := CutAt(part);
    (Atoi(TrimSpace(part[..n])), Atoi(TrimSpace(if n < |part| then part[n + 1..] else part)))
  }

  lemma HopRangeByEnds(entry: string, c: Claim)
    ensures HopRange(entry) == Some(c) <==>
      && c.l4 == Udp && c.id == 0 && 1 <= c.lo <= c.hi <= 65535
      && (Ends(entry) == (Some(c.lo as nat), Some(c.hi as nat)) || Ends(entry) == (Some(c.hi as nat), Some(c.lo as nat)))
  {
    hide Atoi, CutAt, TrimSpace;
  }

  lemma EndsIff(entry: string, a: nat, b: nat)
    ensures Ends(entry) == (Some(a), Some(b)) <==>
      exists x, y :: TwoEnds(TrimSpace(entry), x, y) && SaysNumber(x, a) && SaysNumber(y, b)
  {
    hide Atoi, SaysNumber, CutAt, TwoEnds, TrimSpace;
    var part := TrimSpace(entry);
    var n := CutAt(part);
    var x, y := part[..n], if n < |part| then part[n + 1..] else part;
    EndsAreCut(part, x, y);
    AtoiIff(x, a);
    AtoiIff(y, b);
    if x', y' :| TwoEnds(part, x', y') && SaysNumber(x', a) && SaysNumber(y', b) {
      EndsAreCut(part, x', y');
    }
  }

  /** An entry is read as those ports, and one that says none claims nothing. */
  lemma HopRangeIff(entry: string, c: Claim)
    ensures HopRange(entry) == Some(c) <==> c.l4 == Udp && c.id == 0 && c.lo >= 0 && c.hi >= 0 && EntrySays(entry, c.lo, c.hi)
  {
    HopRangeByEnds(entry, c);
    hide Ends, TwoEnds, SaysNumber, HopRange, TrimSpace;
    if c.lo >= 0 && c.hi >= 0 {
      EndsIff(entry, c.lo, c.hi);
      EndsIff(entry, c.hi, c.lo);
    }
  }

  lemma GatherPush(parts: seq<string>, part: string)
    ensures Gather(parts + [part]) == Gather(parts) + match HopRange(part) case Some(c) => [c] case None => []
  {
    hide HopRange;
    assert (parts + [part])[..|parts|] == parts;
  }

  lemma {:induction false} GatherIff(parts: seq<string>, c: Claim)
    ensures c in Gather(parts) <==> exists i :: 0 <= i < |parts| && HopRange(parts[i]) == Some(c)
    decreases |parts|
  {
    hide HopRange;
    if parts != [] {
      var front, last := parts[..|parts| - 1], parts[|parts| - 1];
      GatherIff(front, c);
      assert parts == front + [last];
      GatherPush(front, last);
      hide Gather;
      assert c in Gather(parts) <==> c in Gather(front) || HopRange(last) == Some(c);
      if i :| 0 <= i < |parts| && HopRange(parts[i]) == Some(c) {
        assert i < |front| ==> front[i] == parts[i];
      }
    }
  }

  lemma HoppedIff(spec: string, port: int, l4: L4)
    ensures CoveredBy(HopRanges(spec), port, l4) <==> l4 == Udp && Hopped(spec, port)
  {
    hide HopRange, EntrySays, Split;
    var parts := Split(spec, ',');
    if CoveredBy(HopRanges(spec), port, l4) {
      var c :| c in HopRanges(spec) && Covers(c, port, l4);
      GatherIff(parts, c);
      var i :| 0 <= i < |parts| && HopRange(parts[i]) == Some(c);
      HopRangeIff(parts[i], c);
    }
    if l4 == Udp && Hopped(spec, port) {
      var i: nat, lo: nat, hi: nat :| i < |parts| && EntrySays(parts[i], lo, hi) && lo <= port <= hi;
      var c := Claim(lo, hi, Udp, 0);
      HopRangeIff(parts[i], c);
      GatherIff(parts, c);
      assert Covers(c, port, l4);
    }
  }

  lemma EmptyHops(port: int)
    ensures !Hopped("", port)
  {
    assert Split("", ',') == [""];
    forall lo: nat, hi: nat ensures !EntrySays("", lo, hi) {
      HopRangeIff("", Claim(lo, hi, Udp, 0));
    }
  }

  // ---------- The verdict, the report and the suggestion ----------

  /** Another process listens on a port that is wanted: one that is not this inbound's own
      already, nor held by one of the panel's engines. */
  ghost predicate Squatted(want: seq<Claim>, self: seq<Claim>, live: seq<Listener>) {
    exists i :: 0 <= i < |live| && CoveredBy(want, live[i].port, live[i].l4) && !CoveredBy(self, live[i].port, live[i].l4) &&
                live[i].process !in {"awg-quick", "wg-quick", "amneziawg-go", "xray", "sing-box", "brook", "forgepanel"}
  }

  /** The guard accepts exactly when no wanted port is taken and none is squatted on. */
  lemma AcceptsIff(want: seq<Claim>, taken: seq<Claim>, self: seq<Claim>, live: seq<Listener>)
    requires WellFormed(want) && WellFormed(taken)
    ensures Accepts(want, taken, self, live) <==>
      (forall p, l4 :: CoveredBy(want, p, l4) ==> !CoveredBy(taken, p, l4)) && !Squatted(want, self, live)
  {
    DisjointIff(want, taken);
    hide CoveredBy, Disjoint;
    forall l | l in live ensures exists i :: 0 <= i < |live| && live[i] == l {
    }
    forall i | 0 <= i < |live| ensures live[i] in live {
    }
  }

  /** What is reported is true: the port is wanted, and the holder named holds it. */
  lemma ReportIs(cf: Conflict, want: seq<Claim>, taken: seq<Claim>, self: seq<Claim>, live: seq<Listener>)
    requires Names(cf, want, taken, self, live) && WellFormed(want) && WellFormed(taken)
    ensures CoveredBy(want, cf.port, cf.l4)
    ensures cf.kind == System ==>
      exists i :: 0 <= i < |live| && live[i].port == cf.port && live[i].l4 == cf.l4 && !CoveredBy(self, cf.port, cf.l4)
    ensures cf.kind != System ==>
      exists t :: t in taken && Covers(t, cf.port, cf.l4) && t.id == cf.id && (if cf.kind == Panel then cf.id == 0 else cf.id > 0)
  {
    if cf.kind == System {
      var l :| l in live && l.port == cf.port && l.l4 == cf.l4 && Foreign(l, self);
      var i :| 0 <= i < |live| && live[i] == l;
    } else {
      var w, t :| w in want && t in taken && Overlaps(w, t) && cf.l4 == w.l4 && cf.port == FirstCommon(w, t) &&
                  cf.id == t.id && (cf.kind == Inbound <==> t.id != 0);
      OverlapsIff(w, t);
      assert Covers(w, cf.port, cf.l4) && Covers(t, cf.port, cf.l4);
    }
  }

  /** Nobody has the port on any of the transports. */
  ghost predicate Idle(need: seq<L4>, taken: seq<Claim>, self: seq<Claim>, live: seq<Listener>, port: int) {
    forall i :: 0 <= i < |need| ==>
      && !CoveredBy(taken, port, need[i]) && !CoveredBy(self, port, need[i])
      && forall k :: 0 <= k < |live| ==> !(live[k].port == port && live[k].l4 == need[i])
  }

  lemma IdleIff(need: seq<L4>, taken: seq<Claim>, self: seq<Claim>, live: seq<Listener>, port: int)
    ensures Idle(need, taken, self, live, port) <==> Free(need, taken, self, live, port)
  {
    hide CoveredBy;
    forall i | 0 <= i < |need| ensures need[i] in need {
    }
  }

  /** The suggestion: the least port from `start` up, and from 1024 up, that is idle on every
      transport needed; zero only if there is none, or none is needed. */
  lemma SuggestionIs(start: int, need: seq<L4>, taken: seq<Claim>, self: seq<Claim>, live: seq<Listener>, p: int)
    requires LeastFree(start, need, taken, self, live, p)
    ensures |need| == 0 ==> p == 0
    ensures p != 0 ==> start <= p && 1024 <= p <= 65535 && Idle(need, taken, self, live, p)
    ensures forall q :: |need| > 0 && start <= q && 1024 <= q <= 65535 && Idle(need, taken, self, live, q) ==> 0 < p <= q
  {
    hide Idle, Free;
    IdleIff(need, taken, self, live, p);
    forall q | |need| > 0 && start <= q && 1024 <= q <= 65535 && Idle(need, taken, self, live, q) ensures 0 < p <= q {
      IdleIff(need, taken, self, live, q);
    }
  }

  /** What shares the platform's public port instead of having one of its own. */
  lemma SharesIff(n: Node)
    ensures SharesPublicPort(n) <==>
      || (n.protocol == Brook && n.brookMode in {"wsserver", "wssserver"})
      || (n.protocol != Brook && n.network in {WS, XHTTP, HTTPUpgrade})
  {
  }
}
