/** The port-collision guard: what an inbound binds, whether that is free, and which port
    to suggest when it is not. */
module PortGuard {

  import opened NodeModel
  import opened Texts
  import opened Wrappers

  datatype L4 = Tcp | Udp

  /** Ports `lo` to `hi` on one transport; `id` is the inbound that binds them, 0 for the
      panel itself. */
  datatype Claim = Claim(lo: int, hi: int, l4: L4, id: nat)

  predicate Overlaps(c: Claim, o: Claim) {
    c.l4 == o.l4 && c.lo <= o.hi && o.lo <= c.hi
  }

  predicate Covers(c: Claim, port: int, l4: L4) {
    c.l4 == l4 && c.lo <= port <= c.hi
  }

  function FirstCommon(c: Claim, o: Claim): int {
    if o.lo > c.lo then o.lo else c.lo
  }

  /** Two claims overlap exactly when they have a port in common, and the port that is
      reported is the least of those. */
  lemma OverlapsIff(c: Claim, o: Claim)
    requires c.lo <= c.hi && o.lo <= o.hi
    ensures Overlaps(c, o) <==> exists p, l4 :: Covers(c, p, l4) && Covers(o, p, l4)
    ensures Overlaps(c, o) ==> Covers(c, FirstCommon(c, o), c.l4) && Covers(o, FirstCommon(c, o), c.l4)
    ensures forall p, l4 :: Covers(c, p, l4) && Covers(o, p, l4) ==> p >= FirstCommon(c, o)
  {
    if Overlaps(c, o) {
      assert Covers(c, FirstCommon(c, o), c.l4) && Covers(o, FirstCommon(c, o), c.l4);
    }
  }

  // ---------- Port hopping ----------

  /** The first place `-` or `:` stands, or the length. */
  function CutAt(s: string): (n: nat)
    ensures n <= |s|
    ensures n < |s| ==> s[n] in "-:"
    ensures forall i :: 0 <= i < n ==> s[i] !in "-:"
  {
    if s == "" || s[0] in "-:" then 0 else 1 + CutAt(s[1..])
  }

  /** An integer with an optional plus sign (a minus sign has become a separator). */
  function Atoi(s: string): Option<nat> {
    if s != "" && s[0] == '+' then ParseNat(s[1..]) else ParseNat(s)
  }

  /** One entry of the list, a range or a single port; nothing when malformed. */
  function HopRange(entry: string): Option<Claim> {
    var part := TrimSpace(entry);
    var n := CutAt(part);
    var loS, hiS := part[..n], if n < |part| then part[n + 1..] else part;
    match (Atoi(TrimSpace(loS)), Atoi(TrimSpace(hiS)))
    case (Some(a), Some(b)) =>
      var (lo, hi) := if a > b then (b, a) else (a, b);
      if lo < 1 || hi > 65535 then None else Some(Claim(lo, hi, Udp, 0))
    case _ => None
  }

  function Gather(parts: seq<string>): (r: seq<Claim>)
    ensures forall c :: c in r ==> 1 <= c.lo <= c.hi <= 65535 && c.l4 == Udp && c.id == 0
  {
    if parts == [] then []
    else Gather(parts[..|parts| - 1]) + match HopRange(parts[|parts| - 1]) case Some(c) => [c] case None => []
  }

  function HopRanges(spec: string): seq<Claim> {
    Gather(Split(spec, ','))
  }

  method ParseHopRanges(spec: string) returns (out: seq<Claim>)
    ensures out == HopRanges(spec)
  {
    hide HopRange, Split;
    out := [];
    var parts := Split(spec, ',');
    for i := 0 to |parts|
      invariant out == Gather(parts[..i])
    {
      assert parts[..i + 1][..i] == parts[..i];
      match HopRange(parts[i]) {
        case Some(c) => out := out + [c];
        case None =>
      }
    }
    assert parts[..|parts|] == parts;
  }

  lemma {:induction false} GatherConcat(a: seq<string>, b: seq<string>)
    ensures Gather(a + b) == Gather(a) + Gather(b)
    decreases |b|
  {
    if b == [] {
      assert a + b == a;
    } else {
      assert (a + b)[..|a + b| - 1] == a + b[..|b| - 1];
      GatherConcat(a, b[..|b| - 1]);
    }
  }

  /** A list claims what its entries claim: one bad entry takes nothing from the others. */
  lemma HopRangesConcat(a: string, b: string)
    ensures HopRanges(a + "," + b) == HopRanges(a) + HopRanges(b)
  {
    SplitConcat(a, b, ',');
    assert a + "," + b == a + ("," + b);
    GatherConcat(Split(a, ','), Split(b, ','));
  }

  lemma {:induction false} CutAtSkips(a: string, b: string)
    requires forall c :: c in a ==> c !in "-:"
    ensures CutAt(a + b) == |a| + CutAt(b)
  {
    if a == "" {
      assert a + b == b;
    } else {
      assert (a + b)[1..] == a[1..] + b;
      CutAtSkips(a[1..], b);
    }
  }

  /** A range written either way round, with either separator, is read back. */
  lemma HopRangeReads(lo: nat, hi: nat, sep: char)
    requires 1 <= lo <= hi <= 65535 && sep in "-:"
    ensures HopRanges(Itoa(lo) + [sep] + Itoa(hi)) == [Claim(lo, hi, Udp, 0)]
    ensures HopRanges(Itoa(hi) + [sep] + Itoa(lo)) == [Claim(lo, hi, Udp, 0)]
    ensures HopRanges(Itoa(lo)) == [Claim(lo, lo, Udp, 0)]
  {
    hide Gather, Itoa, HopRange, HopRanges, Reads;
    DigitsParse(lo);
    DigitsParse(hi);
    EntryReads(Itoa(lo), Itoa(hi), lo, hi, sep);
    EntryReads(Itoa(hi), Itoa(lo), hi, lo, sep);
    SingleReads(lo);
    GatherOne(Itoa(lo) + [sep] + Itoa(hi));
    GatherOne(Itoa(hi) + [sep] + Itoa(lo));
    GatherOne(Itoa(lo));
  }

  lemma GatherOne(entry: string)
    requires ',' !in entry
    ensures HopRanges(entry) == match HopRange(entry) case Some(c) => [c] case None => []
  {
    hide HopRange, Split;
    SplitNone(entry, ',');
    assert [entry][..0] == [];
    assert Gather([]) == [];
  }

  lemma DigitsParse(n: nat)
    ensures Reads(Itoa(n), n)
  {
    ItoaDigits(n);
    ItoaParses(n);
    hide Itoa, ParseNat;
    var s := Itoa(n);
    assert forall i :: 0 <= i < |s| ==> s[i] in s;
    DigitIsNoSpace(s[0]);
    DigitIsNoSpace(s[|s| - 1]);
  }

  lemma DigitIsNoSpace(c: char)
    requires '0' <= c <= '9'
    ensures !IsSpace(c)
  {
  }

  lemma ReadEntry(entry: string, n: nat, a: nat, b: nat)
    requires TrimSpace(entry) == entry && CutAt(entry) == n < |entry|
    requires Atoi(TrimSpace(entry[..n])) == Some(a) && Atoi(TrimSpace(entry[n + 1..])) == Some(b)
    requires 1 <= a <= 65535 && 1 <= b <= 65535
    ensures HopRange(entry) == Some(Claim(if a > b then b else a, if a > b then a else b, Udp, 0))
  {
    hide TrimSpace, CutAt, Atoi;
  }

  ghost predicate Reads(s: string, n: nat) {
    s != "" && TrimSpace(s) == s && Atoi(s) == Some(n) && forall i :: 0 <= i < |s| ==> '0' <= s[i] <= '9'
  }

  lemma EntryReads(x: string, y: string, a: nat, b: nat, sep: char)
    requires Reads(x, a) && Reads(y, b)
    requires 1 <= a <= 65535 && 1 <= b <= 65535 && sep in "-:"
    ensures var entry := x + [sep] + y;
      ',' !in entry && HopRange(entry) == Some(Claim(if a > b then b else a, if a > b then a else b, Udp, 0))
  {
    hide Atoi, HopRange, CutAt, TrimSpace;
    var entry := x + [sep] + y;
    EntryTrimmed(x, y, sep);
    assert CutAt(entry) == |x| by {
      assert entry == x + ([sep] + y);
      CutAtSkips(x, [sep] + y);
      CutAtHere(sep, y);
    }
    assert entry[..|x|] == x && entry[|x| + 1..] == y;
    ReadEntry(entry, |x|, a, b);
  }

  lemma EntryTrimmed(x: string, y: string, sep: char)
    requires x != "" && y != "" && '0' <= x[0] <= '9' && '0' <= y[|y| - 1] <= '9'
    ensures TrimSpace(x + [sep] + y) == x + [sep] + y
  {
    hide IsSpace;
    var entry := x + [sep] + y;
    DigitIsNoSpace(x[0]);
    DigitIsNoSpace(y[|y| - 1]);
    assert entry[0] == x[0] && entry[|entry| - 1] == y[|y| - 1];
  }

  lemma CutAtHere(sep: char, rest: string)
    requires sep in "-:"
    ensures CutAt([sep] + rest) == 0
  {
  }

  lemma SingleReads(a: nat)
    requires 1 <= a <= 65535
    ensures ',' !in Itoa(a) && HopRange(Itoa(a)) == Some(Claim(a, a, Udp, 0))
  {
    hide Itoa, Atoi, TrimSpace;
    DigitsParse(a);
    CutAtSkips(Itoa(a), "");
    assert Itoa(a) + "" == Itoa(a);
    assert Itoa(a)[..|Itoa(a)|] == Itoa(a);
  }

  // ---------- What an inbound binds ----------

  /** `hopping` is Hysteria2's port-hopping list, `brookMode` brook's; empty when unset. */
  datatype Node = Node(protocol: Protocol, port: int, network: Network, brookMode: string, hopping: string)

  /** The transports the panel's port authority answers for, before the correction for
      transports that ride UDP. */
  function Required(n: Node): (bool, bool) {
    match n.protocol
    case Hysteria2 => (false, true)
    case TUIC => (false, true)
    case WireGuard => (false, true)
    case ForgeDNS => (true, true)
    case Shadowsocks => (true, true)
    case SOCKS => (true, true)
    case Brook =>
      if n.brookMode == "quicserver" then (false, true)
      else if n.brookMode == "wsserver" || n.brookMode == "wssserver" then (true, false)
      else (true, true)
    case _ => (true, false)
  }

  predicate RidesUDP(n: Node) {
    UsesTransport(n.protocol) && (n.network == QUIC || n.network == MKCP)
  }

  function Listens(n: Node, l4: L4): bool {
    if RidesUDP(n) then l4 == Udp else if l4 == Tcp then Required(n).0 else Required(n).1
  }

  predicate Binds(n: Node) {
    0 < n.port <= 65535 && n.protocol != ForgeDNS
  }

  function Hops(n: Node): seq<Claim> {
    if Binds(n) && n.protocol == Hysteria2 && n.hopping != "" then HopRanges(n.hopping) else []
  }

  function OwnPort(n: Node): seq<Claim> {
    if !Binds(n) then []
    else
      (if Listens(n, Tcp) then [Claim(n.port, n.port, Tcp, 0)] else []) +
      (if Listens(n, Udp) then [Claim(n.port, n.port, Udp, 0)] else [])
  }

  /** The same ports in an inbound's name. */
  function Labelled(cs: seq<Claim>, id: nat): (r: seq<Claim>)
    ensures |r| == |cs|
    ensures forall i :: 0 <= i < |cs| ==> r[i] == cs[i].(id := id)
  {
    if cs == [] then [] else Labelled(cs[..|cs| - 1], id) + [cs[|cs| - 1].(id := id)]
  }

  function Claims(n: Node, id: nat): seq<Claim> {
    Labelled(OwnPort(n) + Hops(n), id)
  }

  method InboundClaims(n: Node, id: nat) returns (out: seq<Claim>)
    ensures out == Claims(n, id)
  {
    hide HopRanges;
    if n.port <= 0 || n.port > 65535 || n.protocol == ForgeDNS {
      return [];
    }
    var (tcp, udp) := Required(n);
    var ranges: seq<Claim> := [];
    if n.protocol == Hysteria2 && n.hopping != "" {
      ranges := ParseHopRanges(n.hopping);
    }
    if UsesTransport(n.protocol) && (n.network == QUIC || n.network == MKCP) {
      tcp, udp := false, true;
    }
    out := [];
    if tcp {
      out := out + [Claim(n.port, n.port, Tcp, 0)];
    }
    if udp {
      out := out + [Claim(n.port, n.port, Udp, 0)];
    }
    out := out + ranges;
    ghost var bound := out;
    assert bound == OwnPort(n) + Hops(n);
    for i := 0 to |out|
      invariant |out| == |bound|
      invariant forall j :: 0 <= j < |out| ==> out[j] == if j < i then bound[j].(id := id) else bound[j]
    {
      out := out[i := out[i].(id := id)];
    }
    assert out == Labelled(bound, id);
  }

  predicate WellFormed(cs: seq<Claim>) {
    forall c :: c in cs ==> c.lo <= c.hi
  }

  lemma ClaimsWellFormed(n: Node, id: nat)
    ensures WellFormed(Claims(n, id)) && forall c :: c in Claims(n, id) ==> c.id == id && 1 <= c.lo && c.hi <= 65535
  {
    hide HopRanges, Labelled;
    assert forall c :: c in OwnPort(n) + Hops(n) ==> 1 <= c.lo <= c.hi <= 65535 by { BoundWellFormed(n); }
    forall c | c in Claims(n, id) ensures c.id == id && 1 <= c.lo <= c.hi <= 65535 {
      var i :| 0 <= i < |Claims(n, id)| && Claims(n, id)[i] == c;
      assert (OwnPort(n) + Hops(n))[i] in OwnPort(n) + Hops(n);
    }
  }

  lemma BoundWellFormed(n: Node)
    ensures forall c :: c in OwnPort(n) + Hops(n) ==> 1 <= c.lo <= c.hi <= 65535
  {
  }

  predicate CoveredBy(cs: seq<Claim>, port: int, l4: L4) {
    exists c :: c in cs && Covers(c, port, l4)
  }

  /** No claim of the one overlaps a claim of the other. */
  ghost predicate Disjoint(a: seq<Claim>, b: seq<Claim>) {
    forall x, y :: x in a && y in b ==> !Overlaps(x, y)
  }

  lemma DisjointIff(a: seq<Claim>, b: seq<Claim>)
    requires WellFormed(a) && WellFormed(b)
    ensures Disjoint(a, b) <==> forall p, l4 :: !(CoveredBy(a, p, l4) && CoveredBy(b, p, l4))
  {
    forall x, y | x in a && y in b
      ensures Overlaps(x, y) ==> CoveredBy(a, FirstCommon(x, y), x.l4) && CoveredBy(b, FirstCommon(x, y), x.l4)
    {
      OverlapsIff(x, y);
    }
  }

  // ---------- The guard ----------

  datatype Listener = Listener(port: int, l4: L4, process: string)

  /** A stored inbound; the configuration is missing when it does not parse. */
  datatype Row = Row(id: nat, node: Option<Node>)

  const PANEL_ENGINES := {"xray", "sing-box", "brook", "forgepanel", "awg-quick", "amneziawg-go", "wg-quick"}

  function RowClaims(r: Row): seq<Claim> {
    match r.node case Some(n) => Claims(n, r.id) case None => []
  }

  /** The claims of the rows that `mine` does or does not pick out by identifier. */
  function Stored(rows: seq<Row>, id: nat, mine: bool): seq<Claim> {
    if rows == [] then []
    else
      var cs := Stored(rows[..|rows| - 1], id, mine);
      if (rows[|rows| - 1].id == id) == mine then cs + RowClaims(rows[|rows| - 1]) else cs
  }

  lemma {:induction false} StoredIff(rows: seq<Row>, id: nat, mine: bool, c: Claim)
    ensures c in Stored(rows, id, mine) <==>
      exists i :: 0 <= i < |rows| && (rows[i].id == id) == mine && c in RowClaims(rows[i])
  {
    hide RowClaims;
    if rows != [] {
      var front := rows[..|rows| - 1];
      StoredIff(front, id, mine, c);
      assert forall i :: 0 <= i < |front| ==> front[i] == rows[i];
    }
  }

  /** A socket that is neither this inbound's own nor one of the panel's engines. */
  predicate Foreign(l: Listener, self: seq<Claim>) {
    !CoveredBy(self, l.port, l.l4) && l.process !in PANEL_ENGINES
  }

  ghost predicate Unused(want: seq<Claim>, self: seq<Claim>, live: seq<Listener>) {
    forall l :: l in live && CoveredBy(want, l.port, l.l4) ==> !Foreign(l, self)
  }

  /** What the guard lets through. */
  ghost predicate Accepts(want: seq<Claim>, taken: seq<Claim>, self: seq<Claim>, live: seq<Listener>) {
    Disjoint(want, taken) && Unused(want, self, live)
  }

  predicate Busy(taken: seq<Claim>, self: seq<Claim>, live: seq<Listener>, port: int, l4: L4) {
    (exists l :: l in live && l.port == port && l.l4 == l4) || CoveredBy(taken, port, l4) || CoveredBy(self, port, l4)
  }

  ghost predicate Free(need: seq<L4>, taken: seq<Claim>, self: seq<Claim>, live: seq<Listener>, port: int) {
    forall l4 :: l4 in need ==> !Busy(taken, self, live, port, l4)
  }

  function Unprivileged(start: int): int {
    if start < 1024 then 1024 else start
  }

  /** The least free port from `start` up that needs no privilege, or 0 for none. */
  ghost predicate LeastFree(start: int, need: seq<L4>, taken: seq<Claim>, self: seq<Claim>, live: seq<Listener>, p: int) {
    if need == [] then p == 0
    else if p == 0 then forall q :: Unprivileged(start) <= q <= 65535 ==> !Free(need, taken, self, live, q)
    else
      && Unprivileged(start) <= p <= 65535 && Free(need, taken, self, live, p)
      && forall q :: Unprivileged(start) <= q < p ==> !Free(need, taken, self, live, q)
  }

  method SuggestPort(start: int, need: seq<L4>, taken: seq<Claim>, self: seq<Claim>, live: seq<Listener>) returns (p: int)
    ensures LeastFree(start, need, taken, self, live, p)
  {
    hide Busy;
    if |need| == 0 {
      return 0;
    }
    p := if start < 1024 then 1024 else start;
    while p <= 65535
      invariant p >= Unprivileged(start)
      invariant forall q :: Unprivileged(start) <= q < p ==> !Free(need, taken, self, live, q)
    {
      var free := true;
      for i := 0 to |need|
        invariant free <==> forall j :: 0 <= j < i ==> !Busy(taken, self, live, p, need[j])
      {
        if Busy(taken, self, live, p, need[i]) {
          free := false;
          break;
        }
      }
      if free {
        return p;
      }
      p := p + 1;
    }
    p := 0;
  }

  /** The transports an inbound needs its very port on. */
  function Needs(want: seq<Claim>, port: int): (need: seq<L4>)
    ensures forall l4 :: l4 in need <==> exists c :: c in want && c.lo == c.hi == port && c.l4 == l4
  {
    if want == [] then []
    else
      var rest, c := Needs(want[..|want| - 1], port), want[|want| - 1];
      assert forall x :: x in want <==> x in want[..|want| - 1] || x == c;
      if c.lo == c.hi == port then rest + [c.l4] else rest
  }

  datatype Kind = Inbound | Panel | System

  datatype Conflict = Conflict(port: int, l4: L4, kind: Kind, id: nat, suggested: int)

  /** A true report: someone does hold that port, and it is the least they share. */
  ghost predicate Names(cf: Conflict, want: seq<Claim>, taken: seq<Claim>, self: seq<Claim>, live: seq<Listener>) {
    match cf.kind
    case System => CoveredBy(want, cf.port, cf.l4) && exists l :: l in live && l.port == cf.port && l.l4 == cf.l4 && Foreign(l, self)
    case _ =>
      exists w, t :: w in want && t in taken && Overlaps(w, t) && cf.l4 == w.l4 && cf.port == FirstCommon(w, t) &&
                     cf.id == t.id && (cf.kind == Inbound <==> t.id != 0)
  }

  method Finish(cf: Conflict, n: Node, want: seq<Claim>, taken: seq<Claim>, self: seq<Claim>, live: seq<Listener>) returns (r: Conflict)
    ensures r == cf.(suggested := r.suggested)
    ensures LeastFree(n.port + 1, Needs(want, n.port), taken, self, live, r.suggested)
  {
    var p := SuggestPort(n.port + 1, Needs(want, n.port), taken, self, live);
    r := cf.(suggested := p);
  }

  /** Behind a platform edge an inbound that is told apart by its path shares one port. */
  predicate SharesPublicPort(n: Node) {
    if n.protocol == Brook then n.brookMode == "wsserver" || n.brookMode == "wssserver"
    else n.network in {WS, HTTPUpgrade, XHTTP}
  }

  /** `rows` is missing when the store cannot be read, which lets everything but the panel's
      own ports through. */
  method FindConflict(n: Node, exclude: nat, rows: Option<seq<Row>>, panel: seq<Claim>, live: seq<Listener>)
    returns (cf: Option<Conflict>)
    ensures var stored := match rows case Some(r) => r case None => [];
      var want, taken, self := Claims(n, 0), Stored(stored, exclude, false) + panel, Stored(stored, exclude, true);
      && (cf.None? <==> Accepts(want, taken, self, live))
      && (cf.Some? ==> Names(cf.value, want, taken, self, live))
      && (cf.Some? ==> LeastFree(n.port + 1, Needs(want, n.port), taken, self, live, cf.value.suggested))
  {
    hide Covers, Overlaps, LeastFree, Claims, PANEL_ENGINES;
    var want := InboundClaims(n, 0);
    var taken, self: seq<Claim> := [], [];
    ghost var stored := match rows case Some(r) => r case None => [];
    if rows.Some? {
      for i := 0 to |rows.value|
        invariant taken == Stored(rows.value[..i], exclude, false)
        invariant self == Stored(rows.value[..i], exclude, true)
      {
        assert rows.value[..i + 1][..i] == rows.value[..i];
        if rows.value[i].node.Some? {
          var cs := InboundClaims(rows.value[i].node.value, rows.value[i].id);
          if rows.value[i].id == exclude {
            self := self + cs;
          } else {
            taken := taken + cs;
          }
        }
      }
      assert rows.value[..|rows.value|] == rows.value;
    }
    taken := taken + panel;
    if want == [] {
      return None;
    }
    for i := 0 to |want|
      invariant forall w, t :: w in want[..i] && t in taken ==> !Overlaps(w, t)
    {
      for j := 0 to |taken|
        invariant forall t :: t in taken[..j] ==> !Overlaps(want[i], t)
      {
        if Overlaps(want[i], taken[j]) {
          var hit := Conflict(FirstCommon(want[i], taken[j]), want[i].l4, if taken[j].id != 0 then Inbound else Panel, taken[j].id, 0);
          hit := Finish(hit, n, want, taken, self, live);
          return Some(hit);
        }
      }
    }
    assert want[..|want|] == want;
    for k := 0 to |live|
      invariant forall l :: l in live[..k] && CoveredBy(want, l.port, l.l4) ==> !Foreign(l, self)
    {
      if CoveredBy(want, live[k].port, live[k].l4) && Foreign(live[k], self) {
        var hit := Conflict(live[k].port, live[k].l4, System, 0, 0);
        hit := Finish(hit, n, want, taken, self, live);
        return Some(hit);
      }
    }
    assert live[..|live|] == live;
    cf := None;
  }

  /** `normal` is the node model's own defaulting, applied to what was submitted. */
  method PortConflictFor(given: Node, normal: Node -> Node, platform: bool, exclude: nat,
                         rows: Option<seq<Row>>, panel: seq<Claim>, live: seq<Listener>)
    returns (cf: Option<Conflict>)
    ensures var n := normal(given);
      var stored := match rows case Some(r) => r case None => [];
      var want, taken, self := Claims(n, 0), Stored(stored, exclude, false) + panel, Stored(stored, exclude, true);
      && (cf.None? <==> (platform && SharesPublicPort(n)) || Accepts(want, taken, self, live))
      && (cf.Some? ==> Names(cf.value, want, taken, self, live))
      && (cf.Some? ==> LeastFree(n.port + 1, Needs(want, n.port), taken, self, live, cf.value.suggested))
  {
    hide Accepts, Names, LeastFree, SharesPublicPort, Claims, Stored, Needs;
    var n := normal(given);
    if platform && SharesPublicPort(n) {
      return None;
    }
    cf := FindConflict(n, exclude, rows, panel, live);
  }

  // ---------- Runs of creates and updates ----------

  /** What asks for a port, with the sockets found on the host and whether the store could
      be read. */
  datatype Event =
    | Create(id: nat, node: Node, live: seq<Listener>, read: bool)
    | Update(id: nat, node: Node, live: seq<Listener>, read: bool)
    | Delete(id: nat)

  type Inbounds = map<nat, Node>

  /** The store's listing: every inbound once. */
  ghost predicate Lists(rows: seq<Row>, m: Inbounds) {
    && (forall i :: 0 <= i < |rows| ==> rows[i].id in m && rows[i].node == Some(m[rows[i].id]))
    && (forall id :: id in m ==> exists i :: 0 <= i < |rows| && rows[i].id == id)
  }

  ghost predicate Admits(m: Inbounds, panel: seq<Claim>, id: nat, node: Node, live: seq<Listener>) {
    exists rows :: Lists(rows, m) && Accepts(Claims(node, 0), Stored(rows, id, false) + panel, Stored(rows, id, true), live)
  }

  ghost predicate Passes(m: Inbounds, panel: seq<Claim>, id: nat, node: Node, live: seq<Listener>, read: bool) {
    if read then Admits(m, panel, id, node, live) else Accepts(Claims(node, 0), panel, [], live)
  }

  ghost function Do(m: Inbounds, panel: seq<Claim>, ev: Event): Inbounds {
    match ev
    case Create(id, node, live, read) => if id !in m && Passes(m, panel, id, node, live, read) then m[id := node] else m
    case Update(id, node, live, read) => if id in m && Passes(m, panel, id, node, live, read) then m[id := node] else m
    case Delete(id) => m - {id}
  }

  ghost function Run(m: Inbounds, panel: seq<Claim>, events: seq<Event>): Inbounds
    decreases |events|
  {
    if events == [] then m else Run(Do(m, panel, events[0]), panel, events[1..])
  }

  ghost predicate AllRead(events: seq<Event>) {
    forall i :: 0 <= i < |events| ==> events[i].Delete? || events[i].read
  }

  /** No two inbounds, and no inbound and the panel, bind one port on one transport. */
  ghost predicate Apart(m: Inbounds, panel: seq<Claim>) {
    && (forall i, j :: i in m && j in m && i != j ==> Disjoint(Claims(m[i], i), Claims(m[j], j)))
    && (forall i :: i in m ==> Disjoint(Claims(m[i], i), panel))
  }

  /** Who binds a port has no say in what is bound. */
  lemma DisjointLabelled(cs: seq<Claim>, i: nat, j: nat, b: seq<Claim>)
    requires Disjoint(Labelled(cs, i), b)
    ensures Disjoint(Labelled(cs, j), b)
  {
    hide Labelled;
    var r, q := Labelled(cs, i), Labelled(cs, j);
    forall x, y | x in q && y in b ensures !Overlaps(x, y) {
      var k :| 0 <= k < |q| && q[k] == x;
      assert r[k] in r && !Overlaps(r[k], y);
    }
  }

  /** Admission is disjointness from everyone else. */
  lemma AdmittedIsApart(m: Inbounds, panel: seq<Claim>, id: nat, node: Node, live: seq<Listener>)
    requires Admits(m, panel, id, node, live)
    ensures Disjoint(Claims(node, id), panel)
    ensures forall j :: j in m && j != id ==> Disjoint(Claims(node, id), Claims(m[j], j))
  {
    hide OwnPort, Hops, Labelled, Overlaps, Unused, Stored;
    var rows: seq<Row> :| Lists(rows, m) && Accepts(Claims(node, 0), Stored(rows, id, false) + panel, Stored(rows, id, true), live);
    DisjointLabelled(OwnPort(node) + Hops(node), 0, id, panel);
    forall j | j in m && j != id ensures Disjoint(Claims(node, id), Claims(m[j], j)) {
      var i :| 0 <= i < |rows| && rows[i].id == j;
      forall y | y in Claims(m[j], j) ensures y in Stored(rows, id, false) {
        assert y in RowClaims(rows[i]);
        StoredIff(rows, id, false, y);
      }
      DisjointLabelled(OwnPort(node) + Hops(node), 0, id, Claims(m[j], j));
    }
  }

  lemma DisjointSwaps(a: seq<Claim>, b: seq<Claim>)
    requires Disjoint(a, b)
    ensures Disjoint(b, a)
  {
  }

  lemma DoKeeps(m: Inbounds, panel: seq<Claim>, ev: Event)
    requires Apart(m, panel) && (ev.Delete? || ev.read)
    ensures Apart(Do(m, panel, ev), panel)
  {
    hide Claims, Disjoint, Admits;
    var m' := Do(m, panel, ev);
    if !ev.Delete? && Admits(m, panel, ev.id, ev.node, ev.live) && m' == m[ev.id := ev.node] {
      AdmittedIsApart(m, panel, ev.id, ev.node, ev.live);
      forall j | j in m && j != ev.id ensures Disjoint(Claims(m[j], j), Claims(ev.node, ev.id)) {
        DisjointSwaps(Claims(ev.node, ev.id), Claims(m[j], j));
      }
    }
  }

  /** Whatever is created, updated and deleted, in whatever order and whatever else listens
      on the host, while the store can be read, inbounds stay apart from each other and from the panel. */
  lemma {:induction false} RunKeeps(m: Inbounds, panel: seq<Claim>, events: seq<Event>)
    requires Apart(m, panel) && AllRead(events)
    ensures Apart(Run(m, panel, events), panel)
    decreases |events|
  {
    if events != [] {
      assert AllRead(events[1..]);
      DoKeeps(m, panel, events[0]);
      RunKeeps(Do(m, panel, events[0]), panel, events[1..]);
    }
  }

  /** The same, as ports: from nothing, no port is ever claimed twice. */
  lemma NoPortTwice(panel: seq<Claim>, events: seq<Event>, i: nat, j: nat, p: int, l4: L4)
    requires WellFormed(panel) && AllRead(events)
    ensures var m := Run(map[], panel, events);
      && (i in m && j in m && i != j ==> !(CoveredBy(Claims(m[i], i), p, l4) && CoveredBy(Claims(m[j], j), p, l4)))
      && (i in m ==> !(CoveredBy(Claims(m[i], i), p, l4) && CoveredBy(panel, p, l4)))
  {
    hide Claims, CoveredBy, Run;
    RunKeeps(map[], panel, events);
    var m := Run(map[], panel, events);
    if i in m {
      ClaimsWellFormed(m[i], i);
      DisjointIff(Claims(m[i], i), panel);
      if j in m && i != j {
        ClaimsWellFormed(m[j], j);
        DisjointIff(Claims(m[i], i), Claims(m[j], j));
      }
    }
  }

  lemma RunTwo(m: Inbounds, panel: seq<Claim>, a: Event, b: Event)
    ensures Run(m, panel, [a, b]) == Do(Do(m, panel, a), panel, b)
  {
    hide Do;
    assert [a, b][1..] == [b] && [b][1..] == [];
    assert Run(Do(m, panel, a), panel, [b]) == Run(Do(Do(m, panel, a), panel, b), panel, []);
  }

  /** One read that fails lets a second inbound onto a port. */
  lemma UnreadableStoreAdmits(n: Node)
    requires Binds(n) && (Listens(n, Tcp) || Listens(n, Udp))
    ensures var m := Run(map[], [], [Create(1, n, [], true), Create(2, n, [], false)]);
      m == map[1 := n, 2 := n] && !Apart(m, [])
  {
    hide Hops, Labelled;
    var a, b, m := Create(1, n, [], true), Create(2, n, [], false), map[1 := n, 2 := n];
    RunTwo(map[], [], a, b);
    AdmitsFirst(1, n);
    assert Do(map[], [], a) == map[1 := n];
    var x, y := Claims(m[1], 1)[0], Claims(m[2], 2)[0];
    assert x in Claims(m[1], 1) && y in Claims(m[2], 2) && Overlaps(x, y);
    assert !Disjoint(Claims(m[1], 1), Claims(m[2], 2));
  }

  lemma AdmitsFirst(id: nat, n: Node)
    ensures Admits(map[], [], id, n, [])
  {
    hide Claims;
    assert Lists([], map[]);
    assert Accepts(Claims(n, 0), Stored([], id, false) + [], Stored([], id, true), []);
  }

  // ---------- What is bound on the wire ----------

  /** AmneziaWG, like WireGuard, answers UDP and nothing else. */
  function OnWire(n: Node, l4: L4): bool {
    if n.protocol == AmneziaWG then l4 == Udp else Listens(n, l4)
  }

  ghost predicate WireBinds(n: Node, port: int, l4: L4) {
    Binds(n) && ((port == n.port && OnWire(n, l4)) || CoveredBy(Hops(n), port, l4))
  }

  /** An AmneziaWG inbound on a UDP port that `cs` claims. */
  predicate TunnelOver(n: Node, cs: seq<Claim>) {
    n.protocol == AmneziaWG && Binds(n) && CoveredBy(cs, n.port, Udp)
  }

  lemma LabelledCovers(cs: seq<Claim>, id: nat, port: int, l4: L4)
    ensures CoveredBy(Labelled(cs, id), port, l4) <==> CoveredBy(cs, port, l4)
  {
    hide Labelled;
    var r := Labelled(cs, id);
    if c :| c in cs && Covers(c, port, l4) {
      var i :| 0 <= i < |cs| && cs[i] == c;
      assert r[i] in r && Covers(r[i], port, l4);
    }
    if c :| c in r && Covers(c, port, l4) {
      var i :| 0 <= i < |r| && r[i] == c;
      assert cs[i] in cs && Covers(cs[i], port, l4);
    }
  }

  /** Claims are what is bound on the wire, but for AmneziaWG. */
  lemma ClaimedIff(n: Node, id: nat, port: int, l4: L4)
    ensures CoveredBy(Claims(n, id), port, l4) <==>
      Binds(n) && ((port == n.port && Listens(n, l4)) || CoveredBy(Hops(n), port, l4))
  {
    LabelledCovers(OwnPort(n) + Hops(n), id, port, l4);
    hide HopRanges, Labelled, Listens;
    var own, all := OwnPort(n), OwnPort(n) + Hops(n);
    assert forall c :: c in all <==> c in own || c in Hops(n);
    if Binds(n) && port == n.port && Listens(n, l4) {
      assert Claim(n.port, n.port, l4, 0) in own;
    }
  }

  lemma WireIff(n: Node, id: nat, port: int, l4: L4)
    ensures n.protocol != AmneziaWG ==> (WireBinds(n, port, l4) <==> CoveredBy(Claims(n, id), port, l4))
    ensures n.protocol == AmneziaWG ==> (WireBinds(n, port, l4) <==> Binds(n) && port == n.port && l4 == Udp)
    ensures n.protocol == AmneziaWG && Binds(n) ==> CoveredBy(Claims(n, id), n.port, Tcp)
  {
    ClaimedIff(n, id, port, l4);
    ClaimedIff(n, id, n.port, Tcp);
    hide HopRanges, Claims;
  }

  /** Over every run: two inbounds the guard let through answer on one port if and only if
      one is AmneziaWG and the other claims that port for UDP. */
  lemma WireSharedIff(panel: seq<Claim>, events: seq<Event>, i: nat, j: nat)
    requires AllRead(events) && WellFormed(panel)
    ensures var m := Run(map[], panel, events);
      i in m && j in m && i != j ==>
        ((exists p, l4 :: WireBinds(m[i], p, l4) && WireBinds(m[j], p, l4)) <==>
          TunnelOver(m[i], Claims(m[j], j)) || TunnelOver(m[j], Claims(m[i], i)))
  {
    hide Run, Claims, CoveredBy, WireBinds;
    var m := Run(map[], panel, events);
    if i in m && j in m && i != j {
      forall p, l4
        ensures WireBinds(m[i], p, l4) && WireBinds(m[j], p, l4) ==>
          TunnelOver(m[i], Claims(m[j], j)) || TunnelOver(m[j], Claims(m[i], i))
      {
        NoPortTwice(panel, events, i, j, p, l4);
        NoPortTwice(panel, events, i, j, p, Tcp);
        WireIff(m[i], i, p, l4);
        WireIff(m[j], j, p, l4);
      }
      WireIff(m[i], i, m[j].port, Udp);
      WireIff(m[j], j, m[j].port, Udp);
      WireIff(m[i], i, m[i].port, Udp);
      WireIff(m[j], j, m[i].port, Udp);
      if m[i].protocol == AmneziaWG {
        TunnelsClaimNoUdp(m[i], i, m[j].port);
      }
      if m[j].protocol == AmneziaWG {
        TunnelsClaimNoUdp(m[j], j, m[i].port);
      }
    }
  }

  lemma TunnelsClaimNoUdp(n: Node, id: nat, port: int)
    requires n.protocol == AmneziaWG
    ensures !CoveredBy(Claims(n, id), port, Udp)
  {
    ClaimedIff(n, id, port, Udp);
    hide HopRanges, Claims;
  }

  /** And an inbound answers on a port the panel claims if and only if it is AmneziaWG on one
      the panel claims for UDP. */
  lemma WirePanelIff(panel: seq<Claim>, events: seq<Event>, i: nat)
    requires AllRead(events) && WellFormed(panel)
    ensures var m := Run(map[], panel, events);
      i in m ==> ((exists p, l4 :: WireBinds(m[i], p, l4) && CoveredBy(panel, p, l4)) <==> TunnelOver(m[i], panel))
  {
    hide Run, Claims, CoveredBy, WireBinds;
    var m := Run(map[], panel, events);
    if i in m {
      forall p, l4 ensures WireBinds(m[i], p, l4) && CoveredBy(panel, p, l4) ==> TunnelOver(m[i], panel) {
        NoPortTwice(panel, events, i, i, p, l4);
        WireIff(m[i], i, p, l4);
      }
      WireIff(m[i], i, m[i].port, Udp);
    }
  }

  /** It happens, in two events: both tunnels are stored and answer UDP on one port. */
  lemma TunnelsShareAPort(wg: Node, awg: Node)
    requires wg.protocol == WireGuard && awg.protocol == AmneziaWG && wg.port == awg.port && Binds(wg)
    ensures Run(map[], [], [Create(1, wg, [], true), Create(2, awg, [], true)]) == map[1 := wg, 2 := awg]
    ensures WireBinds(wg, wg.port, Udp) && WireBinds(awg, wg.port, Udp)
  {
    hide Run, Do, WireBinds;
    RunTwo(map[], [], Create(1, wg, [], true), Create(2, awg, [], true));
    CreateStores(map[], 1, wg);
    CreateStores(map[1 := wg], 2, awg);
    BothAnswerUdp(wg, awg);
    AdmitsFirst(1, wg);
    AdmitsSecond(wg, awg);
  }

  lemma CreateStores(m: Inbounds, id: nat, n: Node)
    ensures id !in m && Admits(m, [], id, n, []) ==> Do(m, [], Create(id, n, [], true)) == m[id := n]
  {
    hide Admits;
  }

  lemma BothAnswerUdp(wg: Node, awg: Node)
    requires wg.protocol == WireGuard && awg.protocol == AmneziaWG && wg.port == awg.port && Binds(wg)
    ensures WireBinds(wg, wg.port, Udp) && WireBinds(awg, wg.port, Udp)
  {
    hide Hops;
  }

  lemma AdmitsSecond(wg: Node, awg: Node)
    requires wg.protocol == WireGuard && awg.protocol == AmneziaWG
    ensures Admits(map[1 := wg], [], 2, awg, [])
  {
    var rows := [Row(1, Some(wg))];
    hide Labelled;
    assert rows[..0] == [] && rows[0].id == 1;
    assert Lists(rows, map[1 := wg]);
    assert forall c :: c in Claims(awg, 0) ==> c.l4 == Tcp by { OneTransport(awg, 0, Tcp); }
    assert forall c :: c in Claims(wg, 1) ==> c.l4 == Udp by { OneTransport(wg, 1, Udp); }
    assert Stored(rows, 2, false) == [] + Claims(wg, 1) && Stored(rows, 2, true) == [];
    assert Accepts(Claims(awg, 0), Stored(rows, 2, false) + [], Stored(rows, 2, true), []);
  }

  lemma OneTransport(n: Node, id: nat, l4: L4)
    requires (n.protocol == WireGuard && l4 == Udp) || (n.protocol == AmneziaWG && l4 == Tcp)
    ensures forall c :: c in Claims(n, id) ==> c.l4 == l4
  {
    hide Labelled;
    forall c | c in Claims(n, id) ensures c.l4 == l4 {
      var i :| 0 <= i < |Claims(n, id)| && Claims(n, id)[i] == c;
      assert (OwnPort(n) + Hops(n))[i] in OwnPort(n) + Hops(n);
    }
  }

  // ---------- The suggestion ----------

  lemma UnlabelledClaims(n: Node)
    ensures Claims(n, 0) == OwnPort(n) + Hops(n)
  {
    hide HopRanges, Labelled;
    var cs := OwnPort(n) + Hops(n);
    forall i | 0 <= i < |cs| ensures cs[i].(id := 0) == cs[i] {
      assert cs[i] in cs;
      BoundUnlabelled(n);
    }
  }

  lemma BoundUnlabelled(n: Node)
    ensures forall c :: c in OwnPort(n) + Hops(n) ==> c.id == 0
  {
  }

  /** Moving an inbound moves its own port, on the same transports, and not its ranges. */
  lemma MovedClaims(n: Node, p: int)
    requires Binds(n) && 0 < p <= 65535
    ensures Claims(n.(port := p), 0) == OwnPort(n.(port := p)) + Hops(n)
    ensures forall c :: c in OwnPort(n.(port := p)) ==> c.lo == c.hi == p && c.l4 in Needs(Claims(n, 0), n.port)
  {
    UnlabelledClaims(n);
    UnlabelledClaims(n.(port := p));
    hide HopRanges, Claims, Needs;
    forall c | c in OwnPort(n.(port := p)) ensures c.lo == c.hi == p && c.l4 in Needs(Claims(n, 0), n.port) {
      var was := Claim(n.port, n.port, c.l4, 0);
      assert was in OwnPort(n);
      assert was in Claims(n, 0);
    }
  }

  /** Asked again with the port it suggested, the guard accepts if and only if the
      port-hopping ranges, which moving does not change, were acceptable themselves: so
      without port hopping always. */
  lemma SuggestionWorksIff(n: Node, taken: seq<Claim>, self: seq<Claim>, live: seq<Listener>, p: int)
    requires Binds(n) && p != 0 && LeastFree(n.port + 1, Needs(Claims(n, 0), n.port), taken, self, live, p)
    requires WellFormed(taken)
    ensures p >= 1024 && p > n.port
    ensures Accepts(Claims(n.(port := p), 0), taken, self, live) <==> Accepts(Hops(n), taken, self, live)
    ensures Hops(n) == [] ==> Accepts(Claims(n.(port := p), 0), taken, self, live)
  {
    hide Claims, OwnPort, Hops, Needs;
    MovedClaims(n, p);
    var own, hops, want := OwnPort(n.(port := p)), Hops(n), Claims(n.(port := p), 0);
    OwnIsFree(own, taken, self, live, p);
    assert forall c :: c in want <==> c in own || c in hops;
    assert forall l: Listener :: CoveredBy(want, l.port, l.l4) <==> CoveredBy(own, l.port, l.l4) || CoveredBy(hops, l.port, l.l4);
  }

  lemma OwnIsFree(own: seq<Claim>, taken: seq<Claim>, self: seq<Claim>, live: seq<Listener>, p: int)
    requires forall c :: c in own ==> c.lo == c.hi == p && !Busy(taken, self, live, p, c.l4)
    requires WellFormed(taken)
    ensures Disjoint(own, taken) && forall l :: l in live ==> !CoveredBy(own, l.port, l.l4)
  {
    forall x, y | x in own && y in taken ensures !Overlaps(x, y) {
      assert Covers(y, p, x.l4) <==> Overlaps(x, y);
      assert !CoveredBy(taken, p, x.l4);
    }
    forall l | l in live ensures !CoveredBy(own, l.port, l.l4) {
      assert forall c :: c in own && Covers(c, l.port, l.l4) ==> c.l4 == l.l4 && l.port == p;
    }
  }
}
