/** Every inbound behind one plain-HTTP port: which inbounds share it and by which path,
    what the core is told to bind, and where a request path goes. */
module PaasRouter {

  import opened NodeModel
  import opened Texts
  import opened Wrappers

  const PAAS_PORT_BASE := 39000

  // ---------- How one inbound is served ----------

  datatype BrookOptions = BrookOptions(mode: string, path: string)

  datatype Security = Plain | Secured(config: string)

  datatype Node = Node(
    remark: string, protocol: Protocol, address: string, port: int,
    network: Network, path: string, security: Security, brook: Option<BrookOptions>)

  datatype PaaS = PaaS(cdnFronted: bool, tcpPorts: seq<int>, udpPorts: seq<int>, udpBindHost: string)

  datatype Reason =
    | NoReason | NoConfiguration | CdnDropsBrook | CdnDropsUpgrade | NeedsPath | NeedsHTTP2 | NeedsUDP | NeedsTCP
    | PathTaken(path: string, holder: string)

  datatype Serve = Serve(path: string, ownPort: bool, why: Reason)

  function Rooted(p: string): (r: string)
    ensures r != "" && r[0] == '/'
  {
    if "/" <= p then p else "/" + p
  }

  predicate IsUDP(n: Node) {
    n.protocol in {Hysteria2, TUIC, WireGuard, AmneziaWG} || n.network == QUIC || n.network == MKCP
  }

  predicate RoutesDirectly(pa: PaaS, n: Node) {
    if IsUDP(n) then n.port in pa.udpPorts else n.port in pa.tcpPorts
  }

  function BrookRoutable(n: Node): (string, Reason) {
    var mode := if n.brook.Some? && n.brook.value.mode != "" then n.brook.value.mode else "server";
    if mode == "wsserver" || mode == "wssserver" then
      (Rooted(if n.brook.Some? && n.brook.value.path != "" then n.brook.value.path else "/ws"), NoReason)
    else if mode == "quicserver" then ("", NeedsUDP)
    else ("", NeedsTCP)
  }

  function Routable(pa: PaaS, node: Option<Node>): Serve {
    if node.None? then Serve("", false, NoConfiguration)
    else
      var n := node.value;
      if RoutesDirectly(pa, n) then Serve("", true, NoReason)
      else if n.protocol == Brook then
        var (path, why) := BrookRoutable(n);
        if why == NoReason && pa.cdnFronted then Serve("", false, CdnDropsBrook) else Serve(path, false, why)
      else if pa.cdnFronted && n.network == HTTPUpgrade then Serve("", false, CdnDropsUpgrade)
      else if n.network in {WS, HTTPUpgrade, XHTTP} then
        var p := TrimSpace(n.path);
        if p == "" then Serve("", false, NeedsPath) else Serve(Rooted(p), false, NoReason)
      else if n.network == GRPC || n.network == H2 then Serve("", false, NeedsHTTP2)
      else if IsUDP(n) then Serve("", false, NeedsUDP)
      else Serve("", false, NeedsTCP)
  }

  /** Exactly one of: shared by path, on its own port, refused for a reason; and a port
      the platform routes always wins. */
  lemma RoutableIsOneOfThree(pa: PaaS, node: Option<Node>)
    ensures var r := Routable(pa, node);
      && (r.path != "" ==> !r.ownPort && r.why == NoReason && r.path[0] == '/')
      && (r.ownPort ==> r.path == "" && r.why == NoReason)
      && (r.why != NoReason ==> r.path == "" && !r.ownPort)
      && (r.path != "" || r.ownPort || r.why != NoReason)
      && (r.ownPort <==> node.Some? && RoutesDirectly(pa, node.value))
  {
  }

  /** The copy the core binds behind the edge. */
  function EngineNode(n: Node, port: int): Node {
    n.(address := "127.0.0.1", port := port, security := Plain,
       brook := if n.protocol == Brook && n.brook.Some? && n.brook.value.mode == "wssserver"
                then Some(n.brook.value.(mode := "wsserver")) else n.brook)
  }

  function ServeNode(pa: PaaS, n: Node, port: int): Node {
    if Routable(pa, Some(n)).ownPort then
      if pa.udpBindHost != "" && IsUDP(n) then n.(address := pa.udpBindHost) else n
    else EngineNode(n, port)
  }

  /** The core's copy answers on the very path its route is chosen by, without TLS; an
      inbound on its own port keeps port and security. */
  lemma RewriteKeepsPath(pa: PaaS, n: Node, port: int)
    ensures var r := Routable(pa, Some(n));
      var c := ServeNode(pa, n, port);
      && (r.path != "" && !RoutesDirectly(pa, c) ==> Routable(pa, Some(c)).path == r.path)
      && (r.path != "" ==> c.address == "127.0.0.1" && c.port == port && c.security == Plain)
      && (r.ownPort ==> c.(address := n.address) == n && Routable(pa, Some(c)).ownPort)
  {
  }

  // ---------- The table ----------

  datatype Spec = Spec(node: Option<Node>, clients: seq<string>, cert: string, key: string)
  datatype Skip = Skip(remark: string, reason: Reason)
  datatype Route = Route(prefix: string, port: int, remark: string)

  function PathOf(pa: PaaS, row: Spec): string {
    Routable(pa, row.node).path
  }

  /** An earlier row has the same path. */
  ghost predicate Duplicate(pa: PaaS, rows: seq<Spec>, i: nat)
    requires i < |rows|
  {
    exists j :: 0 <= j < i && PathOf(pa, rows[j]) == PathOf(pa, rows[i])
  }

  ghost predicate ByPath(pa: PaaS, rows: seq<Spec>, i: nat)
    requires i < |rows|
  {
    PathOf(pa, rows[i]) != "" && !Duplicate(pa, rows, i)
  }

  ghost predicate Served(pa: PaaS, rows: seq<Spec>, i: nat)
    requires i < |rows|
  {
    Routable(pa, rows[i].node).ownPort || ByPath(pa, rows, i)
  }

  ghost predicate Skipped(pa: PaaS, rows: seq<Spec>, i: nat)
    requires i < |rows|
  {
    rows[i].node.Some? && !Served(pa, rows, i)
  }

  /** What row `i`, served, becomes. */
  function EngineSpec(pa: PaaS, rows: seq<Spec>, i: nat): Spec
    requires i < |rows| && rows[i].node.Some?
  {
    var n := rows[i].node.value;
    if Routable(pa, rows[i].node).ownPort then rows[i].(node := Some(ServeNode(pa, n, 0)))
    else rows[i].(node := Some(EngineNode(n, PAAS_PORT_BASE + i)), cert := "", key := "")
  }

  function RouteFor(pa: PaaS, rows: seq<Spec>, i: nat): Route
    requires i < |rows| && rows[i].node.Some?
  {
    Route(PathOf(pa, rows[i]), PAAS_PORT_BASE + i, rows[i].node.value.remark)
  }

  /** The rows before `n` that `keep` keeps, in order. */
  ghost function Kept(n: nat, keep: nat -> bool): (r: seq<nat>)
    ensures forall k :: 0 <= k < |r| ==> r[k] < n && keep(r[k])
    ensures forall i :: 0 <= i < n && keep(i) ==> i in r
    ensures forall j, k :: 0 <= j < k < |r| ==> r[j] < r[k]
  {
    if n == 0 then [] else if keep(n - 1) then Kept(n - 1, keep) + [n - 1] else Kept(n - 1, keep)
  }

  ghost function ServedAt(pa: PaaS, rows: seq<Spec>, n: nat): seq<nat>
    requires n <= |rows|
  {
    Kept(n, i => 0 <= i < |rows| && Served(pa, rows, i))
  }

  ghost function ByPathAt(pa: PaaS, rows: seq<Spec>, n: nat): seq<nat>
    requires n <= |rows|
  {
    Kept(n, i => 0 <= i < |rows| && ByPath(pa, rows, i))
  }

  ghost function SkippedAt(pa: PaaS, rows: seq<Spec>, n: nat): seq<nat>
    requires n <= |rows|
  {
    Kept(n, i => 0 <= i < |rows| && Skipped(pa, rows, i))
  }

  ghost function ConfiguredAt(rows: seq<Spec>, n: nat): seq<nat>
    requires n <= |rows|
  {
    Kept(n, i => 0 <= i < |rows| && rows[i].node.Some?)
  }

  lemma {:induction false} KeptSplits(n: nat, a: nat -> bool, b: nat -> bool, either: nat -> bool)
    requires forall i :: 0 <= i < n ==> (either(i) <==> a(i) || b(i)) && !(a(i) && b(i))
    ensures |Kept(n, a)| + |Kept(n, b)| == |Kept(n, either)|
  {
    if n > 0 {
      KeptSplits(n - 1, a, b, either);
    }
  }

  /** Every row with a configuration is either served or skipped, and rows served by path
      are exactly those served but not on their own port. */
  lemma Conserved(pa: PaaS, rows: seq<Spec>)
    ensures |ServedAt(pa, rows, |rows|)| + |SkippedAt(pa, rows, |rows|)| == |ConfiguredAt(rows, |rows|)|
    ensures forall i :: 0 <= i < |rows| ==>
      (i in ByPathAt(pa, rows, |rows|) <==> i in ServedAt(pa, rows, |rows|) && !Routable(pa, rows[i].node).ownPort)
  {
    forall i | 0 <= i < |rows|
      ensures rows[i].node.Some? <==> Served(pa, rows, i) || Skipped(pa, rows, i)
      ensures ByPath(pa, rows, i) <==> Served(pa, rows, i) && !Routable(pa, rows[i].node).ownPort
    {
      RoutableIsOneOfThree(pa, rows[i].node);
    }
    KeptSplits(|rows|, i => 0 <= i < |rows| && Served(pa, rows, i), i => 0 <= i < |rows| && Skipped(pa, rows, i),
      i => 0 <= i < |rows| && rows[i].node.Some?);
  }

  ghost predicate RoutesOf(pa: PaaS, rows: seq<Spec>, at: seq<nat>, routes: seq<Route>) {
    && |routes| == |at|
    && forall k :: 0 <= k < |at| ==> at[k] < |rows| && rows[at[k]].node.Some? && routes[k] == RouteFor(pa, rows, at[k])
  }

  ghost predicate SpecsOf(pa: PaaS, rows: seq<Spec>, at: seq<nat>, specs: seq<Spec>) {
    && |specs| == |at|
    && forall k :: 0 <= k < |at| ==> at[k] < |rows| && rows[at[k]].node.Some? && specs[k] == EngineSpec(pa, rows, at[k])
  }

  /** Why a skipped row is skipped: for its own reason, or for the row that has its path. */
  ghost predicate SkipsOf(pa: PaaS, rows: seq<Spec>, at: seq<nat>, skipped: seq<Skip>) {
    && |skipped| == |at|
    && forall k :: 0 <= k < |at| ==>
         && at[k] < |rows| && rows[at[k]].node.Some?
         && skipped[k].remark == rows[at[k]].node.value.remark
         && SkipReason(pa, rows, at[k], skipped[k].reason)
  }

  ghost predicate SkipReason(pa: PaaS, rows: seq<Spec>, i: nat, why: Reason)
    requires i < |rows|
  {
    var own := Routable(pa, rows[i].node).why;
    if own != NoReason then why == own
    else exists j :: 0 <= j < i && ByPath(pa, rows, j) && PathOf(pa, rows[j]) == PathOf(pa, rows[i]) &&
                     rows[j].node.Some? && why == PathTaken(PathOf(pa, rows[i]), rows[j].node.value.remark)
  }

  // ---------- Sorting by length, longest first ----------

  ghost predicate Longest(routes: seq<Route>) {
    forall i, j :: 0 <= i < j < |routes| ==> |routes[i].prefix| >= |routes[j].prefix|
  }

  /** Before the first that is no longer, so that equals keep their order. */
  function Inserted(r: Route, routes: seq<Route>): (s: seq<Route>)
    ensures |s| == |routes| + 1
    ensures forall x :: x in s <==> x == r || x in routes
  {
    if routes == [] || |r.prefix| >= |routes[0].prefix| then [r] + routes
    else [routes[0]] + Inserted(r, routes[1..])
  }

  function ByLength(routes: seq<Route>): (s: seq<Route>)
    ensures |s| == |routes|
    ensures forall x :: x in s <==> x in routes
  {
    if routes == [] then [] else Inserted(routes[0], ByLength(routes[1..]))
  }

  lemma TailLongest(head: Route, rest: seq<Route>)
    requires Longest([head] + rest)
    ensures Longest(rest) && forall x :: x in rest ==> |head.prefix| >= |x.prefix|
  {
    var all := [head] + rest;
    assert rest == all[1..];
    forall x | x in rest ensures |head.prefix| >= |x.prefix| {
      var i :| 0 <= i < |rest| && rest[i] == x;
      assert all[0] == head && all[i + 1] == x;
    }
  }

  lemma HeadLongest(head: Route, rest: seq<Route>)
    requires Longest(rest) && forall x :: x in rest ==> |head.prefix| >= |x.prefix|
    ensures Longest([head] + rest)
  {
    var all := [head] + rest;
    forall i, j | 0 <= i < j < |all| ensures |all[i].prefix| >= |all[j].prefix| {
      assert all[j] == rest[j - 1] && all[j] in rest;
      if i > 0 {
        assert all[i] == rest[i - 1];
      }
    }
  }

  lemma {:induction false} InsertedLongest(r: Route, routes: seq<Route>)
    requires Longest(routes)
    ensures Longest(Inserted(r, routes)) && multiset(Inserted(r, routes)) == multiset(routes) + multiset{r}
  {
    hide Longest;
    if routes != [] {
      var head, rest := routes[0], routes[1..];
      assert routes == [head] + rest;
      TailLongest(head, rest);
      if |r.prefix| >= |head.prefix| {
        HeadLongest(r, routes);
      } else {
        InsertedLongest(r, rest);
        HeadLongest(head, Inserted(r, rest));
      }
    } else {
      HeadLongest(r, []);
    }
  }

  /** The table is the routes, longest prefix first. */
  lemma {:induction false} ByLengthSorts(routes: seq<Route>)
    ensures Longest(ByLength(routes)) && multiset(ByLength(routes)) == multiset(routes)
  {
    hide Inserted;
    if routes != [] {
      ByLengthSorts(routes[1..]);
      InsertedLongest(routes[0], ByLength(routes[1..]));
      assert routes == [routes[0]] + routes[1..];
    }
  }

  ghost predicate Differ(a: Route, b: Route) {
    a.port != b.port && a.prefix != b.prefix
  }

  ghost predicate AllDiffer(routes: seq<Route>) {
    forall i, j :: 0 <= i < j < |routes| ==> Differ(routes[i], routes[j])
  }

  lemma HeadDiffers(head: Route, rest: seq<Route>)
    requires AllDiffer(rest) && forall x :: x in rest ==> Differ(head, x)
    ensures AllDiffer([head] + rest)
  {
    hide Differ;
    var all := [head] + rest;
    forall i, j | 0 <= i < j < |all| ensures Differ(all[i], all[j]) {
      assert all[j] == rest[j - 1] && all[j] in rest;
      if i > 0 {
        assert all[i] == rest[i - 1];
      }
    }
  }

  lemma TailDiffers(routes: seq<Route>)
    requires AllDiffer(routes) && routes != []
    ensures AllDiffer(routes[1..]) && forall x :: x in routes[1..] ==> Differ(routes[0], x)
  {
  }

  lemma {:induction false} InsertedDiffers(r: Route, routes: seq<Route>)
    requires AllDiffer(routes) && forall x :: x in routes ==> Differ(r, x) && Differ(x, r)
    ensures AllDiffer(Inserted(r, routes))
  {
    hide Differ, AllDiffer;
    if routes == [] || |r.prefix| >= |routes[0].prefix| {
      HeadDiffers(r, routes);
    } else {
      TailDiffers(routes);
      InsertedDiffers(r, routes[1..]);
      HeadDiffers(routes[0], Inserted(r, routes[1..]));
    }
  }

  /** Sorting keeps routes apart. */
  lemma {:induction false} ByLengthDiffers(routes: seq<Route>)
    requires AllDiffer(routes)
    ensures AllDiffer(ByLength(routes))
  {
    hide AllDiffer, Inserted;
    if routes == [] {
      assert AllDiffer([]) by { NoneDiffer(); }
    } else {
      TailDiffers(routes);
      ByLengthDiffers(routes[1..]);
      InsertedDiffers(routes[0], ByLength(routes[1..]));
    }
  }

  lemma NoneDiffer()
    ensures AllDiffer([])
  {
  }

  // ---------- Building the table ----------

  /** The loop's record of who has a path: exactly the rows served by path so far. */
  ghost predicate Holds(pa: PaaS, rows: seq<Spec>, j: nat, prefix: string, remark: string) {
    j < |rows| && ByPath(pa, rows, j) && PathOf(pa, rows[j]) == prefix && rows[j].node.value.remark == remark
  }

  ghost predicate TakenUpTo(pa: PaaS, rows: seq<Spec>, n: nat, taken: map<string, string>)
    requires n <= |rows|
  {
    && (forall p :: p in taken ==> exists j: nat :: j < n && Holds(pa, rows, j, p, taken[p]))
    && (forall j :: 0 <= j < n && ByPath(pa, rows, j) ==> PathOf(pa, rows[j]) in taken)
  }

  lemma {:induction false} FirstWithPath(pa: PaaS, rows: seq<Spec>, i: nat) returns (j: nat)
    requires i < |rows| && PathOf(pa, rows[i]) != ""
    ensures j <= i && ByPath(pa, rows, j) && PathOf(pa, rows[j]) == PathOf(pa, rows[i])
    decreases i
  {
    hide PathOf;
    j := i;
    if Duplicate(pa, rows, i) {
      var k :| 0 <= k < i && PathOf(pa, rows[k]) == PathOf(pa, rows[i]);
      j := FirstWithPath(pa, rows, k);
    }
  }

  lemma TakenIsDuplicate(pa: PaaS, rows: seq<Spec>, i: nat, taken: map<string, string>)
    requires i < |rows| && PathOf(pa, rows[i]) != "" && TakenUpTo(pa, rows, i, taken)
    ensures PathOf(pa, rows[i]) in taken <==> Duplicate(pa, rows, i)
  {
    hide PathOf;
    var p := PathOf(pa, rows[i]);
    if p in taken {
      var j: nat :| j < i && Holds(pa, rows, j, p, taken[p]);
    }
    if Duplicate(pa, rows, i) {
      var k :| 0 <= k < i && PathOf(pa, rows[k]) == p;
      var j := FirstWithPath(pa, rows, k);
    }
  }

  lemma TakenGrows(pa: PaaS, rows: seq<Spec>, i: nat, taken: map<string, string>)
    requires i < |rows| && TakenUpTo(pa, rows, i, taken)
    ensures ByPath(pa, rows, i) ==> TakenUpTo(pa, rows, i + 1, taken[PathOf(pa, rows[i]) := rows[i].node.value.remark])
    ensures !ByPath(pa, rows, i) ==> TakenUpTo(pa, rows, i + 1, taken)
  {
    hide PathOf, ByPath;
    if ByPath(pa, rows, i) {
      assert rows[i].node.Some? by { ByPathHasNode(pa, rows, i); }
      var p := PathOf(pa, rows[i]);
      var more := taken[p := rows[i].node.value.remark];
      forall q | q in more ensures exists j: nat :: j < i + 1 && Holds(pa, rows, j, q, more[q]) {
        if q == p {
          assert Holds(pa, rows, i, q, more[q]);
        } else {
          var j: nat :| j < i && Holds(pa, rows, j, q, taken[q]);
        }
      }
    } else {
      forall q | q in taken ensures exists j: nat :: j < i + 1 && Holds(pa, rows, j, q, taken[q]) {
        var j: nat :| j < i && Holds(pa, rows, j, q, taken[q]);
      }
    }
  }

  lemma ByPathHasNode(pa: PaaS, rows: seq<Spec>, i: nat)
    requires i < |rows| && ByPath(pa, rows, i)
    ensures rows[i].node.Some?
  {
  }

  ghost predicate TableOf(pa: PaaS, rows: seq<Spec>, table: seq<Route>) {
    exists routes :: RoutesOf(pa, rows, ByPathAt(pa, rows, |rows|), routes) && table == ByLength(routes)
  }

  /** The rows before `i` are dealt with. */
  ghost predicate PlacedUpTo(pa: PaaS, rows: seq<Spec>, i: nat, specs: seq<Spec>, routes: seq<Route>, skipped: seq<Skip>)
    requires i <= |rows|
  {
    && SpecsOf(pa, rows, ServedAt(pa, rows, i), specs)
    && RoutesOf(pa, rows, ByPathAt(pa, rows, i), routes)
    && SkipsOf(pa, rows, SkippedAt(pa, rows, i), skipped)
  }

  lemma PlaceNothing(pa: PaaS, rows: seq<Spec>, i: nat, specs: seq<Spec>, routes: seq<Route>, skipped: seq<Skip>)
    requires i < |rows| && PlacedUpTo(pa, rows, i, specs, routes, skipped) && rows[i].node.None?
    ensures PlacedUpTo(pa, rows, i + 1, specs, routes, skipped)
  {
    hide EngineSpec, RouteFor, SkipReason;
    RoutableIsOneOfThree(pa, rows[i].node);
  }

  lemma PlaceSkip(pa: PaaS, rows: seq<Spec>, i: nat, specs: seq<Spec>, routes: seq<Route>, skipped: seq<Skip>, s: Skip)
    requires i < |rows| && PlacedUpTo(pa, rows, i, specs, routes, skipped) && Skipped(pa, rows, i)
    requires rows[i].node.Some? && s.remark == rows[i].node.value.remark && SkipReason(pa, rows, i, s.reason)
    ensures PlacedUpTo(pa, rows, i + 1, specs, routes, skipped + [s])
  {
    hide EngineSpec, RouteFor, SkipReason;
    RoutableIsOneOfThree(pa, rows[i].node);
  }

  lemma PlaceOwn(pa: PaaS, rows: seq<Spec>, i: nat, specs: seq<Spec>, routes: seq<Route>, skipped: seq<Skip>)
    requires i < |rows| && PlacedUpTo(pa, rows, i, specs, routes, skipped)
    requires rows[i].node.Some? && Routable(pa, rows[i].node).ownPort
    ensures PlacedUpTo(pa, rows, i + 1, specs + [EngineSpec(pa, rows, i)], routes, skipped)
  {
    hide EngineSpec, RouteFor, SkipReason;
    RoutableIsOneOfThree(pa, rows[i].node);
  }

  lemma PlaceByPath(pa: PaaS, rows: seq<Spec>, i: nat, specs: seq<Spec>, routes: seq<Route>, skipped: seq<Skip>)
    requires i < |rows| && PlacedUpTo(pa, rows, i, specs, routes, skipped) && rows[i].node.Some? && ByPath(pa, rows, i)
    ensures PlacedUpTo(pa, rows, i + 1, specs + [EngineSpec(pa, rows, i)], routes + [RouteFor(pa, rows, i)], skipped)
  {
    hide EngineSpec, RouteFor, SkipReason;
    RoutableIsOneOfThree(pa, rows[i].node);
  }

  function Configured(rows: seq<Spec>): nat {
    if rows == [] then 0 else Configured(rows[..|rows| - 1]) + if rows[|rows| - 1].node.Some? then 1 else 0
  }

  lemma {:induction false} ConfiguredCount(rows: seq<Spec>, n: nat)
    requires n <= |rows|
    ensures |ConfiguredAt(rows, n)| == Configured(rows[..n])
  {
    if n > 0 {
      ConfiguredCount(rows, n - 1);
      assert rows[..n][..n - 1] == rows[..n - 1];
    }
  }

  /** The routes of the rows served by path differ in port and in path. */
  lemma RoutesDiffer(pa: PaaS, rows: seq<Spec>, routes: seq<Route>)
    requires RoutesOf(pa, rows, ByPathAt(pa, rows, |rows|), routes)
    ensures AllDiffer(routes)
  {
    hide PathOf;
    var at := ByPathAt(pa, rows, |rows|);
    forall i, j | 0 <= i < j < |routes| ensures Differ(routes[i], routes[j]) {
      assert ByPath(pa, rows, at[i]) && ByPath(pa, rows, at[j]) && at[i] < at[j];
    }
  }

  /** The core a route leads to: bound on loopback at that very port, without a certificate. */
  ghost predicate Backed(r: Route, specs: seq<Spec>) {
    exists s :: s in specs && s.node.Some? && s.node.value.address == "127.0.0.1" && s.node.value.port == r.port && s.cert == s.key == ""
  }

  lemma RoutesBacked(pa: PaaS, rows: seq<Spec>, specs: seq<Spec>, table: seq<Route>, r: Route)
    requires SpecsOf(pa, rows, ServedAt(pa, rows, |rows|), specs) && TableOf(pa, rows, table) && r in table
    ensures Backed(r, specs)
  {
    RoutesAreByPath(pa, rows, table);
    hide TableOf, ByPath;
    var i: nat :| i < |rows| && ByPath(pa, rows, i) && rows[i].node.Some? && r == RouteFor(pa, rows, i);
    ByPathIsServed(pa, rows, i);
    LoopbackSpec(pa, rows, i);
    hide Routable, EngineSpec, Served;
    var at := ServedAt(pa, rows, |rows|);
    assert i in at;
    var k :| 0 <= k < |at| && at[k] == i;
    assert specs[k] in specs && specs[k] == EngineSpec(pa, rows, i);
  }

  lemma LoopbackSpec(pa: PaaS, rows: seq<Spec>, i: nat)
    requires i < |rows| && rows[i].node.Some? && !Routable(pa, rows[i].node).ownPort
    ensures var s := EngineSpec(pa, rows, i);
      s.node.Some? && s.node.value.address == "127.0.0.1" && s.node.value.port == PAAS_PORT_BASE + i && s.cert == s.key == ""
  {
    hide Routable;
  }

  lemma ByPathIsServed(pa: PaaS, rows: seq<Spec>, i: nat)
    requires i < |rows| && ByPath(pa, rows, i)
    ensures Served(pa, rows, i) && !Routable(pa, rows[i].node).ownPort
  {
    RoutableIsOneOfThree(pa, rows[i].node);
  }

  /** What is returned accounts for every configured row, and its routes lead each to a core
      of its own. */
  ghost predicate Accounts(rows: seq<Spec>, specs: seq<Spec>, table: seq<Route>, skipped: seq<Skip>) {
    && |specs| + |skipped| == Configured(rows)
    && AllDiffer(table)
    && forall r :: r in table ==> Backed(r, specs)
  }

  lemma ListsAccount(pa: PaaS, rows: seq<Spec>, specs: seq<Spec>, table: seq<Route>, skipped: seq<Skip>)
    requires SpecsOf(pa, rows, ServedAt(pa, rows, |rows|), specs)
    requires SkipsOf(pa, rows, SkippedAt(pa, rows, |rows|), skipped)
    requires TableOf(pa, rows, table)
    ensures Accounts(rows, specs, table, skipped)
  {
    hide ServedAt, SkippedAt, ConfiguredAt, EngineSpec, SkipReason, Backed, AllDiffer, ByLength;
    Conserved(pa, rows);
    ConfiguredCount(rows, |rows|);
    assert rows[..|rows|] == rows;
    forall r | r in table ensures Backed(r, specs) {
      RoutesBacked(pa, rows, specs, table, r);
    }
    var routes :| RoutesOf(pa, rows, ByPathAt(pa, rows, |rows|), routes) && table == ByLength(routes);
    RoutesDiffer(pa, rows, routes);
    ByLengthDiffers(routes);
  }

  lemma PlacedNone(pa: PaaS, rows: seq<Spec>)
    ensures PlacedUpTo(pa, rows, 0, [], [], []) && TakenUpTo(pa, rows, 0, map[])
  {
  }

  lemma PlacedAll(pa: PaaS, rows: seq<Spec>, specs: seq<Spec>, routes: seq<Route>, skipped: seq<Skip>)
    requires PlacedUpTo(pa, rows, |rows|, specs, routes, skipped)
    ensures SpecsOf(pa, rows, ServedAt(pa, rows, |rows|), specs)
    ensures SkipsOf(pa, rows, SkippedAt(pa, rows, |rows|), skipped)
    ensures TableOf(pa, rows, ByLength(routes))
    ensures Accounts(rows, specs, ByLength(routes), skipped)
  {
    hide SpecsOf, SkipsOf, RoutesOf, ByLength, Accounts;
    ListsAccount(pa, rows, specs, ByLength(routes), skipped);
  }

  method PaasSpecs(pa: PaaS, rows: seq<Spec>) returns (specs: seq<Spec>, table: seq<Route>, skipped: seq<Skip>)
    ensures SpecsOf(pa, rows, ServedAt(pa, rows, |rows|), specs)
    ensures SkipsOf(pa, rows, SkippedAt(pa, rows, |rows|), skipped)
    ensures TableOf(pa, rows, table)
    ensures Accounts(rows, specs, table, skipped)
  {
    hide ByPath, Served, Skipped, Routable, ServeNode, EngineNode, Accounts, PlacedUpTo, TakenUpTo,
      SpecsOf, SkipsOf, RoutesOf, TableOf, ByLength;
    var routes: seq<Route>;
    var taken: map<string, string>;
    specs, routes, skipped, taken := [], [], [], map[];
    PlacedNone(pa, rows);
    for i := 0 to |rows|
      invariant PlacedUpTo(pa, rows, i, specs, routes, skipped)
      invariant TakenUpTo(pa, rows, i, taken)
    {
      TakenGrows(pa, rows, i, taken);
      PathFates(pa, rows, i, taken);
      if rows[i].node.None? {
        PlaceNothing(pa, rows, i, specs, routes, skipped);
        continue;
      }
      var n := rows[i].node.value;
      var r := Routable(pa, rows[i].node);
      if r.why != NoReason {
        var s := Skip(n.remark, r.why);
        PlaceSkip(pa, rows, i, specs, routes, skipped, s);
        skipped := skipped + [s];
      } else if r.ownPort {
        PlaceOwn(pa, rows, i, specs, routes, skipped);
        specs := specs + [rows[i].(node := Some(ServeNode(pa, n, 0)))];
      } else if r.path in taken {
        var s := Skip(n.remark, PathTaken(r.path, taken[r.path]));
        PlaceSkip(pa, rows, i, specs, routes, skipped, s);
        skipped := skipped + [s];
      } else {
        PlaceByPath(pa, rows, i, specs, routes, skipped);
        taken := taken[r.path := n.remark];
        var port := PAAS_PORT_BASE + i;
        specs := specs + [Spec(Some(EngineNode(n, port)), rows[i].clients, "", "")];
        routes := routes + [Route(r.path, port, n.remark)];
      }
    }
    table := ByLength(routes);
    PlacedAll(pa, rows, specs, routes, skipped);
  }

  /** What the loop's tests say of the row at hand. */
  lemma PathFates(pa: PaaS, rows: seq<Spec>, i: nat, taken: map<string, string>)
    requires i < |rows| && TakenUpTo(pa, rows, i, taken)
    ensures var r := Routable(pa, rows[i].node);
      && (rows[i].node.None? ==> !ByPath(pa, rows, i))
      && (r.why != NoReason && rows[i].node.Some? ==>
            Skipped(pa, rows, i) && SkipReason(pa, rows, i, r.why) && !ByPath(pa, rows, i))
      && (r.why == NoReason && r.ownPort ==> !ByPath(pa, rows, i))
      && (r.why == NoReason && !r.ownPort && r.path in taken ==>
            Skipped(pa, rows, i) && SkipReason(pa, rows, i, PathTaken(r.path, taken[r.path])) && !ByPath(pa, rows, i))
      && (r.why == NoReason && !r.ownPort && r.path !in taken ==> ByPath(pa, rows, i))
  {
    RoutableIsOneOfThree(pa, rows[i].node);
    hide Routable;
    if PathOf(pa, rows[i]) != "" {
      TakenIsDuplicate(pa, rows, i, taken);
    }
  }

  // ---------- Matching ----------

  function WithoutSlash(p: string): string {
    if p != "" && p[|p| - 1] == '/' then p[..|p| - 1] else p
  }

  predicate Matches(prefix: string, path: string) {
    path == prefix || WithoutSlash(prefix) + "/" <= path
  }

  class Router {
    var routes: seq<Route>

    constructor ()
      ensures routes == []
    {
      routes := [];
    }

    method SetRoutes(table: seq<Route>)
      modifies this
      ensures routes == table
    {
      routes := table;
    }

    method Match(path: string) returns (hit: Option<Route>)
      ensures hit == FirstMatch(routes, path)
    {
      for i := 0 to |routes|
        invariant FirstMatch(routes, path) == FirstMatch(routes[i..], path)
      {
        if Matches(routes[i].prefix, path) {
          return Some(routes[i]);
        }
      }
      hit := None;
    }
  }

  function FirstMatch(routes: seq<Route>, path: string): Option<Route> {
    if routes == [] then None
    else if Matches(routes[0].prefix, path) then Some(routes[0])
    else FirstMatch(routes[1..], path)
  }

  /** A match is a prefix, so two different matches differ in length. */
  lemma MatchIsPrefix(prefix: string, path: string)
    requires prefix != "" && Matches(prefix, path)
    ensures prefix <= path
  {
  }

  lemma {:induction false} FirstIsLongest(routes: seq<Route>, path: string)
    requires Longest(routes)
    ensures match FirstMatch(routes, path)
      case None => forall r :: r in routes ==> !Matches(r.prefix, path)
      case Some(hit) =>
        && hit in routes && Matches(hit.prefix, path)
        && forall r :: r in routes && Matches(r.prefix, path) ==> |r.prefix| <= |hit.prefix|
  {
    hide Longest, Matches;
    if routes != [] {
      assert routes == [routes[0]] + routes[1..];
      TailLongest(routes[0], routes[1..]);
      FirstIsLongest(routes[1..], path);
    }
  }

  /** Where a request belongs, said of the rows alone: to the row served by the longest
      path that matches. */
  ghost predicate Winner(pa: PaaS, rows: seq<Spec>, path: string, i: nat) {
    && i < |rows| && ByPath(pa, rows, i) && Matches(PathOf(pa, rows[i]), path)
    && forall j :: 0 <= j < |rows| && ByPath(pa, rows, j) && Matches(PathOf(pa, rows[j]), path) ==>
         |PathOf(pa, rows[j])| <= |PathOf(pa, rows[i])|
  }

  lemma WinnerIsOne(pa: PaaS, rows: seq<Spec>, path: string, i: nat, j: nat)
    requires Winner(pa, rows, path, i) && Winner(pa, rows, path, j)
    ensures i == j
  {
    hide PathOf, Matches;
    MatchIsPrefix(PathOf(pa, rows[i]), path);
    MatchIsPrefix(PathOf(pa, rows[j]), path);
    assert PathOf(pa, rows[i]) == PathOf(pa, rows[j]);
  }

  lemma RoutesAreByPath(pa: PaaS, rows: seq<Spec>, table: seq<Route>)
    requires TableOf(pa, rows, table)
    ensures forall r :: r in table ==> exists i: nat :: i < |rows| && ByPath(pa, rows, i) && rows[i].node.Some? && r == RouteFor(pa, rows, i)
    ensures forall i :: 0 <= i < |rows| && ByPath(pa, rows, i) ==> rows[i].node.Some? && RouteFor(pa, rows, i) in table
    ensures Longest(table)
  {
    hide ByPath, RouteFor, Longest, ByLength;
    var routes :| RoutesOf(pa, rows, ByPathAt(pa, rows, |rows|), routes) && table == ByLength(routes);
    ByLengthSorts(routes);
    var at := ByPathAt(pa, rows, |rows|);
    forall r | r in table ensures exists i: nat :: i < |rows| && ByPath(pa, rows, i) && rows[i].node.Some? && r == RouteFor(pa, rows, i) {
      var k :| 0 <= k < |routes| && routes[k] == r;
      assert ByPath(pa, rows, at[k]);
    }
    forall i | 0 <= i < |rows| && ByPath(pa, rows, i) ensures rows[i].node.Some? && RouteFor(pa, rows, i) in table {
      assert i in at;
      var k :| 0 <= k < |at| && at[k] == i;
      assert routes[k] in routes;
    }
  }

  ghost predicate Reached(pa: PaaS, rows: seq<Spec>, path: string, hit: Route, i: nat) {
    && Winner(pa, rows, path, i) && rows[i].node.Some?
    && hit == RouteFor(pa, rows, i)
    && EngineSpec(pa, rows, i).node == Some(EngineNode(rows[i].node.value, hit.port))
  }

  /** A request reaches exactly the row it belongs to, on the port that row's core was told
      to bind, and the panel's own pages exactly when it belongs to none. */
  lemma RequestReaches(pa: PaaS, rows: seq<Spec>, table: seq<Route>, path: string)
    requires TableOf(pa, rows, table)
    ensures match FirstMatch(table, path)
      case None => forall i :: !Winner(pa, rows, path, i)
      case Some(hit) => exists i :: Reached(pa, rows, path, hit, i)
  {
    hide ByLength, TableOf;
    RoutesAreByPath(pa, rows, table);
    FirstIsLongest(table, path);
    hide Matches, Routable, FirstMatch;
    match FirstMatch(table, path)
    case None =>
      forall j | 0 <= j < |rows| && ByPath(pa, rows, j) ensures !Matches(PathOf(pa, rows[j]), path) {
        assert RouteFor(pa, rows, j) in table;
      }
    case Some(hit) =>
      var i: nat :| i < |rows| && ByPath(pa, rows, i) && rows[i].node.Some? && hit == RouteFor(pa, rows, i);
      forall j | 0 <= j < |rows| && ByPath(pa, rows, j) && Matches(PathOf(pa, rows[j]), path)
        ensures |PathOf(pa, rows[j])| <= |PathOf(pa, rows[i])|
      {
        assert RouteFor(pa, rows, j) in table;
      }
      RoutableIsOneOfThree(pa, rows[i].node);
      assert Reached(pa, rows, path, hit, i);
  }

  /** Anything below an inbound's path reaches it unless a longer path matches too. */
  lemma BelowPrefixReaches(pa: PaaS, rows: seq<Spec>, i: nat, rest: string)
    requires i < |rows| && ByPath(pa, rows, i)
    ensures var path := PathOf(pa, rows[i]) + "/" + rest;
      Winner(pa, rows, path, i) <==>
        forall j :: 0 <= j < |rows| && ByPath(pa, rows, j) && |PathOf(pa, rows[j])| > |PathOf(pa, rows[i])| ==>
          !Matches(PathOf(pa, rows[j]), path)
  {
    hide ByPath, PathOf;
  }

  // ---------- Row order ----------

  ghost predicate Permuted(rows: seq<Spec>, rows': seq<Spec>) {
    multiset(rows) == multiset(rows')
  }

  /** Rows with one path are one and the same row. */
  ghost predicate OneRowPerPath(pa: PaaS, rows: seq<Spec>) {
    forall i, j :: 0 <= i < |rows| && 0 <= j < |rows| && PathOf(pa, rows[i]) != "" && PathOf(pa, rows[i]) == PathOf(pa, rows[j]) ==>
      rows[i] == rows[j]
  }

  lemma SameMembers(rows: seq<Spec>, rows': seq<Spec>, i: nat) returns (k: nat)
    requires Permuted(rows, rows') && i < |rows|
    ensures k < |rows'| && rows'[k] == rows[i]
  {
    assert rows[i] in multiset(rows');
    k :| 0 <= k < |rows'| && rows'[k] == rows[i];
  }

  /** The winner's path is no shorter than any row's that matches, in whatever order. */
  lemma WinnerBeats(pa: PaaS, rows: seq<Spec>, path: string, i: nat, j: nat)
    requires Winner(pa, rows, path, i) && j < |rows| && PathOf(pa, rows[j]) != "" && Matches(PathOf(pa, rows[j]), path)
    ensures |PathOf(pa, rows[j])| <= |PathOf(pa, rows[i])|
  {
    hide PathOf, Matches;
    var first := FirstWithPath(pa, rows, j);
  }

  /** Of the rows before `n` that are shared by path and match, one has the longest path. */
  lemma {:induction false} LongestMatch(pa: PaaS, rows: seq<Spec>, path: string, n: nat, j: nat) returns (k: nat)
    requires j < n <= |rows| && ByPath(pa, rows, j) && Matches(PathOf(pa, rows[j]), path)
    ensures k < n && ByPath(pa, rows, k) && Matches(PathOf(pa, rows[k]), path)
    ensures forall x :: 0 <= x < n && ByPath(pa, rows, x) && Matches(PathOf(pa, rows[x]), path) ==>
      |PathOf(pa, rows[x])| <= |PathOf(pa, rows[k])|
  {
    hide PathOf, Matches, ByPath;
    var last := n - 1;
    if exists x :: 0 <= x < last && ByPath(pa, rows, x) && Matches(PathOf(pa, rows[x]), path) {
      var x :| 0 <= x < last && ByPath(pa, rows, x) && Matches(PathOf(pa, rows[x]), path);
      k := LongestMatch(pa, rows, path, last, x);
      if ByPath(pa, rows, last) && Matches(PathOf(pa, rows[last]), path) && |PathOf(pa, rows[last])| > |PathOf(pa, rows[k])| {
        k := last;
      }
    } else {
      k := j;
    }
  }

  /** Two winners, each in its own order, are one row. */
  lemma WinnersAgree(pa: PaaS, rows: seq<Spec>, rows': seq<Spec>, path: string, i: nat, k: nat)
    requires OneRowPerPath(pa, rows) && Permuted(rows, rows')
    requires Winner(pa, rows, path, i) && Winner(pa, rows', path, k)
    ensures rows[i] == rows'[k]
  {
    hide PathOf, Matches, OneRowPerPath;
    var i' := SameMembers(rows, rows', i);
    var k' := SameMembers(rows', rows, k);
    WinnerBeats(pa, rows, path, i, k');
    WinnerBeats(pa, rows', path, k, i');
    MatchIsPrefix(PathOf(pa, rows[i]), path);
    MatchIsPrefix(PathOf(pa, rows'[k]), path);
    assert PathOf(pa, rows[i]) == PathOf(pa, rows[k']);
    assert rows[i] == rows[k'] by { PathDecides(pa, rows, i, k'); }
  }

  /** Whoever serves a path goes on serving it in every other order of the rows: nobody
      loses it, to another row or to the panel. */
  lemma OrderFree(pa: PaaS, rows: seq<Spec>, rows': seq<Spec>, path: string, i: nat) returns (k: nat)
    requires OneRowPerPath(pa, rows) && Permuted(rows, rows') && Winner(pa, rows, path, i)
    ensures Winner(pa, rows', path, k) && rows'[k] == rows[i]
  {
    var i' := SameMembers(rows, rows', i);
    var first := FirstWithPath(pa, rows', i');
    hide PathOf, Matches, OneRowPerPath, ByPath;
    k := LongestMatch(pa, rows', path, |rows'|, first);
    WinnersAgree(pa, rows, rows', path, i, k);
  }

  lemma PathDecides(pa: PaaS, rows: seq<Spec>, i: nat, j: nat)
    requires OneRowPerPath(pa, rows) && i < |rows| && j < |rows|
    requires PathOf(pa, rows[i]) != "" && PathOf(pa, rows[i]) == PathOf(pa, rows[j])
    ensures rows[i] == rows[j]
  {
  }

  /** Asked for its very own path, the first row that has it wins. */
  lemma OwnPathWins(pa: PaaS, rows: seq<Spec>, i: nat)
    requires i < |rows| && ByPath(pa, rows, i)
    ensures Winner(pa, rows, PathOf(pa, rows[i]), i)
  {
    hide PathOf;
    var path := PathOf(pa, rows[i]);
    forall j | 0 <= j < |rows| && ByPath(pa, rows, j) && Matches(PathOf(pa, rows[j]), path)
      ensures |PathOf(pa, rows[j])| <= |path|
    {
      MatchIsPrefix(PathOf(pa, rows[j]), path);
    }
  }

  lemma SwapChangesWinner(pa: PaaS, rows: seq<Spec>, i: nat, j: nat) returns (rows': seq<Spec>, path: string)
    requires i < j < |rows| && ByPath(pa, rows, i) && PathOf(pa, rows[i]) == PathOf(pa, rows[j]) && rows[i] != rows[j]
    ensures Permuted(rows, rows') && Winner(pa, rows, path, i) && Winner(pa, rows', path, i) && rows[i] != rows'[i]
  {
    hide PathOf, Matches, Winner;
    rows' := rows[i := rows[j]][j := rows[i]];
    path := PathOf(pa, rows[i]);
    OwnPathWins(pa, rows, i);
    assert ByPath(pa, rows', i) by {
      forall k | 0 <= k < i ensures PathOf(pa, rows'[k]) != path {
        assert rows'[k] == rows[k];
      }
    }
    OwnPathWins(pa, rows', i);
  }

  ghost predicate Serves(pa: PaaS, rows: seq<Spec>, path: string, row: Spec) {
    exists i: nat :: Winner(pa, rows, path, i) && rows[i] == row
  }

  /** The same row serves a path in both orders, or the panel does in both. */
  ghost predicate SameWinner(pa: PaaS, rows: seq<Spec>, rows': seq<Spec>, path: string) {
    forall row :: Serves(pa, rows, path, row) <==> Serves(pa, rows', path, row)
  }

  lemma StillServes(pa: PaaS, rows: seq<Spec>, rows': seq<Spec>, path: string, row: Spec)
    requires OneRowPerPath(pa, rows) && Permuted(rows, rows') && Serves(pa, rows, path, row)
    ensures Serves(pa, rows', path, row)
  {
    var i: nat :| Winner(pa, rows, path, i) && rows[i] == row;
    var k := OrderFree(pa, rows, rows', path, i);
  }

  lemma PermutedOneRow(pa: PaaS, rows: seq<Spec>, rows': seq<Spec>)
    requires OneRowPerPath(pa, rows) && Permuted(rows, rows')
    ensures OneRowPerPath(pa, rows') && Permuted(rows', rows)
  {
    hide PathOf;
    forall i, j | 0 <= i < |rows'| && 0 <= j < |rows'| && PathOf(pa, rows'[i]) != "" && PathOf(pa, rows'[i]) == PathOf(pa, rows'[j])
      ensures rows'[i] == rows'[j]
    {
      var i' := SameMembers(rows', rows, i);
      var j' := SameMembers(rows', rows, j);
    }
  }

  /** Where two different rows have one path, some order gives it to another row. */
  lemma OrderMatters(pa: PaaS, rows: seq<Spec>, i: nat, j: nat) returns (rows': seq<Spec>, path: string)
    requires i < |rows| && j < |rows| && PathOf(pa, rows[i]) != "" && PathOf(pa, rows[i]) == PathOf(pa, rows[j]) && rows[i] != rows[j]
    ensures Permuted(rows, rows') && !SameWinner(pa, rows, rows', path)
  {
    hide PathOf, Matches, Permuted, Winner;
    var first := FirstWithPath(pa, rows, i);
    var other := if rows[first] == rows[i] then j else i;
    var first' := FirstWithPath(pa, rows, other);
    FirstIsOne(pa, rows, first, first');
    rows', path := SwapChangesWinner(pa, rows, first, other);
    forall k: nat | Winner(pa, rows', path, k) ensures k == first {
      WinnerIsOne(pa, rows', path, first, k);
    }
    assert Serves(pa, rows, path, rows[first]);
    assert !Serves(pa, rows', path, rows[first]);
  }

  /** Row order decides nothing about who serves a path, and whether anyone does, if and
      only if no two different rows have one path. */
  lemma OrderFreeIff(pa: PaaS, rows: seq<Spec>)
    ensures OneRowPerPath(pa, rows) <==>
      forall rows', path :: Permuted(rows, rows') ==> SameWinner(pa, rows, rows', path)
  {
    hide PathOf, Permuted, Serves;
    if OneRowPerPath(pa, rows) {
      hide OneRowPerPath;
      forall rows', path | Permuted(rows, rows') ensures SameWinner(pa, rows, rows', path) {
        PermutedOneRow(pa, rows, rows');
        forall row ensures Serves(pa, rows, path, row) <==> Serves(pa, rows', path, row) {
          if Serves(pa, rows, path, row) {
            StillServes(pa, rows, rows', path, row);
          }
          if Serves(pa, rows', path, row) {
            StillServes(pa, rows', rows, path, row);
          }
        }
      }
    } else {
      var i, j :| 0 <= i < |rows| && 0 <= j < |rows| && PathOf(pa, rows[i]) != "" &&
        PathOf(pa, rows[i]) == PathOf(pa, rows[j]) && rows[i] != rows[j];
      var rows', path := OrderMatters(pa, rows, i, j);
    }
  }

  lemma FirstIsOne(pa: PaaS, rows: seq<Spec>, i: nat, j: nat)
    requires i < |rows| && j < |rows| && ByPath(pa, rows, i) && ByPath(pa, rows, j) && PathOf(pa, rows[i]) == PathOf(pa, rows[j])
    ensures i == j
  {
  }

  // ---------- Loopback ports ----------

  /** A core told to bind a TCP port of its own and one told to bind the same on loopback. */
  ghost predicate Clash(pa: PaaS, rows: seq<Spec>, i: nat, j: nat) {
    && i < |rows| && j < |rows| && rows[i].node.Some?
    && Routable(pa, rows[i].node).ownPort && !IsUDP(rows[i].node.value)
    && ByPath(pa, rows, j) && rows[i].node.value.port == PAAS_PORT_BASE + j
  }

  lemma OwnPath(pa: PaaS, row: Spec)
    requires row.node.Some? && RoutesDirectly(pa, row.node.value)
    ensures PathOf(pa, row) == ""
  {
  }

  lemma RootPath(pa: PaaS, row: Spec)
    requires row.node.Some? && !RoutesDirectly(pa, row.node.value)
    requires row.node.value.protocol == VLESS && row.node.value.network == WS && row.node.value.path == "/"
    ensures PathOf(pa, row) == "/"
  {
    assert TrimSpace("/") == "/";
  }

  lemma OwnRoutes(pa: PaaS, row: Spec)
    requires row.node.Some? && RoutesDirectly(pa, row.node.value)
    ensures Routable(pa, row.node).ownPort
  {
  }

  /** Among rows on ports of their own, one shared by path is served by its path. */
  lemma ClashBetween(pa: PaaS, rows: seq<Spec>, own: Spec, i: nat, j: nat)
    requires i < |rows| && j < |rows| && i != j && PathOf(pa, rows[j]) != ""
    requires forall k :: 0 <= k < |rows| && k != j ==> rows[k] == own
    requires own.node.Some? && RoutesDirectly(pa, own.node.value) && !IsUDP(own.node.value)
    requires own.node.value.port == PAAS_PORT_BASE + j
    ensures Clash(pa, rows, i, j)
  {
    OwnPath(pa, own);
    OwnRoutes(pa, own);
    hide Routable, RoutesDirectly, PathOf;
    assert ByPath(pa, rows, j);
  }

  lemma ClashWitness(pa: PaaS, n: nat, j: nat) returns (rows: seq<Spec>, i: nat)
    requires n >= 2 && j < n && 0 !in pa.tcpPorts && PAAS_PORT_BASE + j in pa.tcpPorts
    ensures |rows| == n && Clash(pa, rows, i, j)
  {
    var own := Spec(Some(Node("own", VLESS, "", PAAS_PORT_BASE + j, TCP, "", Plain, None)), [], "", "");
    var shared := Spec(Some(Node("shared", VLESS, "", 0, WS, "/", Plain, None)), [], "", "");
    i := if j == 0 then 1 else 0;
    rows := seq(n, k => if k == j then shared else own);
    hide Routable, PathOf, ByPath, Clash;
    RootPath(pa, shared);
    ClashBetween(pa, rows, own, i, j);
  }

  /** The table's loopback ports can meet a port the platform routes, if and only if it
      routes one of those the table gives out.  (Ports the platform routes are positive.) */
  lemma ClashIff(pa: PaaS, n: nat)
    requires n >= 2 && 0 !in pa.tcpPorts
    ensures (exists rows: seq<Spec>, i: nat, j: nat :: |rows| == n && Clash(pa, rows, i, j)) <==>
      exists p :: p in pa.tcpPorts && PAAS_PORT_BASE <= p < PAAS_PORT_BASE + n
  {
    hide ByPath;
    if exists p :: p in pa.tcpPorts && PAAS_PORT_BASE <= p < PAAS_PORT_BASE + n {
      var p :| p in pa.tcpPorts && PAAS_PORT_BASE <= p < PAAS_PORT_BASE + n;
      var rows, i := ClashWitness(pa, n, p - PAAS_PORT_BASE);
    } else if exists rows: seq<Spec>, i: nat, j: nat :: |rows| == n && Clash(pa, rows, i, j) {
      var rows: seq<Spec>, i: nat, j: nat :| |rows| == n && Clash(pa, rows, i, j);
      RoutableIsOneOfThree(pa, rows[i].node);
      assert false;
    }
  }
}
