/** Fan-out of one node's lines to the admins watching it, step by step: `publish` files
    under the lock and sends outside it, so lock sections and single channel sends of
    several publishes interleave with each other and with subscribers coming, reading
    and going.  No line is lost track of. */
module LogFanout {
  import opened Rings
  import opened LogShipping

  /** A subscriber: how many lines had been filed when it subscribed (and when it left),
      what it was shown at once, what its channel holds, what it has read and what was
      dropped because the channel was full. */
  datatype Sub<T> = Sub(
    start: nat, live: bool, stop: nat,
    backlog: seq<T>, queue: seq<T>, got: seq<T>, dropped: multiset<T>)

  /** A publish past its lock section: the new lines, the watchers in the order the map
      was walked, the watcher it is at and the next line to offer it. */
  datatype Flight<T> = Flight(news: seq<T>, order: seq<nat>, at: nat, line: nat)

  datatype Hub<T> = Hub(node: HubNode<T>, subs: seq<Sub<T>>, flights: seq<Flight<T>>)

  datatype Event<T> =
    | FileBatch(epoch: string, pos: int, lines: seq<T>, order: seq<nat>)
    | SendOne(flight: nat)
    | Join
    | Leave(sub: nat)
    | Read(sub: nat)

  function Init<T>(): Hub<T> {
    Hub(HubNode("", 0, []), [], [])
  }

  /** An order in which a walk over the live subscribers can come out. */
  ghost predicate IsOrder<T>(order: seq<nat>, subs: seq<Sub<T>>) {
    && (forall a, b :: 0 <= a < b < |order| ==> order[a] != order[b])
    && (forall a :: 0 <= a < |order| ==> order[a] < |subs| && subs[order[a]].live)
    && (forall s: nat :: s < |subs| && subs[s].live ==> s in order)
  }

  predicate Done<T>(f: Flight<T>) {
    f.at >= |f.order|
  }

  /** One non-blocking send. */
  function Offer<T>(s: Sub<T>, line: T): Sub<T> {
    if |s.queue| < QUEUE then s.(queue := s.queue + [line])
    else s.(dropped := s.dropped + multiset{line})
  }

  function Advance<T>(f: Flight<T>): Flight<T> {
    if f.line + 1 < |f.news| then f.(line := f.line + 1) else f.(at := f.at + 1, line := 0)
  }

  ghost function Step<T>(h: Hub<T>, e: Event<T>): Hub<T> {
    match e
    case FileBatch(epoch, pos, lines, order) =>
      var news := Fresh(h.node, epoch, pos, lines);
      if news == [] then
        h.(node := Publish(h.node, epoch, pos, lines))
      else if IsOrder(order, h.subs) then
        h.(node := Publish(h.node, epoch, pos, lines), flights := h.flights + [Flight(news, order, 0, 0)])
      else h
    case SendOne(k) =>
      if k < |h.flights| && !Done(h.flights[k]) then
        var f := h.flights[k];
        if f.order[f.at] < |h.subs| && f.line < |f.news| then
          h.(subs := h.subs[f.order[f.at] := Offer(h.subs[f.order[f.at]], f.news[f.line])],
             flights := h.flights[k := Advance(f)])
        else h
      else h
    case Join =>
      h.(subs := h.subs + [Sub(|h.node.filed|, true, 0, LastN(h.node.filed, SNAPSHOT_LINES), [], [], multiset{})])
    case Leave(i) =>
      if i < |h.subs| && h.subs[i].live then
        h.(subs := h.subs[i := h.subs[i].(live := false, stop := |h.node.filed|)])
      else h
    case Read(i) =>
      if i < |h.subs| && h.subs[i].queue != [] then
        h.(subs := h.subs[i := h.subs[i].(got := h.subs[i].got + [h.subs[i].queue[0]], queue := h.subs[i].queue[1..])])
      else h
  }

  ghost function Run<T>(h: Hub<T>, events: seq<Event<T>>): Hub<T>
    decreases |events|
  {
    if events == [] then h else Run(Step(h, events[0]), events[1..])
  }

  // ---------- What is still to be offered ----------

  /** The lines a flight has yet to offer to subscriber `s`. */
  function Owed<T>(f: Flight<T>, s: nat): seq<T> {
    if f.at < |f.order| && f.order[f.at] == s && f.line <= |f.news| then f.news[f.line..]
    else if f.at < |f.order| && s in f.order[f.at + 1..] then f.news
    else []
  }

  function Sum<T>(parts: seq<multiset<T>>): multiset<T> {
    if parts == [] then multiset{} else Sum(parts[..|parts| - 1]) + parts[|parts| - 1]
  }

  ghost function AllOwed<T>(flights: seq<Flight<T>>, s: nat): multiset<T> {
    Sum(Parts(flights, s))
  }

  /** The lines filed while the subscriber was there. */
  function Due<T>(filed: seq<T>, s: Sub<T>): seq<T>
    requires s.start <= (if s.live then |filed| else s.stop) <= |filed|
  {
    filed[s.start..if s.live then |filed| else s.stop]
  }

  ghost predicate FlightOk<T>(f: Flight<T>, count: nat) {
    && (forall a, b :: 0 <= a < b < |f.order| ==> f.order[a] != f.order[b])
    && (forall a :: 0 <= a < |f.order| ==> f.order[a] < count)
    && 0 < |f.news| && f.line < |f.news|
    && (Done(f) ==> f.line == 0)
  }

  /** Every line filed while a subscriber was there has been queued to it, read by it,
      dropped for it, or is about to be offered: no more and no fewer. */
  ghost predicate Accounted<T>(h: Hub<T>, i: nat)
    requires i < |h.subs|
  {
    var s := h.subs[i];
    && s.start <= (if s.live then |h.node.filed| else s.stop) <= |h.node.filed|
    && |s.queue| <= QUEUE
    && s.backlog == LastN(h.node.filed[..s.start], SNAPSHOT_LINES)
    && multiset(Due(h.node.filed, s)) == Taken(s) + AllOwed(h.flights, i)
  }

  ghost predicate Inv<T>(h: Hub<T>) {
    && (forall k :: 0 <= k < |h.flights| ==> FlightOk(h.flights[k], |h.subs|))
    && (forall i: nat :: i < |h.subs| ==> Accounted(h, i))
  }

  // ---------- One send ----------

  /** A send takes the line it offers out of what its watcher is owed, and changes
      nothing of what anybody else is. */
  lemma AdvanceOwed<T>(f: Flight<T>, count: nat, s: nat)
    requires FlightOk(f, count) && !Done(f)
    ensures FlightOk(Advance(f), count)
    ensures Owed(f, s) == (if s == f.order[f.at] then [f.news[f.line]] else []) + Owed(Advance(f), s)
  {
    var f' := Advance(f);
    if s == f.order[f.at] {
      assert Owed(f, s) == f.news[f.line..];
      if f.line + 1 < |f.news| {
        assert Owed(f', s) == f.news[f.line + 1..];
      } else {
        assert Owed(f', s) == [];
      }
    } else if f'.at < |f.order| && f.order[f'.at] == s {
      assert Owed(f, s) == Owed(f', s);
    }
  }

  lemma {:induction false} SumLess<T>(parts: seq<multiset<T>>, k: nat, m: multiset<T>, extra: multiset<T>)
    requires k < |parts| && parts[k] == extra + m
    ensures Sum(parts) == Sum(parts[k := m]) + extra
    decreases |parts|
  {
    var n := |parts| - 1;
    if k == n {
      assert parts[k := m][..n] == parts[..n];
    } else {
      SumLess(parts[..n], k, m, extra);
      assert parts[k := m][..n] == parts[..n][k := m];
    }
  }

  lemma {:induction false} SumNone<T>(parts: seq<multiset<T>>)
    requires forall k :: 0 <= k < |parts| ==> parts[k] == multiset{}
    ensures Sum(parts) == multiset{}
    decreases |parts|
  {
    if parts != [] {
      SumNone(parts[..|parts| - 1]);
    }
  }

  /** What each flight owes `s`. */
  function Parts<T>(flights: seq<Flight<T>>, s: nat): (parts: seq<multiset<T>>)
    ensures |parts| == |flights|
    ensures forall k :: 0 <= k < |parts| ==> parts[k] == multiset(Owed(flights[k], s))
  {
    seq(|flights|, k requires 0 <= k < |flights| => multiset(Owed(flights[k], s)))
  }

  /** Replacing a flight by one that owes `s` just `line` less. */
  lemma AllOwedLess<T>(flights: seq<Flight<T>>, k: nat, f: Flight<T>, s: nat, line: seq<T>)
    requires k < |flights| && Owed(flights[k], s) == line + Owed(f, s)
    ensures AllOwed(flights, s) == AllOwed(flights[k := f], s) + multiset(line)
  {
    var m := multiset(Owed(f, s));
    assert Parts(flights[k := f], s) == Parts(flights, s)[k := m];
    assert Parts(flights, s)[k] == multiset(line) + m;
    SumLess(Parts(flights, s), k, m, multiset(line));
  }

  lemma AllOwedMore<T>(flights: seq<Flight<T>>, f: Flight<T>, s: nat)
    ensures AllOwed(flights + [f], s) == AllOwed(flights, s) + multiset(Owed(f, s))
  {
    assert Parts(flights + [f], s)[..|flights|] == Parts(flights, s);
  }

  lemma NobodyOwed<T>(flights: seq<Flight<T>>, count: nat, s: nat)
    requires forall k :: 0 <= k < |flights| ==> FlightOk(flights[k], count)
    requires s >= count
    ensures AllOwed(flights, s) == multiset{}
  {
    SumNone(Parts(flights, s));
  }

  /** What a subscriber has been offered, one way or the other. */
  function Taken<T>(s: Sub<T>): multiset<T> {
    multiset(s.got) + multiset(s.queue) + s.dropped
  }

  lemma OfferTakes<T>(s: Sub<T>, line: T)
    requires |s.queue| <= QUEUE
    ensures Taken(Offer(s, line)) == Taken(s) + multiset([line]) && |Offer(s, line).queue| <= QUEUE
  {
  }

  lemma MoveOver<T>(due: multiset<T>, taken: multiset<T>, owed: multiset<T>, owed': multiset<T>, m: multiset<T>)
    requires due == taken + owed && owed == owed' + m
    ensures due == (taken + m) + owed'
  {
  }

  lemma TargetAccounted<T>(h: Hub<T>, k: nat)
    requires Inv(h) && k < |h.flights| && !Done(h.flights[k])
    ensures var f := h.flights[k]; f.order[f.at] < |h.subs| && Accounted(Step(h, SendOne(k)), f.order[f.at])
  {
    var f := h.flights[k];
    var i := f.order[f.at];
    assert FlightOk(f, |h.subs|);
    assert Accounted(h, i);
    AdvanceOwed(f, |h.subs|, i);
    AllOwedLess(h.flights, k, Advance(f), i, [f.news[f.line]]);
    OfferTakes(h.subs[i], f.news[f.line]);
    MoveOver(multiset(Due(h.node.filed, h.subs[i])), Taken(h.subs[i]),
      AllOwed(h.flights, i), AllOwed(h.flights[k := Advance(f)], i), multiset([f.news[f.line]]));
  }

  lemma OthersAccounted<T>(h: Hub<T>, k: nat, i: nat)
    requires Inv(h) && k < |h.flights| && !Done(h.flights[k]) && i < |h.subs|
    requires i != h.flights[k].order[h.flights[k].at]
    ensures Accounted(Step(h, SendOne(k)), i)
  {
    var f := h.flights[k];
    assert FlightOk(f, |h.subs|);
    assert Accounted(h, i);
    AdvanceOwed(f, |h.subs|, i);
    AllOwedLess(h.flights, k, Advance(f), i, []);
  }

  /** A new flight owes its lines to exactly the live subscribers. */
  lemma FlightOwes<T>(h: Hub<T>, news: seq<T>, order: seq<nat>, i: nat)
    requires i < |h.subs| && IsOrder(order, h.subs)
    ensures Owed(Flight(news, order, 0, 0), i) == if h.subs[i].live then news else []
  {
    if h.subs[i].live {
      assert i in order;
    }
  }

  /** Filing more lines makes them due to exactly the live subscribers. */
  lemma DueMore<T>(filed: seq<T>, news: seq<T>, s: Sub<T>)
    requires s.start <= (if s.live then |filed| else s.stop) <= |filed|
    ensures s.start <= (if s.live then |filed + news| else s.stop) <= |filed + news|
    ensures Due(filed + news, s) == Due(filed, s) + if s.live then news else []
    ensures (filed + news)[..s.start] == filed[..s.start]
  {
  }

  lemma FileAccounted<T>(h: Hub<T>, node: HubNode<T>, news: seq<T>, order: seq<nat>, i: nat)
    requires Inv(h) && i < |h.subs| && IsOrder(order, h.subs)
    requires news != [] && node.filed == h.node.filed + news
    ensures Accounted(h.(node := node, flights := h.flights + [Flight(news, order, 0, 0)]), i)
  {
    assert Accounted(h, i);
    AllOwedMore(h.flights, Flight(news, order, 0, 0), i);
    FlightOwes(h, news, order, i);
    DueMore(h.node.filed, news, h.subs[i]);
  }

  lemma FileInv<T>(h: Hub<T>, epoch: string, pos: int, lines: seq<T>, order: seq<nat>)
    requires Inv(h)
    ensures Inv(Step(h, FileBatch(epoch, pos, lines, order)))
  {
    var h', news := Step(h, FileBatch(epoch, pos, lines, order)), Fresh(h.node, epoch, pos, lines);
    forall i: nat | i < |h'.subs| ensures Accounted(h', i) {
      if news != [] && IsOrder(order, h.subs) {
        FileAccounted(h, h'.node, news, order, i);
      } else {
        assert Accounted(h, i) && h'.node.filed == h.node.filed;
      }
    }
  }

  lemma SendInv<T>(h: Hub<T>, k: nat)
    requires Inv(h)
    ensures Inv(Step(h, SendOne(k)))
  {
    if k < |h.flights| && !Done(h.flights[k]) {
      var h' := Step(h, SendOne(k));
      assert FlightOk(h.flights[k], |h.subs|);
      AdvanceOwed(h.flights[k], |h.subs|, 0);
      forall i: nat | i < |h'.subs| ensures Accounted(h', i) {
        if i == h.flights[k].order[h.flights[k].at] { TargetAccounted(h, k); } else { OthersAccounted(h, k, i); }
      }
    }
  }

  lemma NewcomerAccounted<T>(h: Hub<T>)
    requires Inv(h)
    ensures var h' := Step(h, Join);
      |h'.subs| == |h.subs| + 1 && Accounted(h', |h.subs|)
  {
    NobodyOwed(h.flights, |h.subs|, |h.subs|);
    hide AllOwed, Owed, Inv;
    assert h.node.filed[..|h.node.filed|] == h.node.filed;
  }

  lemma JoinInv<T>(h: Hub<T>)
    requires Inv(h)
    ensures Inv(Step(h, Join))
  {
    hide AllOwed, Owed, LastN, Taken, Due;
    var h' := Step(h, Join);
    NewcomerAccounted(h);
    forall i: nat | i < |h'.subs| ensures Accounted(h', i) {
      if i < |h.subs| {
        assert Accounted(h, i);
      }
    }
  }

  lemma LeaveInv<T>(h: Hub<T>, j: nat)
    requires Inv(h)
    ensures Inv(Step(h, Leave(j)))
  {
    var h' := Step(h, Leave(j));
    forall i: nat | i < |h'.subs| ensures Accounted(h', i) {
      assert Accounted(h, i);
    }
  }

  lemma ReadInv<T>(h: Hub<T>, j: nat)
    requires Inv(h)
    ensures Inv(Step(h, Read(j)))
  {
    var h' := Step(h, Read(j));
    forall i: nat | i < |h'.subs| ensures Accounted(h', i) {
      assert Accounted(h, i);
      if i == j && h.subs[i].queue != [] {
        assert h.subs[i].queue == [h.subs[i].queue[0]] + h.subs[i].queue[1..];
      }
    }
  }

  lemma StepInv<T>(h: Hub<T>, e: Event<T>)
    requires Inv(h)
    ensures Inv(Step(h, e))
  {
    match e
    case FileBatch(epoch, pos, lines, order) => FileInv(h, epoch, pos, lines, order);
    case SendOne(k) => SendInv(h, k);
    case Join => JoinInv(h);
    case Leave(j) => LeaveInv(h, j);
    case Read(j) => ReadInv(h, j);
  }

  lemma {:induction false} RunInv<T>(h: Hub<T>, events: seq<Event<T>>)
    requires Inv(h)
    ensures Inv(Run(h, events))
    decreases |events|
  {
    if events != [] {
      StepInv(h, events[0]);
      RunInv(Step(h, events[0]), events[1..]);
    }
  }

  /** Under every interleaving, for every subscriber that ever was: what was filed while
      it was there is what it read, what is queued for it, what was dropped for it and
      what is in flight to it; and what it was shown at once was filed before. */
  lemma SubscribersAccounted<T>(events: seq<Event<T>>, i: nat)
    requires i < |Run(Init(), events).subs|
    ensures var h := Run<T>(Init(), events); var s := h.subs[i];
      && s.start <= (if s.live then |h.node.filed| else s.stop) <= |h.node.filed|
      && multiset(Due(h.node.filed, s)) == multiset(s.got) + multiset(s.queue) + s.dropped + AllOwed(h.flights, i)
      && s.backlog == LastN(h.node.filed[..s.start], SNAPSHOT_LINES)
  {
    RunInv(Init(), events);
    assert Accounted(Run(Init(), events), i);
  }

  /** What is shown at once and what is due after that are one stretch of what was filed. */
  ghost predicate Seamless<T>(filed: seq<T>, s: Sub<T>) {
    var end := if s.live then |filed| else s.stop;
    && |s.backlog| <= s.start <= end <= |filed|
    && s.backlog + Due(filed, s) == filed[s.start - |s.backlog|..end]
  }

  lemma LastThenNext<T>(filed: seq<T>, start: nat, end: nat, k: nat)
    requires start <= end <= |filed|
    ensures var last := LastN(filed[..start], k);
      |last| <= start && last + filed[start..end] == filed[start - |last|..end]
  {
    var last := LastN(filed[..start], k);
    var from := start - |last|;
    assert last == filed[from..start];
    hide LastN;
    assert |filed[from..start] + filed[start..end]| == end - from;
  }

  /** What a subscriber is shown at once and what is filed for it after that follow each
      other without gap or overlap; but what it is shown is everything the panel holds of
      the node if and only if no more than twenty lines had been filed. */
  lemma BacklogIsAllHeldIff<T>(events: seq<Event<T>>, i: nat)
    requires i < |Run(Init(), events).subs|
    ensures var h := Run<T>(Init(), events);
      Seamless(h.node.filed, h.subs[i])
    ensures var h := Run<T>(Init(), events);
      var s := h.subs[i];
      s.start <= |h.node.filed| &&
      (s.backlog == LastN(h.node.filed[..s.start], RING_LINES) <==> s.start <= SNAPSHOT_LINES)
  {
    SubscribersAccounted(events, i);
    hide Run, AllOwed;
    var h := Run<T>(Init(), events);
    var s := h.subs[i];
    LastThenNext(h.node.filed, s.start, if s.live then |h.node.filed| else s.stop, SNAPSHOT_LINES);
  }
}
