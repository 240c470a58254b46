/** The order a watcher sees.  Publishes of one node that overlap can interleave their sends;
    while each finishes before the next files its lines, what a watcher got and has queued
    is what was filed, in order, less what was dropped. */
module LogFanoutOrder {
  import opened Rings
  import LogShipping
  import opened LogFanout

  /** `a` is `b` with some elements left out. */
  ghost predicate Subsequence<T>(a: seq<T>, b: seq<T>)
    decreases |b|
  {
    a == [] ||
    (b != [] &&
     ((a[|a| - 1] == b[|b| - 1] && Subsequence(a[..|a| - 1], b[..|b| - 1])) || Subsequence(a, b[..|b| - 1])))
  }

  lemma OneMore<T>(a: seq<T>, b: seq<T>, x: T)
    requires Subsequence(a, b)
    ensures Subsequence(a, b + [x]) && Subsequence(a + [x], b + [x])
  {
    assert (b + [x])[..|b|] == b && (a + [x])[..|a|] == a;
  }

  /** A subsequence keeps elements and their order: it is picked out by rising positions. */
  lemma {:induction false} Picked<T>(a: seq<T>, b: seq<T>) returns (at: seq<nat>)
    requires Subsequence(a, b)
    ensures |at| == |a| && forall i :: 0 <= i < |a| ==> at[i] < |b| && a[i] == b[at[i]]
    ensures forall i, j :: 0 <= i < j < |a| ==> at[i] < at[j]
    decreases |b|
  {
    if a == [] {
      at := [];
    } else if a[|a| - 1] == b[|b| - 1] && Subsequence(a[..|a| - 1], b[..|b| - 1]) {
      var front := Picked(a[..|a| - 1], b[..|b| - 1]);
      at := front + [|b| - 1];
    } else {
      at := Picked(a, b[..|b| - 1]);
    }
  }

  ghost predicate AllDone<T>(flights: seq<Flight<T>>) {
    forall k :: 0 <= k < |flights| ==> Done(flights[k])
  }

  /** Lines are filed only when every publish before has made all its sends. */
  ghost predicate OneAtATime<T>(h: Hub<T>, events: seq<Event<T>>)
    decreases |events|
  {
    events == [] || ((events[0].FileBatch? ==> AllDone(h.flights)) && OneAtATime(Step(h, events[0]), events[1..]))
  }

  /** What the one publish under way has yet to offer to subscriber `i`. */
  function Ahead<T>(flights: seq<Flight<T>>, i: nat): seq<T> {
    if flights == [] then [] else Owed(flights[|flights| - 1], i)
  }

  ghost predicate InOrder<T>(filed: seq<T>, s: Sub<T>, ahead: seq<T>) {
    && s.start <= (if s.live then |filed| else s.stop) <= |filed|
    && |ahead| <= |Due(filed, s)|
    && Due(filed, s)[|Due(filed, s)| - |ahead|..] == ahead
    && Subsequence(s.got + s.queue, Due(filed, s)[..|Due(filed, s)| - |ahead|])
  }

  ghost predicate Orderly<T>(h: Hub<T>) {
    && Inv(h)
    && (forall k :: 0 <= k < |h.flights| - 1 ==> Done(h.flights[k]))
    && (forall i: nat :: i < |h.subs| ==> InOrder(h.node.filed, h.subs[i], Ahead(h.flights, i)))
  }

  /** The next due line ends a longer beginning of what is due. */
  lemma NextDue<T>(due: seq<T>, line: T, rest: seq<T>)
    requires |rest| < |due| && due[|due| - |rest| - 1..] == [line] + rest
    ensures due[|due| - |rest|..] == rest && due[..|due| - |rest| - 1] + [line] == due[..|due| - |rest|]
  {
    var n := |due| - |rest| - 1;
    assert due[n..][0] == line && due[n..][1..] == rest;
  }

  lemma OfferInOrder<T>(filed: seq<T>, s: Sub<T>, line: T, rest: seq<T>)
    requires InOrder(filed, s, [line] + rest)
    ensures InOrder(filed, Offer(s, line), rest)
  {
    hide Subsequence;
    var due := Due(filed, s);
    NextDue(due, line, rest);
    OneMore(s.got + s.queue, due[..|due| - |rest| - 1], line);
    assert s.got + (s.queue + [line]) == s.got + s.queue + [line];
    assert Due(filed, Offer(s, line)) == due;
    hide Due;
  }

  lemma SendIs<T>(h: Hub<T>, k: nat)
    requires Inv(h) && k < |h.flights| && !Done(h.flights[k])
    ensures var f := h.flights[k];
      && FlightOk(f, |h.subs|) && f.order[f.at] < |h.subs|
      && Step(h, SendOne(k)).node == h.node
      && Step(h, SendOne(k)).subs == h.subs[f.order[f.at] := Offer(h.subs[f.order[f.at]], f.news[f.line])]
      && Step(h, SendOne(k)).flights == h.flights[k := Advance(f)]
  {
    hide Accounted;
    assert FlightOk(h.flights[k], |h.subs|);
  }

  lemma SentInOrder<T>(filed: seq<T>, f: Flight<T>, count: nat, s: Sub<T>, i: nat)
    requires FlightOk(f, count) && !Done(f) && InOrder(filed, s, Owed(f, i))
    ensures InOrder(filed, if i == f.order[f.at] then Offer(s, f.news[f.line]) else s, Owed(Advance(f), i))
  {
    AdvanceOwed(f, count, i);
    hide Owed, InOrder, Offer;
    if i == f.order[f.at] {
      OfferInOrder(filed, s, f.news[f.line], Owed(Advance(f), i));
    } else {
      assert [] + Owed(Advance(f), i) == Owed(Advance(f), i);
    }
  }

  lemma SendOrderly<T>(h: Hub<T>, k: nat)
    requires Orderly(h)
    ensures Orderly(Step(h, SendOne(k)))
  {
    SendInv(h, k);
    if k < |h.flights| && !Done(h.flights[k]) {
      var f, h' := h.flights[k], Step(h, SendOne(k));
      assert k == |h.flights| - 1;
      SendIs(h, k);
      hide InOrder, Inv, Step, Owed, Offer, FlightOk;
      forall i: nat | i < |h'.subs| ensures InOrder(h'.node.filed, h'.subs[i], Ahead(h'.flights, i)) {
        SentInOrder(h.node.filed, f, |h.subs|, h.subs[i], i);
      }
    }
  }

  lemma FiledInOrder<T>(filed: seq<T>, news: seq<T>, s: Sub<T>)
    requires InOrder(filed, s, [])
    ensures InOrder(filed + news, s, if s.live then news else [])
  {
    DueMore(filed, news, s);
    var due := Due(filed, s);
    assert due[..|due|] == due;
    hide Subsequence;
    assert s.live ==> (due + news)[|due|..] == news && (due + news)[..|due|] == due;
  }

  lemma DoneOwesNothing<T>(flights: seq<Flight<T>>, i: nat)
    requires AllDone(flights)
    ensures Ahead(flights, i) == []
  {
  }

  lemma FileOrderly<T>(h: Hub<T>, epoch: string, pos: int, lines: seq<T>, order: seq<nat>)
    requires Orderly(h) && AllDone(h.flights)
    ensures Orderly(Step(h, FileBatch(epoch, pos, lines, order)))
  {
    FileInv(h, epoch, pos, lines, order);
    var news, h' := LogShipping.Fresh(h.node, epoch, pos, lines), Step(h, FileBatch(epoch, pos, lines, order));
    if news != [] && IsOrder(order, h.subs) {
      assert h'.node.filed == h.node.filed + news;
      hide InOrder, Accounted, Owed, LogShipping.Fresh, Inv;
      forall i: nat | i < |h'.subs| ensures InOrder(h'.node.filed, h'.subs[i], Ahead(h'.flights, i)) {
        DoneOwesNothing(h.flights, i);
        FiledInOrder(h.node.filed, news, h.subs[i]);
        FlightOwes(h, news, order, i);
      }
    } else if news == [] {
      assert h'.node.filed == h.node.filed;
    }
  }

  lemma JoinOrderly<T>(h: Hub<T>)
    requires Orderly(h)
    ensures Orderly(Step(h, Join))
  {
    JoinInv(h);
    var h' := Step(h, Join);
    hide LastN, Accounted;
    forall i: nat | i < |h'.subs| ensures InOrder(h'.node.filed, h'.subs[i], Ahead(h'.flights, i)) {
      if i < |h.subs| {
        assert InOrder(h.node.filed, h.subs[i], Ahead(h.flights, i));
      } else if h.flights != [] {
        assert FlightOk(h.flights[|h.flights| - 1], |h.subs|);
      }
    }
  }

  /** Leaving fixes what is due where it stands. */
  lemma LeaveInOrder<T>(filed: seq<T>, s: Sub<T>, ahead: seq<T>)
    requires InOrder(filed, s, ahead) && s.live
    ensures InOrder(filed, s.(live := false, stop := |filed|), ahead)
  {
    hide Subsequence;
  }

  lemma LeaveOrderly<T>(h: Hub<T>, j: nat)
    requires Orderly(h)
    ensures Orderly(Step(h, Leave(j)))
  {
    LeaveInv(h, j);
    var h' := Step(h, Leave(j));
    hide Accounted, Owed, InOrder, Inv;
    forall i: nat | i < |h'.subs| ensures InOrder(h'.node.filed, h'.subs[i], Ahead(h'.flights, i)) {
      assert InOrder(h.node.filed, h.subs[i], Ahead(h.flights, i));
      if i == j && h.subs[i].live {
        LeaveInOrder(h.node.filed, h.subs[i], Ahead(h.flights, i));
      }
    }
  }

  /** Reading moves a line from the queue to what was got. */
  lemma ReadInOrder<T>(filed: seq<T>, s: Sub<T>, ahead: seq<T>)
    requires InOrder(filed, s, ahead) && s.queue != []
    ensures InOrder(filed, s.(got := s.got + [s.queue[0]], queue := s.queue[1..]), ahead)
  {
    hide Subsequence;
    assert s.got + [s.queue[0]] + s.queue[1..] == s.got + s.queue;
  }

  lemma ReadOrderly<T>(h: Hub<T>, j: nat)
    requires Orderly(h)
    ensures Orderly(Step(h, Read(j)))
  {
    ReadInv(h, j);
    var h' := Step(h, Read(j));
    hide Accounted, Owed, InOrder, Inv;
    forall i: nat | i < |h'.subs| ensures InOrder(h'.node.filed, h'.subs[i], Ahead(h'.flights, i)) {
      assert InOrder(h.node.filed, h.subs[i], Ahead(h.flights, i));
      if i == j && h.subs[i].queue != [] {
        ReadInOrder(h.node.filed, h.subs[i], Ahead(h.flights, i));
      }
    }
  }

  lemma StepOrderly<T>(h: Hub<T>, e: Event<T>)
    requires Orderly(h) && (e.FileBatch? ==> AllDone(h.flights))
    ensures Orderly(Step(h, e))
  {
    match e
    case FileBatch(epoch, pos, lines, order) => FileOrderly(h, epoch, pos, lines, order);
    case SendOne(k) => SendOrderly(h, k);
    case Join => JoinOrderly(h);
    case Leave(j) => LeaveOrderly(h, j);
    case Read(j) => ReadOrderly(h, j);
  }

  lemma {:induction false} RunOrderly<T>(h: Hub<T>, events: seq<Event<T>>)
    requires Orderly(h) && OneAtATime(h, events)
    ensures Orderly(Run(h, events))
    decreases |events|
  {
    hide Orderly, AllDone, Step;
    if events != [] {
      StepOrderly(h, events[0]);
      RunOrderly(Step(h, events[0]), events[1..]);
    }
  }

  lemma {:induction false} SubsequenceShorter<T>(a: seq<T>, b: seq<T>)
    requires Subsequence(a, b)
    ensures |a| <= |b| && (|a| == |b| ==> a == b)
    decreases |b|
  {
    if a != [] {
      var front := b[..|b| - 1];
      if Subsequence(a, front) {
        SubsequenceShorter(a, front);
      } else {
        SubsequenceShorter(a[..|a| - 1], front);
        assert a == a[..|a| - 1] + [a[|a| - 1]] && b == front + [b[|b| - 1]];
      }
    }
  }

  lemma OwedAhead<T>(flights: seq<Flight<T>>, i: nat)
    requires forall k :: 0 <= k < |flights| - 1 ==> Done(flights[k])
    ensures AllOwed(flights, i) == multiset(Ahead(flights, i))
  {
    if flights != [] {
      var n := |flights| - 1;
      SumNone(Parts(flights, i)[..n]);
    }
  }

  lemma AllOrNothingDropped<T>(due: seq<T>, kept: seq<T>, ahead: seq<T>, dropped: multiset<T>)
    requires |ahead| <= |due| && due[|due| - |ahead|..] == ahead && Subsequence(kept, due[..|due| - |ahead|])
    requires multiset(due) == multiset(kept) + dropped + multiset(ahead)
    ensures dropped == multiset{} <==> kept + ahead == due
  {
    SubsequenceShorter(kept, due[..|due| - |ahead|]);
    assert |multiset(due)| == |kept| + |dropped| + |ahead|;
    hide Subsequence;
    assert due == due[..|due| - |ahead|] + due[|due| - |ahead|..];
    if kept + ahead == due {
      assert |due| == |kept| + |ahead|;
    }
  }

  lemma InitOrderly<T>()
    ensures Orderly(Init<T>())
  {
  }

  /** One subscriber's part of the invariant. */
  lemma OrderlySub<T>(h: Hub<T>, i: nat)
    requires Orderly(h) && i < |h.subs|
    ensures InOrder(h.node.filed, h.subs[i], Ahead(h.flights, i))
    ensures AllOwed(h.flights, i) == multiset(Ahead(h.flights, i))
  {
    OwedAhead(h.flights, i);
    hide InOrder, Inv, AllOwed, Ahead;
  }

  lemma InOrderDrops<T>(filed: seq<T>, s: Sub<T>, ahead: seq<T>)
    requires InOrder(filed, s, ahead)
    requires multiset(Due(filed, s)) == multiset(s.got) + multiset(s.queue) + s.dropped + multiset(ahead)
    ensures s.dropped == multiset{} <==> s.got + s.queue + ahead == Due(filed, s)
  {
    hide Subsequence;
    assert multiset(s.got + s.queue) == multiset(s.got) + multiset(s.queue);
    AllOrNothingDropped(Due(filed, s), s.got + s.queue, ahead, s.dropped);
  }

  /** With one publish at a time, what a watcher read and then has queued is, in order, part
      of what was filed while it was there; and with what is still to be offered it is all
      of that, exactly when nothing was dropped. */
  lemma WatchersSeeOrder<T>(events: seq<Event<T>>, i: nat)
    requires OneAtATime(Init<T>(), events) && i < |Run(Init<T>(), events).subs|
    ensures var h := Run<T>(Init(), events);
      var s, ahead := h.subs[i], Ahead(h.flights, i);
      && InOrder(h.node.filed, s, ahead)
      && (s.dropped == multiset{} <==> s.got + s.queue + ahead == Due(h.node.filed, s))
  {
    hide Run, OneAtATime, Inv, Orderly, AllOwed, Ahead, InOrder, Due;
    InitOrderly<T>();
    RunOrderly(Init<T>(), events);
    SubscribersAccounted(events, i);
    var h := Run<T>(Init(), events);
    OrderlySub(h, i);
    InOrderDrops(h.node.filed, h.subs[i], Ahead(h.flights, i));
  }

  // ---------- Publishes that overlap ----------

  /** The hub one watcher sees, with nothing shown at once and nothing dropped. */
  function WatchedHub<T>(filed: seq<T>, queue: seq<T>, got: seq<T>, flights: seq<Flight<T>>): Hub<T> {
    Hub(LogShipping.HubNode(if filed == [] then "" else "p", |filed|, filed), [Sub(0, true, 0, [], queue, got, multiset{})], flights)
  }

  lemma {:induction false} RunConcat<T>(h: Hub<T>, a: seq<Event<T>>, b: seq<Event<T>>)
    ensures Run(h, a + b) == Run(Run(h, a), b)
    decreases |a|
  {
    hide Step;
    if a == [] {
      assert a + b == b;
    } else {
      assert (a + b)[1..] == a[1..] + b;
      RunConcat(Step(h, a[0]), a[1..], b);
    }
  }

  lemma RunOne<T>(h: Hub<T>, a: seq<Event<T>>, e: Event<T>)
    ensures Run(h, a + [e]) == Step(Run(h, a), e)
  {
    hide Step;
    RunConcat(h, a, [e]);
    assert Run(h, a + [e]) == Run(Step(Run(h, a), e), [e][1..]);
  }

  /** The next line in sequence is news, whoever the first one was from. */
  lemma NextIsFresh<T>(h: LogShipping.HubNode<T>, x: T)
    requires h.next == |h.filed| && h.epoch == if h.filed == [] then "" else "p"
    ensures LogShipping.Fresh(h, "p", |h.filed|, [x]) == [x]
    ensures LogShipping.Publish(h, "p", |h.filed|, [x]) == LogShipping.HubNode("p", |h.filed| + 1, h.filed + [x])
  {
    assert LastN([x], LogShipping.BATCH) == [x] && [x][0..] == [x];
  }

  lemma FilesNext<T>(filed: seq<T>, x: T, flights: seq<Flight<T>>)
    ensures Step(WatchedHub(filed, [], [], flights), FileBatch("p", |filed|, [x], [0]))
         == WatchedHub(filed + [x], [], [], flights + [Flight([x], [0], 0, 0)])
  {
    hide LogShipping.Fresh, LogShipping.Publish, IsOrder;
    NextIsFresh(WatchedHub(filed, [], [], flights).node, x);
    OnlyWatcher(WatchedHub(filed, [], [], flights).subs[0]);
  }

  lemma OnlyWatcher<T>(s: Sub<T>)
    requires s.live
    ensures IsOrder([0], [s])
  {
  }

  lemma RunThree<T>(h: Hub<T>, a: Event<T>, b: Event<T>, c: Event<T>)
    ensures Run(h, [a, b, c]) == Step(Step(Step(h, a), b), c)
  {
    hide Step;
    assert [] + [a] == [a] && [a] + [b] == [a, b] && [a, b] + [c] == [a, b, c];
    RunOne(h, [], a);
    RunOne(h, [a], b);
    RunOne(h, [a, b], c);
  }

  lemma JoinsFirst<T>()
    ensures Step(Init<T>(), Join) == WatchedHub([], [], [], [])
  {
  }

  /** Both publishes are past the lock. */
  lemma TwoFiled<T>(x: T, y: T)
    ensures Run<T>(Init(), [Join, FileBatch("p", 0, [x], [0]), FileBatch("p", 1, [y], [0])])
         == WatchedHub([x, y], [], [], [Flight([x], [0], 0, 0), Flight([y], [0], 0, 0)])
  {
    hide *;
    RunThree(Init<T>(), Join, FileBatch("p", 0, [x], [0]), FileBatch("p", 1, [y], [0]));
    JoinsFirst<T>();
    var f, g := Flight([x], [0], 0, 0), Flight([y], [0], 0, 0);
    FilesNext([], x, []);
    assert [] + [x] == [x] && [] + [f] == [f];
    FilesNext([x], y, [f]);
    assert [x] + [y] == [x, y] && [f] + [g] == [f, g];
  }

  /** The second sends before the first does. */
  lemma SendsCross<T>(x: T, y: T)
    ensures var h := WatchedHub([x, y], [], [], [Flight([x], [0], 0, 0), Flight([y], [0], 0, 0)]);
      var done := [Flight([x], [0], 1, 0), Flight([y], [0], 1, 0)];
      Step(Step(h, SendOne(1)), SendOne(0)) == WatchedHub([x, y], [y, x], [], done)
  {
    var f, g, f', g' := Flight([x], [0], 0, 0), Flight([y], [0], 0, 0), Flight([x], [0], 1, 0), Flight([y], [0], 1, 0);
    assert [f, g][1 := g'] == [f, g'] && [f, g'][0 := f'] == [f', g'];
    var h := WatchedHub([x, y], [], [], [f, g]);
    assert [] + [y] == [y] && [y] + [x] == [y, x];
    assert Step(h, SendOne(1)) == WatchedHub([x, y], [y], [], [f, g']);
  }

  lemma ReadsBoth<T>(x: T, y: T, flights: seq<Flight<T>>)
    ensures Step(Step(WatchedHub([x, y], [y, x], [], flights), Read(0)), Read(0)) == WatchedHub([x, y], [], [y, x], flights)
  {
    assert [y, x][1..] == [x] && [x][1..] == [] && [] + [y] == [y] && [y] + [x] == [y, x];
    assert Step(WatchedHub([x, y], [y, x], [], flights), Read(0)) == WatchedHub([x, y], [x], [y], flights);
  }

  /** Why publishes must not overlap: two that do, a watcher who was there throughout and
      lost nothing, and it reads the later line first. */
  lemma OverlapReorders<T>(x: T, y: T)
    ensures var events := [Join, FileBatch("p", 0, [x], [0]), FileBatch("p", 1, [y], [0]), SendOne(1), SendOne(0), Read(0), Read(0)];
      var h := Run<T>(Init(), events);
      && h.node.filed == [x, y] && |h.subs| == 1 && h.subs[0].got == [y, x] && h.subs[0].dropped == multiset{}
      && (x != y ==> !Subsequence(h.subs[0].got, h.node.filed))
  {
    hide Step, Run, Subsequence;
    var start, rest: seq<Event<T>> := [Join, FileBatch("p", 0, [x], [0]), FileBatch("p", 1, [y], [0])], [SendOne(1), SendOne(0), Read(0), Read(0)];
    TwoFiled(x, y);
    SendsCross(x, y);
    ReadsBoth(x, y, [Flight([x], [0], 1, 0), Flight([y], [0], 1, 0)]);
    RunConcat(Init<T>(), start, rest);
    RunFour(Run(Init<T>(), start), SendOne(1), SendOne(0), Read(0), Read(0));
    assert start + rest == [Join, FileBatch("p", 0, [x], [0]), FileBatch("p", 1, [y], [0]), SendOne(1), SendOne(0), Read(0), Read(0)];
    if x != y {
      Crossed(x, y);
    }
  }

  lemma RunFour<T>(h: Hub<T>, a: Event<T>, b: Event<T>, c: Event<T>, d: Event<T>)
    ensures Run(h, [a, b, c, d]) == Step(Step(Step(Step(h, a), b), c), d)
  {
    hide Step;
    assert [] + [a] == [a] && [a] + [b] == [a, b] && [a, b] + [c] == [a, b, c] && [a, b, c] + [d] == [a, b, c, d];
    RunOne(h, [], a);
    RunOne(h, [a], b);
    RunOne(h, [a, b], c);
    RunOne(h, [a, b, c], d);
  }

  lemma Crossed<T>(x: T, y: T)
    requires x != y
    ensures !Subsequence([y, x], [x, y])
  {
    assert [y, x] != [x, y] by {
      assert [y, x][0] == y && [x, y][0] == x;
    }
    if Subsequence([y, x], [x, y]) {
      SubsequenceShorter([y, x], [x, y]);
      assert false;
    }
  }
}
