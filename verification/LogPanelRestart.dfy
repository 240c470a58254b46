/** What becomes of log lines when the panel restarts while agents run: it forgets every
    line and every numbering, and takes up an agent's in the middle. */
module LogPanelRestart {
  import opened Rings
  import opened LogShipping
  import opened LogExactlyOnce
  import opened LogSendRule

  // ---------- One batch, whatever the panel remembers ----------

  /** Where the panel expects a process to go on: at zero, one it has not heard. */
  function Awaited<T>(h: HubNode<T>, epoch: string): int {
    if h.epoch == epoch then h.next else 0
  }

  /** Line `i` of a batch of `count` from position `pos` is to be filed: it is among the
      newest 200, and not below what is awaited. */
  predicate Wanted<T>(h: HubNode<T>, epoch: string, pos: nat, count: nat, i: nat) {
    count - i <= 200 && Awaited(h, epoch) <= pos + i
  }

  /** Of any batch, in any state, the panel files exactly the lines wanted, at the end and in
      order, and then awaits the line after: so a gap costs nothing that was sent. */
  lemma FilesIff<T>(h: HubNode<T>, epoch: string, pos: nat, lines: seq<T>)
    ensures var h' := Publish(h, epoch, pos, lines);
      && (lines == [] ==> h' == h)
      && (lines != [] ==> h'.epoch == epoch && h'.next >= pos + |lines| && h'.next in {pos + |lines|, Awaited(h, epoch)})
      && exists from: nat :: from <= |lines| && h'.filed == h.filed + lines[from..]
           && forall i: nat :: i < |lines| ==> (from <= i <==> Wanted(h, epoch, pos, |lines|, i))
  {
    NextAwaited(h, epoch, pos, lines);
    hide Publish;
    var from := FiledFrom(h, epoch, pos, lines);
  }

  lemma NextAwaited<T>(h: HubNode<T>, epoch: string, pos: nat, lines: seq<T>)
    ensures var h' := Publish(h, epoch, pos, lines);
      && (lines == [] ==> h' == h)
      && (lines != [] ==> h'.epoch == epoch && h'.next >= pos + |lines| && h'.next in {pos + |lines|, Awaited(h, epoch)})
  {
    hide Fresh;
  }

  lemma FiledFrom<T>(h: HubNode<T>, epoch: string, pos: nat, lines: seq<T>) returns (from: nat)
    ensures from <= |lines| && Publish(h, epoch, pos, lines).filed == h.filed + lines[from..]
    ensures forall i: nat :: i < |lines| ==> (from <= i <==> Wanted(h, epoch, pos, |lines|, i))
  {
    var want := Awaited(h, epoch);
    var cut := if |lines| > 200 then |lines| - 200 else 0;
    from := if want - pos < cut then cut else if want - pos > |lines| then |lines| else want - pos;
    assert LastN(lines, BATCH) == lines[cut..];
    assert lines[cut..][from - cut..] == lines[from..];
  }

  /** After a gap, as when the panel restarted, the whole of a batch is filed. */
  lemma GapFilesAll<T>(h: HubNode<T>, epoch: string, pos: nat, lines: seq<T>)
    requires pos >= Awaited(h, epoch) && |lines| <= 200
    ensures Publish(h, epoch, pos, lines).filed == h.filed + lines
  {
    FilesIff(h, epoch, pos, lines);
    var from: nat :| from <= |lines| && Publish(h, epoch, pos, lines).filed == h.filed + lines[from..]
      && forall i: nat :: i < |lines| ==> (from <= i <==> Wanted(h, epoch, pos, |lines|, i));
    hide Publish;
    assert lines != [] ==> Wanted(h, epoch, pos, |lines|, 0);
    assert lines[0..] == lines;
  }

  // ---------- Runs in which the panel restarts ----------

  datatype Happening = Agent(event: Event) | PanelRestart

  const NEW_HUB: HubNode<Line> := HubNode("", 0, [])

  function Happen(w: World, h: Happening): World {
    match h
    case Agent(e) => Step(w, e)
    case PanelRestart => w.(hub := NEW_HUB)
  }

  function RunThrough(w: World, hs: seq<Happening>): World
    decreases |hs|
  {
    if hs == [] then w else RunThrough(Happen(w, hs[0]), hs[1..])
  }

  /** What the agent and the link did. */
  function EventsOf(hs: seq<Happening>): seq<Event> {
    if hs == [] then []
    else match hs[0]
      case Agent(e) => [e] + EventsOf(hs[1..])
      case PanelRestart => EventsOf(hs[1..])
  }

  ghost predicate Suffix(a: seq<Line>, b: seq<Line>) {
    |a| <= |b| && b[|b| - |a|..] == a
  }

  /** The panel that restarted against one that never did: of every process it holds the end
      of what that one holds; and of the running process nothing, or all that is
      unacknowledged. */
  ghost predicate Behind(v: World, h: HubNode<Line>) {
    && (forall e :: Suffix(OfEpoch(h.filed, e), OfEpoch(v.hub.filed, e)))
    && (forall k :: 0 <= k < |h.filed| ==> h.filed[k].epoch == v.epoch || h.filed[k].epoch in v.history)
    && (h.epoch != v.epoch && h.epoch !in v.history ==> h.next == 0)
    && (Unheard(v, h) || Caught(v, h))
  }

  ghost predicate Unheard(v: World, h: HubNode<Line>) {
    Expected(h, v.epoch) == 0 && OfEpoch(h.filed, v.epoch) == []
  }

  ghost predicate Caught(v: World, h: HubNode<Line>) {
    && Expected(h, v.epoch) == Expected(v.hub, v.epoch)
    && |OfEpoch(v.hub.filed, v.epoch)| - |OfEpoch(h.filed, v.epoch)| <= |v.acked|
  }

  lemma SameHubs(v: World, w: World, h: HubNode<Line>)
    requires Behind(v, h) && w.hub == v.hub && w.epoch == v.epoch && w.history == v.history && |v.acked| <= |w.acked|
    ensures Behind(w, h)
  {
    hide OfEpoch, Expected;
  }

  lemma NewHubBehind(v: World)
    ensures Behind(v, NEW_HUB)
  {
  }

  lemma SuffixGrows(a: seq<Line>, b: seq<Line>, news: seq<Line>)
    requires Suffix(a, b)
    ensures Suffix(a + news, b + news)
  {
    assert (b + news)[|b| - |a|..] == b[|b| - |a|..] + news;
  }

  lemma PublishFrom(h: HubNode<Line>, epoch: string, pos: nat, k: nat, batch: seq<Line>)
    requires batch != [] && k <= |batch| <= BATCH
    requires k == if Expected(h, epoch) > pos then Expected(h, epoch) - pos else 0
    ensures Publish(h, epoch, pos, batch) == HubNode(epoch, pos + |batch|, h.filed + batch[k..])
  {
    assert LastN(batch, BATCH) == batch;
  }

  lemma ExactBatch(v: World) returns (since: seq<Line>)
    requires Exact(v) && v.flight.Sent?
    ensures since <= v.flight.batch && |v.flight.batch| <= BATCH && |v.acked| == v.logSeq
    ensures forall k :: 0 <= k < |v.flight.batch| ==> v.flight.batch[k].epoch == v.epoch
    ensures HubExact(v.hub, v.epoch, v.acked, since)
  {
    since := Span(v.cores, v.seen, 0);
    SpanOfEpoch(v.cores, v.flight.marks, 0, v.epoch);
    hide Span, HubExact, AckedExact, PastExact;
  }

  /** Batch in hand, a panel that has not heard the process files all of it, one that has
      files what the other files. */
  lemma ProcessFiles(v: World, h: HubNode<Line>, since: seq<Line>)
    requires v.flight.Sent? && v.flight.batch != [] && since <= v.flight.batch && |v.flight.batch| <= BATCH
    requires Behind(v, h) && HubExact(v.hub, v.epoch, v.acked, since) && |v.acked| == v.logSeq
    ensures var batch := v.flight.batch;
      && OfEpoch(v.hub.filed, v.epoch) == v.acked + since
      && Publish(v.hub, v.epoch, v.logSeq, batch) == HubNode(v.epoch, v.logSeq + |batch|, v.hub.filed + batch[|since|..])
      && Publish(h, v.epoch, v.logSeq, batch)
         == HubNode(v.epoch, v.logSeq + |batch|, h.filed + if Caught(v, h) then batch[|since|..] else batch)
  {
    hide OfEpoch, Publish, Suffix;
    PublishFrom(v.hub, v.epoch, v.logSeq, |since|, v.flight.batch);
    if Caught(v, h) {
      PublishFrom(h, v.epoch, v.logSeq, |since|, v.flight.batch);
    } else {
      PublishFrom(h, v.epoch, v.logSeq, 0, v.flight.batch);
      assert v.flight.batch[0..] == v.flight.batch;
    }
  }

  lemma ProcessIs(v: World, h: HubNode<Line>)
    requires v.flight.Sent?
    ensures var w, batch := Step(v, Process), v.flight.batch;
      && w.epoch == v.epoch && w.history == v.history && w.acked == v.acked
      && w.hub == Publish(v.hub, v.epoch, v.logSeq, batch)
      && Step(v.(hub := h), Process) == w.(hub := Publish(h, v.epoch, v.logSeq, batch))
  {
    hide Publish;
  }

  lemma ProcessBehind(v: World, h: HubNode<Line>)
    requires Exact(v) && Behind(v, h) && v.flight.Sent?
    ensures var v', h' := Step(v, Process), Step(v.(hub := h), Process).hub;
      Behind(v', h') && (v.flight.batch != [] ==> Caught(v', h') && OfEpoch(v'.hub.filed, v.epoch) == v.acked + v.flight.batch)
  {
    ProcessIs(v, h);
    var since := ExactBatch(v);
    hide Exact, Step;
    var v', h' := Step(v, Process), Step(v.(hub := h), Process).hub;
    if v.flight.batch == [] {
      NothingFiled(v, h);
      SameHubs(v, v', h);
    } else {
      BatchBehind(v, h, since, v', h');
    }
  }

  lemma NothingFiled(v: World, h: HubNode<Line>)
    ensures Publish(v.hub, v.epoch, v.logSeq, []) == v.hub && Publish(h, v.epoch, v.logSeq, []) == h
  {
  }

  lemma BatchBehind(v: World, h: HubNode<Line>, since: seq<Line>, w: World, h': HubNode<Line>)
    requires v.flight.Sent? && v.flight.batch != [] && since <= v.flight.batch && |v.flight.batch| <= BATCH
    requires Behind(v, h) && HubExact(v.hub, v.epoch, v.acked, since) && |v.acked| == v.logSeq
    requires forall k :: 0 <= k < |v.flight.batch| ==> v.flight.batch[k].epoch == v.epoch
    requires w.epoch == v.epoch && w.history == v.history && w.acked == v.acked
    requires w.hub == Publish(v.hub, v.epoch, v.logSeq, v.flight.batch) && h' == Publish(h, v.epoch, v.logSeq, v.flight.batch)
    ensures Behind(w, h') && Caught(w, h') && OfEpoch(w.hub.filed, v.epoch) == v.acked + v.flight.batch
  {
    ProcessFiles(v, h, since);
    hide OfEpoch, Publish, Suffix, HubExact, Expected;
    var batch := v.flight.batch;
    var news := if Caught(v, h) then batch[|since|..] else batch;
    FiledBehind(v.hub.filed, h.filed, v.epoch, v.acked, since, batch, news);
    NowCaught(w, h', v.logSeq + |batch|);
    hide Caught, Unheard;
    forall k | 0 <= k < |h'.filed| ensures h'.filed[k].epoch == w.epoch || h'.filed[k].epoch in w.history {
      assert h'.filed[k] in h.filed || h'.filed[k].epoch == w.epoch;
    }
  }

  lemma NowCaught(w: World, h: HubNode<Line>, next: int)
    requires h.epoch == w.hub.epoch == w.epoch && h.next == w.hub.next == next
    requires |OfEpoch(w.hub.filed, w.epoch)| - |OfEpoch(h.filed, w.epoch)| <= |w.acked|
    ensures Caught(w, h)
  {
    hide OfEpoch;
  }

  lemma FiledBehind(all: seq<Line>, held: seq<Line>, epoch: string, acked: seq<Line>, since: seq<Line>, batch: seq<Line>, news: seq<Line>)
    requires OfEpoch(all, epoch) == acked + since && since <= batch && (forall k :: 0 <= k < |batch| ==> batch[k].epoch == epoch)
    requires forall e :: Suffix(OfEpoch(held, e), OfEpoch(all, e))
    requires (news == batch && OfEpoch(held, epoch) == []) || (news == batch[|since|..] && |acked| + |since| - |OfEpoch(held, epoch)| <= |acked|)
    ensures forall e :: Suffix(OfEpoch(held + news, e), OfEpoch(all + batch[|since|..], e))
    ensures OfEpoch(all + batch[|since|..], epoch) == acked + batch
    ensures |OfEpoch(all + batch[|since|..], epoch)| - |OfEpoch(held + news, epoch)| <= |acked|
    ensures forall k :: 0 <= k < |held + news| ==> (held + news)[k] in held || (held + news)[k].epoch == epoch
  {
    hide OfEpoch;
    assert acked + since + batch[|since|..] == acked + batch;
    forall e ensures Suffix(OfEpoch(held + news, e), OfEpoch(all + batch[|since|..], e)) {
      FileMore(all, batch[|since|..], epoch, e);
      FileMore(held, news, epoch, e);
      if e == epoch && news == batch[|since|..] {
        SuffixGrows(OfEpoch(held, e), OfEpoch(all, e), news);
      }
    }
    FileMore(all, batch[|since|..], epoch, epoch);
    FileMore(held, news, epoch, epoch);
  }

  lemma UnheardOf(v: World, h: HubNode<Line>, id: string)
    requires Behind(v, h) && id != v.epoch && id !in v.history
    ensures Expected(h, id) == 0 && OfEpoch(h.filed, id) == []
  {
    OfEpochNone(h.filed, id);
    hide OfEpoch, Suffix;
  }

  lemma RestartBehind(v: World, h: HubNode<Line>, id: string)
    requires Behind(v, h) && id != v.epoch && id !in v.history
    ensures Behind(Step(v, Restart(id)), h)
  {
    UnheardOf(v, h, id);
    NewProcess(v, id);
    hide OfEpoch, Suffix, Step, Expected, Caught;
    var w := Step(v, Restart(id));
    forall e ensures Suffix(OfEpoch(h.filed, e), OfEpoch(w.hub.filed, e)) {
    }
    forall k | 0 <= k < |h.filed| ensures h.filed[k].epoch == w.epoch || h.filed[k].epoch in w.history {
      assert h.filed[k].epoch == v.epoch || h.filed[k].epoch in v.history;
    }
  }

  lemma NewProcess(v: World, id: string)
    requires id != v.epoch && id !in v.history
    ensures var w := Step(v, Restart(id));
      w.epoch == id && w.hub == v.hub && w.history.Keys == v.history.Keys + {v.epoch}
  {
    hide Logs, SilentCores, Zeros;
  }

  lemma OtherIs(v: World, h: HubNode<Line>, e: Event)
    requires !e.Process? && !e.Restart?
    ensures var w := Step(v, e);
      && w.epoch == v.epoch && w.history == v.history && w.hub == v.hub && |v.acked| <= |w.acked|
      && Step(v.(hub := h), e) == w.(hub := h)
  {
    hide Collect, Totals, Advance;
  }

  lemma RestartIs(v: World, h: HubNode<Line>, id: string)
    ensures Step(v.(hub := h), Restart(id)) == Step(v, Restart(id)).(hub := h) && Step(v, Restart(id)).hub == v.hub
  {
    hide SilentCores, Zeros;
    assert Logs(v.(hub := h)) == Logs(v);
  }

  /** One step of agent and link keeps the restarted panel behind the other. */
  lemma StepBehind(v: World, h: HubNode<Line>, e: Event)
    requires Exact(v) && Behind(v, h)
    ensures var v', w' := Step(v, e), Step(v.(hub := h), e);
      w' == v'.(hub := w'.hub) && Behind(v', w'.hub)
  {
    hide Exact, Behind, Step;
    match e
    case Process =>
      if v.flight.Sent? {
        ProcessIs(v, h);
        ProcessBehind(v, h);
      } else {
        IdleProcess(v, h);
      }
    case Restart(id) =>
      RestartIs(v, h, id);
      if id != v.epoch && id !in v.history {
        RestartBehind(v, h, id);
      } else {
        RefusedRestart(v, id);
      }
    case _ =>
      OtherIs(v, h, e);
      SameHubs(v, Step(v, e), h);
  }

  lemma IdleProcess(v: World, h: HubNode<Line>)
    requires !v.flight.Sent?
    ensures Step(v, Process) == v && Step(v.(hub := h), Process) == v.(hub := h)
  {
  }

  lemma RefusedRestart(v: World, id: string)
    requires id == v.epoch || id in v.history
    ensures Step(v, Restart(id)) == v
  {
  }

  /** Over every run: what the agent does is what it does before a panel that never restarts,
      and the panel is behind that one. */
  lemma {:induction false} RunBehind(v: World, h: HubNode<Line>, hs: seq<Happening>)
    requires Exact(v) && Behind(v, h) && GoodRun(v, EventsOf(hs))
    ensures var v', w' := Run(v, EventsOf(hs)), RunThrough(v.(hub := h), hs);
      w' == v'.(hub := w'.hub) && Exact(v') && Behind(v', w'.hub)
    decreases |hs|
  {
    hide Exact, Behind, Step;
    if hs != [] {
      match hs[0]
      case PanelRestart =>
        NewHubBehind(v);
        RunBehind(v, NEW_HUB, hs[1..]);
      case Agent(e) =>
        StepBehind(v, h, e);
        assert ([e] + EventsOf(hs[1..]))[1..] == EventsOf(hs[1..]);
        GoodStep(v, e);
        RunBehind(Step(v, e), Step(v.(hub := h), e).hub, hs[1..]);
    }
  }

  lemma GoodStep(v: World, e: Event)
    requires Exact(v)
    requires e.Send? && v.flight.Idle? ==> WellFormed(v) && Bounded(v.cores, v.seen) && Fits(v) && Extends(v)
    ensures Exact(Step(v, e))
  {
    ExactStep(v, e);
  }

  // ---------- What the panel holds ----------

  /** A stretch of what was written, in order and without a gap. */
  ghost predicate Stretch(a: seq<Line>, all: seq<Line>) {
    exists lo: nat, hi: nat :: lo <= hi <= |all| && a == all[lo..hi]
  }

  lemma SuffixStretch(a: seq<Line>, b: seq<Line>, all: seq<Line>, i: nat)
    requires Suffix(a, b) && OfCore(b, i) <= all
    ensures Stretch(OfCore(a, i), all)
  {
    hide OfCore;
    var front := b[..|b| - |a|];
    assert b == front + a;
    OfCoreConcat(front, a, i);
    var lo, hi := |OfCore(front, i)|, |OfCore(b, i)|;
    assert OfCore(a, i) == OfCore(b, i)[lo..] == all[lo..hi];
  }

  /** Over every run in which the panel restarts whenever it likes, and which is good in the
      sense `ExactlyOnce` is about: since its last restart the panel holds, of every process
      and core, one stretch of what it wrote, in order, each line once; and a heartbeat it
      processes leaves it holding everything that heartbeat carried, last. */
  lemma PanelRestarts(epoch: string, n: nat, hs: seq<Happening>, e: string, i: nat)
    requires GoodRun(Init(epoch, n), EventsOf(hs))
    ensures var w := RunThrough(Init(epoch, n), hs);
      && Stretch(OfCore(OfEpoch(w.hub.filed, e), i), Written(w, e, i))
      && (w.flight.Sent? ==> Suffix(w.flight.batch, OfEpoch(Step(w, Process).hub.filed, w.epoch)))
  {
    hide Exact, GoodRun, Step, Run, RunThrough, OfCore, OfEpoch, Written;
    ExactInit(epoch, n);
    var v0 := Init(epoch, n);
    StartsBehind(epoch, n);
    assert v0.(hub := v0.hub) == v0;
    RunBehind(v0, v0.hub, hs);
    var v, w := Run(v0, EventsOf(hs)), RunThrough(v0, hs);
    ExactPrefix(v, e, i);
    SameWrites(v, w, e, i);
    SuffixStretch(OfEpoch(w.hub.filed, e), OfEpoch(v.hub.filed, e), Written(v, e, i), i);
    if w.flight.Sent? {
      ProcessIs(v, w.hub);
      ProcessBehind(v, w.hub);
      DeliveredLast(Step(v, Process), Step(w, Process).hub, v.epoch, v.acked, v.flight.batch);
    }
  }

  lemma StartsBehind(epoch: string, n: nat)
    ensures Behind(Init(epoch, n), Init(epoch, n).hub)
  {
  }

  lemma SameWrites(v: World, w: World, e: string, i: nat)
    requires w == v.(hub := w.hub)
    ensures Written(w, e, i) == Written(v, e, i)
  {
  }

  lemma DeliveredLast(v: World, h: HubNode<Line>, epoch: string, acked: seq<Line>, batch: seq<Line>)
    requires v.epoch == epoch && v.acked == acked && Behind(v, h)
    requires batch != [] ==> Caught(v, h) && OfEpoch(v.hub.filed, epoch) == acked + batch
    ensures Suffix(batch, OfEpoch(h.filed, epoch))
  {
    hide OfEpoch, Expected;
    var f := OfEpoch(h.filed, epoch);
    if batch != [] {
      var all := acked + batch;
      assert f == all[|all| - |f|..];
      assert f[|f| - |batch|..] == all[|all| - |batch|..] == batch;
    } else {
      assert f[|f|..] == [];
    }
  }

  /** By the rule an agent can follow, for any number of cores. */
  lemma PanelRestartsByRule(epoch: string, n: nat, hs: seq<Happening>, e: string, i: nat)
    requires CarefulRun(Init(epoch, n), [], EventsOf(hs))
    ensures var w := RunThrough(Init(epoch, n), hs);
      && Stretch(OfCore(OfEpoch(w.hub.filed, e), i), Written(w, e, i))
      && (w.flight.Sent? ==> Suffix(w.flight.batch, OfEpoch(Step(w, Process).hub.filed, w.epoch)))
  {
    hide Exact, CarefulRun, GoodRun, RunThrough;
    ExactInit(epoch, n);
    assert Knows(Init(epoch, n), []);
    CarefulIsGood(Init(epoch, n), [], EventsOf(hs));
    PanelRestarts(epoch, n, hs, e, i);
  }

  /** With one core, of which every heartbeat carries all that is unacknowledged. */
  lemma PanelRestartsOneCore(epoch: string, hs: seq<Happening>, e: string)
    requires FittingRun(Init(epoch, 1), EventsOf(hs))
    ensures var w := RunThrough(Init(epoch, 1), hs);
      && Stretch(OfCore(OfEpoch(w.hub.filed, e), 0), Written(w, e, 0))
      && (w.flight.Sent? ==> Suffix(w.flight.batch, OfEpoch(Step(w, Process).hub.filed, w.epoch)))
  {
    hide Exact, FittingRun, GoodRun, RunThrough;
    ExactInit(epoch, 1);
    FittingRunIsGood(Init(epoch, 1), EventsOf(hs));
    PanelRestarts(epoch, 1, hs, e, 0);
  }
}
