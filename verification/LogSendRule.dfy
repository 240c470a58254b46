/** A rule the agent can follow.  It cannot tell a lost request from a lost response, so it
    does not know what the panel processed; but it knows the marks of every heartbeat it
    sent since the last one that was acknowledged. */
module LogSendRule {
  import opened Rings
  import opened LogShipping
  import opened LogExactlyOnce
  import opened LogResend

  /** The marks of the heartbeats sent since the last acknowledgement, kept by the agent. */
  function Noted(sent: seq<seq<nat>>, w: World, e: Event): seq<seq<nat>> {
    match e
    case Send => if w.flight.Idle? then sent + [Totals(w.cores)] else sent
    case Ack => if w.flight.Processed? && |w.flight.marks| == |w.cores| then [] else sent
    case Restart(id) => if id != w.epoch && id !in w.history then [] else sent
    case _ => sent
  }

  /** Whichever of those heartbeats the panel processed last, only the last core in it, or
      one after it, has written since. */
  ghost predicate SafeToSend(cores: seq<Core<Line>>, sent: seq<seq<nat>>) {
    forall m :: m in sent ==> Bounded(cores, m) && NewsLast(cores, m, 0)
  }

  /** A run of an agent that sends only then, and only what fits one heartbeat. */
  ghost predicate CarefulRun(w: World, sent: seq<seq<nat>>, events: seq<Event>)
    decreases |events|
  {
    events == [] ||
    (&& (events[0].Send? && w.flight.Idle? ==> WellFormed(w) && Fits(w) && SafeToSend(w.cores, sent))
     && CarefulRun(Step(w, events[0]), Noted(sent, w, events[0]), events[1..]))
  }

  /** What the panel processed is among what the agent noted, or acknowledged. */
  ghost predicate Knows(w: World, sent: seq<seq<nat>>) {
    && |w.seen| == |w.cores|
    && (w.seen in sent || forall i :: 0 <= i < |w.cores| ==> w.seen[i] == w.cores[i].cursor)
    && (!w.flight.Idle? ==> w.flight.marks in sent && |w.flight.marks| == |w.cores|)
    && (w.flight.Processed? ==> w.seen == w.flight.marks)
  }

  lemma KnowsStep(w: World, sent: seq<seq<nat>>, e: Event)
    requires Knows(w, sent)
    ensures Knows(Step(w, e), Noted(sent, w, e))
  {
    hide Publish, Collect, Logs;
  }

  lemma SafeExtends(w: World, sent: seq<seq<nat>>)
    requires Exact(w) && Fits(w) && Knows(w, sent) && SafeToSend(w.cores, sent)
    ensures Extends(w)
  {
    MergeIsSpan(w.cores, 0);
    if w.seen in sent {
      SpanPrefixIff(w.cores, w.seen, w.epoch, 0);
    } else {
      SpanEmpty(w.cores, w.seen, 0);
    }
    hide Span, NewsLast, Merge, HubExact, PastExact, AckedExact, Carrying, Tagged;
  }

  lemma {:induction false} CarefulIsGood(w: World, sent: seq<seq<nat>>, events: seq<Event>)
    requires Exact(w) && Knows(w, sent) && CarefulRun(w, sent, events)
    ensures GoodRun(w, events)
    decreases |events|
  {
    hide HubExact, PastExact, AckedExact, Carrying, SafeToSend, Step, Noted, Knows, Extends, Fits;
    if events != [] {
      var e := events[0];
      if e.Send? && w.flight.Idle? {
        SafeExtends(w, sent);
      }
      ExactStep(w, e);
      KnowsStep(w, sent, e);
      CarefulIsGood(Step(w, e), Noted(sent, w, e), events[1..]);
    }
  }

  /** Exactly once, for any number of cores, by a rule the agent can follow: what is filed of
      each process and core is, in order, a prefix of what it wrote, and all of it up to the
      mark while a response is on its way. */
  lemma ExactlyOnceByRule(epoch: string, n: nat, events: seq<Event>, e: string, i: nat)
    requires CarefulRun(Init(epoch, n), [], events)
    ensures var w := Run(Init(epoch, n), events);
      && OfCore(OfEpoch(w.hub.filed, e), i) <= Written(w, e, i)
      && (w.flight.Processed? && i < |w.cores| ==>
            && |w.flight.marks| == |w.cores| && w.flight.marks[i] <= |w.cores[i].lines|
            && OfCore(OfEpoch(w.hub.filed, w.epoch), i) == w.cores[i].lines[..w.flight.marks[i]])
  {
    ExactInit(epoch, n);
    assert Knows(Init(epoch, n), []);
    CarefulIsGood(Init(epoch, n), [], events);
    hide Run, GoodRun, CarefulRun, OfCore, OfEpoch, Written, Exact;
    ExactlyOnce(epoch, n, events, e, i);
  }

  // ---------- The rule is as weak as it can be ----------

  /** Two states the agent cannot tell apart. */
  predicate SameAgent(v: World, w: World) {
    v.epoch == w.epoch && v.cores == w.cores && v.logSeq == w.logSeq && v.acked == w.acked && v.flight == w.flight
  }

  /** The agent's state, with a panel that processed the heartbeat with marks `m` last. */
  function Imagined(w: World, m: seq<nat>): World
    requires Bounded(w.cores, m)
  {
    var span := Span(w.cores, m, 0);
    w.(hub := HubNode(w.epoch, |w.acked| + |span|, w.acked + span), seen := m, history := map[])
  }

  lemma {:induction false} OfEpochMembers(filed: seq<Line>, e: string)
    ensures forall k :: 0 <= k < |OfEpoch(filed, e)| ==> OfEpoch(filed, e)[k].epoch == e
    decreases |filed|
  {
    if filed != [] {
      OfEpochMembers(filed[..|filed| - 1], e);
    }
  }

  lemma AckedOfEpoch(w: World)
    requires Exact(w)
    ensures forall k :: 0 <= k < |w.acked| ==> w.acked[k].epoch == w.epoch
  {
    OfEpochMembers(w.hub.filed, w.epoch);
    var all := OfEpoch(w.hub.filed, w.epoch);
    assert all[..|w.acked|] == w.acked;
    hide OfEpoch, Span;
    forall k | 0 <= k < |w.acked| ensures w.acked[k].epoch == w.epoch {
      assert all[k] == w.acked[k];
    }
  }

  lemma ImaginedHub(w: World, m: seq<nat>)
    requires Exact(w) && Bounded(w.cores, m)
    ensures var v := Imagined(w, m);
      && HubExact(v.hub, v.epoch, v.acked, Span(v.cores, m, 0))
      && PastExact(v.hub, v.epoch, v.history)
  {
    AckedOfEpoch(w);
    SpanOfEpoch(w.cores, m, 0, w.epoch);
    var filed := w.acked + Span(w.cores, m, 0);
    hide Span, HubExact;
    OfEpochAll(filed, w.epoch);
    ImaginedExact(w.epoch, w.acked, Span(w.cores, m, 0));
  }

  lemma ImaginedExact(epoch: string, acked: seq<Line>, since: seq<Line>)
    requires OfEpoch(acked + since, epoch) == acked + since
    ensures HubExact(HubNode(epoch, |acked| + |since|, acked + since), epoch, acked, since)
  {
    hide OfEpoch;
  }

  lemma ImaginedWellFormed(w: World, m: seq<nat>)
    requires WellFormed(w) && w.flight.Idle? && Bounded(w.cores, m)
    ensures WellFormed(Imagined(w, m))
  {
    hide Span, Tagged;
  }

  lemma ImaginedIsExact(w: World, m: seq<nat>)
    requires Exact(w) && w.flight.Idle? && Bounded(w.cores, m)
    ensures Exact(Imagined(w, m)) && SameAgent(Imagined(w, m), w) && Imagined(w, m).seen == m
  {
    ImaginedHub(w, m);
    ImaginedWellFormed(w, m);
    hide OfEpoch, OfCore, Span, HubExact, PastExact, AckedExact, WellFormed;
  }

  /** The next heartbeat is exact in every state the agent cannot tell from its own, with the
      panel having processed any of the heartbeats it noted, if and only if it follows the
      rule. */
  lemma SafeToSendIff(w: World, sent: seq<seq<nat>>)
    requires Exact(w) && w.flight.Idle? && Fits(w) && forall m :: m in sent ==> Bounded(w.cores, m)
    ensures SafeToSend(w.cores, sent) <==>
      forall v :: Exact(v) && SameAgent(v, w) && v.seen in sent ==> Complete(Step(Step(v, Send), Process))
  {
    hide Exact, Complete, Step, Imagined, NewsLast;
    if SafeToSend(w.cores, sent) {
      forall v | Exact(v) && SameAgent(v, w) && v.seen in sent ensures Complete(Step(Step(v, Send), Process)) {
        SameFits(v, w);
        ResendExactIff(v);
      }
    } else {
      var m :| m in sent && !NewsLast(w.cores, m, 0);
      ImaginedIsExact(w, m);
      var v := Imagined(w, m);
      SameFits(v, w);
      ResendExactIff(v);
    }
  }

  lemma SameFits(v: World, w: World)
    requires Exact(v) && Exact(w) && SameAgent(v, w) && Fits(w)
    ensures Bounded(v.cores, v.seen) && WellFormed(v) && Fits(v)
  {
    hide Span;
  }
}
